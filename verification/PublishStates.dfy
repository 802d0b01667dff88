/**
 From which states the promise of definition before point can still be kept, and what that says
 about calls that fail. For a coherent configuration the states are exactly the covered ones: all
 keys in the cache have their definitions in the log. A failed send, a rejected call or a send that
 is overtaken does damage exactly if it leaves a key without one.
 */
module PublishStates {
  import opened Keys
  import opened Text
  import opened Schema
  import opened TopicSettings
  import opened PublishSpec
  import opened PublishForms
  import opened PublishBatch
  import opened PublishMeaning
  import opened PublishRuns

  /** No run from here that does no further harm breaks the promise. */
  ghost predicate Safe(w: World, cfg: Config, idents: set<Ident>, s: State) {
    forall es :: HarmlessRun(w, cfg, idents, s, es) ==> DefinitionFirst(Run(w, cfg, s, es).log)
  }

  // ---- Covered states are the safe ones --------------------------------------------------

  lemma {:induction false} RunOne(w: World, cfg: Config, idents: set<Ident>, s: State, e: Event)
    ensures Run(w, cfg, s, [e]) == Next(w, cfg, s, e)
    ensures HarmlessRun(w, cfg, idents, s, [e]) <==> Harmless(w, cfg, idents, s, e)
  {
    hide Next, Harmless;
    assert [e][..0] == [];
    assert Run(w, cfg, s, []) == s && HarmlessRun(w, cfg, idents, s, []);
  }

  /** Points to be expected, but without a definition: one harmless call brings them about. */
  lemma {:induction false} UncoveredBreaks(w: World, cfg: Config, idents: set<Ident>, s: State, v: Metric, j: nat)
    requires cfg.v2 && j < |cfg.topics| && Expected(w, cfg, idents, s.keys, v, j)
    requires !Defined(w, cfg, s.log, v, cfg.topics[j]) && !OwnEarlier(w, cfg, v, j)
    ensures !Safe(w, cfg, idents, s)
  {
    hide Accepts, PartitionOf, Canon, Sort, WireFor, Sends, KeysOf, Serves, Run, HarmlessRun, Called, AllDeliverable,
         Deliverable, Supports, Defines;
    var n, t, e := |cfg.topics|, cfg.topics[j], Publish([v], Delivered);
    RunOne(w, cfg, idents, s, e);
    SingleCalled(w, cfg, s.keys, v);
    FitFacts(w, cfg, v, j);
    var more := Sends(w, cfg, s.keys, v, n);
    var at := PositionOf(w, cfg, s.keys, v, n, j);
    MessageDefines(w, cfg, s.keys, v, t);
    var log, m := s.log + more, more[at];
    forall q | 0 <= q < |s.log| + at ensures !Supports(log[q], m) {
      assert q < |s.log| ==> log[q] in s.log;
      if q >= |s.log| && Supports(log[q], m) {
        var p := q - |s.log|;
        assert more[..at][p] == log[q];
        var k := SendsPosition(w, cfg, s.keys, v, j, p);
        MessageServes(w, cfg, s.keys, v, k, m, v, j);
      }
    }
    assert log[|s.log| + at] == m && !Explained(log, |s.log| + at);
    assert Run(w, cfg, s, [e]).log == log;
    assert Harmless(w, cfg, idents, s, e);
  }

  /**
   For every state: the promise is kept in all harmless runs from it if and only if its log is in
   order and covers every key in the cache.
   */
  lemma {:induction false} SafeIff(w: World, cfg: Config, idents: set<Ident>, s: State)
    requires cfg.v2 && Coherent(w, cfg) && CollisionFree(w, idents)
    ensures Safe(w, cfg, idents, s) <==> DefinitionFirst(s.log) && Covered(w, cfg, idents, s.keys, s.log)
  {
    hide Coherent, CollisionFree, Expected, Defined, OwnEarlier, DefinitionFirst, HarmlessRun, Run;
    StayingIsHarmless(w, cfg, idents, s);
    if Covered(w, cfg, idents, s.keys, s.log) {
      forall es | DefinitionFirst(s.log) && HarmlessRun(w, cfg, idents, s, es)
        ensures DefinitionFirst(Run(w, cfg, s, es).log)
      {
        RunKeeps(w, cfg, idents, s, es);
      }
    } else {
      var v, j :| 0 <= j < |cfg.topics| && Expected(w, cfg, idents, s.keys, v, j)
                  && !Defined(w, cfg, s.log, v, cfg.topics[j]) && !OwnEarlier(w, cfg, v, j);
      UncoveredBreaks(w, cfg, idents, s, v, j);
    }
  }

  lemma {:induction false} StayingIsHarmless(w: World, cfg: Config, idents: set<Ident>, s: State)
    ensures HarmlessRun(w, cfg, idents, s, []) && Run(w, cfg, s, []) == s
  {
  }

  // ---- Failed sends ----------------------------------------------------------------------

  /** The log has a full metric of the same topic and partition that names what `x` names. */
  predicate Redefines(cfg: Config, y: Message, x: Message) {
    && y.topic == x.topic && y.partition == x.partition && y.wire.Full? && x.wire.Full?
    && SameId(cfg, y.wire.metric.id, x.wire.metric.id)
  }

  ghost predicate Redefined(cfg: Config, log: seq<Message>, x: Message) {
    exists y :: y in log && Redefines(cfg, y, x)
  }

  predicate Lost(o: Outcome, i: nat) {
    o.Failed? && i !in o.arrived
  }

  /** Every full metric that was lost is in the log all the same. */
  ghost predicate LossesRedefined(cfg: Config, log: seq<Message>, ms: seq<Message>, o: Outcome) {
    forall i :: 0 <= i < |ms| && ms[i].wire.Full? && Lost(o, i) ==> Redefined(cfg, log, ms[i])
  }

  /** Every message of the simple form is some metric's, for some topic that takes it. */
  lemma {:induction false} PayloadMember(w: World, cfg: Config, keys: set<MKey>, ds: seq<Metric>, x: Message)
    returns (d: Metric, before: set<MKey>, k: nat)
    requires BatchDeliverable(w, cfg, ds) && x in Payload(w, cfg, keys, ds)
    ensures d in ds && k < |cfg.topics| && Takes(cfg.topics[k], d) && Deliverable(w, cfg, d, cfg.topics[k])
    ensures x == MessageFor(w, cfg, before, d, cfg.topics[k])
    ensures KeysOf(w, cfg, d, |cfg.topics|) <= Seen(w, cfg, keys, ds)
  {
    hide Accepts, PartitionOf, Canon, Deliverable, MessageFor, Sends, KeysOf, AllDeliverable;
    var init, last := ds[..|ds| - 1], ds[|ds| - 1];
    if x in Payload(w, cfg, keys, init) {
      d, before, k := PayloadMember(w, cfg, keys, init, x);
    } else {
      d, before := last, Seen(w, cfg, keys, init);
      var more := Sends(w, cfg, before, d, |cfg.topics|);
      var i :| 0 <= i < |more| && more[i] == x;
      k := SendsPosition(w, cfg, before, d, |cfg.topics|, i);
    }
  }

  /** In a covered state a metric whose keys were all seen has its definition for every topic that takes it. */
  lemma {:induction false} CoveredDefines(w: World, cfg: Config, idents: set<Ident>, keys: set<MKey>,
                                          log: seq<Message>, d: Metric, k: nat)
    requires cfg.v2 && Covered(w, cfg, idents, keys, log) && Fit(w, cfg, d) && IdentOf(d) in idents
    requires KeysOf(w, cfg, d, |cfg.topics|) <= keys && k < |cfg.topics| && Takes(cfg.topics[k], d)
    ensures Defined(w, cfg, log, d, cfg.topics[k])
    decreases k
  {
    hide Accepts, PartitionOf, Canon, Serves, Defined, KeysOf, Orgs, AllDeliverable;
    var n, e := |cfg.topics|, Effective(cfg.topics[k], d.org);
    FitFacts(w, cfg, d, k);
    OrgsMember(cfg, d, n, e);
    KeysMember(w, cfg, d, n, KeyOf(w, d, e));
    assert Expected(w, cfg, idents, keys, d, k);
    if !Defined(w, cfg, log, d, cfg.topics[k]) {
      var h :| 0 <= h < k && Takes(cfg.topics[h], d) && Serves(w, cfg, d, h, d, k);
      CoveredDefines(w, cfg, idents, keys, log, d, h);
      DefinedServes(w, cfg, log, d, h, d, k);
    }
  }

  lemma {:induction false} BothDefine(w: World, cfg: Config, keys: set<MKey>, d: Metric, t: Topic, y: Message)
    requires cfg.v2 && Deliverable(w, cfg, d, t) && MessageFor(w, cfg, keys, d, t).wire.Full? &&
             Defines(w, cfg, y, d, t)
    ensures Redefines(cfg, y, MessageFor(w, cfg, keys, d, t))
  {
    hide PartitionOf, Sort;
    MessageDefines(w, cfg, keys, d, t);
  }

  lemma {:induction false} CoveredRedefines(w: World, cfg: Config, idents: set<Ident>, keys: set<MKey>,
                                            ds: seq<Metric>, log: seq<Message>, x: Message)
    requires cfg.v2 && BatchDeliverable(w, cfg, ds) && forall d :: d in ds ==> Fit(w, cfg, d) && IdentOf(d) in idents
    requires Covered(w, cfg, idents, Seen(w, cfg, keys, ds), log)
    requires x in Payload(w, cfg, keys, ds) && x.wire.Full?
    ensures Redefined(cfg, log, x)
  {
    hide Fit, Covered, Payload, Seen, KeysOf, Defines, Redefines, BatchDeliverable, Deliverable, MessageFor;
    var d, before, k := PayloadMember(w, cfg, keys, ds, x);
    CoveredDefines(w, cfg, idents, Seen(w, cfg, keys, ds), log, d, k);
    var y :| y in log && Defines(w, cfg, y, d, cfg.topics[k]);
    BothDefine(w, cfg, before, d, cfg.topics[k], y);
  }

  lemma {:induction false} RedefinedCovers(w: World, cfg: Config, idents: set<Ident>, keys: set<MKey>,
                                           log: seq<Message>, ms: seq<Message>, o: Outcome)
    requires cfg.v2 && Covered(w, cfg, idents, keys, log + ms)
    requires LossesRedefined(cfg, log + Acknowledged(ms, o), ms, o)
    ensures Covered(w, cfg, idents, keys, log + Acknowledged(ms, o))
  {
    hide Expected, OwnEarlier, Acknowledged, PartitionOf, Canon;
    var now := log + Acknowledged(ms, o);
    forall v, j | 0 <= j < |cfg.topics| && Expected(w, cfg, idents, keys, v, j) &&
           Defined(w, cfg, log + ms, v, cfg.topics[j])
      ensures Defined(w, cfg, now, v, cfg.topics[j])
    {
      var x :| x in log + ms && Defines(w, cfg, x, v, cfg.topics[j]);
      AcknowledgedMember(ms, o, x);
      if x !in now {
        var i :| 0 <= i < |ms| && ms[i] == x;
        assert Lost(o, i);
        var y :| y in now && Redefines(cfg, y, x);
        assert Defines(w, cfg, y, v, cfg.topics[j]);
      }
    }
  }

  /**
   A call that gets through, in any covered state: the next state is covered if and only if every
   full metric that was lost has its definition in the log all the same.
   */
  lemma {:induction false} SendStaysCoveredIff(w: World, cfg: Config, idents: set<Ident>, s: State, ms: seq<Metric>,
                                               o: Outcome)
    requires cfg.v2 && Coherent(w, cfg) && CollisionFree(w, idents)
    requires Covered(w, cfg, idents, s.keys, s.log) && DefinitionFirst(s.log)
    requires AllPassing(w, cfg, ms) && Known(w, cfg, idents, ms)
    ensures var t := Next(w, cfg, s, Publish(ms, o));
            Covered(w, cfg, idents, t.keys, t.log) <==>
            LossesRedefined(cfg, t.log, Called(w, cfg, s.keys, ms).st.payload, o)
  {
    hide Metrics, Consistent, Filled, Covered, DefinitionFirst, Coherent, CollisionFree, Acknowledged, LossesRedefined,
         Seen, Payload, BatchDeliverable, AllPassing, CallTouches, IdentOf;
    CalledKeys(w, cfg, s.keys, ms);
    var r, t := Called(w, cfg, s.keys, ms).st, Next(w, cfg, s, Publish(ms, o));
    var b: Batch<nat>, objs: seq<nat> := Batch(s.keys, [], Named(ms)), Indices(|ms|);
    KnownNamed(w, cfg, idents, ms);
    if LossesRedefined(cfg, t.log, r.payload, o) {
      EverythingArrives(r.payload);
      PublishKeeps(w, cfg, idents, b, objs, s.log, Delivered);
      RedefinedCovers(w, cfg, idents, r.keys, s.log, r.payload, o);
    }
    if Covered(w, cfg, idents, t.keys, t.log) {
      MetricsMean(w, cfg, b, objs, |ms|);
      var ds := AllFilled(w, cfg, b.vals, objs, |ms|);
      assert [] + Payload(w, cfg, s.keys, ds) == Payload(w, cfg, s.keys, ds);
      ReadyFit(w, cfg, idents, ms, ds);
      forall i | 0 <= i < |r.payload| && r.payload[i].wire.Full? ensures Redefined(cfg, t.log, r.payload[i]) {
        CoveredRedefines(w, cfg, idents, s.keys, ds, t.log, r.payload[i]);
      }
      AllRedefined(cfg, t.log, r.payload, o);
    }
  }

  lemma {:induction false} EverythingArrives(ms: seq<Message>)
    ensures Acknowledged(ms, Delivered) == ms && KeepsFull(ms, Delivered)
  {
  }

  lemma {:induction false} AllRedefined(cfg: Config, log: seq<Message>, ms: seq<Message>, o: Outcome)
    requires forall i :: 0 <= i < |ms| && ms[i].wire.Full? ==> Redefined(cfg, log, ms[i])
    ensures LossesRedefined(cfg, log, ms, o)
  {
  }

  lemma {:induction false} KnownNamed(w: World, cfg: Config, idents: set<Ident>, ms: seq<Metric>)
    requires Known(w, cfg, idents, ms)
    ensures forall q: nat :: q in Indices(|ms|) ==>
              q in Named(ms) && Consistent(w, cfg, Named(ms)[q]) && IdentOf(Filled(w, cfg, Named(ms)[q])) in idents
  {
    hide Consistent, Filled, IdentOf;
    forall q: nat | q in Indices(|ms|)
      ensures q in Named(ms) && Consistent(w, cfg, Named(ms)[q]) && IdentOf(Filled(w, cfg, Named(ms)[q])) in idents
    {
      assert ms[q] in ms;
    }
  }

  lemma {:induction false} ReadyFit(w: World, cfg: Config, idents: set<Ident>, ms: seq<Metric>, ds: seq<Metric>)
    requires Known(w, cfg, idents, ms) && BatchDeliverable(w, cfg, ds) && |ds| == |ms|
    requires forall i :: 0 <= i < |ms| ==> ds[i] == Filled(w, cfg, ms[i])
    ensures forall d :: d in ds ==> Fit(w, cfg, d) && IdentOf(d) in idents
  {
    hide Filled, IdentOf, BatchDeliverable, AllDeliverable;
    BatchDeliverableAll(w, cfg, ds);
    forall d | d in ds ensures Fit(w, cfg, d) && IdentOf(d) in idents {
      var i :| 0 <= i < |ds| && ds[i] == d;
      assert ms[i] in ms;
      FilledCanonical(w, cfg, ms[i]);
    }
  }

  /** So the promise can be kept after a send exactly if that is so and what arrived is in order. */
  lemma {:induction false} SafeAfterSendIff(w: World, cfg: Config, idents: set<Ident>, s: State, ms: seq<Metric>,
                                            o: Outcome)
    requires cfg.v2 && Coherent(w, cfg) && CollisionFree(w, idents)
    requires Covered(w, cfg, idents, s.keys, s.log) && DefinitionFirst(s.log)
    requires AllPassing(w, cfg, ms) && Known(w, cfg, idents, ms)
    ensures var t := Next(w, cfg, s, Publish(ms, o));
            Safe(w, cfg, idents, t) <==>
            DefinitionFirst(t.log) && LossesRedefined(cfg, t.log, Called(w, cfg, s.keys, ms).st.payload, o)
  {
    hide Coherent, CollisionFree, Covered, DefinitionFirst, AllPassing, Known, Next, Safe, LossesRedefined, Called;
    SendStaysCoveredIff(w, cfg, idents, s, ms, o);
    SafeIff(w, cfg, idents, Next(w, cfg, s, Publish(ms, o)));
  }

  // ---- Rejected calls --------------------------------------------------------------------

  /** Wherever points with this key are to be expected, their definition is in the log. */
  ghost predicate KeyCovered(w: World, cfg: Config, idents: set<Ident>, log: seq<Message>, key: MKey)
    requires cfg.v2
  {
    Covered(w, cfg, idents, {key}, log)
  }

  lemma {:induction false} CoveredByKey(w: World, cfg: Config, idents: set<Ident>, keys: set<MKey>, log: seq<Message>)
    requires cfg.v2
    ensures Covered(w, cfg, idents, keys, log) <==> forall key :: key in keys ==> KeyCovered(w, cfg, idents, log, key)
  {
    hide Defined, OwnEarlier, Fit, Accepts, IdentOf;
    if Covered(w, cfg, idents, keys, log) {
      forall key | key in keys ensures KeyCovered(w, cfg, idents, log, key) {
        FewerKeysCovered(w, cfg, idents, keys, {key}, log);
      }
    }
    if forall key :: key in keys ==> KeyCovered(w, cfg, idents, log, key) {
      forall v, j | 0 <= j < |cfg.topics| && Expected(w, cfg, idents, keys, v, j)
        ensures Defined(w, cfg, log, v, cfg.topics[j]) || OwnEarlier(w, cfg, v, j)
      {
        var key := KeyOf(w, v, Effective(cfg.topics[j], v.org));
        assert KeyCovered(w, cfg, idents, log, key) && Expected(w, cfg, idents, {key}, v, j);
      }
    }
  }

  /**
   A rejected call, in any safe state: the next state is safe if and only if every key that the
   call's metrics touch until the first error has its definition in the log.
   */
  lemma {:induction false} SafeAfterRejectionIff(w: World, cfg: Config, idents: set<Ident>, s: State, ms: seq<Metric>,
                                                 o: Outcome)
    requires cfg.v2 && Coherent(w, cfg) && CollisionFree(w, idents)
    requires Covered(w, cfg, idents, s.keys, s.log) && DefinitionFirst(s.log) && !AllPassing(w, cfg, ms)
    ensures Safe(w, cfg, idents, Next(w, cfg, s, Publish(ms, o))) <==>
            forall key :: key in CallTouches(w, cfg, ms) ==> KeyCovered(w, cfg, idents, s.log, key)
  {
    hide Coherent, CollisionFree, Covered, KeyCovered, DefinitionFirst, AllPassing, CallTouches, Called, Safe;
    CalledKeys(w, cfg, s.keys, ms);
    var t := Next(w, cfg, s, Publish(ms, o));
    CoveredByKey(w, cfg, idents, s.keys, s.log);
    CoveredByKey(w, cfg, idents, t.keys, s.log);
    SafeIff(w, cfg, idents, t);
  }

  // ---- Overtaken sends -------------------------------------------------------------------

  lemma {:induction false} NothingArrives(ms: seq<Message>)
    ensures Acknowledged(ms, Failed({})) == []
  {
    if ms != [] {
      NothingArrives(ms[..|ms| - 1]);
    }
  }

  /**
   Between the loops of a call and its send, others may send: that is safe if and only if every full
   metric the call has yet to send is in the log already.
   */
  lemma {:induction false} OvertakingSafeIff(w: World, cfg: Config, idents: set<Ident>, s: State, ms: seq<Metric>)
    requires cfg.v2 && Coherent(w, cfg) && CollisionFree(w, idents)
    requires Covered(w, cfg, idents, s.keys, s.log) && DefinitionFirst(s.log)
    requires AllPassing(w, cfg, ms) && Known(w, cfg, idents, ms)
    ensures var r := Called(w, cfg, s.keys, ms).st;
            Safe(w, cfg, idents, s.(keys := r.keys)) <==>
            forall i :: 0 <= i < |r.payload| && r.payload[i].wire.Full? ==> Redefined(cfg, s.log, r.payload[i])
  {
    hide Coherent, CollisionFree, Covered, DefinitionFirst, AllPassing, Known, Safe, Called, Redefined, CallTouches,
         Acknowledged;
    var r := Called(w, cfg, s.keys, ms).st;
    CalledKeys(w, cfg, s.keys, ms);
    NothingArrives(r.payload);
    assert s.log + [] == s.log;
    assert Next(w, cfg, s, Publish(ms, Failed({}))) == s.(keys := r.keys);
    SafeAfterSendIff(w, cfg, idents, s, ms, Failed({}));
  }
}
