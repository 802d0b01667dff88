/**
 Runs of publishing and clearing. A consumer can only make sense of a point if a full metric for the
 same key came earlier on the same topic and partition. The key cache is shared by all topics and
 remembers keys whether or not their metrics arrived, so whether that holds depends on how topics
 filter and rewrite organisations, and on what becomes of calls that fail.
 */
module PublishRuns {
  import opened Keys
  import opened Text
  import opened Schema
  import opened TopicSettings
  import opened PublishSpec
  import opened PublishForms
  import opened PublishBatch
  import opened PublishMeaning
  import KC = KeyCache

  datatype State = State(keys: set<MKey>, idx: Byte, log: seq<Message>)

  datatype Event = Publish(ms: seq<Metric>, outcome: Outcome) | Tick

  const EMPTY := State({}, 0, [])

  /**
   One clearing tick, or one call of `Publish`: the log grows by what arrives. A call that is
   rejected sends nothing, but the keys touched until then stay touched.
   */
  ghost function Next(w: World, cfg: Config, s: State, e: Event): State {
    match e
    case Tick => s.(keys := KC.Cleared(s.keys, s.idx), idx := KC.NextShard(s.idx))
    case Publish(ms, outcome) =>
      var r := Called(w, cfg, s.keys, ms);
      State(r.st.keys, s.idx, if r.Go? then s.log + Acknowledged(r.st.payload, outcome) else s.log)
  }

  ghost function Run(w: World, cfg: Config, s: State, es: seq<Event>): State {
    if es == [] then s else Next(w, cfg, Run(w, cfg, s, es[..|es| - 1]), es[|es| - 1])
  }

  // ---- The promise -----------------------------------------------------------------------

  /** The full metric `m` tells a consumer what `wire` is a point of. */
  predicate Describes(m: Metric, wire: Wire) {
    match wire
    case Full(_) => false
    case Point(k, _, _) => m.id == Id(k.org, k.key)
    case PointNoOrg(k, _, _) => m.id.Id? && m.id.key == k
  }

  predicate Supports(x: Message, m: Message) {
    x.topic == m.topic && x.partition == m.partition && x.wire.Full? && Describes(x.wire.metric, m.wire)
  }

  /** Message `i` of the log is not a point, or an earlier message of its topic and partition describes it. */
  ghost predicate Explained(log: seq<Message>, i: nat)
    requires i < |log|
  {
    log[i].wire.Full? || exists j :: 0 <= j < i && Supports(log[j], log[i])
  }

  ghost predicate DefinitionFirst(log: seq<Message>) {
    forall i :: 0 <= i < |log| ==> Explained(log, i)
  }

  lemma {:induction false} ExplainedGrows(log: seq<Message>, more: seq<Message>, i: nat)
    requires i < |log|
    ensures Explained(log + more, i) <==> Explained(log, i)
  {
    var all := log + more;
    assert forall j :: 0 <= j <= i ==> all[j] == log[j];
  }

  lemma {:induction false} ExplainedBy(log: seq<Message>, x: Message, more: seq<Message>, i: nat)
    requires i < |more| && (x in log || x in more[..i]) && Supports(x, more[i])
    ensures Explained(log + more, |log| + i)
  {
    var all := log + more;
    if x in log {
      var j :| 0 <= j < |log| && log[j] == x;
      assert all[j] == x;
    } else {
      var j :| 0 <= j < i && more[j] == x;
      assert all[|log| + j] == x;
    }
  }

  // ---- The condition ---------------------------------------------------------------------

  /** The metrics that a call can get through: with a consistent id and an interval, and deliverable. */
  predicate Fit(w: World, cfg: Config, v: Metric) {
    Canonical(w, v) && Deduce(w, cfg, v) == Some(v) && AllDeliverable(w, cfg, v, |cfg.topics|)
  }

  /** For metrics of one identity: `d` in full on topic number `k` describes a point of `v` on topic number `j`. */
  predicate Serves(w: World, cfg: Config, d: Metric, k: nat, v: Metric, j: nat)
    requires k < |cfg.topics| && j < |cfg.topics|
  {
    var t, u := cfg.topics[k], cfg.topics[j];
    && t.name == u.name
    && PartitionOf(w, t, AsSeenBy(w, d, t)) == PartitionOf(w, u, AsSeenBy(w, v, u))
    && (Effective(t, d.org) == Effective(u, v.org) || !cfg.v2Org)
  }

  /** An earlier topic of the same name gets `v` too, where it serves. */
  predicate OwnEarlier(w: World, cfg: Config, v: Metric, j: nat)
    requires j < |cfg.topics|
  {
    exists k :: 0 <= k < j && Takes(cfg.topics[k], v) && Serves(w, cfg, v, k, v, j)
  }

  predicate Served(w: World, cfg: Config, d: Metric, v: Metric, j: nat)
    requires j < |cfg.topics|
  {
    exists k :: 0 <= k < |cfg.topics| && Takes(cfg.topics[k], d) && Serves(w, cfg, d, k, v, j)
  }

  /**
   Metrics `d` and `v` of one identity have the same key on their way to topics `i` and `j`, but
   nothing that is sent for `d` describes the points of `v` on topic `j`.
   */
  predicate Clash(w: World, cfg: Config, i: nat, j: nat, d: Metric, v: Metric) {
    && i < |cfg.topics| && j < |cfg.topics|
    && Fit(w, cfg, d) && Fit(w, cfg, v) && IdentOf(d) == IdentOf(v)
    && Takes(cfg.topics[i], d) && Takes(cfg.topics[j], v)
    && Effective(cfg.topics[i], d.org) == Effective(cfg.topics[j], v.org)
    && !Served(w, cfg, d, v, j) && !OwnEarlier(w, cfg, v, j)
  }

  ghost predicate Coherent(w: World, cfg: Config) {
    forall i: nat, j: nat, d, v :: !Clash(w, cfg, i, j, d, v)
  }

  /** Metrics with the same identity are the same to a topic that sees them as one organisation. */
  lemma {:induction false} SameIdentity(w: World, t: Topic, v: Metric, d: Metric)
    requires IdentOf(v) == IdentOf(d)
    ensures AsSeenBy(w, v, t).id == Id(Effective(t, v.org), w.hash(IdentOf(d)))
    ensures Effective(t, v.org) == Effective(t, d.org) || !t.method_.ByOrg? ==>
              PartitionOf(w, t, AsSeenBy(w, v, t)) == PartitionOf(w, t, AsSeenBy(w, d, t))
  {
    CanonFacts(w, v);
    CanonFacts(w, d);
  }

  /** Without rewriting the condition always holds. */
  lemma {:induction false} NoRewriteCoherent(w: World, cfg: Config)
    requires forall t :: t in cfg.topics ==> t.rewrite.source == t.rewrite.target
    ensures Coherent(w, cfg)
  {
    hide PartitionOf, Canon, Sort, AllDeliverable;
    forall i: nat, j: nat, d, v ensures !Clash(w, cfg, i, j, d, v) {
      if i < |cfg.topics| && j < |cfg.topics| && IdentOf(d) == IdentOf(v) && Takes(cfg.topics[j], v)
         && Effective(cfg.topics[i], d.org) == Effective(cfg.topics[j], v.org)
      {
        assert cfg.topics[i] in cfg.topics && cfg.topics[j] in cfg.topics;
        SameIdentity(w, cfg.topics[j], v, d);
        assert Takes(cfg.topics[j], d) && Serves(w, cfg, d, j, v, j);
      }
    }
  }

  // ---- Runs that lose no definition ------------------------------------------------------

  ghost predicate CollisionFree(w: World, idents: set<Ident>) {
    forall a, b :: a in idents && b in idents && w.hash(a) == w.hash(b) ==> a == b
  }

  /** All full metrics of the payload arrive. */
  predicate KeepsFull(ms: seq<Message>, o: Outcome) {
    o.Delivered? || forall i :: 0 <= i < |ms| && ms[i].wire.Full? ==> i in o.arrived
  }

  /**
   A call does no harm if it gets through with consistent metrics and all its full metrics arrive,
   or if it is rejected before it touches a new key.
   */
  ghost predicate Harmless(w: World, cfg: Config, idents: set<Ident>, s: State, e: Event) {
    e.Publish? ==>
      var r := Called(w, cfg, s.keys, e.ms);
      if r.Go? then Known(w, cfg, idents, e.ms) && KeepsFull(r.st.payload, e.outcome) else r.st.keys == s.keys
  }

  predicate Known(w: World, cfg: Config, idents: set<Ident>, ms: seq<Metric>) {
    forall m :: m in ms ==> Consistent(w, cfg, m) && IdentOf(Filled(w, cfg, m)) in idents
  }

  ghost predicate HarmlessRun(w: World, cfg: Config, idents: set<Ident>, s: State, es: seq<Event>) {
    es == [] ||
    (HarmlessRun(w, cfg, idents, s, es[..|es| - 1]) &&
        Harmless(w, cfg, idents, Run(w, cfg, s, es[..|es| - 1]), es[|es| - 1]))
  }

  // ---- Sufficiency -----------------------------------------------------------------------

  predicate SameId(cfg: Config, a: MetricId, b: MetricId) {
    if cfg.v2Org then a == b else a.Id? && b.Id? && a.key == b.key
  }

  predicate Defines(w: World, cfg: Config, x: Message, v: Metric, t: Topic) {
    && x.topic == t.name && x.wire.Full? && SameId(cfg, x.wire.metric.id, AsSeenBy(w, v, t).id)
    && Some(x.partition) == PartitionOf(w, t, AsSeenBy(w, v, t))
  }

  /** The log has a full metric that describes points of `v` on topic `t`. */
  ghost predicate Defined(w: World, cfg: Config, log: seq<Message>, v: Metric, t: Topic) {
    exists x :: x in log && Defines(w, cfg, x, v, t)
  }

  /** Points of `v` on topic number `j` are to be expected. */
  predicate Expected(w: World, cfg: Config, idents: set<Ident>, keys: set<MKey>, v: Metric, j: nat)
    requires j < |cfg.topics| && cfg.v2
  {
    && Fit(w, cfg, v) && IdentOf(v) in idents && Takes(cfg.topics[j], v)
    && OrgFits(Effective(cfg.topics[j], v.org)) && KeyOf(w, v, Effective(cfg.topics[j], v.org)) in keys
  }

  /** Whatever may be sent as a point has its full metric in the log, or goes to an earlier topic that serves. */
  ghost predicate Covered(w: World, cfg: Config, idents: set<Ident>, keys: set<MKey>, log: seq<Message>)
    requires cfg.v2
  {
    forall v, j :: 0 <= j < |cfg.topics| && Expected(w, cfg, idents, keys, v, j) ==>
      Defined(w, cfg, log, v, cfg.topics[j]) || OwnEarlier(w, cfg, v, j)
  }

  lemma {:induction false} DefinedGrows(w: World, cfg: Config, log: seq<Message>, all: seq<Message>, v: Metric,
                                        t: Topic)
    requires Defined(w, cfg, log, v, t) && forall x :: x in log ==> x in all
    ensures Defined(w, cfg, all, v, t)
  {
    hide Defines;
  }

  lemma {:induction false} DefinedServes(w: World, cfg: Config, log: seq<Message>, d: Metric, k: nat, v: Metric, j: nat)
    requires k < |cfg.topics| && j < |cfg.topics| && IdentOf(d) == IdentOf(v)
    requires Defined(w, cfg, log, d, cfg.topics[k]) && Serves(w, cfg, d, k, v, j)
    ensures Defined(w, cfg, log, v, cfg.topics[j])
  {
    hide PartitionOf, Canon, Sort;
    var x :| x in log && Defines(w, cfg, x, d, cfg.topics[k]);
    SameIdentity(w, cfg.topics[k], d, v);
    SameIdentity(w, cfg.topics[j], v, v);
    assert Defines(w, cfg, x, v, cfg.topics[j]);
  }

  lemma {:induction false} FitFacts(w: World, cfg: Config, d: Metric, k: nat)
    requires cfg.v2 && Fit(w, cfg, d) && k < |cfg.topics| && Takes(cfg.topics[k], d)
    ensures Deliverable(w, cfg, d, cfg.topics[k]) && OrgFits(Effective(cfg.topics[k], d.org))
    ensures forall n: nat :: n <= |cfg.topics| ==> AllDeliverable(w, cfg, d, n)
  {
    hide Accepts, PartitionOf, Canon;
  }

  /** The messages of the first `k` topics are the beginning of those of the first `n`. */
  lemma {:induction false} SendsPrefix(w: World, cfg: Config, keys: set<MKey>, d: Metric, k: nat, n: nat)
    requires k <= n <= |cfg.topics| && AllDeliverable(w, cfg, d, n) && AllDeliverable(w, cfg, d, k)
    ensures Sends(w, cfg, keys, d, k) <= Sends(w, cfg, keys, d, n)
  {
    hide Accepts, Deliverable, MessageFor;
    if k < n {
      SendsPrefix(w, cfg, keys, d, k, n - 1);
    }
  }

  /** Message number `i` belongs to the topic before which there are `i` messages. */
  lemma {:induction false} SendsPosition(w: World, cfg: Config, keys: set<MKey>, d: Metric, n: nat,
                                         i: nat) returns (k: nat)
    requires n <= |cfg.topics| && AllDeliverable(w, cfg, d, n) && i < |Sends(w, cfg, keys, d, n)|
    ensures k < n && Takes(cfg.topics[k], d) && Deliverable(w, cfg, d, cfg.topics[k]) && AllDeliverable(w, cfg, d, k)
    ensures Sends(w, cfg, keys, d, n)[i] == MessageFor(w, cfg, keys, d, cfg.topics[k])
    ensures Sends(w, cfg, keys, d, k) == Sends(w, cfg, keys, d, n)[..i]
  {
    hide Accepts, Deliverable, MessageFor;
    if i < |Sends(w, cfg, keys, d, n - 1)| {
      k := SendsPosition(w, cfg, keys, d, n - 1, i);
    } else {
      k := n - 1;
    }
  }

  /** The same from the topic's side. */
  lemma {:induction false} PositionOf(w: World, cfg: Config, keys: set<MKey>, d: Metric, n: nat,
                                      k: nat) returns (i: nat)
    requires k < n <= |cfg.topics| && AllDeliverable(w, cfg, d, n) && AllDeliverable(w, cfg, d, k) &&
             Takes(cfg.topics[k], d)
    ensures i < |Sends(w, cfg, keys, d, n)| && Deliverable(w, cfg, d, cfg.topics[k])
    ensures Sends(w, cfg, keys, d, n)[i] == MessageFor(w, cfg, keys, d, cfg.topics[k])
    ensures Sends(w, cfg, keys, d, k) == Sends(w, cfg, keys, d, n)[..i]
  {
    hide Accepts, Deliverable, MessageFor;
    if k < n - 1 {
      i := PositionOf(w, cfg, keys, d, n - 1, k);
    } else {
      i := |Sends(w, cfg, keys, d, k)|;
    }
  }

  lemma {:induction false} MessageDefines(w: World, cfg: Config, keys: set<MKey>, d: Metric, t: Topic)
    requires cfg.v2 && Deliverable(w, cfg, d, t)
    ensures var m := MessageFor(w, cfg, keys, d, t);
            && (m.wire.Full? <==> KeyOf(w, d, Effective(t, d.org)) !in keys)
            && (m.wire.Full? ==> Defines(w, cfg, m, d, t))
            && (!m.wire.Full? ==> forall x :: Supports(x, m) <==> Defines(w, cfg, x, d, t))
  {
    hide PartitionOf, Sort;
    CanonFacts(w, d);
  }

  /** Whatever topic gets `d`: by the time its message is sent there is a full metric that describes it. */
  lemma {:induction false} FullFor(w: World, cfg: Config, idents: set<Ident>, keys: set<MKey>, log: seq<Message>,
                                   d: Metric, k: nat)
    requires cfg.v2 && Fit(w, cfg, d) && IdentOf(d) in idents && Covered(w, cfg, idents, keys, log)
    requires k < |cfg.topics| && Takes(cfg.topics[k], d) && AllDeliverable(w, cfg, d, k) &&
             AllDeliverable(w, cfg, d, k + 1)
    ensures KeyOf(w, d, Effective(cfg.topics[k], d.org)) in keys ==>
              Defined(w, cfg, log + Sends(w, cfg, keys, d, k), d, cfg.topics[k])
    ensures Defined(w, cfg, log + Sends(w, cfg, keys, d, k + 1), d, cfg.topics[k])
    decreases k
  {
    hide Accepts, PartitionOf, Canon, WireFor, Defines, Serves, Sends, AllDeliverable, Deliverable;
    var t := cfg.topics[k];
    FitFacts(w, cfg, d, k);
    MessageDefines(w, cfg, keys, d, t);
    SendsNext(w, cfg, keys, d, k);
    var before, after := log + Sends(w, cfg, keys, d, k), log + Sends(w, cfg, keys, d, k + 1);
    if KeyOf(w, d, Effective(t, d.org)) in keys {
      assert Expected(w, cfg, idents, keys, d, k);
      if Defined(w, cfg, log, d, t) {
        DefinedGrows(w, cfg, log, before, d, t);
      } else {
        var e :| 0 <= e < k && Takes(cfg.topics[e], d) && Serves(w, cfg, d, e, d, k);
        FullFor(w, cfg, idents, keys, log, d, e);
        SendsPrefix(w, cfg, keys, d, e + 1, k);
        DefinedGrows(w, cfg, log + Sends(w, cfg, keys, d, e + 1), before, d, cfg.topics[e]);
        DefinedServes(w, cfg, before, d, e, d, k);
      }
      DefinedGrows(w, cfg, before, after, d, t);
    } else {
      var m := MessageFor(w, cfg, keys, d, t);
      assert after[|before|] == m;
    }
  }

  lemma {:induction false} SendsNext(w: World, cfg: Config, keys: set<MKey>, d: Metric, k: nat)
    requires k < |cfg.topics| && Takes(cfg.topics[k], d) && AllDeliverable(w, cfg, d, k) &&
             AllDeliverable(w, cfg, d, k + 1)
    ensures Deliverable(w, cfg, d, cfg.topics[k])
    ensures Sends(w, cfg, keys, d, k + 1) == Sends(w, cfg, keys, d, k) + [MessageFor(w, cfg, keys, d, cfg.topics[k])]
  {
    hide Accepts, Deliverable, MessageFor;
  }

  /** The points among `d`'s messages are described by what was sent before them. */
  lemma {:induction false} MetricExplained(w: World, cfg: Config, idents: set<Ident>, keys: set<MKey>,
                                           log: seq<Message>, d: Metric, i: nat)
    requires cfg.v2 && Fit(w, cfg, d) && IdentOf(d) in idents && Covered(w, cfg, idents, keys, log)
    requires i < |Sends(w, cfg, keys, d, |cfg.topics|)|
    ensures Explained(log + Sends(w, cfg, keys, d, |cfg.topics|), |log| + i)
  {
    hide Accepts, PartitionOf, Canon, WireFor, Defines, Supports, Sends, Covered, OwnEarlier;
    var n := |cfg.topics|;
    var more := Sends(w, cfg, keys, d, n);
    var k := SendsPosition(w, cfg, keys, d, n, i);
    FitFacts(w, cfg, d, k);
    MessageDefines(w, cfg, keys, d, cfg.topics[k]);
    if !more[i].wire.Full? {
      FullFor(w, cfg, idents, keys, log, d, k);
      var x :| x in log + Sends(w, cfg, keys, d, k) && Defines(w, cfg, x, d, cfg.topics[k]);
      ExplainedBy(log, x, more, i);
    }
  }

  /** A key first seen with `d`: `d`'s own messages bring in the definition wherever it may be needed. */
  lemma {:induction false} FreshKeyCovered(w: World, cfg: Config, idents: set<Ident>, keys: set<MKey>,
                                           log: seq<Message>, d: Metric, v: Metric, j: nat)
    requires cfg.v2 && Coherent(w, cfg) && CollisionFree(w, idents) && j < |cfg.topics|
    requires Fit(w, cfg, d) && IdentOf(d) in idents && Covered(w, cfg, idents, keys, log)
    requires Expected(w, cfg, idents, keys + KeysOf(w, cfg, d, |cfg.topics|), v, j)
    requires KeyOf(w, v, Effective(cfg.topics[j], v.org)) !in keys
    ensures Defined(w, cfg, log + Sends(w, cfg, keys, d, |cfg.topics|), v, cfg.topics[j]) || OwnEarlier(w, cfg, v, j)
  {
    hide Accepts, PartitionOf, Canon, Sort, Defines, Serves, Sends, Covered, KeysOf, Orgs, AllDeliverable;
    var n, e := |cfg.topics|, Effective(cfg.topics[j], v.org);
    KeysMember(w, cfg, d, n, KeyOf(w, v, e));
    OrgsMember(cfg, d, n, e);
    assert IdentOf(v) == IdentOf(d);
    var i :| 0 <= i < n && Takes(cfg.topics[i], d) && Effective(cfg.topics[i], d.org) == e;
    assert !Clash(w, cfg, i, j, d, v);
    if !OwnEarlier(w, cfg, v, j) {
      var k :| 0 <= k < n && Takes(cfg.topics[k], d) && Serves(w, cfg, d, k, v, j);
      FitFacts(w, cfg, d, k);
      FullFor(w, cfg, idents, keys, log, d, k);
      SendsPrefix(w, cfg, keys, d, k + 1, n);
      var all := log + Sends(w, cfg, keys, d, n);
      DefinedGrows(w, cfg, log + Sends(w, cfg, keys, d, k + 1), all, d, cfg.topics[k]);
      DefinedServes(w, cfg, all, d, k, v, j);
    }
  }

  lemma {:induction false} MetricCovered(w: World, cfg: Config, idents: set<Ident>, keys: set<MKey>,
                                         log: seq<Message>, d: Metric)
    requires cfg.v2 && Coherent(w, cfg) && CollisionFree(w, idents)
    requires Fit(w, cfg, d) && IdentOf(d) in idents && Covered(w, cfg, idents, keys, log)
    ensures Covered(w, cfg, idents, keys + KeysOf(w, cfg, d, |cfg.topics|), log + Sends(w, cfg, keys, d, |cfg.topics|))
  {
    hide Accepts, PartitionOf, Canon, Defined, OwnEarlier, Sends, KeysOf, Fit, Coherent, CollisionFree;
    var n := |cfg.topics|;
    assert AllDeliverable(w, cfg, d, n) by { FitDeliverable(w, cfg, d); }
    var keys', all := keys + KeysOf(w, cfg, d, n), log + Sends(w, cfg, keys, d, n);
    forall v, j | 0 <= j < n && Expected(w, cfg, idents, keys', v, j)
      ensures Defined(w, cfg, all, v, cfg.topics[j]) || OwnEarlier(w, cfg, v, j)
    {
      if KeyOf(w, v, Effective(cfg.topics[j], v.org)) in keys {
        assert Expected(w, cfg, idents, keys, v, j);
        if Defined(w, cfg, log, v, cfg.topics[j]) {
          DefinedGrows(w, cfg, log, all, v, cfg.topics[j]);
        }
      } else {
        FreshKeyCovered(w, cfg, idents, keys, log, d, v, j);
      }
    }
  }

  lemma {:induction false} FitDeliverable(w: World, cfg: Config, d: Metric)
    requires Fit(w, cfg, d)
    ensures AllDeliverable(w, cfg, d, |cfg.topics|)
  {
  }

  lemma {:induction false} BatchKeeps(w: World, cfg: Config, idents: set<Ident>, keys: set<MKey>, log: seq<Message>,
                                      ds: seq<Metric>)
    requires cfg.v2 && Coherent(w, cfg) && CollisionFree(w, idents) && BatchDeliverable(w, cfg, ds)
    requires forall d :: d in ds ==> Fit(w, cfg, d) && IdentOf(d) in idents
    requires Covered(w, cfg, idents, keys, log) && DefinitionFirst(log)
    ensures Covered(w, cfg, idents, Seen(w, cfg, keys, ds), log + Payload(w, cfg, keys, ds))
    ensures DefinitionFirst(log + Payload(w, cfg, keys, ds))
  {
    hide Accepts, PartitionOf, Sort, Canon, Covered, Explained, Sends, KeysOf, Fit, Coherent, CollisionFree;
    if ds == [] {
      assert log + Payload(w, cfg, keys, ds) == log;
    } else {
      var init, d := ds[..|ds| - 1], ds[|ds| - 1];
      assert d in ds && forall x :: x in init ==> x in ds;
      BatchKeeps(w, cfg, idents, keys, log, init);
      var seen, sofar := Seen(w, cfg, keys, init), log + Payload(w, cfg, keys, init);
      var more := Sends(w, cfg, seen, d, |cfg.topics|);
      MetricCovered(w, cfg, idents, seen, sofar, d);
      assert log + Payload(w, cfg, keys, ds) == sofar + more;
      forall i | 0 <= i < |sofar + more| ensures Explained(sofar + more, i) {
        if i < |sofar| {
          ExplainedGrows(sofar, more, i);
        } else {
          MetricExplained(w, cfg, idents, seen, sofar, d, i - |sofar|);
        }
      }
    }
  }

  // ---- What arrives ----------------------------------------------------------------------

  /** Losing points only loses nothing that others need. */
  lemma {:induction false} ArrivedKeeps(log: seq<Message>, ms: seq<Message>, o: Outcome)
    requires DefinitionFirst(log + ms) && KeepsFull(ms, o)
    ensures DefinitionFirst(log + Acknowledged(ms, o))
  {
    hide Supports;
    if o.Failed? && ms != [] {
      var init, m := ms[..|ms| - 1], ms[|ms| - 1];
      var arrived := Acknowledged(init, o);
      assert log + ms == log + init + [m];
      forall i | 0 <= i < |log + init| ensures Explained(log + init, i) {
        ExplainedGrows(log + init, [m], i);
      }
      ArrivedKeeps(log, init, o);
      if |ms| - 1 in o.arrived {
        assert log + Acknowledged(ms, o) == log + arrived + [m];
        LastExplained(log, init, m, o);
        forall i | 0 <= i < |log + arrived + [m]| ensures Explained(log + arrived + [m], i) {
          if i < |log + arrived| {
            ExplainedGrows(log + arrived, [m], i);
          }
        }
      } else {
        assert Acknowledged(ms, o) == arrived;
      }
    } else {
      assert Acknowledged(ms, o) == ms;
    }
  }

  lemma {:induction false} LastExplained(log: seq<Message>, init: seq<Message>, m: Message, o: Outcome)
    requires o.Failed? && KeepsFull(init, o) && Explained(log + init + [m], |log + init|)
    ensures Explained(log + Acknowledged(init, o) + [m], |log + Acknowledged(init, o)|)
  {
    hide Acknowledged, Describes;
    var all := log + init + [m];
    if !m.wire.Full? {
      var j :| 0 <= j < |log + init| && Supports(all[j], m);
      var x := all[j];
      var sofar := log + Acknowledged(init, o);
      AcknowledgedMember(init, o, x);
      assert x in sofar;
      ExplainedBy(sofar, x, [m], 0);
    }
  }

  lemma {:induction false} ArrivedCovers(w: World, cfg: Config, idents: set<Ident>, keys: set<MKey>,
                                         log: seq<Message>, ms: seq<Message>, o: Outcome)
    requires cfg.v2 && Covered(w, cfg, idents, keys, log + ms) && KeepsFull(ms, o)
    ensures Covered(w, cfg, idents, keys, log + Acknowledged(ms, o))
  {
    hide Expected, OwnEarlier, Acknowledged, PartitionOf, Canon;
    forall v, j | 0 <= j < |cfg.topics| && Expected(w, cfg, idents, keys, v, j) &&
           Defined(w, cfg, log + ms, v, cfg.topics[j])
      ensures Defined(w, cfg, log + Acknowledged(ms, o), v, cfg.topics[j])
    {
      var x :| x in log + ms && Defines(w, cfg, x, v, cfg.topics[j]);
      AcknowledgedMember(ms, o, x);
      assert x in log + Acknowledged(ms, o);
    }
  }

  // ---- Every run -------------------------------------------------------------------------

  /** One call that gets through, whatever its metrics are called. */
  lemma {:induction false} PublishKeeps<T>(w: World, cfg: Config, idents: set<Ident>, b: Batch<T>, objs: seq<T>,
                                           log: seq<Message>, outcome: Outcome)
    requires cfg.v2 && Coherent(w, cfg) && CollisionFree(w, idents) && b.payload == []
    requires forall o :: o in objs ==>
             o in b.vals && Consistent(w, cfg, b.vals[o]) && IdentOf(Filled(w, cfg, b.vals[o])) in idents
    requires Covered(w, cfg, idents, b.keys, log) && DefinitionFirst(log)
    requires Metrics(w, cfg, b, objs, |objs|).Go? && KeepsFull(Metrics(w, cfg, b, objs, |objs|).st.payload, outcome)
    ensures var r := Metrics(w, cfg, b, objs, |objs|).st;
            var log' := log + Acknowledged(r.payload, outcome);
            Covered(w, cfg, idents, r.keys, log') && DefinitionFirst(log')
  {
    hide Metrics, Canon, Filled, Covered, DefinitionFirst, Coherent, CollisionFree, Seen, Payload, BatchDeliverable,
         KeepsFull, Acknowledged;
    var n := |objs|;
    var ds := AllFilled(w, cfg, b.vals, objs, n);
    MetricsMean(w, cfg, b, objs, n);
    BatchDeliverableAll(w, cfg, ds);
    forall d | d in ds ensures Fit(w, cfg, d) && IdentOf(d) in idents {
      var i :| 0 <= i < n && ds[i] == d;
      assert objs[i] in objs;
      FilledCanonical(w, cfg, b.vals[objs[i]]);
    }
    BatchKeeps(w, cfg, idents, b.keys, log, ds);
    var ms := Payload(w, cfg, b.keys, ds);
    assert [] + ms == ms;
    ArrivedKeeps(log, ms, outcome);
    ArrivedCovers(w, cfg, idents, Seen(w, cfg, b.keys, ds), log, ms, outcome);
  }

  lemma {:induction false} FewerKeysCovered(w: World, cfg: Config, idents: set<Ident>, keys: set<MKey>,
                                            fewer: set<MKey>, log: seq<Message>)
    requires cfg.v2 && Covered(w, cfg, idents, keys, log) && fewer <= keys
    ensures Covered(w, cfg, idents, fewer, log)
  {
    hide Defined, OwnEarlier, Fit, Accepts, Canon;
    forall v, j | 0 <= j < |cfg.topics| && Expected(w, cfg, idents, fewer, v, j)
      ensures Expected(w, cfg, idents, keys, v, j)
    {
    }
  }

  lemma {:induction false} StepKeeps(w: World, cfg: Config, idents: set<Ident>, s: State, e: Event)
    requires cfg.v2 && Coherent(w, cfg) && CollisionFree(w, idents) && Harmless(w, cfg, idents, s, e)
    requires Covered(w, cfg, idents, s.keys, s.log) && DefinitionFirst(s.log)
    ensures var t := Next(w, cfg, s, e); Covered(w, cfg, idents, t.keys, t.log) && DefinitionFirst(t.log)
  {
    hide Metrics, Consistent, Filled, Covered, DefinitionFirst, Coherent, CollisionFree, KeepsFull, Acknowledged;
    match e
    case Tick => FewerKeysCovered(w, cfg, idents, s.keys, KC.Cleared(s.keys, s.idx), s.log);
    case Publish(ms, outcome) =>
      if Called(w, cfg, s.keys, ms).Go? {
        forall o | o in Indices(|ms|)
          ensures o in Named(ms) && Consistent(w, cfg, Named(ms)[o]) && IdentOf(Filled(w, cfg, Named(ms)[o])) in idents
        {
          assert ms[o] in ms;
        }
        PublishKeeps(w, cfg, idents, Batch(s.keys, [], Named(ms)), Indices(|ms|), s.log, outcome);
      }
  }

  lemma {:induction false} RunKeeps(w: World, cfg: Config, idents: set<Ident>, s: State, es: seq<Event>)
    requires cfg.v2 && Coherent(w, cfg) && CollisionFree(w, idents) && HarmlessRun(w, cfg, idents, s, es)
    requires Covered(w, cfg, idents, s.keys, s.log) && DefinitionFirst(s.log)
    ensures var t := Run(w, cfg, s, es); Covered(w, cfg, idents, t.keys, t.log) && DefinitionFirst(t.log)
  {
    hide Coherent, CollisionFree, Harmless, Next, Covered, DefinitionFirst;
    if es != [] {
      RunKeeps(w, cfg, idents, s, es[..|es| - 1]);
      StepKeeps(w, cfg, idents, Run(w, cfg, s, es[..|es| - 1]), es[|es| - 1]);
    }
  }

  lemma {:induction false} EmptyCovered(w: World, cfg: Config, idents: set<Ident>)
    requires cfg.v2
    ensures Covered(w, cfg, idents, EMPTY.keys, EMPTY.log) && DefinitionFirst(EMPTY.log)
  {
  }

  /** Definition before point, in every run that does no harm. */
  ghost predicate AlwaysDefinitionFirst(w: World, cfg: Config) {
    forall idents, es :: CollisionFree(w, idents) && HarmlessRun(w, cfg, idents, EMPTY, es) ==>
      DefinitionFirst(Run(w, cfg, EMPTY, es).log)
  }

  /**
   In a coherent configuration the promise survives failed sends that lose points only, and
   rejected calls that touched no new key.
   */
  lemma {:induction false} CoherentSuffices(w: World, cfg: Config)
    requires cfg.v2 && Coherent(w, cfg)
    ensures AlwaysDefinitionFirst(w, cfg)
  {
    hide Coherent, DefinitionFirst, HarmlessRun, CollisionFree;
    forall idents, es | CollisionFree(w, idents) && HarmlessRun(w, cfg, idents, EMPTY, es)
      ensures DefinitionFirst(Run(w, cfg, EMPTY, es).log)
    {
      EmptyCovered(w, cfg, idents);
      RunKeeps(w, cfg, idents, EMPTY, es);
    }
  }

  // ---- Necessity -------------------------------------------------------------------------

  /** One call with a single metric. */
  lemma {:induction false} SingleCalled(w: World, cfg: Config, keys: set<MKey>, d: Metric)
    requires Fit(w, cfg, d)
    ensures var r := Called(w, cfg, keys, [d]);
            && r.Go? && r.st.keys == keys + KeysOf(w, cfg, d, |cfg.topics|)
            && r.st.payload == Sends(w, cfg, keys, d, |cfg.topics|)
  {
    hide Metrics, Canon, AllDeliverable, Sends, KeysOf;
    var b := Batch(keys, [], Named([d]));
    assert Indices(1) == [0];
    assert forall o :: o in Indices(1) ==> o in b.vals && b.vals[o] == d;
    MetricsMean(w, cfg, b, Indices(1), 1);
    assert AllFilled(w, cfg, b.vals, Indices(1), 1) == [] + [d];
    SnocFacts(w, cfg, keys, [], d);
    EmptyBatch(w, cfg, keys);
    assert [] + ([] + Sends(w, cfg, keys, d, |cfg.topics|)) == Sends(w, cfg, keys, d, |cfg.topics|);
  }

  /** Two calls in a row. */
  lemma {:induction false} RunTwo(w: World, cfg: Config, a: Event, b: Event)
    ensures Run(w, cfg, EMPTY, [a, b]) == Next(w, cfg, Next(w, cfg, EMPTY, a), b)
    ensures Run(w, cfg, EMPTY, [a]) == Next(w, cfg, EMPTY, a)
  {
    hide Next;
    var es := [a, b];
    assert es[..1] == [a] && [a][..0] == [];
    assert Run(w, cfg, EMPTY, []) == EMPTY;
    assert Run(w, cfg, EMPTY, [a]) == Next(w, cfg, EMPTY, a);
  }

  lemma {:induction false} TwoCalls(w: World, cfg: Config, d: Metric, outcome: Outcome, v: Metric)
    requires Fit(w, cfg, d) && Fit(w, cfg, v)
    ensures var n, seen := |cfg.topics|, KeysOf(w, cfg, d, |cfg.topics|);
            Run(w, cfg, EMPTY, [Publish([d], outcome), Publish([v], Delivered)]).log ==
            Acknowledged(Sends(w, cfg, {}, d, n), outcome) + Sends(w, cfg, seen, v, n)
  {
    hide Fit, Canon, Sends, KeysOf, Called;
    FitDeliverable(w, cfg, d);
    FitDeliverable(w, cfg, v);
    var seen := KeysOf(w, cfg, d, |cfg.topics|);
    RunTwo(w, cfg, Publish([d], outcome), Publish([v], Delivered));
    SingleCalled(w, cfg, {}, d);
    assert {} + seen == seen;
    SingleCalled(w, cfg, seen, v);
    var first := Acknowledged(Sends(w, cfg, {}, d, |cfg.topics|), outcome);
    assert [] + first == first;
  }

  lemma {:induction false} MessageServes(w: World, cfg: Config, keys: set<MKey>, d: Metric, k: nat, m: Message,
                                         v: Metric, j: nat)
    requires cfg.v2 && k < |cfg.topics| && j < |cfg.topics| && IdentOf(d) == IdentOf(v)
    requires Deliverable(w, cfg, d, cfg.topics[k]) && Deliverable(w, cfg, v, cfg.topics[j])
    requires Defines(w, cfg, MessageFor(w, cfg, keys, d, cfg.topics[k]), v, cfg.topics[j])
    ensures Serves(w, cfg, d, k, v, j)
  {
    hide PartitionOf, Sort;
    SameIdentity(w, cfg.topics[j], v, d);
    SameIdentity(w, cfg.topics[k], d, d);
  }

  /** The two metrics of a clash, published one after the other. */
  lemma {:induction false} IncoherentRun(w: World, cfg: Config, i: nat, j: nat, d: Metric, v: Metric)
    requires cfg.v2 && Clash(w, cfg, i, j, d, v)
    ensures !DefinitionFirst(Run(w, cfg, EMPTY, [Publish([d], Delivered), Publish([v], Delivered)]).log)
  {
    hide Accepts, PartitionOf, Canon, Sort, WireFor, Sends, KeysOf, Orgs, Serves, Run, AllDeliverable, Deliverable,
         Supports, Defines;
    var n, t, e := |cfg.topics|, cfg.topics[j], Effective(cfg.topics[j], v.org);
    var seen := KeysOf(w, cfg, d, n);
    TwoCalls(w, cfg, d, Delivered, v);
    FitFacts(w, cfg, d, i);
    FitFacts(w, cfg, v, j);
    var first, second := Sends(w, cfg, {}, d, n), Sends(w, cfg, seen, v, n);
    OrgsMember(cfg, d, n, e);
    KeysMember(w, cfg, d, n, KeyOf(w, v, e));
    var at := PositionOf(w, cfg, seen, v, n, j);
    MessageDefines(w, cfg, seen, v, t);
    var log, m := first + second, second[at];
    forall q | 0 <= q < |first| + at ensures !Supports(log[q], m) {
      if Supports(log[q], m) {
        assert Defines(w, cfg, log[q], v, t);
        if q < |first| {
          var k := SendsPosition(w, cfg, {}, d, n, q);
          MessageServes(w, cfg, {}, d, k, m, v, j);
        } else {
          var p := q - |first|;
          assert second[..at][p] == log[q];
          var k := SendsPosition(w, cfg, seen, v, j, p);
          MessageServes(w, cfg, seen, v, k, m, v, j);
        }
      }
    }
    assert log[|first| + at] == m && !Explained(log, |first| + at);
  }

  lemma {:induction false} HarmlessPair(w: World, cfg: Config, d: Metric, v: Metric)
    requires Fit(w, cfg, d) && Fit(w, cfg, v) && IdentOf(d) == IdentOf(v)
    ensures HarmlessRun(w, cfg, {IdentOf(d)}, EMPTY, [Publish([d], Delivered), Publish([v], Delivered)])
    ensures CollisionFree(w, {IdentOf(d)})
  {
    hide AllDeliverable, Canon, Called, KeepsFull;
    var a, b := Publish([d], Delivered), Publish([v], Delivered);
    var es := [a, b];
    assert es[..1] == [a] && [a][..0] == [];
    RunTwo(w, cfg, a, b);
    SingleCalled(w, cfg, {}, d);
    SingleCalled(w, cfg, Next(w, cfg, EMPTY, a).keys, v);
    DeliveredKeeps(Called(w, cfg, {}, [d]).st.payload);
    DeliveredKeeps(Called(w, cfg, Next(w, cfg, EMPTY, a).keys, [v]).st.payload);
    assert HarmlessRun(w, cfg, {IdentOf(d)}, EMPTY, []);
    assert HarmlessRun(w, cfg, {IdentOf(d)}, EMPTY, [a]);
  }

  lemma {:induction false} DeliveredKeeps(ms: seq<Message>)
    ensures KeepsFull(ms, Delivered)
  {
  }

  /** Without the compact format there are no points. */
  lemma {:induction false} NoPoints(w: World, cfg: Config, idents: set<Ident>, es: seq<Event>)
    requires !cfg.v2 && HarmlessRun(w, cfg, idents, EMPTY, es)
    ensures forall x :: x in Run(w, cfg, EMPTY, es).log ==> x.wire.Full?
  {
    hide Called;
    if es != [] {
      var s, e := Run(w, cfg, EMPTY, es[..|es| - 1]), es[|es| - 1];
      NoPoints(w, cfg, idents, es[..|es| - 1]);
      if e.Publish? && Called(w, cfg, s.keys, e.ms).Go? {
        var ms := Called(w, cfg, s.keys, e.ms).st.payload;
        forall x | x in Acknowledged(ms, e.outcome) ensures x.wire.Full? {
          AcknowledgedMember(ms, e.outcome, x);
          CallAllFull(w, cfg, s.keys, e.ms, x);
        }
      }
    }
  }

  lemma {:induction false} CallAllFull(w: World, cfg: Config, keys: set<MKey>, ms: seq<Metric>, x: Message)
    requires !cfg.v2 && Called(w, cfg, keys, ms).Go? && x in Called(w, cfg, keys, ms).st.payload
    ensures x.wire.Full?
  {
    hide Metrics, BatchMessages, KeysAfter;
    var b := Batch(keys, [], Named(ms));
    BatchMeans(w, cfg, b, Indices(|ms|), |ms|);
    BatchAllFull(w, cfg, keys, Turns(w, cfg, b.vals, Indices(|ms|), |ms|), x);
  }

  lemma {:induction false} BatchAllFull(w: World, cfg: Config, keys: set<MKey>, ds: seq<Metric>, x: Message)
    requires !cfg.v2 && x in BatchMessages(w, cfg, keys, ds)
    ensures x.wire.Full?
  {
    hide KeysAfter, Messages, Canon, PartitionOf, FormAfter;
    var init, d := ds[..|ds| - 1], ds[|ds| - 1];
    if x in BatchMessages(w, cfg, keys, init) {
      BatchAllFull(w, cfg, keys, init, x);
    } else {
      var before := KeysAfter(w, cfg, keys, init);
      MessagesAre(w, cfg, before, d, |cfg.topics|);
      var k :| 0 <= k < |Messages(w, cfg, before, d, |cfg.topics|)| &&
          Messages(w, cfg, before, d, |cfg.topics|)[k] == x;
    }
  }

  /**
   Definition before point holds in every run that does no harm if and only if the configuration is
   coherent, or does not use points at all: a clash of two metrics has a run of two calls.
   */
  lemma {:induction false} DefinitionFirstIff(w: World, cfg: Config)
    ensures AlwaysDefinitionFirst(w, cfg) <==> !cfg.v2 || Coherent(w, cfg)
  {
    hide Clash, HarmlessRun, Run, DefinitionFirst, CollisionFree;
    if !cfg.v2 {
      forall idents, es | CollisionFree(w, idents) && HarmlessRun(w, cfg, idents, EMPTY, es)
        ensures DefinitionFirst(Run(w, cfg, EMPTY, es).log)
      {
        NoPoints(w, cfg, idents, es);
        AllFullFirst(Run(w, cfg, EMPTY, es).log);
      }
    } else if Coherent(w, cfg) {
      CoherentSuffices(w, cfg);
    } else {
      var i: nat, j: nat, d, v :| Clash(w, cfg, i, j, d, v);
      ClashPair(w, cfg, i, j, d, v);
    }
  }

  lemma {:induction false} AllFullFirst(log: seq<Message>)
    requires forall x :: x in log ==> x.wire.Full?
    ensures DefinitionFirst(log)
  {
  }

  lemma {:induction false} ClashPair(w: World, cfg: Config, i: nat, j: nat, d: Metric, v: Metric)
    requires cfg.v2 && Clash(w, cfg, i, j, d, v)
    ensures !AlwaysDefinitionFirst(w, cfg)
  {
    hide HarmlessRun, Run, DefinitionFirst, CollisionFree, Served, OwnEarlier, Fit;
    IncoherentRun(w, cfg, i, j, d, v);
    HarmlessPair(w, cfg, d, v);
  }

  // ---- The condition in terms of organisations -------------------------------------------

  /** Every partition function gives an answer, as it does for the known methods. */
  ghost predicate PartitionsKnown(w: World) {
    forall m, org, name, tags, n :: w.partition(m, org, name, tags, n).Some?
  }

  ghost predicate DistinctNames(cfg: Config) {
    forall i, j :: 0 <= i < j < |cfg.topics| ==> cfg.topics[i].name != cfg.topics[j].name
  }

  /** A metric of this name and organisation has a key for every topic that takes it. */
  predicate Sendable(cfg: Config, name: string, org: int) {
    forall j :: 0 <= j < |cfg.topics| && Accepts(cfg.topics[j], name, org) ==> OrgFits(Effective(cfg.topics[j], org))
  }

  predicate SamePartition(w: World, t: Topic, e: int, f: int) {
    t.method_.ByOrg? ==>
      w.partition(ByOrg, e, "", [], t.numPartitions) == w.partition(ByOrg, f, "", [], t.numPartitions)
  }

  /**
   Organisations `o` and `p` become the same one on their way to topics `i` and `j`, but topic `j`
   does not take `o`'s metrics, or takes them as another organisation: where points carry the
   organisation that is enough, else the two must also go to different partitions.
   */
  predicate OrgClash(w: World, cfg: Config, i: nat, j: nat, name: string, o: int, p: int) {
    && i < |cfg.topics| && j < |cfg.topics|
    && Sendable(cfg, name, o) && Sendable(cfg, name, p)
    && Accepts(cfg.topics[i], name, o) && Accepts(cfg.topics[j], name, p)
    && Effective(cfg.topics[i], o) == Effective(cfg.topics[j], p)
    && !(Accepts(cfg.topics[j], name, o) &&
         (|| Effective(cfg.topics[j], o) == Effective(cfg.topics[j], p)
          || (!cfg.v2Org && SamePartition(w, cfg.topics[j], Effective(cfg.topics[j], o), Effective(cfg.topics[j], p)))))
  }

  /** A plain metric of the given name and organisation. */
  function Plain(w: World, name: string, org: int): Metric {
    Canon(w, Metric(Garbage(""), org, name, 1, 0.0, "", 0, "gauge", []))
  }

  lemma {:induction false} PlainFit(w: World, cfg: Config, name: string, org: int)
    requires PartitionsKnown(w) && Sendable(cfg, name, org)
    ensures Fit(w, cfg, Plain(w, name, org))
    ensures IdentOf(Plain(w, name, org)) == Ident(name, "", "gauge", 1, [])
  {
    hide Accepts;
    CanonFacts(w, Metric(Garbage(""), org, name, 1, 0.0, "", 0, "gauge", []));
  }

  lemma {:induction false} FitSendable(w: World, cfg: Config, d: Metric)
    requires cfg.v2 && Fit(w, cfg, d)
    ensures Sendable(cfg, d.name, d.org)
  {
    hide PartitionOf, Canon, Accepts;
    forall j | 0 <= j < |cfg.topics| && Accepts(cfg.topics[j], d.name, d.org)
      ensures OrgFits(Effective(cfg.topics[j], d.org))
    {
      assert Takes(cfg.topics[j], d);
    }
  }

  /** On one and the same topic, serving is a matter of organisations and partitions. */
  lemma {:induction false} ServesHere(w: World, cfg: Config, d: Metric, v: Metric, j: nat)
    requires j < |cfg.topics| && IdentOf(d) == IdentOf(v)
    ensures var t := cfg.topics[j];
            Serves(w, cfg, d, j, v, j) <==>
            || Effective(t, d.org) == Effective(t, v.org)
            || (!cfg.v2Org && SamePartition(w, t, Effective(t, d.org), Effective(t, v.org)))
  {
    hide Sort;
    SameIdentity(w, cfg.topics[j], d, v);
  }

  /** With distinct topic names, coherence is a condition on the organisations alone. */
  lemma {:induction false} CoherentByOrgs(w: World, cfg: Config)
    requires cfg.v2 && PartitionsKnown(w) && DistinctNames(cfg)
    ensures Coherent(w, cfg) <==> forall i: nat, j: nat, name, o, p :: !OrgClash(w, cfg, i, j, name, o, p)
  {
    hide PartitionOf, Sort, Canon, Fit, Serves, Accepts, Sendable;
    forall i: nat, j: nat, d, v | Clash(w, cfg, i, j, d, v)
      ensures OrgClash(w, cfg, i, j, d.name, d.org, v.org)
    {
      FitSendable(w, cfg, d);
      FitSendable(w, cfg, v);
      ServesHere(w, cfg, d, v, j);
      assert d.name == v.name && (Accepts(cfg.topics[j], d.name, d.org) ==> Takes(cfg.topics[j], d));
    }
    forall i: nat, j: nat, name, o, p | OrgClash(w, cfg, i, j, name, o, p)
      ensures Clash(w, cfg, i, j, Plain(w, name, o), Plain(w, name, p))
    {
      OrgClashIsClash(w, cfg, i, j, name, o, p);
    }
  }

  lemma {:induction false} OrgClashIsClash(w: World, cfg: Config, i: nat, j: nat, name: string, o: int, p: int)
    requires cfg.v2 && PartitionsKnown(w) && DistinctNames(cfg) && OrgClash(w, cfg, i, j, name, o, p)
    ensures Clash(w, cfg, i, j, Plain(w, name, o), Plain(w, name, p))
  {
    hide PartitionOf, Sort, Fit, Accepts, Sendable, SamePartition;
    var d, v := Plain(w, name, o), Plain(w, name, p);
    PlainFit(w, cfg, name, o);
    PlainFit(w, cfg, name, p);
    ServesHere(w, cfg, d, v, j);
    assert forall k :: 0 <= k < |cfg.topics| && cfg.topics[k].name == cfg.topics[j].name ==> k == j;
  }

  /** Settings read without a rewrite list are coherent, so their runs keep the promise. */
  lemma {:induction false} ParsedWithoutRewrites(w: World, cfg: Config, o: Options)
    requires CountsFit(o) && o.rewrites == "" && |cfg.topics| == |Split(o.topics, ',')|
    requires forall i :: 0 <= i < |cfg.topics| ==> Configured(o, i, cfg.topics[i].(numPartitions := 0))
    ensures AlwaysDefinitionFirst(w, cfg)
  {
    hide AlwaysDefinitionFirst, Coherent;
    forall t | t in cfg.topics ensures t.rewrite.source == t.rewrite.target {
      var i :| 0 <= i < |cfg.topics| && cfg.topics[i] == t;
      assert Configured(o, i, cfg.topics[i].(numPartitions := 0));
    }
    NoRewriteCoherent(w, cfg);
    DefinitionFirstIff(w, cfg);
  }
}
