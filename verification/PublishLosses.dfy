/**
 Where the promise of definition before point ends, in any configuration that uses points: sends
 that lose full metrics, calls rejected after they touched keys, and sends that overtake each other.
 */
module PublishLosses {
  import opened Keys
  import opened Text
  import opened Schema
  import opened PublishSpec
  import opened PublishForms
  import opened PublishBatch
  import opened PublishMeaning
  import opened PublishRuns

  // ---- One call's messages ---------------------------------------------------------------

  /** Each message is a point exactly if its key was seen before the call. */
  lemma {:induction false} PointIff(w: World, cfg: Config, keys: set<MKey>, d: Metric, i: nat) returns (k: nat)
    requires cfg.v2 && Fit(w, cfg, d) && AllDeliverable(w, cfg, d, |cfg.topics|) &&
             i < |Sends(w, cfg, keys, d, |cfg.topics|)|
    ensures k < |cfg.topics| && Takes(cfg.topics[k], d) && Deliverable(w, cfg, d, cfg.topics[k]) &&
            AllDeliverable(w, cfg, d, k)
    ensures OrgFits(Effective(cfg.topics[k], d.org)) &&
            KeyOf(w, d, Effective(cfg.topics[k], d.org)) in KeysOf(w, cfg, d, |cfg.topics|)
    ensures var m := Sends(w, cfg, keys, d, |cfg.topics|)[i];
            && m == MessageFor(w, cfg, keys, d, cfg.topics[k])
            && (m.wire.Full? <==> KeyOf(w, d, Effective(cfg.topics[k], d.org)) !in keys)
            && Sends(w, cfg, keys, d, k) == Sends(w, cfg, keys, d, |cfg.topics|)[..i]
  {
    hide Accepts, PartitionOf, Canon, WireFor, Sends, KeysOf, Orgs, Defines, Supports;
    var n := |cfg.topics|;
    k := SendsPosition(w, cfg, keys, d, n, i);
    FitFacts(w, cfg, d, k);
    MessageDefines(w, cfg, keys, d, cfg.topics[k]);
    OrgsMember(cfg, d, n, Effective(cfg.topics[k], d.org));
    KeysMember(w, cfg, d, n, KeyOf(w, d, Effective(cfg.topics[k], d.org)));
  }

  /** After all its keys were seen a metric is sent as points only, so nothing in front of them helps. */
  lemma {:induction false} AllPoints(w: World, cfg: Config, keys: set<MKey>, d: Metric)
    requires cfg.v2 && Fit(w, cfg, d) && AllDeliverable(w, cfg, d, |cfg.topics|) &&
             KeysOf(w, cfg, d, |cfg.topics|) <= keys
    ensures forall x :: x in Sends(w, cfg, keys, d, |cfg.topics|) ==> !x.wire.Full?
  {
    hide Fit, AllDeliverable, KeysOf, Sends;
    var ms := Sends(w, cfg, keys, d, |cfg.topics|);
    forall x | x in ms ensures !x.wire.Full? {
      var i :| 0 <= i < |ms| && ms[i] == x;
      var k := PointIff(w, cfg, keys, d, i);
    }
  }

  lemma {:induction false} AllFull(w: World, cfg: Config, keys: set<MKey>, d: Metric)
    requires cfg.v2 && Fit(w, cfg, d) && AllDeliverable(w, cfg, d, |cfg.topics|) &&
             KeysOf(w, cfg, d, |cfg.topics|) !! keys
    ensures forall x :: x in Sends(w, cfg, keys, d, |cfg.topics|) ==> x.wire.Full?
  {
    hide Fit, AllDeliverable, KeysOf, Sends;
    var ms := Sends(w, cfg, keys, d, |cfg.topics|);
    forall x | x in ms ensures x.wire.Full? {
      var i :| 0 <= i < |ms| && ms[i] == x;
      var k := PointIff(w, cfg, keys, d, i);
    }
  }

  /** With distinct names only a topic's own messages support its points. */
  lemma {:induction false} OnlyOwn(w: World, cfg: Config, keys: set<MKey>, d: Metric, k: nat, before: set<MKey>, j: nat)
    requires DistinctNames(cfg) && k < |cfg.topics| && j < |cfg.topics|
    requires Deliverable(w, cfg, d, cfg.topics[k]) && Deliverable(w, cfg, d, cfg.topics[j])
    requires Supports(MessageFor(w, cfg, before, d, cfg.topics[j]), MessageFor(w, cfg, keys, d, cfg.topics[k]))
    ensures j == k
  {
    hide PartitionOf, WireFor, Canon, Describes;
  }

  lemma {:induction false} FirstPointFails(log: seq<Message>)
    requires log != [] && !log[0].wire.Full?
    ensures !DefinitionFirst(log)
  {
    assert !Explained(log, 0);
  }

  // ---- Lost sends ------------------------------------------------------------------------

  lemma {:induction false} AllArrived(ms: seq<Message>, o: Outcome)
    requires KeepsFull(ms, o) && forall x :: x in ms ==> x.wire.Full?
    ensures Acknowledged(ms, o) == ms
  {
    if o.Failed? && ms != [] {
      assert ms[|ms| - 1] in ms;
      AllArrived(ms[..|ms| - 1], o);
    }
  }

  /** The points of the second call each have their full metric from the first. */
  lemma {:induction false} RepeatExplained(w: World, cfg: Config, d: Metric)
    requires cfg.v2 && Fit(w, cfg, d) && AllDeliverable(w, cfg, d, |cfg.topics|)
    ensures DefinitionFirst(Sends(w, cfg, {}, d, |cfg.topics|) +
                            Sends(w, cfg, KeysOf(w, cfg, d, |cfg.topics|), d, |cfg.topics|))
  {
    hide Fit, Accepts, PartitionOf, Canon, WireFor, Sends, KeysOf, Defines, Supports, AllDeliverable;
    var n, seen := |cfg.topics|, KeysOf(w, cfg, d, |cfg.topics|);
    var first, second := Sends(w, cfg, {}, d, n), Sends(w, cfg, seen, d, n);
    AllFull(w, cfg, {}, d);
    forall i | 0 <= i < |first + second| ensures Explained(first + second, i) {
      if i < |first| {
        assert (first + second)[i] in first;
      } else {
        var k := PointIff(w, cfg, seen, d, i - |first|);
        MessageDefines(w, cfg, {}, d, cfg.topics[k]);
        MessageDefines(w, cfg, seen, d, cfg.topics[k]);
        SendsAll(w, cfg, {}, d, n, k);
        ExplainedBy(first, MessageFor(w, cfg, {}, d, cfg.topics[k]), second, i - |first|);
      }
    }
  }

  /** A lost full metric leaves the point of the second call on its topic without one. */
  lemma {:induction false} LostUnexplained(w: World, cfg: Config, d: Metric, outcome: Outcome, i: nat)
    requires cfg.v2 && Fit(w, cfg, d) && DistinctNames(cfg) && AllDeliverable(w, cfg, d, |cfg.topics|)
    requires i < |Sends(w, cfg, {}, d, |cfg.topics|)| && outcome.Failed? && i !in outcome.arrived
    ensures !DefinitionFirst(Acknowledged(Sends(w, cfg, {}, d, |cfg.topics|), outcome) +
                             Sends(w, cfg, KeysOf(w, cfg, d, |cfg.topics|), d, |cfg.topics|))
  {
    hide Fit, Accepts, PartitionOf, Canon, WireFor, Sends, KeysOf, Supports, AllDeliverable, Acknowledged;
    var n, seen := |cfg.topics|, KeysOf(w, cfg, d, |cfg.topics|);
    var first, second := Sends(w, cfg, {}, d, n), Sends(w, cfg, seen, d, n);
    var k := PointIff(w, cfg, {}, d, i);
    var at := PositionOf(w, cfg, seen, d, n, k);
    var p := PointIff(w, cfg, seen, d, at);
    AllPoints(w, cfg, seen, d);
    var arrived := Acknowledged(first, outcome);
    var log, m := arrived + second, second[at];
    forall q | 0 <= q < |arrived| + at ensures !Supports(log[q], m) {
      if q < |arrived| {
        AcknowledgedMember(first, outcome, log[q]);
        var r :| 0 <= r < |first| && first[r] == log[q] && r in outcome.arrived;
        var j := PointIff(w, cfg, {}, d, r);
        if Supports(log[q], m) {
          OnlyOwn(w, cfg, seen, d, k, {}, j);
        }
      } else {
        assert log[q] in second;
        NotFull(log[q], m);
      }
    }
    assert log[|arrived| + at] == m;
    assert m in second;
    assert !Explained(log, |arrived| + at);
  }

  lemma {:induction false} NotFull(x: Message, m: Message)
    requires !x.wire.Full?
    ensures !Supports(x, m)
  {
  }

  /**
   A call on an empty log whose send may fail, then another one for the same metric: with distinct
   topic names the promise is kept if and only if every full metric of the first call arrived.
   */
  lemma {:induction false} LostSendIff(w: World, cfg: Config, d: Metric, outcome: Outcome)
    requires cfg.v2 && Fit(w, cfg, d) && DistinctNames(cfg)
    ensures DefinitionFirst(Run(w, cfg, EMPTY, [Publish([d], outcome), Publish([d], Delivered)]).log) <==>
            KeepsFull(Called(w, cfg, {}, [d]).st.payload, outcome)
  {
    hide Fit, Run, Called, Sends, KeysOf, AllDeliverable, DefinitionFirst, Acknowledged;
    FitDeliverable(w, cfg, d);
    TwoCalls(w, cfg, d, outcome, d);
    SingleCalled(w, cfg, {}, d);
    var first := Sends(w, cfg, {}, d, |cfg.topics|);
    AllFull(w, cfg, {}, d);
    if KeepsFull(first, outcome) {
      AllArrived(first, outcome);
      RepeatExplained(w, cfg, d);
    } else {
      var i :| 0 <= i < |first| && first[i].wire.Full? && i !in outcome.arrived;
      LostUnexplained(w, cfg, d, outcome, i);
    }
  }

  // ---- Rejected calls --------------------------------------------------------------------

  /**
   A rejected call, then one for the metric `d`: with distinct topic names the promise is kept if and
   only if the metrics of the rejected call, up to its first error, touch none of `d`'s keys.
   */
  lemma {:induction false} RejectedIff(w: World, cfg: Config, ms: seq<Metric>, outcome: Outcome, d: Metric)
    requires cfg.v2 && Fit(w, cfg, d) && DistinctNames(cfg) && !AllPassing(w, cfg, ms)
    ensures DefinitionFirst(Run(w, cfg, EMPTY, [Publish(ms, outcome), Publish([d], Delivered)]).log) <==>
            CallTouches(w, cfg, ms) !! KeysOf(w, cfg, d, |cfg.topics|)
  {
    hide Fit, Run, Called, Sends, KeysOf, AllDeliverable, DefinitionFirst, AllPassing, CallTouches;
    CalledKeys(w, cfg, {}, ms);
    var touched := CallTouches(w, cfg, ms);
    assert {} + touched == touched;
    FitDeliverable(w, cfg, d);
    RunTwo(w, cfg, Publish(ms, outcome), Publish([d], Delivered));
    SingleCalled(w, cfg, touched, d);
    var log := Sends(w, cfg, touched, d, |cfg.topics|);
    assert [] + log == log;
    if touched !! KeysOf(w, cfg, d, |cfg.topics|) {
      AllFull(w, cfg, touched, d);
      AllFullFirst(log);
    } else {
      var key :| key in touched && key in KeysOf(w, cfg, d, |cfg.topics|);
      TouchedUnexplained(w, cfg, touched, d, key);
    }
  }

  lemma {:induction false} TouchedUnexplained(w: World, cfg: Config, touched: set<MKey>, d: Metric, key: MKey)
    requires cfg.v2 && Fit(w, cfg, d) && DistinctNames(cfg) && AllDeliverable(w, cfg, d, |cfg.topics|)
    requires key in touched && key in KeysOf(w, cfg, d, |cfg.topics|)
    ensures !DefinitionFirst(Sends(w, cfg, touched, d, |cfg.topics|))
  {
    hide Accepts, PartitionOf, Canon, WireFor, Sends, KeysOf, Orgs, Supports, Fit;
    var n, log := |cfg.topics|, Sends(w, cfg, touched, d, |cfg.topics|);
    KeysMember(w, cfg, d, n, key);
    OrgsMember(cfg, d, n, key.org);
    var k :| 0 <= k < n && Takes(cfg.topics[k], d) && Effective(cfg.topics[k], d.org) == key.org;
    var at := PositionOf(w, cfg, touched, d, n, k);
    var p := PointIff(w, cfg, touched, d, at);
    MessageDefines(w, cfg, touched, d, cfg.topics[k]);
    forall q | 0 <= q < at ensures !Supports(log[q], log[at]) {
      var j := PointIff(w, cfg, touched, d, q);
      if Supports(log[q], log[at]) {
        OnlyOwn(w, cfg, touched, d, k, touched, j);
      }
    }
    assert !Explained(log, at);
  }

  /**
   A batch that a second metric causes to be rejected has touched all keys of the first, and sent
   nothing: the next call for the first sends points that no full metric precedes.
   */
  lemma {:induction false} RejectedCallBreaksOrder(w: World, cfg: Config, a: Metric, bad: Metric, outcome: Outcome,
                                                   j: nat)
    requires cfg.v2 && Fit(w, cfg, a) && j < |cfg.topics| && Takes(cfg.topics[j], a)
    requires Deduce(w, cfg, bad).None? || !Passes(w, cfg, Filled(w, cfg, bad), |cfg.topics|)
    ensures Called(w, cfg, {}, [a, bad]).Stop?
    ensures KeysOf(w, cfg, a, |cfg.topics|) <= Called(w, cfg, {}, [a, bad]).st.keys
    ensures !DefinitionFirst(Run(w, cfg, EMPTY, [Publish([a, bad], outcome), Publish([a], Delivered)]).log)
  {
    hide Fit, Run, Called, Sends, KeysOf, AllDeliverable, DefinitionFirst, Passes, Filled, Deduce;
    RejectedTouches(w, cfg, a, bad);
    var touched, n := Called(w, cfg, {}, [a, bad]).st.keys, |cfg.topics|;
    FitDeliverable(w, cfg, a);
    RunTwo(w, cfg, Publish([a, bad], outcome), Publish([a], Delivered));
    SingleCalled(w, cfg, touched, a);
    var log := Sends(w, cfg, touched, a, n);
    assert [] + log == log;
    AllPoints(w, cfg, touched, a);
    SendsAll(w, cfg, touched, a, n, j);
    assert log[0] in log;
    FirstPointFails(log);
  }

  lemma {:induction false} RejectedTouches(w: World, cfg: Config, a: Metric, bad: Metric)
    requires cfg.v2 && Fit(w, cfg, a)
    requires Deduce(w, cfg, bad).None? || !Passes(w, cfg, Filled(w, cfg, bad), |cfg.topics|)
    ensures Called(w, cfg, {}, [a, bad]).Stop?
    ensures KeysOf(w, cfg, a, |cfg.topics|) <= Called(w, cfg, {}, [a, bad]).st.keys
  {
    hide Metrics, Canon, Passes, KeysAfter, BatchMessages, Touches, KeysOf, FailsFirst, AllDeliverable, FormAfter;
    var ms := [a, bad];
    var b, objs := Batch({}, [], Named(ms)), Indices(2);
    assert objs == [0, 1];
    BatchMeans(w, cfg, b, objs, 2);
    assert Turn(w, cfg, b.vals, objs, 0) == a && Turn(w, cfg, b.vals, objs, 1) == Filled(w, cfg, bad);
    CanonicalPasses(w, cfg, a, |cfg.topics|);
    assert TurnPasses(w, cfg, b.vals, objs, 0) && !TurnPasses(w, cfg, b.vals, objs, 1);
    var st := Metrics(w, cfg, b, objs, 2).st;
    var i :| 0 <= i < 2 && BatchPasses(w, cfg, b.vals, objs, i) && !TurnPasses(w, cfg, b.vals, objs, i) &&
        StoppedAt(w, cfg, b, objs, i, st);
    assert i == 1;
    assert Turns(w, cfg, b.vals, objs, 1) == [] + [a];
    BatchSnoc(w, cfg, {}, [], a);
    CanonicalTouches(w, cfg, a, |cfg.topics|);
  }

  // ---- Overtaking sends ------------------------------------------------------------------

  /**
   Two calls for the same metric whose sends happen in the opposite order of their touches put the
   points ahead of the full metric.
   */
  lemma {:induction false} ReorderedSendBreaksOrder(w: World, cfg: Config, d: Metric, j: nat)
    requires cfg.v2 && Fit(w, cfg, d) && j < |cfg.topics| && Takes(cfg.topics[j], d)
    ensures var first := Called(w, cfg, {}, [d]).st;
            var second := Called(w, cfg, first.keys, [d]).st;
            !DefinitionFirst(second.payload + first.payload) && DefinitionFirst(first.payload + second.payload)
  {
    hide Fit, Called, Sends, KeysOf, AllDeliverable, DefinitionFirst;
    var n, seen := |cfg.topics|, KeysOf(w, cfg, d, |cfg.topics|);
    FitDeliverable(w, cfg, d);
    SingleCalled(w, cfg, {}, d);
    assert {} + seen == seen;
    SingleCalled(w, cfg, seen, d);
    RepeatExplained(w, cfg, d);
    AllPoints(w, cfg, seen, d);
    SendsAll(w, cfg, seen, d, n, j);
    var log := Sends(w, cfg, seen, d, n) + Sends(w, cfg, {}, d, n);
    assert log[0] in Sends(w, cfg, seen, d, n);
    FirstPointFails(log);
  }
}
