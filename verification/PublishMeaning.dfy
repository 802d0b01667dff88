/**
 What a `Publish` call amounts to for metrics whose id agrees with their fields: exactly one
 message per metric and accepting topic, in that order, as if every message had been encoded on
 its own for its topic's organisation. This is what is left of the general account of modules
 PublishForms and PublishBatch for such metrics.
 */
module PublishMeaning {
  import opened Keys
  import opened Text
  import opened Schema
  import opened TopicSettings
  import opened PublishSpec
  import opened PublishForms
  import opened PublishBatch

  // ---- The simple form -------------------------------------------------------------------

  predicate OrgFits(org: int) {
    0 <= org < 0x1_0000_0000
  }

  function KeyOf(w: World, v: Metric, org: int): MKey
    requires OrgFits(org)
  {
    MKey(w.hash(IdentOf(v)), org)
  }

  /** The contents that organisation `org` is sent for `v`, if `keys` were seen before `v`. */
  function WireFor(w: World, cfg: Config, keys: set<MKey>, v: Metric, org: int): Wire {
    if cfg.v2 && OrgFits(org) && KeyOf(w, v, org) in keys
    then PointOf(cfg, KeyOf(w, v, org), Under(w, v, org))
    else Full(Under(w, v, org))
  }

  /** Nothing goes wrong for `v` at topic `t`. */
  predicate Deliverable(w: World, cfg: Config, v: Metric, t: Topic) {
    (cfg.v2 ==> OrgFits(Effective(t, v.org))) && PartitionOf(w, t, AsSeenBy(w, v, t)).Some?
  }

  function MessageFor(w: World, cfg: Config, keys: set<MKey>, v: Metric, t: Topic): Message
    requires Deliverable(w, cfg, v, t)
  {
    Message(t.name, PartitionOf(w, t, AsSeenBy(w, v, t)).value, WireFor(w, cfg, keys, v, Effective(t, v.org)))
  }

  /** `v` can be delivered to those of the first `n` topics that take it. */
  predicate AllDeliverable(w: World, cfg: Config, v: Metric, n: nat)
    requires n <= |cfg.topics|
  {
    forall j :: 0 <= j < n && Takes(cfg.topics[j], v) ==> Deliverable(w, cfg, v, cfg.topics[j])
  }

  /** The messages for one metric: one per topic that takes it. */
  function Sends(w: World, cfg: Config, keys: set<MKey>, v: Metric, n: nat): seq<Message>
    requires n <= |cfg.topics| && AllDeliverable(w, cfg, v, n)
  {
    if n == 0 then [] else
    Sends(w, cfg, keys, v, n - 1) +
    if Takes(cfg.topics[n - 1], v) then [MessageFor(w, cfg, keys, v, cfg.topics[n - 1])] else []
  }

  /** The keys that `v` has on the first `n` topics. */
  function KeysOf(w: World, cfg: Config, v: Metric, n: nat): set<MKey>
    requires n <= |cfg.topics|
  {
    if n == 0 || !cfg.v2 then {} else
    var e := Effective(cfg.topics[n - 1], v.org);
    KeysOf(w, cfg, v, n - 1) + if Takes(cfg.topics[n - 1], v) && OrgFits(e) then {KeyOf(w, v, e)} else {}
  }

  lemma {:induction false} KeysMember(w: World, cfg: Config, v: Metric, n: nat, k: MKey)
    requires n <= |cfg.topics|
    ensures k in KeysOf(w, cfg, v, n) <==> cfg.v2 && k.org in Orgs(cfg, v, n) && k == KeyOf(w, v, k.org)
  {
    if n > 0 {
      KeysMember(w, cfg, v, n - 1, k);
    }
  }

  // ---- One metric ------------------------------------------------------------------------

  /** For a canonical metric, rewriting is just being seen as somebody else. */
  lemma {:induction false} CanonicalMade(w: World, cfg: Config, v: Metric, j: nat)
    requires Canonical(w, v) && j < |cfg.topics|
    ensures FormAfter(w, cfg, v, j) == v && MadeAt(w, cfg, v, j) == AsSeenBy(w, v, cfg.topics[j])
    ensures var e := Effective(cfg.topics[j], v.org);
            KeyAt(w, cfg, v, j) == if OrgFits(e) then Some(KeyOf(w, v, e)) else None
  {
    hide FormAfter, Sort;
    FormFacts(w, cfg, v, j);
    CanonFacts(w, v.(org := Effective(cfg.topics[j], v.org)));
  }

  lemma {:induction false} CanonicalPasses(w: World, cfg: Config, v: Metric, n: nat)
    requires n <= |cfg.topics| && Canonical(w, v)
    ensures Passes(w, cfg, v, n) <==> AllDeliverable(w, cfg, v, n)
  {
    hide Accepts, PartitionOf, Canon, KeyAt, Orgs;
    forall j | 0 <= j < n
      ensures Takes(cfg.topics[j], v) && Deliverable(w, cfg, v, cfg.topics[j]) ==> PassesAt(w, cfg, v, j)
      ensures Takes(cfg.topics[j], v) && Passes(w, cfg, v, n) ==> Deliverable(w, cfg, v, cfg.topics[j])
    {
      CanonicalMade(w, cfg, v, j);
      assert Passes(w, cfg, v, n) ==> PassesAt(w, cfg, v, j);
      if Takes(cfg.topics[j], v) && !Makes(cfg, v, j) {
        var i := Maker(cfg, v, Effective(cfg.topics[j], v.org), j);
        CanonicalMade(w, cfg, v, i);
        assert Passes(w, cfg, v, n) ==> PassesAt(w, cfg, v, i);
      }
    }
  }

  /** A topic adds a key exactly if it makes a buffer, and that key is new. */
  lemma {:induction false} KeysStep(w: World, cfg: Config, v: Metric, n: nat)
    requires 0 < n <= |cfg.topics| && Canonical(w, v) && AllDeliverable(w, cfg, v, n)
    ensures if cfg.v2 && Makes(cfg, v, n - 1)
            then var e := Effective(cfg.topics[n - 1], v.org);
                 && OrgFits(e) && KeyOf(w, v, e) !in KeysOf(w, cfg, v, n - 1)
                 && KeysOf(w, cfg, v, n) == KeysOf(w, cfg, v, n - 1) + {KeyOf(w, v, e)}
                 && Touches(w, cfg, v, n) == Touches(w, cfg, v, n - 1) + [KeyOf(w, v, e)]
            else KeysOf(w, cfg, v, n) == KeysOf(w, cfg, v, n - 1) && Touches(w, cfg, v, n) == Touches(w, cfg, v, n - 1)
  {
    hide Accepts, PartitionOf, Canon, KeyAt, Orgs;
    var t := cfg.topics[n - 1];
    CanonicalMade(w, cfg, v, n - 1);
    if cfg.v2 && Takes(t, v) {
      assert Deliverable(w, cfg, v, t);
      KeysMember(w, cfg, v, n - 1, KeyOf(w, v, Effective(t, v.org)));
    }
  }

  /** Every key is touched once, one for each organisation. */
  lemma {:induction false} CanonicalTouches(w: World, cfg: Config, v: Metric, n: nat)
    requires n <= |cfg.topics| && Canonical(w, v) && AllDeliverable(w, cfg, v, n)
    ensures multiset(Touches(w, cfg, v, n)) == multiset(KeysOf(w, cfg, v, n))
    ensures AsSet(Touches(w, cfg, v, n)) == KeysOf(w, cfg, v, n)
  {
    hide *;
    if n == 0 {
      NothingTouched(w, cfg, v);
    } else {
      DeliverablePrefix(w, cfg, v, n);
      CanonicalTouches(w, cfg, v, n - 1);
      KeysStep(w, cfg, v, n);
      if cfg.v2 && Makes(cfg, v, n - 1) {
        OneMore(Touches(w, cfg, v, n - 1), KeysOf(w, cfg, v, n - 1), KeyOf(w, v, Effective(cfg.topics[n - 1], v.org)));
      }
    }
  }

  lemma {:induction false} DeliverablePrefix(w: World, cfg: Config, v: Metric, n: nat)
    requires 0 < n <= |cfg.topics| && AllDeliverable(w, cfg, v, n)
    ensures AllDeliverable(w, cfg, v, n - 1)
  {
  }

  lemma {:induction false} NothingTouched(w: World, cfg: Config, v: Metric)
    ensures Touches(w, cfg, v, 0) == [] && KeysOf(w, cfg, v, 0) == {}
    ensures AsSet([]) == {}
  {
  }

  lemma {:induction false} OneMore(ks: seq<MKey>, set_: set<MKey>, k: MKey)
    requires multiset(ks) == multiset(set_) && AsSet(ks) == set_ && k !in set_
    ensures multiset(ks + [k]) == multiset(set_ + {k}) && AsSet(ks + [k]) == set_ + {k}
  {
  }

  lemma {:induction false} CanonicalWire(w: World, cfg: Config, keys: set<MKey>, v: Metric, j: nat)
    requires j < |cfg.topics| && Canonical(w, v) && AllDeliverable(w, cfg, v, j + 1) && Makes(cfg, v, j)
    ensures WireAt(w, cfg, keys, v, j) == WireFor(w, cfg, keys, v, Effective(cfg.topics[j], v.org))
  {
    hide Accepts, PartitionOf, Canon, KeyAt, Orgs, Touches, KeysOf;
    var e := Effective(cfg.topics[j], v.org);
    CanonicalMade(w, cfg, v, j);
    CanonicalTouches(w, cfg, v, j);
    if OrgFits(e) {
      KeysMember(w, cfg, v, j, KeyOf(w, v, e));
      assert KeyOf(w, v, e) in Touches(w, cfg, v, j) <==> KeyOf(w, v, e) in AsSet(Touches(w, cfg, v, j));
    }
  }

  lemma {:induction false} CanonicalMessages(w: World, cfg: Config, keys: set<MKey>, v: Metric, n: nat)
    requires n <= |cfg.topics| && Canonical(w, v) && AllDeliverable(w, cfg, v, n)
    ensures Messages(w, cfg, keys, v, n) == Sends(w, cfg, keys, v, n)
  {
    hide Accepts, PartitionOf, Canon, WireAt, WireFor, Orgs;
    if n > 0 {
      CanonicalMessages(w, cfg, keys, v, n - 1);
      var t := cfg.topics[n - 1];
      if Takes(t, v) {
        assert Deliverable(w, cfg, v, t);
        var i := MakerIn(cfg, v, n - 1);
        CanonicalWire(w, cfg, keys, v, i);
      }
    }
  }

  /** The state of the topic loop in terms of the simple form. */
  ghost predicate Meets(w: World, cfg: Config, v: Metric, start: Prep, n: nat, p: Prep)
    requires n <= |cfg.topics|
  {
    && p.cur == v
    && AllDeliverable(w, cfg, v, n)
    && p.payload == start.payload + Sends(w, cfg, start.keys, v, n)
    && p.keys == start.keys + KeysOf(w, cfg, v, n)
    && multiset(p.touches) == multiset(KeysOf(w, cfg, v, n))
    && (cfg.v2 ==> |p.touches| == |Orgs(cfg, v, n)|)
  }

  /** The topic loop for a canonical metric: it gets through exactly when everything is deliverable. */
  lemma {:induction false} TopicsMean(w: World, cfg: Config, v: Metric, start: Prep, n: nat)
    requires n <= |cfg.topics| && Canonical(w, v)
    requires start.cur == v && start.memo == map[] && start.touches == []
    ensures Topics(w, cfg, start, n).Go? <==> AllDeliverable(w, cfg, v, n)
    ensures AllDeliverable(w, cfg, v, n) ==> Meets(w, cfg, v, start, n, Topics(w, cfg, start, n).st)
  {
    hide Accepts, PartitionOf, Canon, Topics, FormAfter, Touches, KeysOf, Messages, Sends, Buffers, Orgs,
         AllDeliverable, Passes;
    LoopMeans(w, cfg, v, start, n);
    CanonicalPasses(w, cfg, v, n);
    FormFacts(w, cfg, v, n);
    if AllDeliverable(w, cfg, v, n) {
      CanonicalTouches(w, cfg, v, n);
      CanonicalMessages(w, cfg, start.keys, v, n);
    }
  }

  // ---- A batch ---------------------------------------------------------------------------

  /** The metric as the topic loop gets it: with its interval, and an id that fits its fields. */
  predicate Consistent(w: World, cfg: Config, m: Metric) {
    Deduce(w, cfg, m).Some? && Canonical(w, Deduce(w, cfg, m).value)
  }

  /** Every metric of the batch can be delivered to the topics that take it. */
  predicate BatchDeliverable(w: World, cfg: Config, ds: seq<Metric>) {
    ds == [] || (BatchDeliverable(w, cfg, ds[..|ds| - 1]) && AllDeliverable(w, cfg, ds[|ds| - 1], |cfg.topics|))
  }

  lemma {:induction false} BatchDeliverableAll(w: World, cfg: Config, ds: seq<Metric>)
    ensures BatchDeliverable(w, cfg, ds) <==> forall i :: 0 <= i < |ds| ==> AllDeliverable(w, cfg, ds[i], |cfg.topics|)
  {
    if ds != [] {
      BatchDeliverableAll(w, cfg, ds[..|ds| - 1]);
      assert forall i :: 0 <= i < |ds| - 1 ==> ds[..|ds| - 1][i] == ds[i];
    }
  }

  /** The keys seen once the metrics `ds` have been through. */
  function Seen(w: World, cfg: Config, keys: set<MKey>, ds: seq<Metric>): set<MKey> {
    if ds == [] then keys else
    Seen(w, cfg, keys, ds[..|ds| - 1]) + KeysOf(w, cfg, ds[|ds| - 1], |cfg.topics|)
  }

  /** The simple form of a batch: metric by metric, topic by topic. */
  function Payload(w: World, cfg: Config, keys: set<MKey>, ds: seq<Metric>): seq<Message>
    requires BatchDeliverable(w, cfg, ds)
  {
    if ds == [] then [] else
    var init := ds[..|ds| - 1];
    Payload(w, cfg, keys, init) + Sends(w, cfg, Seen(w, cfg, keys, init), ds[|ds| - 1], |cfg.topics|)
  }

  /** The first `n` listed metrics, as the topic loop gets them. */
  function AllFilled<T>(w: World, cfg: Config, vals: map<T, Metric>, objs: seq<T>, n: nat): (ds: seq<Metric>)
    requires n <= |objs| && forall o :: o in objs ==> o in vals
    ensures |ds| == n
    ensures forall i :: 0 <= i < n ==> ds[i] == Filled(w, cfg, vals[objs[i]])
  {
    if n == 0 then [] else AllFilled(w, cfg, vals, objs, n - 1) + [Filled(w, cfg, vals[objs[n - 1]])]
  }

  /** The metrics after the first `n` listed ones have been through. */
  function After<T(==)>(w: World, cfg: Config, vals: map<T, Metric>, objs: seq<T>, n: nat): map<T, Metric>
    requires n <= |objs|
  {
    map o | o in vals :: if o in objs[..n] then Filled(w, cfg, vals[o]) else vals[o]
  }

  lemma {:induction false} SnocFacts(w: World, cfg: Config, keys: set<MKey>, ds: seq<Metric>, d: Metric)
    ensures BatchDeliverable(w, cfg, ds + [d]) <==>
            BatchDeliverable(w, cfg, ds) && AllDeliverable(w, cfg, d, |cfg.topics|)
    ensures Seen(w, cfg, keys, ds + [d]) == Seen(w, cfg, keys, ds) + KeysOf(w, cfg, d, |cfg.topics|)
    ensures BatchDeliverable(w, cfg, ds + [d]) ==>
              Payload(w, cfg, keys, ds + [d]) ==
              Payload(w, cfg, keys, ds) + Sends(w, cfg, Seen(w, cfg, keys, ds), d, |cfg.topics|)
  {
    assert (ds + [d])[..|ds|] == ds;
    assert (ds + [d])[|ds|] == d;
  }

  /** A consistent metric leaves the topic loop as it came, so its second turn is like the first. */
  lemma {:induction false} ConsistentTurn<T>(w: World, cfg: Config, vals: map<T, Metric>, objs: seq<T>, i: nat)
    requires i < |objs| && objs[i] in vals && Consistent(w, cfg, vals[objs[i]])
    ensures Turn(w, cfg, vals, objs, i) == Filled(w, cfg, vals[objs[i]]) == Settle(w, cfg, vals[objs[i]])
  {
    hide FormAfter;
    FormFacts(w, cfg, Filled(w, cfg, vals[objs[i]]), |cfg.topics|);
  }

  /** The general account of a batch is the simple form. */
  lemma {:induction false} ConsistentBatch<T>(w: World, cfg: Config, b: Batch<T>, objs: seq<T>, n: nat)
    requires n <= |objs| && forall o :: o in objs ==> o in b.vals && Consistent(w, cfg, b.vals[o])
    ensures var ds := AllFilled(w, cfg, b.vals, objs, n);
            && Turns(w, cfg, b.vals, objs, n) == ds
            && (BatchPasses(w, cfg, b.vals, objs, n) <==> BatchDeliverable(w, cfg, ds))
            && (BatchDeliverable(w, cfg, ds) ==>
                  KeysAfter(w, cfg, b.keys, ds) == Seen(w, cfg, b.keys, ds) &&
                      BatchMessages(w, cfg, b.keys, ds) == Payload(w, cfg, b.keys, ds))
  {
    hide Passes, AllDeliverable, Turn, Filled, Canon, Messages, Touches, Sends, KeysOf, KeysAfter, Seen, Payload,
         BatchMessages, BatchDeliverable;
    if n == 0 {
      EmptyBatch(w, cfg, b.keys);
    } else {
      ConsistentBatch(w, cfg, b, objs, n - 1);
      var ds := AllFilled(w, cfg, b.vals, objs, n - 1);
      var d := Filled(w, cfg, b.vals[objs[n - 1]]);
      assert AllFilled(w, cfg, b.vals, objs, n) == ds + [d];
      ConsistentTurn(w, cfg, b.vals, objs, n - 1);
      FilledCanonical(w, cfg, b.vals[objs[n - 1]]);
      CanonicalPasses(w, cfg, d, |cfg.topics|);
      assert BatchPasses(w, cfg, b.vals, objs, n) <==>
             BatchPasses(w, cfg, b.vals, objs, n - 1) && TurnPasses(w, cfg, b.vals, objs, n - 1);
      SnocFacts(w, cfg, b.keys, ds, d);
      BatchSnoc(w, cfg, b.keys, ds, d);
      if BatchDeliverable(w, cfg, ds) && AllDeliverable(w, cfg, d, |cfg.topics|) {
        CanonicalTouches(w, cfg, d, |cfg.topics|);
        CanonicalMessages(w, cfg, Seen(w, cfg, b.keys, ds), d, |cfg.topics|);
      }
    }
  }

  lemma {:induction false} FilledCanonical(w: World, cfg: Config, m: Metric)
    requires Consistent(w, cfg, m)
    ensures Canonical(w, Filled(w, cfg, m)) && Deduce(w, cfg, m) == Some(Filled(w, cfg, m))
    ensures Deduce(w, cfg, Filled(w, cfg, m)) == Some(Filled(w, cfg, m))
  {
    DeduceTwice(w, cfg, m);
  }

  lemma {:induction false} EmptyBatch(w: World, cfg: Config, keys: set<MKey>)
    ensures BatchDeliverable(w, cfg, []) && Seen(w, cfg, keys, []) == KeysAfter(w, cfg, keys, []) == keys
    ensures Payload(w, cfg, keys, []) == BatchMessages(w, cfg, keys, []) == []
  {
  }

  /**
   The batch loop meets the simple form: it reaches the end exactly when every message can be
   delivered, and then the payload is the simple form's, the keys seen are the batch's keys added
   to those before, and the metrics are as they came, but for an interval that had to be deduced.
   */
  lemma {:induction false} MetricsMean<T>(w: World, cfg: Config, b: Batch<T>, objs: seq<T>, n: nat)
    requires n <= |objs|
    requires forall o :: o in objs ==> o in b.vals && Consistent(w, cfg, b.vals[o])
    ensures var ds := AllFilled(w, cfg, b.vals, objs, n);
            var r := Metrics(w, cfg, b, objs, n);
            && (r.Go? <==> BatchDeliverable(w, cfg, ds))
            && (r.Go? ==> r.st == Batch(Seen(w, cfg, b.keys, ds),
                                        b.payload + Payload(w, cfg, b.keys, ds),
                                        After(w, cfg, b.vals, objs, n)))
  {
    hide Metrics, Canon, KeysAfter, Seen, Payload, BatchMessages, BatchDeliverable, BatchPasses, Filled, Settle,
         StoppedAt;
    BatchMeans(w, cfg, b, objs, n);
    ConsistentBatch(w, cfg, b, objs, n);
    forall o | o in b.vals && o in objs[..n]
      ensures Settle(w, cfg, b.vals[o]) == Filled(w, cfg, b.vals[o])
    {
      var i :| 0 <= i < n && objs[i] == o;
      ConsistentTurn(w, cfg, b.vals, objs, i);
    }
  }

  // ---- Messages of the simple form -------------------------------------------------------

  lemma {:induction false} SendsAll(w: World, cfg: Config, keys: set<MKey>, v: Metric, n: nat, j: nat)
    requires n <= |cfg.topics| && AllDeliverable(w, cfg, v, n) && j < n && Takes(cfg.topics[j], v)
    ensures MessageFor(w, cfg, keys, v, cfg.topics[j]) in Sends(w, cfg, keys, v, n)
  {
    if j < n - 1 {
      SendsAll(w, cfg, keys, v, n - 1, j);
    }
  }
}
