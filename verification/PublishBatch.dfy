/**
 A whole batch, for any metrics: the loop of `Publish` over a list that may name the same metric
 more than once, and the counters of the call.
 */
module PublishBatch {
  import opened Keys
  import opened Text
  import opened Schema
  import opened TopicSettings
  import opened PublishSpec
  import opened PublishForms
  import opened PublishCounters

  // ---- Metrics at their turn -------------------------------------------------------------

  /** The metric with its interval filled in where that is possible. */
  function Filled(w: World, cfg: Config, m: Metric): Metric {
    match Deduce(w, cfg, m) case Some(d) => d case None => m
  }

  /** The metric once it has been through all topics. */
  function Settle(w: World, cfg: Config, m: Metric): Metric {
    FormAfter(w, cfg, Filled(w, cfg, m), |cfg.topics|)
  }

  lemma {:induction false} DeduceTwice(w: World, cfg: Config, m: Metric)
    requires Deduce(w, cfg, m).Some?
    ensures Deduce(w, cfg, Deduce(w, cfg, m).value) == Deduce(w, cfg, m)
  {
    CanonFacts(w, m.(interval := w.secondsPerPoint(m.name)));
  }

  lemma {:induction false} FormTwice(w: World, cfg: Config, v: Metric)
    ensures FormAfter(w, cfg, FormAfter(w, cfg, v, |cfg.topics|), |cfg.topics|) == FormAfter(w, cfg, v, |cfg.topics|)
  {
    hide Sort;
    CanonFacts(w, v);
  }

  /** A metric that comes round again is not changed any more. */
  lemma {:induction false} SettleTwice(w: World, cfg: Config, m: Metric)
    requires Deduce(w, cfg, m).Some?
    ensures Deduce(w, cfg, Settle(w, cfg, m)) == Some(Settle(w, cfg, m))
    ensures FormAfter(w, cfg, Settle(w, cfg, m), |cfg.topics|) == Settle(w, cfg, m)
  {
    hide FormAfter, Sort;
    var d := Deduce(w, cfg, m).value;
    FormTwice(w, cfg, d);
    FormFacts(w, cfg, d, |cfg.topics|);
    if m.interval == 0 {
      CanonFacts(w, m.(interval := w.secondsPerPoint(m.name)));
      DeduceTwice(w, cfg, m);
    }
  }

  /** What metric number `i` of the list is when its turn comes and its interval is there. */
  function Turn<T(==)>(w: World, cfg: Config, vals: map<T, Metric>, objs: seq<T>, i: nat): Metric
    requires i < |objs| && objs[i] in vals
  {
    if objs[i] in objs[..i] then Settle(w, cfg, vals[objs[i]]) else Filled(w, cfg, vals[objs[i]])
  }

  function Turns<T(==)>(w: World, cfg: Config, vals: map<T, Metric>, objs: seq<T>, n: nat): (ds: seq<Metric>)
    requires n <= |objs| && forall o :: o in objs ==> o in vals
    ensures |ds| == n
    ensures forall i :: 0 <= i < n ==> ds[i] == Turn(w, cfg, vals, objs, i)
  {
    if n == 0 then [] else Turns(w, cfg, vals, objs, n - 1) + [Turn(w, cfg, vals, objs, n - 1)]
  }

  /** The metrics after the first `n` listed ones have been through. */
  function Settled<T(==)>(w: World, cfg: Config, vals: map<T, Metric>, objs: seq<T>, n: nat): (r: map<T, Metric>)
    requires n <= |objs|
    ensures r.Keys == vals.Keys
  {
    map o | o in vals :: if o in objs[..n] then Settle(w, cfg, vals[o]) else vals[o]
  }

  // ---- What a batch amounts to -----------------------------------------------------------

  /** Metric number `i` causes no error: it has or gets an interval, and all topics pass it. */
  predicate TurnPasses<T(==)>(w: World, cfg: Config, vals: map<T, Metric>, objs: seq<T>, i: nat)
    requires i < |objs| && objs[i] in vals
  {
    Deduce(w, cfg, vals[objs[i]]).Some? && Passes(w, cfg, Turn(w, cfg, vals, objs, i), |cfg.topics|)
  }

  predicate BatchPasses<T(==)>(w: World, cfg: Config, vals: map<T, Metric>, objs: seq<T>, n: nat)
    requires n <= |objs| && forall o :: o in objs ==> o in vals
  {
    forall i :: 0 <= i < n ==> TurnPasses(w, cfg, vals, objs, i)
  }

  /** The keys seen once the metrics `ds` have been through. */
  function KeysAfter(w: World, cfg: Config, keys: set<MKey>, ds: seq<Metric>): set<MKey> {
    if ds == [] then keys else
    KeysAfter(w, cfg, keys, ds[..|ds| - 1]) + AsSet(Touches(w, cfg, ds[|ds| - 1], |cfg.topics|))
  }

  /** Metric by metric, topic by topic. */
  function BatchMessages(w: World, cfg: Config, keys: set<MKey>, ds: seq<Metric>): seq<Message> {
    if ds == [] then [] else
    var init := ds[..|ds| - 1];
    BatchMessages(w, cfg, keys, init) + Messages(w, cfg, KeysAfter(w, cfg, keys, init), ds[|ds| - 1], |cfg.topics|)
  }

  lemma {:induction false} BatchSnoc(w: World, cfg: Config, keys: set<MKey>, ds: seq<Metric>, d: Metric)
    ensures KeysAfter(w, cfg, keys, ds + [d]) == KeysAfter(w, cfg, keys, ds) + AsSet(Touches(w, cfg, d, |cfg.topics|))
    ensures BatchMessages(w, cfg, keys, ds + [d]) ==
            BatchMessages(w, cfg, keys, ds) + Messages(w, cfg, KeysAfter(w, cfg, keys, ds), d, |cfg.topics|)
  {
    hide Messages, Touches;
    assert (ds + [d])[..|ds|] == ds;
  }

  ghost function BatchAfter<T>(w: World, cfg: Config, b: Batch<T>, objs: seq<T>, n: nat): Batch<T>
    requires n <= |objs| && forall o :: o in objs ==> o in b.vals
  {
    var ds := Turns(w, cfg, b.vals, objs, n);
    Batch(KeysAfter(w, cfg, b.keys, ds), b.payload + BatchMessages(w, cfg, b.keys, ds),
        Settled(w, cfg, b.vals, objs, n))
  }

  /**
   Where an error at metric number `i` leaves keys and metrics: those before it are done with, those
   after it untouched, and it is itself as it came if it has no interval, else as the first topic
   that causes an error saw it.
   */
  ghost predicate StoppedAt<T>(w: World, cfg: Config, b: Batch<T>, objs: seq<T>, i: nat, st: Batch<T>)
    requires i < |objs| && forall o :: o in objs ==> o in b.vals
  {
    var p := BatchAfter(w, cfg, b, objs, i);
    var o, d := objs[i], Turn(w, cfg, b.vals, objs, i);
    if Deduce(w, cfg, b.vals[o]).None? then st.keys == p.keys && st.vals == p.vals
    else exists j :: 0 <= j < |cfg.topics| && FailsFirst(w, cfg, d, j) && Takes(cfg.topics[j], d)
                     && st.vals == p.vals[o := MadeAt(w, cfg, d, j)]
                     && st.keys == p.keys + AsSet(Touches(w, cfg, d, j + 1))
  }

  lemma {:induction false} AtTurn<T>(w: World, cfg: Config, vals: map<T, Metric>, objs: seq<T>, i: nat)
    requires i < |objs| && objs[i] in vals
    ensures var u := Settled(w, cfg, vals, objs, i)[objs[i]];
            if Deduce(w, cfg, vals[objs[i]]).Some?
            then Deduce(w, cfg, u) == Some(Turn(w, cfg, vals, objs, i))
                 && FormAfter(w, cfg, Turn(w, cfg, vals, objs, i), |cfg.topics|) == Settle(w, cfg, vals[objs[i]])
                 && Settled(w, cfg, vals, objs, i)[objs[i] := Settle(w, cfg, vals[objs[i]])] ==
                    Settled(w, cfg, vals, objs, i + 1)
            else Deduce(w, cfg, u).None?
                 && Settled(w, cfg, vals, objs, i)[objs[i] := u] == Settled(w, cfg, vals, objs, i)
  {
    hide FormAfter, Canon;
    var m := vals[objs[i]];
    assert objs[..i + 1] == objs[..i] + [objs[i]];
    if Deduce(w, cfg, m).Some? {
      SettleTwice(w, cfg, m);
    } else {
      FormFacts(w, cfg, m, |cfg.topics|);
    }
  }

  /** One more metric. */
  lemma {:induction false} MetricMeans<T>(w: World, cfg: Config, b: Batch<T>, objs: seq<T>, i: nat)
    requires i < |objs| && forall o :: o in objs ==> o in b.vals
    ensures var r := MetricStep(w, cfg, BatchAfter(w, cfg, b, objs, i), objs[i]);
            && (r.Go? <==> TurnPasses(w, cfg, b.vals, objs, i))
            && (r.Go? ==> r.st == BatchAfter(w, cfg, b, objs, i + 1))
            && (r.Stop? ==> StoppedAt(w, cfg, b, objs, i, r.st))
  {
    hide FormAfter, Canon, Messages, Touches, Topics, Settled, Settle, Turn, Deduce, Passes, PassesAt, KeysAfter,
         BatchMessages, FailsFirst;
    var p, d := BatchAfter(w, cfg, b, objs, i), Turn(w, cfg, b.vals, objs, i);
    AtTurn(w, cfg, b.vals, objs, i);
    if Deduce(w, cfg, b.vals[objs[i]]).Some? {
      var start := Start(d, p.keys, p.payload);
      LoopMeans(w, cfg, d, start, |cfg.topics|);
      NextTurn(w, cfg, b, objs, i);
    }
  }

  lemma {:induction false} NextTurn<T>(w: World, cfg: Config, b: Batch<T>, objs: seq<T>, i: nat)
    requires i < |objs| && forall o :: o in objs ==> o in b.vals
    ensures var p, d := BatchAfter(w, cfg, b, objs, i), Turn(w, cfg, b.vals, objs, i);
            BatchAfter(w, cfg, b, objs, i + 1) ==
            Batch(p.keys + AsSet(Touches(w, cfg, d, |cfg.topics|)),
                  p.payload + Messages(w, cfg, p.keys, d, |cfg.topics|), Settled(w, cfg, b.vals, objs, i + 1))
  {
    hide Messages, Touches, Settled, Turn, KeysAfter, BatchMessages;
    var ds, d := Turns(w, cfg, b.vals, objs, i), Turn(w, cfg, b.vals, objs, i);
    assert Turns(w, cfg, b.vals, objs, i + 1) == ds + [d];
    BatchSnoc(w, cfg, b.keys, ds, d);
    var sofar, more := BatchMessages(w, cfg, b.keys, ds),
        Messages(w, cfg, KeysAfter(w, cfg, b.keys, ds), d, |cfg.topics|);
    assert b.payload + (sofar + more) == b.payload + sofar + more;
  }

  /**
   The batch loop, for all metrics: it reaches the end exactly if every metric has or gets an
   interval and every topic passes it. Keys, messages and metrics are then those of `BatchAfter`;
   otherwise keys and metrics are as the first metric that causes an error leaves them.
   */
  lemma {:induction false} BatchMeans<T>(w: World, cfg: Config, b: Batch<T>, objs: seq<T>, n: nat)
    requires n <= |objs| && forall o :: o in objs ==> o in b.vals
    ensures var r := Metrics(w, cfg, b, objs, n);
            && (r.Go? <==> BatchPasses(w, cfg, b.vals, objs, n))
            && (r.Go? ==> r.st == BatchAfter(w, cfg, b, objs, n))
            && (r.Stop? ==> exists i :: 0 <= i < n && BatchPasses(w, cfg, b.vals, objs, i)
                                        && !TurnPasses(w, cfg, b.vals, objs, i) && StoppedAt(w, cfg, b, objs, i, r.st))
  {
    hide MetricStep, TurnPasses, StoppedAt, BatchAfter;
    if n == 0 {
      NothingYet(w, cfg, b, objs);
    } else {
      BatchMeans(w, cfg, b, objs, n - 1);
      if BatchPasses(w, cfg, b.vals, objs, n - 1) {
        MetricMeans(w, cfg, b, objs, n - 1);
      }
    }
  }

  lemma {:induction false} NothingYet<T>(w: World, cfg: Config, b: Batch<T>, objs: seq<T>)
    requires forall o :: o in objs ==> o in b.vals
    ensures BatchAfter(w, cfg, b, objs, 0) == b
  {
    assert Settled(w, cfg, b.vals, objs, 0) == b.vals;
  }

  // ---- Calls on different metrics --------------------------------------------------------

  lemma {:induction false} SettledNamed(w: World, cfg: Config, ms: seq<Metric>, i: nat, q: nat)
    requires i <= |ms| && q < |ms|
    ensures Settled(w, cfg, Named(ms), Indices(|ms|), i)[q] == if q < i then Settle(w, cfg, ms[q]) else ms[q]
  {
    hide Settle;
    var objs := Indices(|ms|);
    assert q < i ==> objs[..i][q] == q;
    assert q >= i ==> q !in objs[..i];
  }

  lemma {:induction false} TurnNamed(w: World, cfg: Config, ms: seq<Metric>, i: nat)
    requires i < |ms|
    ensures Turn(w, cfg, Named(ms), Indices(|ms|), i) == Filled(w, cfg, ms[i])
  {
    hide Settle, Filled;
    var objs := Indices(|ms|);
    assert objs[i] == i && i !in objs[..i];
  }

  /** Metric number `i` is the first that makes the call stop with an error. */
  predicate StopsAt(w: World, cfg: Config, ms: seq<Metric>, i: nat)
    requires i < |ms|
  {
    BatchPasses(w, cfg, Named(ms), Indices(|ms|), i) && !TurnPasses(w, cfg, Named(ms), Indices(|ms|), i)
  }

  /** The metric as the topic that stops it saw it, or as it came if it has no interval. */
  ghost predicate StoppedForm(w: World, cfg: Config, m: Metric, left: Metric) {
    if Deduce(w, cfg, m).None? then left == m
    else exists j :: 0 <= j < |cfg.topics| && FailsFirst(w, cfg, Filled(w, cfg, m), j)
                     && left == MadeAt(w, cfg, Filled(w, cfg, m), j)
  }

  lemma {:induction false} CalledSettles(w: World, cfg: Config, keys: set<MKey>, ms: seq<Metric>, q: nat)
    requires Called(w, cfg, keys, ms).Go? && q < |ms|
    ensures Called(w, cfg, keys, ms).st.vals[q] == Settle(w, cfg, ms[q])
  {
    hide Metrics, Settled, BatchPasses, KeysAfter, BatchMessages, Settle;
    BatchMeans(w, cfg, Batch(keys, [], Named(ms)), Indices(|ms|), |ms|);
    SettledNamed(w, cfg, ms, |ms|, q);
  }

  lemma {:induction false} CalledStops(w: World, cfg: Config, keys: set<MKey>, ms: seq<Metric>) returns (i: nat)
    requires Called(w, cfg, keys, ms).Stop?
    ensures i < |ms| && StopsAt(w, cfg, ms, i) && StoppedForm(w, cfg, ms[i], Called(w, cfg, keys, ms).st.vals[i])
    ensures forall q :: 0 <= q < i ==> Called(w, cfg, keys, ms).st.vals[q] == Settle(w, cfg, ms[q])
    ensures forall q :: i < q < |ms| ==> Called(w, cfg, keys, ms).st.vals[q] == ms[q]
  {
    hide Metrics, Settled, BatchPasses, TurnPasses, KeysAfter, BatchMessages, Settle, Filled, FailsFirst, MadeAt,
         Touches, Turn, Deduce;
    var b: Batch<nat>, objs: seq<nat> := Batch(keys, [], Named(ms)), Indices(|ms|);
    BatchMeans(w, cfg, b, objs, |ms|);
    var st := Called(w, cfg, keys, ms).st;
    i :| 0 <= i < |ms| && BatchPasses(w, cfg, b.vals, objs, i) && !TurnPasses(w, cfg, b.vals, objs, i) &&
        StoppedAt(w, cfg, b, objs, i, st);
    TurnNamed(w, cfg, ms, i);
    forall q: nat | q < |ms|
      ensures Settled<nat>(w, cfg, b.vals, objs, i)[q] == if q < i then Settle(w, cfg, ms[q]) else ms[q]
    {
      SettledNamed(w, cfg, ms, i, q);
    }
  }

  /** What a call leaves of its metrics. */
  lemma {:induction false} CalledLeaves(w: World, cfg: Config, keys: set<MKey>, ms: seq<Metric>)
    ensures var r := Called(w, cfg, keys, ms);
            && (r.Go? ==> forall q :: 0 <= q < |ms| ==> r.st.vals[q] == Settle(w, cfg, ms[q]))
            && (r.Stop? ==>
                  exists i :: 0 <= i < |ms| && StopsAt(w, cfg, ms, i) && StoppedForm(w, cfg, ms[i], r.st.vals[i])
                    && (forall q :: 0 <= q < i ==> r.st.vals[q] == Settle(w, cfg, ms[q]))
                    && (forall q :: i < q < |ms| ==> r.st.vals[q] == ms[q]))
  {
    hide Called, Settle, StopsAt, StoppedForm;
    if Called(w, cfg, keys, ms).Go? {
      forall q | 0 <= q < |ms| ensures Called(w, cfg, keys, ms).st.vals[q] == Settle(w, cfg, ms[q]) {
        CalledSettles(w, cfg, keys, ms, q);
      }
    } else {
      var i := CalledStops(w, cfg, keys, ms);
    }
  }

  /** Metric number `q` stops the call at a topic that rewrites its organisation. */
  ghost predicate ForeignAt(w: World, cfg: Config, ms: seq<Metric>, q: nat)
    requires q < |ms|
  {
    && StopsAt(w, cfg, ms, q) && Deduce(w, cfg, ms[q]).Some?
    && exists j :: 0 <= j < |cfg.topics| && FailsFirst(w, cfg, Filled(w, cfg, ms[q]), j)
                   && Effective(cfg.topics[j], ms[q].org) != ms[q].org
  }

  lemma {:induction false} SettleKeepsOrg(w: World, cfg: Config, m: Metric)
    ensures Filled(w, cfg, m).org == Settle(w, cfg, m).org == m.org
  {
    hide FormAfter;
    FormFacts(w, cfg, Filled(w, cfg, m), |cfg.topics|);
  }

  /** A call leaves a metric with another organisation in exactly that case. */
  lemma {:induction false} ForeignIff(w: World, cfg: Config, keys: set<MKey>, ms: seq<Metric>, q: nat)
    requires q < |ms|
    ensures Called(w, cfg, keys, ms).st.vals[q].org != ms[q].org <==> ForeignAt(w, cfg, ms, q)
  {
    hide Called, Settle, StopsAt, FailsFirst, MadeAt, Filled, Deduce;
    SettleKeepsOrg(w, cfg, ms[q]);
    if Called(w, cfg, keys, ms).Go? {
      CalledSettles(w, cfg, keys, ms, q);
      GoStopsNowhere(w, cfg, keys, ms, q);
    } else {
      var i := CalledStops(w, cfg, keys, ms);
      if i != q {
        StopsOnce(w, cfg, ms, i, q);
      } else if Deduce(w, cfg, ms[q]).Some? {
        var d := Filled(w, cfg, ms[q]);
        var j :| 0 <= j < |cfg.topics| && FailsFirst(w, cfg, d, j) &&
            Called(w, cfg, keys, ms).st.vals[q] == MadeAt(w, cfg, d, j);
        FormPartition(w, cfg, d, j);
        forall l | 0 <= l < |cfg.topics| && FailsFirst(w, cfg, d, l) ensures l == j {
          FailsOnce(w, cfg, d, j, l);
        }
      }
    }
  }

  lemma {:induction false} StopsOnce(w: World, cfg: Config, ms: seq<Metric>, i: nat, q: nat)
    requires i < |ms| && q < |ms| && StopsAt(w, cfg, ms, i)
    ensures StopsAt(w, cfg, ms, q) ==> i == q
  {
    hide TurnPasses;
  }

  lemma {:induction false} FailsOnce(w: World, cfg: Config, d: Metric, j: nat, l: nat)
    requires j < |cfg.topics| && l < |cfg.topics| && FailsFirst(w, cfg, d, j) && FailsFirst(w, cfg, d, l)
    ensures j == l
  {
    hide PassesAt;
  }

  lemma {:induction false} GoStopsNowhere(w: World, cfg: Config, keys: set<MKey>, ms: seq<Metric>, q: nat)
    requires q < |ms| && Called(w, cfg, keys, ms).Go?
    ensures !StopsAt(w, cfg, ms, q)
  {
    hide Metrics, TurnPasses;
    BatchMeans(w, cfg, Batch(keys, [], Named(ms)), Indices(|ms|), |ms|);
  }

  /** A metric whose only topic rewrites it to an organisation that has no key. */
  lemma {:induction false} SingleDropped(w: World, cfg: Config, keys: set<MKey>, m: Metric, t: Topic)
    requires cfg == Config(true, true, true, [t]) && m.org == 1 && m.interval == 0
    requires t.discardPrefixes == [] && t.onlyOrg == 1 && t.rewrite == Rewrite(1, 0x1_0000_0000)
    ensures var r := Called(w, cfg, keys, [m]); r.Stop? && r.st.vals[0].org == 0x1_0000_0000
  {
    hide Called, Sort, StoppedForm, StopsAt;
    var d := Filled(w, cfg, m);
    assert Orgs(cfg, d, 0) == {} && Makes(cfg, d, 0);
    assert KeyAt(w, cfg, d, 0) == None && !PassesAt(w, cfg, d, 0);
    FailsTurn(w, cfg, m, 0);
    if Called(w, cfg, keys, [m]).Go? {
      GoStopsNowhere(w, cfg, keys, [m], 0);
    } else {
      var i := CalledStops(w, cfg, keys, [m]);
      SingleForm(w, cfg, m, Called(w, cfg, keys, [m]).st.vals[0]);
    }
  }

  lemma {:induction false} FailsTurn(w: World, cfg: Config, m: Metric, j: nat)
    requires j < |cfg.topics| && !PassesAt(w, cfg, Filled(w, cfg, m), j)
    ensures StopsAt(w, cfg, [m], 0)
  {
    hide PassesAt, Filled;
    TurnNamed(w, cfg, [m], 0);
  }

  lemma {:induction false} SingleForm(w: World, cfg: Config, m: Metric, left: Metric)
    requires |cfg.topics| == 1 && Deduce(w, cfg, m).Some? && StoppedForm(w, cfg, m, left)
    ensures left.org == Effective(cfg.topics[0], m.org)
  {
    hide FailsFirst, MadeAt;
    FormPartition(w, cfg, Filled(w, cfg, m), 0);
    SettleKeepsOrg(w, cfg, m);
  }

  /** A metric that no topic takes: the call succeeds and sends nothing. */
  lemma {:induction false} SingleUntaken(w: World, cfg: Config, keys: set<MKey>, m: Metric, t: Topic)
    requires cfg == Config(true, true, true, [t]) && t.onlyOrg != 0 && t.onlyOrg != m.org
    ensures var r := Called(w, cfg, keys, [m]); r.Go? && r.st.payload == []
  {
    hide Sort, Metrics, Canon;
    var b: Batch<nat>, objs: seq<nat> := Batch(keys, [], Named([m])), Indices(1);
    TurnNamed(w, cfg, [m], 0);
    SettleKeepsOrg(w, cfg, m);
    var d := Filled(w, cfg, m);
    BatchMeans(w, cfg, b, objs, 1);
    assert !Takes(t, d) && PassesAt(w, cfg, d, 0);
    assert BatchPasses(w, cfg, b.vals, objs, 1);
    assert Turns(w, cfg, b.vals, objs, 1) == [] + [d];
    BatchSnoc(w, cfg, keys, [], d);
    assert Messages(w, cfg, KeysAfter(w, cfg, keys, []), d, 1) == [];
  }

  /** For different objects it does not matter what they are called. */
  lemma {:induction false} CalledAnyway<T>(w: World, cfg: Config, b: Batch<T>, objs: seq<T>, ms: seq<Metric>, n: nat)
    requires b.payload == [] && (forall o :: o in objs ==> o in b.vals) && n <= |objs| == |ms|
    requires forall i, j :: 0 <= i < j < |objs| ==> objs[i] != objs[j]
    requires forall i :: 0 <= i < |objs| ==> b.vals[objs[i]] == ms[i]
    ensures var r, q := Metrics(w, cfg, b, objs, n),
            Metrics<nat>(w, cfg, Batch(b.keys, [], Named(ms)), Indices(|ms|), n);
            && (r.Go? <==> q.Go?) && r.st.keys == q.st.keys && r.st.payload == q.st.payload
            && (r.Go? ==> forall i: nat :: n <= i < |ms| ==> r.st.vals[objs[i]] == ms[i] && q.st.vals[i] == ms[i])
  {
    hide MetricStep, Metrics;
    var d: Batch<nat>, names: seq<nat> := Batch(b.keys, [], Named(ms)), Indices(|ms|);
    MetricsUnroll<T>(w, cfg, b, objs, n);
    MetricsUnroll<nat>(w, cfg, d, names, n);
    if n > 0 {
      CalledAnyway(w, cfg, b, objs, ms, n - 1);
      var r, q := Metrics(w, cfg, b, objs, n - 1), Metrics<nat>(w, cfg, d, names, n - 1);
      if r.Go? {
        StepAnyway<T>(w, cfg, r.st, objs[n - 1], q.st, n - 1);
      }
    }
  }

  lemma {:induction false} MetricsUnroll<T>(w: World, cfg: Config, b: Batch<T>, objs: seq<T>, n: nat)
    requires n <= |objs| && forall o :: o in objs ==> o in b.vals
    ensures n == 0 ==> Metrics(w, cfg, b, objs, n) == Go(b)
    ensures n > 0 && Metrics(w, cfg, b, objs, n - 1).Stop? ==>
            Metrics(w, cfg, b, objs, n) == Metrics(w, cfg, b, objs, n - 1)
    ensures n > 0 && Metrics(w, cfg, b, objs, n - 1).Go? ==>
              Metrics(w, cfg, b, objs, n) == MetricStep(w, cfg, Metrics(w, cfg, b, objs, n - 1).st, objs[n - 1])
  {
    hide MetricStep;
  }

  lemma {:induction false} StepAnyway<T>(w: World, cfg: Config, c: Batch<T>, o: T, d: Batch<nat>, i: nat)
    requires c.keys == d.keys && c.payload == d.payload && o in c.vals && i in d.vals && c.vals[o] == d.vals[i]
    ensures var r, q := MetricStep(w, cfg, c, o), MetricStep(w, cfg, d, i);
            && (r.Go? <==> q.Go?) && r.st.keys == q.st.keys && r.st.payload == q.st.payload
            && (forall x :: x in c.vals && x != o ==> x in r.st.vals && r.st.vals[x] == c.vals[x])
            && (forall x: nat :: x in d.vals && x != i ==> x in q.st.vals && q.st.vals[x] == d.vals[x])
  {
    hide Through;
  }

  // ---- The keys a call touches -----------------------------------------------------------

  /** The metric gets through on its own. */
  predicate Passing(w: World, cfg: Config, m: Metric) {
    Deduce(w, cfg, m).Some? && Passes(w, cfg, Filled(w, cfg, m), |cfg.topics|)
  }

  predicate AllPassing(w: World, cfg: Config, ms: seq<Metric>) {
    forall i :: 0 <= i < |ms| ==> Passing(w, cfg, ms[i])
  }

  /** How many of the first `n` topics are looked at: up to the first that causes an error, if there is one. */
  function Visited(w: World, cfg: Config, v: Metric, n: nat): (r: nat)
    requires n <= |cfg.topics|
    ensures r <= n
  {
    if n == 0 then 0 else if Passes(w, cfg, v, n - 1) then n else Visited(w, cfg, v, n - 1)
  }

  function MetricTouches(w: World, cfg: Config, m: Metric): set<MKey> {
    match Deduce(w, cfg, m)
    case None => {}
    case Some(d) => AsSet(Touches(w, cfg, d, Visited(w, cfg, d, |cfg.topics|)))
  }

  /** The keys that a call touches, told from its metrics alone: those after one that fails touch none. */
  function CallTouches(w: World, cfg: Config, ms: seq<Metric>): set<MKey> {
    if ms == [] then {} else
    var init := ms[..|ms| - 1];
    CallTouches(w, cfg, init) + if AllPassing(w, cfg, init) then MetricTouches(w, cfg, ms[|ms| - 1]) else {}
  }

  lemma {:induction false} VisitedAll(w: World, cfg: Config, v: Metric, n: nat)
    requires n <= |cfg.topics| && Passes(w, cfg, v, n)
    ensures Visited(w, cfg, v, n) == n
  {
    hide PassesAt;
  }

  lemma {:induction false} VisitedUntil(w: World, cfg: Config, v: Metric, n: nat, j: nat)
    requires j < n <= |cfg.topics| && FailsFirst(w, cfg, v, j)
    ensures Visited(w, cfg, v, n) == j + 1
  {
    hide PassesAt;
    if j + 1 < n {
      VisitedUntil(w, cfg, v, n - 1, j);
    }
  }

  lemma {:induction false} CallTouchesNext(w: World, cfg: Config, ms: seq<Metric>, n: nat)
    requires n < |ms|
    ensures CallTouches(w, cfg, ms[..n + 1]) ==
            CallTouches(w, cfg, ms[..n]) + if AllPassing(w, cfg, ms[..n]) then MetricTouches(w, cfg, ms[n]) else {}
  {
    hide AllPassing, MetricTouches;
    assert ms[..n + 1][..n] == ms[..n];
  }

  lemma {:induction false} TouchesStop(w: World, cfg: Config, ms: seq<Metric>, i: nat, n: nat)
    requires i < n <= |ms| && !Passing(w, cfg, ms[i])
    ensures CallTouches(w, cfg, ms[..n]) == CallTouches(w, cfg, ms[..i + 1])
  {
    hide Passing, MetricTouches, CallTouches;
    if i + 1 < n {
      TouchesStop(w, cfg, ms, i, n - 1);
      CallTouchesNext(w, cfg, ms, n - 1);
      assert ms[..n - 1][i] == ms[i];
    }
  }

  lemma {:induction false} TurnPassing(w: World, cfg: Config, ms: seq<Metric>, i: nat)
    requires i < |ms|
    ensures TurnPasses(w, cfg, Named(ms), Indices(|ms|), i) <==> Passing(w, cfg, ms[i])
  {
    hide Passes, Filled, Turn;
    TurnNamed(w, cfg, ms, i);
  }

  lemma {:induction false} BatchPassing(w: World, cfg: Config, ms: seq<Metric>, n: nat)
    requires n <= |ms|
    ensures BatchPasses(w, cfg, Named(ms), Indices(|ms|), n) <==> AllPassing(w, cfg, ms[..n])
  {
    hide TurnPasses, Passing;
    forall i: nat | i < n ensures TurnPasses<nat>(w, cfg, Named(ms), Indices(|ms|), i) <==>
           Passing(w, cfg, ms[..n][i]) {
      TurnPassing(w, cfg, ms, i);
    }
  }

  lemma {:induction false} KeysWhilePassing(w: World, cfg: Config, keys: set<MKey>, ms: seq<Metric>, n: nat)
    requires n <= |ms| && AllPassing(w, cfg, ms[..n])
    ensures KeysAfter(w, cfg, keys, Turns(w, cfg, Named(ms), Indices(|ms|), n)) == keys + CallTouches(w, cfg, ms[..n])
  {
    hide Passes, Filled, Turn, Touches, AsSet, KeysAfter, CallTouches, Visited;
    var vals: map<nat, Metric>, objs: seq<nat> := Named(ms), Indices(|ms|);
    if n == 0 {
      NoMetricNoKey(w, cfg, keys);
    } else {
      var d := Turn(w, cfg, vals, objs, n - 1);
      assert AllPassing(w, cfg, ms[..n - 1]) by {
        assert forall i :: 0 <= i < n - 1 ==> ms[..n - 1][i] == ms[..n][i];
      }
      assert Passing(w, cfg, ms[n - 1]) by {
        assert ms[..n][n - 1] == ms[n - 1];
      }
      KeysWhilePassing(w, cfg, keys, ms, n - 1);
      CallTouchesNext(w, cfg, ms, n - 1);
      TurnNamed(w, cfg, ms, n - 1);
      FilledSome(w, cfg, ms[n - 1]);
      VisitedAll(w, cfg, d, |cfg.topics|);
      BatchSnoc(w, cfg, keys, Turns(w, cfg, vals, objs, n - 1), d);
      assert Turns(w, cfg, vals, objs, n) == Turns(w, cfg, vals, objs, n - 1) + [d];
    }
  }

  lemma {:induction false} NoMetricNoKey(w: World, cfg: Config, keys: set<MKey>)
    ensures KeysAfter(w, cfg, keys, []) == keys && CallTouches(w, cfg, []) == {}
  {
  }

  lemma {:induction false} FilledSome(w: World, cfg: Config, m: Metric)
    ensures Deduce(w, cfg, m).Some? ==> Deduce(w, cfg, m) == Some(Filled(w, cfg, m))
  {
  }

  /** A call gets through exactly if each of its metrics would, and adds exactly `CallTouches` to the keys. */
  lemma {:induction false} CalledKeys(w: World, cfg: Config, keys: set<MKey>, ms: seq<Metric>)
    ensures Called(w, cfg, keys, ms).Go? <==> AllPassing(w, cfg, ms)
    ensures Called(w, cfg, keys, ms).st.keys == keys + CallTouches(w, cfg, ms)
  {
    hide Metrics, AllPassing, BatchPasses, TurnPasses, Passing, KeysAfter, CallTouches, BatchMessages, Settled,
         StoppedAt;
    var b: Batch<nat>, objs: seq<nat> := Batch(keys, [], Named(ms)), Indices(|ms|);
    BatchMeans(w, cfg, b, objs, |ms|);
    BatchPassing(w, cfg, ms, |ms|);
    assert ms[..|ms|] == ms;
    var r := Called(w, cfg, keys, ms);
    if r.Go? {
      KeysWhilePassing(w, cfg, keys, ms, |ms|);
    } else {
      var i: nat :| i < |ms| && BatchPasses(w, cfg, b.vals, objs, i) && !TurnPasses(w, cfg, b.vals, objs, i)
                    && StoppedAt(w, cfg, b, objs, i, r.st);
      StoppedKeys(w, cfg, keys, ms, i, r.st);
    }
  }

  lemma {:induction false} StoppedKeys(w: World, cfg: Config, keys: set<MKey>, ms: seq<Metric>, i: nat, st: Batch<nat>)
    requires i < |ms| && BatchPasses(w, cfg, Named(ms), Indices(|ms|), i) &&
             !TurnPasses(w, cfg, Named(ms), Indices(|ms|), i)
    requires StoppedAt(w, cfg, Batch(keys, [], Named(ms)), Indices(|ms|), i, st)
    ensures st.keys == keys + CallTouches(w, cfg, ms)
  {
    hide AllPassing, BatchPasses, TurnPasses, Passing, KeysAfter, CallTouches, BatchMessages, Settled, Filled, Turn,
         Touches, AsSet,
         FailsFirst, MadeAt, Deduce, Visited;
    TurnPassing(w, cfg, ms, i);
    BatchPassing(w, cfg, ms, i);
    KeysWhilePassing(w, cfg, keys, ms, i);
    CallTouchesNext(w, cfg, ms, i);
    TouchesStop(w, cfg, ms, i, |ms|);
    assert ms[..|ms|] == ms;
    TurnNamed(w, cfg, ms, i);
    FilledSome(w, cfg, ms[i]);
    if Deduce(w, cfg, ms[i]).Some? {
      var d := Filled(w, cfg, ms[i]);
      var j :| 0 <= j < |cfg.topics| && FailsFirst(w, cfg, d, j)
               && st.keys == KeysAfter(w, cfg, keys,
                  Turns(w, cfg, Named(ms), Indices(|ms|), i)) + AsSet(Touches(w, cfg, d, j + 1));
      VisitedUntil(w, cfg, d, |cfg.topics|, j);
    }
  }

  // ---- What a batch carries --------------------------------------------------------------

  /** Every message of a batch is made for some metric of it and some topic that takes that metric. */
  lemma {:induction false} BatchMessageOf(w: World, cfg: Config, keys: set<MKey>, ds: seq<Metric>, x: Message)
    returns (i: nat, j: nat, before: set<MKey>)
    requires x in BatchMessages(w, cfg, keys, ds)
    ensures i < |ds| && j < |cfg.topics| && Takes(cfg.topics[j], ds[i])
    ensures before == KeysAfter(w, cfg, keys, ds[..i]) && x == MessageAt(w, cfg, before, ds[i], j)
  {
    hide MessageAt, KeysAfter, Messages, Accepts;
    var init, d := ds[..|ds| - 1], ds[|ds| - 1];
    if x in BatchMessages(w, cfg, keys, init) {
      i, j, before := BatchMessageOf(w, cfg, keys, init, x);
      assert init[..i] == ds[..i] && init[i] == ds[i];
    } else {
      i, before := |ds| - 1, KeysAfter(w, cfg, keys, init);
      MessagesAre(w, cfg, before, d, |cfg.topics|);
      var k :| 0 <= k < |Messages(w, cfg, before, d, |cfg.topics|)| &&
          Messages(w, cfg, before, d, |cfg.topics|)[k] == x;
      j := Taking(cfg, d, |cfg.topics|)[k];
    }
  }

  lemma {:induction false} BatchCarries(w: World, cfg: Config, keys: set<MKey>, ds: seq<Metric>)
    ensures forall x :: x in BatchMessages(w, cfg, keys, ds) ==> exists d :: d in ds && Carries(cfg, d, x.wire)
  {
    hide MessageAt, KeysAfter, BatchMessages, Carries, Accepts;
    forall x | x in BatchMessages(w, cfg, keys, ds) ensures exists d :: d in ds && Carries(cfg, d, x.wire) {
      var i, j, before := BatchMessageOf(w, cfg, keys, ds, x);
      MessageCarries(w, cfg, before, ds[i], j);
    }
  }

  lemma {:induction false} TurnCarries<T>(w: World, cfg: Config, vals: map<T, Metric>, objs: seq<T>, i: nat, wire: Wire)
    requires i < |objs| && objs[i] in vals && Carries(cfg, Turn(w, cfg, vals, objs, i), wire)
    ensures Carries(cfg, vals[objs[i]], wire)
  {
    hide FormAfter, Sort;
    FormFacts(w, cfg, Filled(w, cfg, vals[objs[i]]), |cfg.topics|);
  }

  /** Every message of a call that gets through carries value and time of a metric of the call. */
  lemma {:induction false} CallCarries<T>(w: World, cfg: Config, b: Batch<T>, objs: seq<T>)
    requires b.payload == [] && (forall o :: o in objs ==> o in b.vals) && Metrics(w, cfg, b, objs, |objs|).Go?
    ensures forall x :: x in Metrics(w, cfg, b, objs, |objs|).st.payload ==>
              exists o :: o in objs && Carries(cfg, b.vals[o], x.wire)
  {
    hide Metrics, BatchMessages, Carries, Turn, KeysAfter, Settled, BatchPasses;
    BatchMeans(w, cfg, b, objs, |objs|);
    var ds := Turns(w, cfg, b.vals, objs, |objs|);
    BatchCarries(w, cfg, b.keys, ds);
    forall x | x in Metrics(w, cfg, b, objs, |objs|).st.payload
      ensures exists o :: o in objs && Carries(cfg, b.vals[o], x.wire)
    {
      assert x in BatchMessages(w, cfg, b.keys, ds);
      var d :| d in ds && Carries(cfg, d, x.wire);
      var i :| 0 <= i < |ds| && ds[i] == d;
      TurnCarries(w, cfg, b.vals, objs, i, x.wire);
    }
  }

  // ---- The counters ----------------------------------------------------------------------

  /** Every message goes to a configured topic. */
  lemma {:induction false} MessagesConfigured(w: World, cfg: Config, keys: set<MKey>, ds: seq<Metric>, m: Message)
    requires m in BatchMessages(w, cfg, keys, ds)
    ensures exists j :: 0 <= j < |cfg.topics| && cfg.topics[j].name == m.topic
  {
    hide MessageAt, KeysAfter, Messages;
    var init, d := ds[..|ds| - 1], ds[|ds| - 1];
    if m in BatchMessages(w, cfg, keys, init) {
      MessagesConfigured(w, cfg, keys, init, m);
    } else {
      var before, n := KeysAfter(w, cfg, keys, init), |cfg.topics|;
      MessagesAre(w, cfg, before, d, n);
      var k :| 0 <= k < |Messages(w, cfg, before, d, n)| && Messages(w, cfg, before, d, n)[k] == m;
      MessageName(w, cfg, before, d, Taking(cfg, d, n)[k]);
    }
  }

  lemma {:induction false} MessageName(w: World, cfg: Config, keys: set<MKey>, v: Metric, j: nat)
    requires j < |cfg.topics| && Takes(cfg.topics[j], v)
    ensures MessageAt(w, cfg, keys, v, j).topic == cfg.topics[j].name
  {
  }

  /**
   What any successful call reports is at least the number of messages it sent, and is that number
   exactly if no message's topic name is configured more than once.
   */
  lemma {:induction false} CallCounted<T>(w: World, cfg: Config, b: Batch<T>, objs: seq<T>)
    requires b.payload == [] && (forall o :: o in objs ==> o in b.vals) && Metrics(w, cfg, b, objs, |objs|).Go?
    ensures var ms := Metrics(w, cfg, b, objs, |objs|).st.payload;
            && Reported(cfg.topics, ms) >= |ms|
            && (Reported(cfg.topics, ms) == |ms| <==> forall m :: m in ms ==> Occurrences(cfg.topics, m.topic) == 1)
  {
    hide Metrics, BatchMessages, Reported, Occurrences;
    var n := |objs|;
    BatchMeans(w, cfg, b, objs, n);
    var ds := Turns(w, cfg, b.vals, objs, n);
    var ms := Metrics(w, cfg, b, objs, n).st.payload;
    assert ms == BatchMessages(w, cfg, b.keys, ds);
    forall m | m in ms
      ensures exists j :: 0 <= j < |cfg.topics| && cfg.topics[j].name == m.topic
    {
      MessagesConfigured(w, cfg, b.keys, ds, m);
    }
    CountersAddUp(cfg.topics, ms);
  }

  /** With distinct topic names it is always that number. */
  lemma {:induction false} DistinctNamesCounted<T>(w: World, cfg: Config, b: Batch<T>, objs: seq<T>)
    requires b.payload == [] && (forall o :: o in objs ==> o in b.vals) && Metrics(w, cfg, b, objs, |objs|).Go?
    requires forall i, k :: 0 <= i < k < |cfg.topics| ==> cfg.topics[i].name != cfg.topics[k].name
    ensures var ms := Metrics(w, cfg, b, objs, |objs|).st.payload; Reported(cfg.topics, ms) == |ms|
  {
    hide Metrics, Reported, Occurrences;
    OnceConfigured(w, cfg, b, objs);
    CallCounted(w, cfg, b, objs);
  }

  lemma {:induction false} OnceConfigured<T>(w: World, cfg: Config, b: Batch<T>, objs: seq<T>)
    requires b.payload == [] && (forall o :: o in objs ==> o in b.vals) && Metrics(w, cfg, b, objs, |objs|).Go?
    requires forall i, k :: 0 <= i < k < |cfg.topics| ==> cfg.topics[i].name != cfg.topics[k].name
    ensures forall m :: m in Metrics(w, cfg, b, objs, |objs|).st.payload ==> Occurrences(cfg.topics, m.topic) == 1
  {
    hide Metrics, BatchMessages;
    BatchMeans(w, cfg, b, objs, |objs|);
    var ds := Turns(w, cfg, b.vals, objs, |objs|);
    forall m | m in BatchMessages(w, cfg, b.keys, ds)
      ensures Occurrences(cfg.topics, m.topic) == 1
    {
      MessagesConfigured(w, cfg, b.keys, ds, m);
      var j :| 0 <= j < |cfg.topics| && cfg.topics[j].name == m.topic;
      OccursOnce(cfg.topics, j);
    }
  }

  /** And each counter counts the messages of its kind. */
  lemma {:induction false} CallCountedByKind<T>(w: World, cfg: Config, b: Batch<T>, objs: seq<T>)
    requires b.payload == [] && (forall o :: o in objs ==> o in b.vals) && Metrics(w, cfg, b, objs, |objs|).Go?
    requires forall i, k :: 0 <= i < k < |cfg.topics| ==> cfg.topics[i].name != cfg.topics[k].name
    ensures var ms := Metrics(w, cfg, b, objs, |objs|).st.payload;
            && KindReported(cfg.topics, ms, MetricData) == Fulls(ms)
            && KindReported(cfg.topics, ms, MetricPoint) == Points(ms)
            && KindReported(cfg.topics, ms, MetricPointNoOrg) == PointsNoOrg(ms)
  {
    hide Metrics, Occurrences, KindReported;
    OnceConfigured(w, cfg, b, objs);
    KindsReported(cfg.topics, Metrics(w, cfg, b, objs, |objs|).st.payload);
  }
}
