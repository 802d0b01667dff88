/**
 What one `Publish` call does, step by step on values: the state threaded through the loop
 over metrics and the loop over topics, including where an error leaves it. The methods of
 module Publisher are proved to compute exactly this; what it amounts to is proved in
 modules PublishForms, PublishBatch, PublishMeaning and PublishRuns.
 */
module PublishSpec {
  import opened Keys
  import opened Text
  import opened Schema
  import opened TopicSettings

  datatype Config = Config(v2: bool, v2Org: bool, autoInterval: bool, topics: seq<Topic>)

  /** Message contents: a full metric, or a point that only names its key. */
  datatype Wire =
    | Full(metric: Metric)
    | Point(mkey: MKey, value: real, time: Uint32)
    | PointNoOrg(key: Key, value: real, time: Uint32)

  datatype Message = Message(topic: string, partition: int, wire: Wire)

  // ---- Which topics, and as whom ---------------------------------------------------------

  predicate Accepts(t: Topic, name: string, org: int) {
    && (forall p :: p in t.discardPrefixes ==> !(p <= name))
    && (t.onlyOrg == 0 || org == t.onlyOrg)
  }

  /** The organisation a topic sees. */
  function Effective(t: Topic, org: int): int {
    if org == t.rewrite.source then t.rewrite.target else org
  }

  predicate ByTags(m: Method) {
    m.BySeriesWithTags? || m.BySeriesWithTagsFnv?
  }

  /** A partition depends on the organisation, or on the name, or on the name and sorted tags. */
  function PartitionOf(w: World, t: Topic, m: Metric): Option<int> {
    w.partition(t.method_,
                if t.method_.ByOrg? then m.org else 0,
                if t.method_.ByOrg? then "" else m.name,
                if ByTags(t.method_) then Sort(m.tags) else [],
                t.numPartitions)
  }

  // ---- One metric ------------------------------------------------------------------------

  /** A missing interval is looked up, and the id set anew; without a lookup it is an error. */
  function Deduce(w: World, cfg: Config, m: Metric): Option<Metric> {
    if m.interval != 0 then Some(m)
    else if cfg.autoInterval then Some(Canon(w, m.(interval := w.secondsPerPoint(m.name))))
    else None
  }

  /**
   The metric in its current form, the buffers made for it by organisation, the keys seen,
   the messages so far, and the calls of `Touch` made for it.
   */
  datatype Prep = Prep(cur: Metric, memo: map<int, Wire>, keys: set<MKey>, payload: seq<Message>, touches: seq<MKey>)

  datatype Progress<T> = Go(st: T) | Stop(st: T)

  function PointOf(cfg: Config, k: MKey, m: Metric): Wire {
    if cfg.v2Org then Point(k, m.value, m.time % 0x1_0000_0000)
    else PointNoOrg(k.key, m.value, m.time % 0x1_0000_0000)
  }

  /** `dataFromMetricData`: a point when the key was seen, otherwise the metric in full. */
  function Encode(cfg: Config, p: Prep): (r: Progress<(Prep, Wire)>)
    ensures r.st.0.cur == p.cur && r.st.0.payload == p.payload && r.st.0.memo == p.memo
  {
    if !cfg.v2 then Go((p, Full(p.cur))) else
    match ParseKey(p.cur.id)
    case None => Stop((p, Full(p.cur)))
    case Some(k) =>
      Go((p.(keys := p.keys + {k}, touches := p.touches + [k]),
          if k in p.keys then PointOf(cfg, k, p.cur) else Full(p.cur)))
  }

  /** The buffer for the current organisation, made at most once per metric. */
  function Buffered(cfg: Config, p: Prep): (r: Progress<(Prep, Wire)>)
    ensures r.st.0.cur == p.cur && r.st.0.payload == p.payload
  {
    if p.cur.org in p.memo then Go((p, p.memo[p.cur.org])) else
    match Encode(cfg, p)
    case Stop(r) => Stop(r)
    case Go((q, wire)) => Go((q.(memo := q.memo[q.cur.org := wire]), wire))
  }

  function Rewritten(w: World, t: Topic, m: Metric): Metric {
    if m.org == t.rewrite.source then Canon(w, m.(org := t.rewrite.target)) else m
  }

  function Partitioned(t: Topic, m: Metric): Metric {
    if ByTags(t.method_) then SortTags(m) else m
  }

  function Restored(w: World, m: Metric, org: int): Metric {
    if m.org != org then Canon(w, m.(org := org)) else m
  }

  /** One turn of the topic loop. */
  function TopicStep(w: World, cfg: Config, t: Topic, p: Prep): Progress<Prep> {
    if Accepts(t, p.cur.name, p.cur.org) then SendStep(w, cfg, t, p) else Go(p)
  }

  /** The turn of a topic that takes the metric. */
  function SendStep(w: World, cfg: Config, t: Topic, p: Prep): Progress<Prep> {
    var q := p.(cur := Rewritten(w, t, p.cur));
    match Buffered(cfg, q)
    case Stop((r, _)) => Stop(r)
    case Go((r, wire)) =>
      match PartitionOf(w, t, r.cur)
      case None => Stop(r)
      case Some(part) =>
        Go(r.(cur := Restored(w, Partitioned(t, r.cur), p.cur.org),
              payload := r.payload + [Message(t.name, part, wire)]))
  }

  /** The first `n` topics. */
  function Topics(w: World, cfg: Config, p: Prep, n: nat): Progress<Prep>
    requires n <= |cfg.topics|
  {
    if n == 0 then Go(p) else
    match Topics(w, cfg, p, n - 1)
    case Stop(q) => Stop(q)
    case Go(q) => TopicStep(w, cfg, cfg.topics[n - 1], q)
  }

  // ---- A batch ---------------------------------------------------------------------------

  /**
   The keys seen, the messages so far, and what the metrics have become. Metrics are named, so
   that a batch may list the same one twice.
   */
  datatype Batch<!T(==)> = Batch(keys: set<MKey>, payload: seq<Message>, vals: map<T, Metric>)

  function Start(m: Metric, keys: set<MKey>, payload: seq<Message>): Prep {
    Prep(m, map[], keys, payload, [])
  }

  /** One metric, through all topics. */
  function Through(w: World, cfg: Config, m: Metric, keys: set<MKey>, payload: seq<Message>): Progress<Prep> {
    match Deduce(w, cfg, m)
    case None => Stop(Start(m, keys, payload))
    case Some(d) => Topics(w, cfg, Start(d, keys, payload), |cfg.topics|)
  }

  /** One turn of the metric loop. */
  function MetricStep<T(==)>(w: World, cfg: Config, b: Batch<T>, o: T): Progress<Batch<T>>
    requires o in b.vals
  {
    match Through(w, cfg, b.vals[o], b.keys, b.payload)
    case Stop(q) => Stop(Batch(q.keys, q.payload, b.vals[o := q.cur]))
    case Go(q) => Go(Batch(q.keys, q.payload, b.vals[o := q.cur]))
  }

  /** The first `n` metrics of the list `objs`. */
  function Metrics<T(==)>(w: World, cfg: Config, b: Batch<T>, objs: seq<T>, n: nat): (r: Progress<Batch<T>>)
    requires n <= |objs| && forall o :: o in objs ==> o in b.vals
    ensures r.st.vals.Keys == b.vals.Keys
  {
    if n == 0 then Go(b) else
    match Metrics(w, cfg, b, objs, n - 1)
    case Stop(c) => Stop(c)
    case Go(c) => MetricStep(w, cfg, c, objs[n - 1])
  }

  /** What each of `n` metrics in a list is called when they are all different. */
  function Indices(n: nat): (s: seq<nat>)
    ensures |s| == n && forall i :: 0 <= i < n ==> s[i] == i
  {
    if n == 0 then [] else Indices(n - 1) + [n - 1]
  }

  function Named(ms: seq<Metric>): (vals: map<nat, Metric>)
    ensures forall i :: i in vals <==> 0 <= i < |ms|
    ensures forall i :: i in vals ==> vals[i] == ms[i]
  {
    map i: nat | 0 <= i < |ms| :: ms[i]
  }

  /** The loops of one call of `Publish` on different metrics. */
  function Called(w: World, cfg: Config, keys: set<MKey>, ms: seq<Metric>): (r: Progress<Batch<nat>>)
    ensures forall i :: i in r.st.vals <==> 0 <= i < |ms|
  {
    Metrics(w, cfg, Batch(keys, [], Named(ms)), Indices(|ms|), |ms|)
  }

  // ---- Sending ---------------------------------------------------------------------------

  /** How a send may end: everything acknowledged, or an error with only some messages delivered. */
  datatype Outcome = Delivered | Failed(arrived: set<nat>)

  function Acknowledged(ms: seq<Message>, o: Outcome): seq<Message> {
    match o
    case Delivered => ms
    case Failed(arrived) =>
      if ms == [] then [] else
      Acknowledged(ms[..|ms| - 1], o) + if |ms| - 1 in arrived then [ms[|ms| - 1]] else []
  }

  /** Exactly the arrived messages, and all of them if nothing failed. */
  lemma {:induction false} AcknowledgedMember(ms: seq<Message>, o: Outcome, x: Message)
    ensures x in Acknowledged(ms, o) <==> exists i :: 0 <= i < |ms| && ms[i] == x && (o.Delivered? || i in o.arrived)
  {
    if o.Failed? && ms != [] {
      AcknowledgedMember(ms[..|ms| - 1], o, x);
    }
  }

  /** The positions of the messages that arrived. */
  function Arrived(n: nat, o: Outcome): (at: seq<nat>)
    ensures forall i: nat :: i in at <==> i < n && (o.Delivered? || i in o.arrived)
    ensures forall k, l :: 0 <= k < l < |at| ==> at[k] < at[l]
  {
    if n == 0 then [] else
    var before := Arrived(n - 1, o);
    assert forall k :: 0 <= k < |before| ==> before[k] in before;
    before + if o.Delivered? || n - 1 in o.arrived then [n - 1] else []
  }

  /** What arrives arrives once and in the order in which it was sent. */
  lemma {:induction false} AcknowledgedAre(ms: seq<Message>, o: Outcome)
    ensures var got, at := Acknowledged(ms, o), Arrived(|ms|, o);
            |got| == |at| && forall k :: 0 <= k < |at| ==> at[k] in at && at[k] < |ms| && got[k] == ms[at[k]]
  {
    hide Acknowledged, Arrived;
    if ms == [] || o.Delivered? {
      AllOrNothing(ms, o);
    } else {
      var init := ms[..|ms| - 1];
      AcknowledgedAre(init, o);
      LastArrives(ms, o);
    }
  }

  lemma {:induction false} LastArrives(ms: seq<Message>, o: Outcome)
    requires ms != [] && o.Failed?
    ensures var n := |ms| - 1;
            && Acknowledged(ms, o) == Acknowledged(ms[..n], o) + (if n in o.arrived then [ms[n]] else [])
            && Arrived(n + 1, o) == Arrived(n, o) + (if n in o.arrived then [n] else [])
  {
  }

  lemma {:induction false} AllOrNothing(ms: seq<Message>, o: Outcome)
    requires ms == [] || o.Delivered?
    ensures Acknowledged(ms, o) == ms && |Arrived(|ms|, o)| == |ms|
    ensures forall k :: 0 <= k < |ms| ==> Arrived(|ms|, o)[k] == k
  {
    if o.Delivered? {
      AllArrive(|ms|, o);
    }
  }

  lemma {:induction false} AllArrive(n: nat, o: Outcome)
    requires o.Delivered?
    ensures |Arrived(n, o)| == n && forall k :: 0 <= k < n ==> Arrived(n, o)[k] == k
  {
    if n > 0 {
      AllArrive(n - 1, o);
    }
  }
}
