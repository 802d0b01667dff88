/**
 The publisher's methods, on metrics and buffers in memory: metrics are rewritten in place and
 restored, buffers come from pools, are shared by the messages of one organisation, and go back
 after the send. Each method is proved against PublishSpec.
 */
module Publisher {
  import opened Keys
  import opened Text
  import opened Schema
  import opened TopicSettings
  import opened PublishSpec
  import opened Buffers
  import opened PublishCounters
  import KC = KeyCache
  import PF = PublishForms
  import PB = PublishBatch

  class MetricData {
    var Id: MetricId
    var OrgId: int
    var Name: string
    var Interval: int
    var Value: real
    var Unit: string
    var Time: int
    var Mtype: string
    var Tags: seq<string>

    function Record(): Metric
      reads this
    {
      Metric(Id, OrgId, Name, Interval, Value, Unit, Time, Mtype, Tags)
    }

    method SetId(w: World)
      modifies this`Id, this`Tags
      ensures Record() == Canon(w, old(Record()))
    {
      Tags := Sort(Tags);
      CanonFacts(w, old(Record()));
      Id := MetricId.Id(OrgId, w.hash(Ident(Name, Unit, Mtype, Interval, Tags)));
    }
  }

  datatype Answer = Done | Rejected | SendFailed

  /** Those buffers that have, or have not, capacity 33. */
  function WithCap(bufs: seq<Buffer>, is33: bool): seq<Buffer> {
    if bufs == [] then [] else
    WithCap(bufs[..|bufs| - 1], is33) + if (bufs[|bufs| - 1].cap == 33) == is33 then [bufs[|bufs| - 1]] else []
  }

  lemma {:induction false} WithCapMembers(bufs: seq<Buffer>)
    ensures forall b, is33 :: b in WithCap(bufs, is33) <==> b in bufs && (b.cap == 33) == is33
  {
    if bufs != [] {
      WithCapMembers(bufs[..|bufs| - 1]);
      assert bufs == bufs[..|bufs| - 1] + [bufs[|bufs| - 1]];
    }
  }

  lemma {:induction false} WithCapNone(bufs: seq<Buffer>)
    ensures forall is33 :: WithCap(bufs[..0], is33) == []
  {
  }

  lemma {:induction false} WithCapNext(bufs: seq<Buffer>, i: nat)
    requires i < |bufs|
    ensures forall is33 :: WithCap(bufs[..i + 1], is33) ==
              WithCap(bufs[..i], is33) + if (bufs[i].cap == 33) == is33 then [bufs[i]] else []
  {
    assert bufs[..i + 1][..i] == bufs[..i];
  }

  /** A message under construction: its contents are whatever its buffer holds. */
  datatype Draft = Draft(topic: string, partition: int, buf: Buffer)

  /** Messages counted by kind and topic name, as they are appended. */
  datatype Counts = Counts(md: map<string, nat>, mp: map<string, nat>, mpno: map<string, nat>) {
    function Of(kind: Kind): map<string, nat> {
      match kind case MetricData => md case MetricPoint => mp case MetricPointNoOrg => mpno
    }

    function Inc(kind: Kind, name: string): Counts {
      match kind
      case MetricData => this.(md := Incremented(md, name))
      case MetricPoint => this.(mp := Incremented(mp, name))
      case MetricPointNoOrg => this.(mpno := Incremented(mpno, name))
    }
  }

  function Lookup(m: map<string, nat>, name: string): nat {
    if name in m then m[name] else 0
  }

  function Incremented(m: map<string, nat>, name: string): map<string, nat> {
    m[name := Lookup(m, name) + 1]
  }

  ghost predicate Counted(c: Counts, ms: seq<Message>) {
    forall kind, name :: Lookup(c.Of(kind), name) == KindCount(ms, name, kind)
  }

  lemma {:induction false} CountedSnoc(c: Counts, ms: seq<Message>, m: Message)
    requires Counted(c, ms)
    ensures Counted(c.Inc(KindOf(m.wire), m.topic), ms + [m])
  {
    assert (ms + [m])[..|ms|] == ms;
  }

  /** The local variables of a call: buffers by organisation, messages, buffers to release, counts. */
  datatype Local = Local(memo: map<int, Buffer>, payload: seq<Draft>, release: seq<Buffer>, counts: Counts)

  /** The drafts stand for the messages, and the buffers for their contents. */
  ghost predicate Matches(l: Local, memo: map<int, Wire>, payload: seq<Message>)
    reads l.release
  {
    && l.memo.Keys == memo.Keys
    && (forall e :: e in memo ==> l.memo[e] in l.release && l.memo[e].wire == memo[e])
    && Counted(l.counts, payload)
    && |l.payload| == |payload|
    && (forall i :: 0 <= i < |payload| ==>
          && l.payload[i].buf in l.release
          && payload[i] == Message(l.payload[i].topic, l.payload[i].partition, l.payload[i].buf.wire))
  }

  lemma {:induction false} ForgetMemo(l: Local, p: Prep)
    requires Matches(l, p.memo, p.payload)
    ensures Matches(l.(memo := map[]), map[], p.payload)
  {
    hide Counted;
  }

  function Added(l: Local, org: int, b: Buffer): Local {
    l.(memo := l.memo[org := b], release := l.release + [b])
  }

  lemma {:induction false} AddedMatches(l: Local, memo: map<int, Wire>, payload: seq<Message>, org: int, b: Buffer)
    requires Matches(l, memo, payload)
    ensures Matches(Added(l, org, b), memo[org := b.wire], payload)
    ensures forall x :: x in Added(l, org, b).release <==> x in l.release || x == b
    ensures Distinct(l.release) && b !in l.release ==> Distinct(Added(l, org, b).release)
  {
    hide Counted;
  }

  function Appended(l: Local, topic: string, part: int, b: Buffer): Local
    reads b
  {
    l.(payload := l.payload + [Draft(topic, part, b)], counts := l.counts.Inc(KindOf(b.wire), topic))
  }

  lemma {:induction false} AppendedMatches(l: Local, memo: map<int, Wire>, payload: seq<Message>, topic: string,
                                           part: int, b: Buffer)
    requires Matches(l, memo, payload) && b in l.release
    ensures Matches(Appended(l, topic, part, b), memo, payload + [Message(topic, part, b.wire)])
  {
    hide Counted;
    CountedSnoc(l.counts, payload, Message(topic, part, b.wire));
  }

  class Publisher {
    const w: World
    const cfg: Config
    /** Whether publishing is enabled: without a producer metrics are dropped. */
    const producer: bool
    const keyCache: KC.KeyCache
    const pool: Pool
    const pool33: Pool

    /** What the brokers have acknowledged, in order. */
    var log: seq<Message>
    var publishedMD: nat
    var publishedMP: nat
    var publishedMPNO: nat

    /** The shard arrays in use, and the buffers that may be in a pool. */
    ghost var arrays: set<array<set<SubKey>>>
    ghost var pooled: set<Buffer>

    /**
     Buffers of capacity 33 are in one pool and all others in the other; none is pooled twice, and
     pooled buffers are empty.
     */
    ghost predicate PoolsOk()
      reads this`pooled, pool, pool33, pooled
    {
      && pool != pool33 && pool.newCap == 0 && pool33.newCap == 33
      && Distinct(pool.free) && Distinct(pool33.free) && Apart(pool.free, pool33.free)
      && (forall b :: b in pool.free ==> b in pooled && b.cap != 33 && b.len == 0)
      && (forall b :: b in pool33.free ==> b in pooled && b.cap == 33 && b.len == 0)
    }

    ghost predicate Valid()
      reads this`pooled, this`arrays, keyCache, pool, pool33, pooled
    {
      keyCache.Valid() && keyCache.Shards() <= arrays && PoolsOk()
    }

    ghost function Keys(): set<MKey>
      requires keyCache.Valid()
      reads keyCache, keyCache.Shards()
    {
      keyCache.Contents()
    }

    constructor (w: World, cfg: Config, producer: bool, interval: nat)
      ensures this.w == w && this.cfg == cfg && this.producer == producer && Valid() && Keys() == {} && log == []
    {
      this.w, this.cfg, this.producer := w, cfg, producer;
      keyCache := new KC.KeyCache(interval);
      pool := new Pool(0);
      pool33 := new Pool(33);
      log, publishedMD, publishedMP, publishedMPNO := [], 0, 0, 0;
      arrays, pooled := {}, {};
    }

    /** The buffers in `bs` are all different and none of them is in a pool. */
    ghost predicate Held(bs: seq<Buffer>)
      reads this`pooled
    {
      Distinct(bs) && forall b :: b in bs ==> b !in pooled
    }

    /** While a call is being prepared the pools only shrink, and only new arrays join the cache. */
    twostate predicate Prepares()
      reads this
    {
      pooled <= old(pooled) && fresh(arrays - old(arrays))
    }

    /** Metric, keys, messages and buffers are where the step machine is. */
    ghost predicate InSync(m: MetricData, l: Local, p: Prep)
      reads this, m, keyCache, keyCache.Shards(), pool, pool33, pooled, l.release
    {
      Stopped(m, p) && Matches(l, p.memo, p.payload) && Held(l.release)
    }

    /** As much of that as is left when an error ends the call. */
    ghost predicate Stopped(m: MetricData, p: Prep)
      reads this, m, keyCache, keyCache.Shards(), pool, pool33, pooled
    {
      Valid() && m.Record() == p.cur && Keys() == p.keys
    }

    /** The buffers held come from the pools, are new, or were held before. */
    twostate predicate Gathered(l: Local, new l': Local)
      reads l'.release
    {
      forall b :: b in l'.release ==> b in l.release || b in old(pooled) || fresh(b)
    }

    method FullBuffer(m: Metric) returns (b: Buffer)
      requires PoolsOk()
      modifies this`pooled, pool, pooled
      ensures PoolsOk() && pooled <= old(pooled)
      ensures b.wire == Full(m) && b !in pooled && (b in old(pooled) || fresh(b))
    {
      var got := pool.Get();
      pooled := pooled - {got};
      b := got.Append(Full(m), w.size(m));
    }

    method PointBuffer(wire: Wire, n: nat) returns (b: Buffer)
      requires PoolsOk() && n <= 33
      modifies this`pooled, pool33, pooled
      ensures PoolsOk() && pooled <= old(pooled)
      ensures b.wire == wire && b.len == n && b.cap == 33
      ensures b !in pooled && (b in old(pooled) || fresh(b))
    {
      b := pool33.Get();
      pooled := pooled - {b};
      b.Reslice(n);
      b.wire := wire;
    }

    /** The key cache's touch, which may add an array to it. */
    method TouchKey(k: MKey) returns (seen: bool)
      requires Valid()
      modifies this`arrays, arrays, keyCache`caches
      ensures Valid() && fresh(arrays - old(arrays))
      ensures seen == (k in old(Keys())) && Keys() == old(Keys()) + {k}
    {
      hide KC.KeyCache.Contents, KC.KeyCache.View, KC.KeyCache.Valid, PoolsOk;
      seen := keyCache.Touch(k);
      arrays := arrays + keyCache.Shards();
    }

    /** `dataFromMetricData`: a buffer nobody else holds, with the contents the step asks for. */
    method DataFromMetricData(m: MetricData, ghost p: Prep) returns (b: Option<Buffer>)
      requires Valid() && p.cur == m.Record() && p.keys == Keys()
      modifies this`arrays, this`pooled, arrays, keyCache`caches, pool, pool33, pooled
      ensures Valid() && Prepares()
      ensures Keys() == Encode(cfg, p).st.0.keys
      ensures b.Some? <==> Encode(cfg, p).Go?
      ensures b.Some? ==> b.value.wire == Encode(cfg, p).st.1
      ensures b.Some? ==> b.value !in pooled && (b.value in old(pooled) || fresh(b.value))
    {
      hide KC.KeyCache.Contents, KC.KeyCache.View, KC.KeyCache.Valid, PoolsOk, PointOf;
      if !cfg.v2 {
        var full := FullBuffer(m.Record());
        return Some(full);
      }
      var key := ParseKey(m.Id);
      if key.None? {
        return None;
      }
      var seen := TouchKey(key.value);
      var buf;
      if seen {
        buf := PointBuffer(PointOf(cfg, key.value, m.Record()), if cfg.v2Org then 33 else 29);
      } else {
        buf := FullBuffer(m.Record());
      }
      b := Some(buf);
    }

    /** The buffer for the metric's current organisation: the one made before, or a new one. */
    method BufferFor(m: MetricData, l: Local, ghost p: Prep) returns (b: Option<Buffer>, l': Local)
      requires InSync(m, l, p)
      modifies this`arrays, this`pooled, arrays, keyCache`caches, pool, pool33, pooled
      ensures Prepares() && Stopped(m, Buffered(cfg, p).st.0)
      ensures b.Some? <==> Buffered(cfg, p).Go?
      ensures b.Some? ==> b.value.wire == Buffered(cfg, p).st.1 && b.value in l'.release
      ensures b.Some? ==> InSync(m, l', Buffered(cfg, p).st.0) && Gathered(l, l')
    {
      hide KC.KeyCache.Contents, KC.KeyCache.View, KC.KeyCache.Valid, PoolsOk, Encode, Counted;
      if m.OrgId in l.memo {
        return Some(l.memo[m.OrgId]), l;
      }
      b := DataFromMetricData(m, p);
      if b.None? {
        return None, l;
      }
      assert Matches(l, p.memo, p.payload);
      l' := Added(l, m.OrgId, b.value);
      AddedMatches(l, p.memo, p.payload, m.OrgId, b.value);
    }

    /** The innermost loop: does one of the topic's prefixes discard the name? */
    method Discards(t: Topic, name: string) returns (d: bool)
      ensures d <==> exists p :: p in t.discardPrefixes && p <= name
    {
      for i := 0 to |t.discardPrefixes|
        invariant forall k :: 0 <= k < i ==> !(t.discardPrefixes[k] <= name)
      {
        if t.discardPrefixes[i] <= name {
          assert t.discardPrefixes[i] in t.discardPrefixes;
          return true;
        }
      }
      d := false;
    }

    /** Rewrites the organisation if the topic says so. */
    method RewriteOrg(m: MetricData, t: Topic)
      modifies m
      ensures m.Record() == Rewritten(w, t, old(m.Record()))
    {
      if m.OrgId == t.rewrite.source {
        m.OrgId := t.rewrite.target;
        m.SetId(w);
      }
    }

    /** Partitions, which may sort the tags in place, and restores the organisation. */
    method PartitionAndRestore(m: MetricData, t: Topic, org: int) returns (part: Option<int>)
      modifies m
      ensures part == PartitionOf(w, t, old(m.Record()))
      ensures m.Record() == if part.None? then old(m.Record()) else Restored(w, Partitioned(t, old(m.Record())), org)
    {
      part := PartitionOf(w, t, m.Record());
      if part.None? {
        return;
      }
      if ByTags(t.method_) {
        m.Tags := Sort(m.Tags);
      }
      if m.OrgId != org {
        m.OrgId := org;
        m.SetId(w);
      }
    }

    /** One turn of the topic loop. */
    method PublishTopic(m: MetricData, t: Topic, l: Local, ghost p: Prep) returns (ok: bool, l': Local)
      requires InSync(m, l, p)
      modifies m, this`arrays, this`pooled, arrays, keyCache`caches, pool, pool33, pooled
      ensures Prepares()
      ensures ok <==> TopicStep(w, cfg, t, p).Go?
      ensures if ok then InSync(m, l', TopicStep(w, cfg, t, p).st) && Gathered(l, l')
              else Stopped(m, TopicStep(w, cfg, t, p).st)
    {
      hide KC.KeyCache.Contents, KC.KeyCache.View, KC.KeyCache.Valid, SendStep, Matches;
      var discard := Discards(t, m.Name);
      if discard {
        return true, l;
      }
      if t.onlyOrg != 0 && m.OrgId != t.onlyOrg {
        return true, l;
      }
      ok, l' := SendTo(m, t, l, p);
    }

    /** A topic that takes the metric: rewrite, encode, partition, restore, append the message. */
    method SendTo(m: MetricData, t: Topic, l: Local, ghost p: Prep) returns (ok: bool, l': Local)
      requires InSync(m, l, p)
      modifies m, this`arrays, this`pooled, arrays, keyCache`caches, pool, pool33, pooled
      ensures Prepares()
      ensures ok <==> SendStep(w, cfg, t, p).Go?
      ensures if ok then InSync(m, l', SendStep(w, cfg, t, p).st) && Gathered(l, l')
              else Stopped(m, SendStep(w, cfg, t, p).st)
    {
      hide KC.KeyCache.Contents, KC.KeyCache.View, KC.KeyCache.Valid, PoolsOk, Rewritten, Restored, PartitionOf,
           Partitioned, Encode, Buffered, Counted;
      var org := m.OrgId;
      RewriteOrg(m, t);
      ghost var q := p.(cur := m.Record());
      var b, l1 := BufferFor(m, l, q);
      if b.None? {
        return false, l;
      }
      ok, l' := SendBuffer(m, t, l1, b.value, org, Buffered(cfg, q).st.0);
    }

    /** The second half: partition, restore and append the message with the buffer `b`. */
    method SendBuffer(m: MetricData, t: Topic, l: Local, b: Buffer, org: int, ghost p: Prep) returns (ok: bool,
                      l': Local)
      requires InSync(m, l, p) && b in l.release
      modifies m
      ensures ok <==> PartitionOf(w, t, p.cur).Some?
      ensures ok ==> l'.release == l.release
                     && InSync(m, l', p.(cur := Restored(w, Partitioned(t, p.cur), org),
                                         payload := p.payload + [Message(t.name, PartitionOf(w, t, p.cur).value,
                                             b.wire)]))
      ensures !ok ==> Stopped(m, p)
    {
      hide KC.KeyCache.Contents, KC.KeyCache.View, KC.KeyCache.Valid, PoolsOk, Restored, PartitionOf, Partitioned,
           Counted;
      var part := PartitionAndRestore(m, t, org);
      if part.None? {
        return false, l;
      }
      ok, l' := true, Appended(l, t.name, part.value, b);
      AppendedMatches(l, p.memo, p.payload, t.name, part.value, b);
    }

    /** A missing interval is looked up. */
    method DeduceInterval(m: MetricData) returns (ok: bool)
      modifies m
      ensures ok <==> Deduce(w, cfg, old(m.Record())).Some?
      ensures m.Record() == if ok then Deduce(w, cfg, old(m.Record())).value else old(m.Record())
    {
      if m.Interval == 0 {
        if !cfg.autoInterval {
          return false;
        }
        m.Interval := w.secondsPerPoint(m.Name);
        m.SetId(w);
      }
      ok := true;
    }

    /** The loop over the topics. */
    method PublishTopics(m: MetricData, l: Local, ghost start: Prep) returns (ok: bool, l': Local)
      requires InSync(m, l, start)
      modifies m, this`arrays, this`pooled, arrays, keyCache`caches, pool, pool33, pooled
      ensures Prepares()
      ensures ok <==> Topics(w, cfg, start, |cfg.topics|).Go?
      ensures if ok then InSync(m, l', Topics(w, cfg, start, |cfg.topics|).st) && Gathered(l, l')
              else Stopped(m, Topics(w, cfg, start, |cfg.topics|).st)
    {
      hide InSync, Stopped, TopicStep;
      l' := l;
      for j := 0 to |cfg.topics|
        invariant Prepares()
        invariant Topics(w, cfg, start, j).Go? && InSync(m, l', Topics(w, cfg, start, j).st) && Gathered(l, l')
      {
        ok, l' := PublishTopic(m, cfg.topics[j], l', Topics(w, cfg, start, j).st);
        if !ok {
          StuckTopics(w, cfg, start, j + 1, |cfg.topics|);
          return;
        }
      }
      ok := true;
    }

    /** One turn of the metric loop. */
    method PublishMetric(m: MetricData, l: Local, ghost payload: seq<Message>) returns (ok: bool, l': Local)
      requires Valid() && Matches(l.(memo := map[]), map[], payload) && Held(l.release)
      modifies m, this`arrays, this`pooled, arrays, keyCache`caches, pool, pool33, pooled
      ensures Prepares()
      ensures var r := Through(w, cfg, old(m.Record()), old(Keys()), payload);
              && (ok <==> r.Go?)
              && (if ok then InSync(m, l', r.st) && Gathered(l, l') else Stopped(m, r.st))
    {
      hide KC.KeyCache.Contents, KC.KeyCache.View, KC.KeyCache.Valid, Topics, Counted, Deduce;
      ok := DeduceInterval(m);
      if !ok {
        return ok, l;
      }
      ok, l' := PublishTopics(m, l.(memo := map[]), Start(m.Record(), Keys(), payload));
    }

    /** All metrics, keys, messages and buffers are where the batch loop is. */
    ghost predicate BatchInSync(metrics: seq<MetricData>, l: Local, b: Batch<MetricData>)
      reads this, metrics, keyCache, keyCache.Shards(), pool, pool33, pooled, l.release
    {
      BatchStopped(metrics, b) && Matches(l.(memo := map[]), map[], b.payload) && Held(l.release)
    }

    ghost predicate BatchStopped(metrics: seq<MetricData>, b: Batch<MetricData>)
      reads this, metrics, keyCache, keyCache.Shards(), pool, pool33, pooled
    {
      Valid() && Keys() == b.keys && forall m :: m in metrics ==> m in b.vals && m.Record() == b.vals[m]
    }

    method PublishNext(metrics: seq<MetricData>, n: nat, l: Local, ghost b: Batch<MetricData>)
      returns (ok: bool, l': Local)
      requires n < |metrics| && BatchInSync(metrics, l, b)
      modifies metrics[n], this`arrays, this`pooled, arrays, keyCache`caches, pool, pool33, pooled
      ensures Prepares()
      ensures ok <==> MetricStep(w, cfg, b, metrics[n]).Go?
      ensures if ok then BatchInSync(metrics, l', MetricStep(w, cfg, b, metrics[n]).st) && Gathered(l, l')
              else BatchStopped(metrics, MetricStep(w, cfg, b, metrics[n]).st)
    {
      hide KC.KeyCache.Contents, KC.KeyCache.View, KC.KeyCache.Valid, Through, Matches, PoolsOk, Held;
      ok, l' := PublishMetric(metrics[n], l, b.payload);
      if ok {
        ForgetMemo(l', Through(w, cfg, b.vals[metrics[n]], b.keys, b.payload).st);
      }
    }

    /** The loop over the metrics. */
    method PublishMetrics(metrics: seq<MetricData>, ghost start: Batch<MetricData>) returns (ok: bool, l: Local)
      requires BatchStopped(metrics, start) && start.payload == []
      modifies metrics, this`arrays, this`pooled, arrays, keyCache`caches, pool, pool33, pooled
      ensures Prepares()
      ensures ok <==> Metrics(w, cfg, start, metrics, |metrics|).Go?
      ensures ok ==> forall b :: b in l.release ==> b in old(pooled) || fresh(b)
      ensures if ok then BatchInSync(metrics, l, Metrics(w, cfg, start, metrics, |metrics|).st)
              else BatchStopped(metrics, Metrics(w, cfg, start, metrics, |metrics|).st)
    {
      hide BatchInSync, MetricStep, Metrics, Valid, Keys, MetricData.Record;
      MetricsNone(w, cfg, start, metrics);
      l := Local(map[], [], [], Counts(map[], map[], map[]));
      StartsInSync(metrics, start);
      for n := 0 to |metrics|
        invariant Prepares()
        invariant forall b :: b in l.release ==> b in old(pooled) || fresh(b)
        invariant Metrics(w, cfg, start, metrics, n).Go? &&
                  BatchInSync(metrics, l, Metrics(w, cfg, start, metrics, n).st)
      {
        MetricsNext(w, cfg, start, metrics, n);
        ok, l := PublishNext(metrics, n, l, Metrics(w, cfg, start, metrics, n).st);
        if !ok {
          return;
        }
      }
      ok := true;
    }

    /**
     Every buffer of the call goes back to one pool, once: those of capacity 33 to the one, the
     others to the other.
     */
    method Release(bufs: seq<Buffer>)
      requires PoolsOk() && Held(bufs)
      modifies this`pooled, pool, pool33, bufs
      ensures PoolsOk()
      ensures pool.free == old(pool.free) + WithCap(bufs, false)
      ensures pool33.free == old(pool33.free) + WithCap(bufs, true)
    {
      hide PoolsOk, Held, WithCap;
      WithCapNone(bufs);
      assert bufs[0..] == bufs;
      for i := 0 to |bufs|
        invariant PoolsOk() && Held(bufs[i..])
        invariant pool.free == old(pool.free) + WithCap(bufs[..i], false)
        invariant pool33.free == old(pool33.free) + WithCap(bufs[..i], true)
      {
        assert bufs[i..] == [bufs[i]] + bufs[i + 1..];
        WithCapNext(bufs, i);
        ReleaseOne(bufs[i], bufs[i + 1..]);
      }
      assert bufs[..|bufs|] == bufs;
    }

    method ReleaseOne(b: Buffer, rest: seq<Buffer>)
      requires PoolsOk() && Held([b] + rest)
      modifies this`pooled, pool, pool33, b
      ensures PoolsOk() && Held(rest) && pooled == old(pooled) + {b}
      ensures pool.free == old(pool.free) + if b.cap == 33 then [] else [b]
      ensures pool33.free == old(pool33.free) + if b.cap == 33 then [b] else []
    {
      var all := [b] + rest;
      assert all[0] == b && b in all && all[1..] == rest;
      forall i | 0 <= i < |rest| ensures rest[i] == all[i + 1] && rest[i] != b && rest[i] in all { }
      forall i, j | 0 <= i < j < |rest| ensures rest[i] != rest[j] {
        assert all[i + 1] != all[j + 1];
      }
      pooled := pooled + {b};
      if b.cap == 33 {
        pool33.Put(b);
      } else {
        pool.Put(b);
      }
    }

    /** After a successful send the counters go up, topic by topic. */
    method Report(c: Counts, ghost ms: seq<Message>)
      requires Counted(c, ms)
      modifies this`publishedMD, this`publishedMP, this`publishedMPNO
      ensures publishedMD == old(publishedMD) + KindReported(cfg.topics, ms, Kind.MetricData)
      ensures publishedMP == old(publishedMP) + KindReported(cfg.topics, ms, MetricPoint)
      ensures publishedMPNO == old(publishedMPNO) + KindReported(cfg.topics, ms, MetricPointNoOrg)
    {
      for j := 0 to |cfg.topics|
        invariant publishedMD == old(publishedMD) + KindReported(cfg.topics[..j], ms, Kind.MetricData)
        invariant publishedMP == old(publishedMP) + KindReported(cfg.topics[..j], ms, MetricPoint)
        invariant publishedMPNO == old(publishedMPNO) + KindReported(cfg.topics[..j], ms, MetricPointNoOrg)
      {
        hide KindCount;
        assert cfg.topics[..j + 1][..j] == cfg.topics[..j];
        var name := cfg.topics[j].name;
        assert Lookup(c.Of(Kind.MetricData), name) == KindCount(ms, name, Kind.MetricData);
        assert Lookup(c.Of(MetricPoint), name) == KindCount(ms, name, MetricPoint);
        assert Lookup(c.Of(MetricPointNoOrg), name) == KindCount(ms, name, MetricPointNoOrg);
        publishedMD := publishedMD + Lookup(c.md, name);
        publishedMP := publishedMP + Lookup(c.mp, name);
        publishedMPNO := publishedMPNO + Lookup(c.mpno, name);
      }
      assert cfg.topics[..|cfg.topics|] == cfg.topics;
    }

    /** The contents that the drafts have when they are sent. */
    method Contents(l: Local, ghost ms: seq<Message>) returns (out: seq<Message>)
      requires Matches(l.(memo := map[]), map[], ms)
      ensures out == ms
    {
      hide Counted;
      out := [];
      for i := 0 to |l.payload|
        invariant out == ms[..i]
      {
        var d := l.payload[i];
        out := out + [Message(d.topic, d.partition, d.buf.wire)];
      }
    }

    /** Sends the payload, counts it if that worked, and recycles the buffers in either case. */
    method Send(l: Local, outcome: Outcome, ghost ms: seq<Message>)
      requires Valid() && Matches(l.(memo := map[]), map[], ms) && Held(l.release)
      modifies this`log, this`publishedMD, this`publishedMP, this`publishedMPNO, this`pooled, pool, pool33, l.release
      ensures Valid() && Keys() == old(Keys())
      ensures log == old(log) + Acknowledged(ms, outcome)
      ensures forall b :: b in l.release ==> (b in pool33.free <==> b.cap == 33) && (b in pool.free <==> b.cap != 33)
      ensures CountersRaised(if outcome.Delivered? then ms else [])
    {
      hide KC.KeyCache.Contents, KC.KeyCache.View, KC.KeyCache.Valid, Counted, KindReported, Acknowledged, WithCap,
           KC.KeyCache.Shards;
      ReportedNothing(cfg.topics);
      var out := Contents(l, ms);
      log := log + Acknowledged(out, outcome);
      if outcome.Delivered? {
        Report(l.counts, ms);
      }
      WithCapMembers(l.release);
      Release(l.release);
    }

    /**
     A call. Without a producer, metrics or topics nothing happens. Otherwise the loops decide: stopped early,
     nothing is sent and no buffer is recycled; at their end the payload is sent, in whole or in
     part, and the metrics and keys are as the loops left them.
     */
    method Publish(metrics: seq<MetricData>, outcome: Outcome) returns (r: Answer)
      requires Valid()
      modifies this, metrics, arrays, keyCache`caches, pool, pool33, pooled
      ensures Valid()
      ensures !producer || metrics == [] || cfg.topics == [] ==>
                r == Done && log == old(log) && Keys() == old(Keys()) && CountersRaised([])
                && forall m :: m in metrics ==> m.Record() == old(m.Record())
      ensures producer && metrics != [] && cfg.topics != [] ==>
                var b := Metrics(w, cfg, Batch(old(Keys()), [], old(Records(metrics))), metrics, |metrics|);
                && BatchStopped(metrics, b.st)
                && (b.Stop? ==> r == Rejected && log == old(log) && CountersRaised([]))
                && (b.Go? ==>
                      && r == (if outcome.Delivered? then Done else SendFailed)
                      && log == old(log) + Acknowledged(b.st.payload, outcome)
                      && CountersRaised(if outcome.Delivered? then b.st.payload else []))
      ensures |old(log)| <= |log| && log[..|old(log)|] == old(log)
      ensures forall x :: x in log[|old(log)|..] ==>
                exists m :: m in metrics && PF.Carries(cfg, old(Records(metrics))[m], x.wire)
      ensures r == Done && (forall i, k :: 0 <= i < k < |cfg.topics| ==> cfg.topics[i].name != cfg.topics[k].name) ==>
                && publishedMD == old(publishedMD) + Fulls(log[|old(log)|..])
                && publishedMP == old(publishedMP) + Points(log[|old(log)|..])
                && publishedMPNO == old(publishedMPNO) + PointsNoOrg(log[|old(log)|..])
    {
      hide KC.KeyCache.Contents, KC.KeyCache.View, KC.KeyCache.Valid, Metrics, PoolsOk, KindReported, Acknowledged,
           PF.Carries, Fulls, Points, PointsNoOrg;
      ReportedNothing(cfg.topics);
      NothingCounted();
      Tells(w, cfg, Batch(Keys(), [], Records(metrics)), metrics, outcome);
      if !producer || metrics == [] || cfg.topics == [] {
        assert log[|log|..] == [];
        return Done;
      }
      ghost var b := Batch(Keys(), [], Records(metrics));
      r := PrepareAndSend(metrics, outcome, b);
      NewPart(old(log), log, Metrics(w, cfg, b, metrics, |metrics|).st.payload, outcome);
    }

    method PrepareAndSend(metrics: seq<MetricData>, outcome: Outcome,
                          ghost start: Batch<MetricData>) returns (r: Answer)
      requires BatchStopped(metrics, start) && start.payload == []
      modifies this, metrics, arrays, keyCache`caches, pool, pool33, pooled
      ensures var b := Metrics(w, cfg, start, metrics, |metrics|);
              && BatchStopped(metrics, b.st)
              && (b.Stop? ==> r == Rejected && log == old(log) && CountersRaised([]))
              && (b.Go? ==>
                    && r == (if outcome.Delivered? then Done else SendFailed)
                    && log == old(log) + Acknowledged(b.st.payload, outcome)
                    && CountersRaised(if outcome.Delivered? then b.st.payload else []))
    {
      hide KC.KeyCache.Contents, KC.KeyCache.View, KC.KeyCache.Valid, Metrics, Matches, Held, PoolsOk, Valid, Keys,
           KindReported, Acknowledged, MetricData.Record;
      ReportedNothing(cfg.topics);
      var ok, l := PublishMetrics(metrics, start);
      if !ok {
        return Rejected;
      }
      Send(l, outcome, Metrics(w, cfg, start, metrics, |metrics|).st.payload);
      r := if outcome.Delivered? then Done else SendFailed;
    }

    ghost function Records(metrics: seq<MetricData>): (vals: map<MetricData, Metric>)
      reads metrics
      ensures forall m :: m in metrics ==> m in vals && vals[m] == m.Record()
    {
      map m | m in metrics :: m.Record()
    }

    twostate predicate CountersRaised(ms: seq<Message>)
      reads this
    {
      && publishedMD == old(publishedMD) + KindReported(cfg.topics, ms, Kind.MetricData)
      && publishedMP == old(publishedMP) + KindReported(cfg.topics, ms, MetricPoint)
      && publishedMPNO == old(publishedMPNO) + KindReported(cfg.topics, ms, MetricPointNoOrg)
    }

    lemma {:induction false} StartsInSync(metrics: seq<MetricData>, b: Batch<MetricData>)
      requires BatchStopped(metrics, b) && b.payload == []
      ensures BatchInSync(metrics, Local(map[], [], [], Counts(map[], map[], map[])), b)
    {
    }
  }

  lemma {:induction false} NewPart(was: seq<Message>, now: seq<Message>, ms: seq<Message>, outcome: Outcome)
    ensures now == was ==> now[|was|..] == []
    ensures now == was + Acknowledged(ms, outcome) ==> now[|was|..] == Acknowledged(ms, outcome) && now[..|was|] == was
  {
  }

  lemma {:induction false} NothingCounted()
    ensures Fulls([]) == 0 && Points([]) == 0 && PointsNoOrg([]) == 0
  {
  }

  /** What the acknowledged messages of a call carry, and how they are counted if all are acknowledged. */
  lemma {:induction false} Tells<T>(w: World, cfg: Config, b: Batch<T>, objs: seq<T>, outcome: Outcome)
    requires b.payload == [] && forall o :: o in objs ==> o in b.vals
    ensures var r := Metrics(w, cfg, b, objs, |objs|);
            r.Go? ==>
              && (forall x :: x in Acknowledged(r.st.payload, outcome) ==>
                 exists o :: o in objs && PF.Carries(cfg, b.vals[o], x.wire))
              && (outcome.Delivered? ==> Acknowledged(r.st.payload, outcome) == r.st.payload)
              && ((forall i, k :: 0 <= i < k < |cfg.topics| ==> cfg.topics[i].name != cfg.topics[k].name) ==>
                    && KindReported(cfg.topics, r.st.payload, Kind.MetricData) == Fulls(r.st.payload)
                    && KindReported(cfg.topics, r.st.payload, MetricPoint) == Points(r.st.payload)
                    && KindReported(cfg.topics, r.st.payload, MetricPointNoOrg) == PointsNoOrg(r.st.payload))
  {
    hide Metrics, PF.Carries, KindReported, Fulls, Points, PointsNoOrg;
    var r := Metrics(w, cfg, b, objs, |objs|);
    if r.Go? {
      PB.CallCarries(w, cfg, b, objs);
      forall x | x in Acknowledged(r.st.payload, outcome) ensures x in r.st.payload {
        AcknowledgedMember(r.st.payload, outcome, x);
      }
      if forall i, k :: 0 <= i < k < |cfg.topics| ==> cfg.topics[i].name != cfg.topics[k].name {
        PB.CallCountedByKind(w, cfg, b, objs);
      }
    }
  }

  /** Once the topic loop has stopped it stays where it stopped. */
  lemma {:induction false} StuckTopics(w: World, cfg: Config, p: Prep, i: nat, n: nat)
    requires i <= n <= |cfg.topics| && Topics(w, cfg, p, i).Stop?
    ensures Topics(w, cfg, p, n) == Topics(w, cfg, p, i)
  {
    if i < n {
      StuckTopics(w, cfg, p, i, n - 1);
    }
  }

  lemma {:induction false} MetricsNone<T>(w: World, cfg: Config, b: Batch<T>, objs: seq<T>)
    requires forall o :: o in objs ==> o in b.vals
    ensures Metrics(w, cfg, b, objs, 0) == Go(b)
  {
  }

  /** One more turn of the metric loop; when it is the last, because of an error, nothing else counts. */
  lemma {:induction false} MetricsNext<T>(w: World, cfg: Config, b: Batch<T>, objs: seq<T>, n: nat)
    requires n < |objs| && (forall o :: o in objs ==> o in b.vals) && Metrics(w, cfg, b, objs, n).Go?
    ensures Metrics(w, cfg, b, objs, n + 1) == MetricStep(w, cfg, Metrics(w, cfg, b, objs, n).st, objs[n])
    ensures Metrics(w, cfg, b, objs, n + 1).Stop? ==>
            Metrics(w, cfg, b, objs, |objs|) == Metrics(w, cfg, b, objs, n + 1)
  {
    hide MetricStep;
    if Metrics(w, cfg, b, objs, n + 1).Stop? {
      StuckMetrics(w, cfg, b, objs, n + 1, |objs|);
    }
  }

  lemma {:induction false} StuckMetrics<T>(w: World, cfg: Config, b: Batch<T>, objs: seq<T>, i: nat, n: nat)
    requires i <= n <= |objs| && (forall o :: o in objs ==> o in b.vals) && Metrics(w, cfg, b, objs, i).Stop?
    ensures Metrics(w, cfg, b, objs, n) == Metrics(w, cfg, b, objs, i)
  {
    if i < n {
      StuckMetrics(w, cfg, b, objs, i, n - 1);
    }
  }
}
