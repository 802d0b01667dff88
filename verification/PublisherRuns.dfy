/** The publisher object keeps the promise of definition before point, call by call and tick by tick. */
module PublisherRuns {
  import opened Schema
  import opened PublishSpec
  import opened PublishBatch
  import opened PublishMeaning
  import opened PublishRuns
  import P = Publisher
  import KC = KeyCache

  /** The keys in the cache are covered by what the brokers have acknowledged, and that is in order. */
  ghost predicate Promise(p: P.Publisher, idents: set<Ident>)
    reads p, p.keyCache, p.keyCache.Shards(), p.pool, p.pool33, p.pooled
  {
    p.Valid() && p.cfg.v2 && Covered(p.w, p.cfg, idents, p.Keys(), p.log) && DefinitionFirst(p.log)
  }

  /** What the loops of a call make of the objects and keys as they are now. */
  ghost function Loops(p: P.Publisher, metrics: seq<P.MetricData>): Progress<Batch<P.MetricData>>
    requires p.keyCache.Valid()
    reads p, metrics, p.keyCache, p.keyCache.Shards()
  {
    Metrics(p.w, p.cfg, Batch(p.Keys(), [], p.Records(metrics)), metrics, |metrics|)
  }

  /** A call that gets through with consistent metrics and loses no full metric, or touches no new key. */
  ghost predicate DoesNoHarm(p: P.Publisher, idents: set<Ident>, metrics: seq<P.MetricData>, outcome: Outcome)
    requires p.keyCache.Valid()
    reads p, metrics, p.keyCache, p.keyCache.Shards()
  {
    if Loops(p, metrics).Go?
    then (forall m :: m in metrics ==>
        Consistent(p.w, p.cfg, m.Record()) && IdentOf(Filled(p.w, p.cfg, m.Record())) in idents)
         && KeepsFull(Loops(p, metrics).st.payload, outcome)
    else Loops(p, metrics).st.keys == p.Keys()
  }

  method Publish(p: P.Publisher, metrics: seq<P.MetricData>, outcome: Outcome,
                 ghost idents: set<Ident>) returns (r: P.Answer)
    requires Promise(p, idents) && Coherent(p.w, p.cfg) && CollisionFree(p.w, idents)
    requires DoesNoHarm(p, idents, metrics, outcome)
    modifies p, metrics, p.arrays, p.keyCache`caches, p.pool, p.pool33, p.pooled
    ensures Promise(p, idents)
  {
    hide Covered, DefinitionFirst, Coherent, CollisionFree, KeepsFull, Metrics, Consistent, Filled,
         P.MetricData.Record, Acknowledged,
         KC.KeyCache.Contents, KC.KeyCache.View, KC.KeyCache.Valid, P.Publisher.PoolsOk;
    ghost var b := Batch(p.Keys(), [], p.Records(metrics));
    if Metrics(p.w, p.cfg, b, metrics, |metrics|).Go? {
      PublishKeeps(p.w, p.cfg, idents, b, metrics, p.log, outcome);
    }
    r := p.Publish(metrics, outcome);
  }

  method Tick(p: P.Publisher, ghost idents: set<Ident>)
    requires Promise(p, idents)
    modifies p.keyCache`caches, p.keyCache`clearIdx, p.keyCache.Shards()
    ensures Promise(p, idents)
  {
    hide Covered, DefinitionFirst, KC.KeyCache.Contents, KC.KeyCache.View, KC.KeyCache.Valid;
    ghost var keys := p.Keys();
    p.keyCache.Tick();
    FewerKeysCovered(p.w, p.cfg, idents, keys, p.Keys(), p.log);
  }

  /** A new publisher starts with the promise kept. */
  method Create(w: World, cfg: Config, producer: bool, interval: nat, ghost idents: set<Ident>) returns (p: P.Publisher)
    requires cfg.v2
    ensures fresh(p) && p.w == w && p.cfg == cfg && Promise(p, idents)
  {
    p := new P.Publisher(w, cfg, producer, interval);
  }

  // ---- The object follows the runs -------------------------------------------------------

  ghost function StateOf(p: P.Publisher): State
    requires p.Valid()
    reads p, p.keyCache, p.keyCache.Shards(), p.pool, p.pool33, p.pooled
  {
    State(p.Keys(), p.keyCache.clearIdx, p.log)
  }

  ghost function RecordsOf(metrics: seq<P.MetricData>): (ms: seq<Metric>)
    reads metrics
    ensures |ms| == |metrics| && forall i :: 0 <= i < |ms| ==> ms[i] == metrics[i].Record()
  {
    if metrics == [] then [] else RecordsOf(metrics[..|metrics| - 1]) + [metrics[|metrics| - 1].Record()]
  }

  /** A call on different metrics is the event of the same name, whether or not the promise is kept. */
  method PublishAsEvent(p: P.Publisher, metrics: seq<P.MetricData>, outcome: Outcome) returns (r: P.Answer)
    requires p.Valid() && p.producer && metrics != [] && p.cfg.topics != []
    requires forall i, j :: 0 <= i < j < |metrics| ==> metrics[i] != metrics[j]
    modifies p, metrics, p.arrays, p.keyCache`caches, p.pool, p.pool33, p.pooled
    ensures p.Valid()
    ensures StateOf(p) == Next(p.w, p.cfg, old(StateOf(p)), Event.Publish(old(RecordsOf(metrics)), outcome))
  {
    hide Metrics, P.MetricData.Record, Acknowledged, KC.KeyCache.Contents, KC.KeyCache.View, KC.KeyCache.Valid,
         P.Publisher.PoolsOk;
    ghost var ms, b := RecordsOf(metrics), Batch(p.Keys(), [], p.Records(metrics));
    CalledAnyway(p.w, p.cfg, b, metrics, ms, |metrics|);
    r := p.Publish(metrics, outcome);
  }

  method TickAsEvent(p: P.Publisher)
    requires p.Valid()
    modifies p.keyCache`caches, p.keyCache`clearIdx, p.keyCache.Shards()
    ensures p.Valid() && StateOf(p) == Next(p.w, p.cfg, old(StateOf(p)), Event.Tick)
  {
    hide KC.KeyCache.Contents, KC.KeyCache.View, KC.KeyCache.Valid;
    p.keyCache.Tick();
  }
}
