/** Whole runs of the persister: when memory and table agree, and what a restart brings back. */
module PersisterRuns {
  import opened Text
  import opened Schema
  import opened PersisterSpec
  import P = Persister

  ghost predicate Agrees(g: Generator, s: State) {
    Agree(g, s.metrics, s.store)
  }

  // ---- One step --------------------------------------------------------------------------

  /** What a store request may write without memory and table drifting apart. */
  predicate PersistSafe(g: Generator, s: State, p: Payload, storeOk: bool) {
    storeOk ==>
      match Decode(g, Row(p))
      case None => RowKey(p) !in s.metrics
      case Some(row) => s.locked ==> Held(s.metrics, RowKey(p)) == Some(Blank(row))
  }

  lemma {:induction false} PersistAgreesIff(g: Generator, s: State, p: Payload, storeOk: bool)
    requires Agrees(g, s)
    ensures Agrees(g, AfterPersist(g, s, p, storeOk)) <==> PersistSafe(g, s, p, storeOk)
  {
    hide Decode, Blank, RowKey;
    var k, t := RowKey(p), AfterPersist(g, s, p, storeOk);
    forall j | j != k
      ensures Held(t.metrics, j) == Wanted(g, t.store, j)
    {
      assert Held(s.metrics, j) == Wanted(g, s.store, j);
    }
    assert Held(t.metrics, k) == Wanted(g, t.store, k) <==> PersistSafe(g, s, p, storeOk) by {
      assert Held(s.metrics, k) == Wanted(g, s.store, k);
    }
  }

  /** An undecodable payload is stored over a good one and the old metrics go on being sent. */
  lemma {:induction false} UndecodableDrifts(g: Generator, p: Payload, q: Payload)
    requires p.org == q.org && p.host == q.host
    requires Decode(g, Row(p)).Some? && Decode(g, Row(q)).None?
    ensures var s := AfterPersist(g, State(map[], map[], false), p, true);
            Agrees(g, s) && !Agrees(g, AfterPersist(g, s, q, true))
  {
    var s0 := State(map[], map[], false);
    var s := AfterPersist(g, s0, p, true);
    forall k
      ensures Held(s0.metrics, k) == Wanted(g, s0.store, k)
    {
    }
    PersistAgreesIff(g, s0, p, true);
    PersistAgreesIff(g, s, q, true);
  }

  /** Which removals keep them together: none of a held row that only one side forgets. */
  predicate RemoveSafe(s: State, keys: set<string>, callOk: bool, kept: set<string>) {
    if callOk && !s.locked then s.metrics.Keys !! (keys * kept) else s.metrics.Keys !! (keys - kept)
  }

  lemma {:induction false} RemoveAgreesIff(g: Generator, s: State, keys: set<string>, callOk: bool, kept: set<string>)
    requires Agrees(g, s)
    ensures Agrees(g, AfterRemove(s, keys, callOk, kept)) <==> RemoveSafe(s, keys, callOk, kept)
  {
    hide Decode, Blank;
    var t := AfterRemove(s, keys, callOk, kept);
    forall k
      ensures Held(s.metrics, k) == Wanted(g, s.store, k)
      ensures Held(t.metrics, k) == Wanted(g, t.store, k) <==>
              (k in s.metrics ==> if callOk && !s.locked then k !in keys * kept else k !in keys - kept)
    {
      assert Held(s.metrics, k) == Wanted(g, s.store, k);
    }
    if Agrees(g, t) {
      forall k | k in s.metrics
        ensures if callOk && !s.locked then k !in keys * kept else k !in keys - kept
      {
        assert Held(t.metrics, k) == Wanted(g, t.store, k);
      }
    }
  }

  // ---- Runs ------------------------------------------------------------------------------

  datatype Event =
    | Persist(p: Payload, storeOk: bool)
    | Remove(keys: set<string>, callOk: bool, kept: set<string>)
    | Send(order: seq<string>, time: int, interval: int, n: nat, after: Memory, stuck: bool)
    | Restart(loaded: Memory)

  function Step(g: Generator, s: State, e: Event): State {
    match e
    case Persist(p, storeOk) => AfterPersist(g, s, p, storeOk)
    case Remove(keys, callOk, kept) => AfterRemove(s, keys, callOk, kept)
    case Send(_, _, _, _, after, stuck) => if s.locked then s else State(after, s.store, stuck)
    case Restart(loaded) => State(loaded, s.store, false)
  }

  /** What `Send` and loading may do to memory, as their contracts say. */
  ghost predicate Possible(g: Generator, prefix: string, s: State, e: Event) {
    match e
    case Send(order, time, interval, n, after, _) =>
      Enumerates(order, s.metrics.Keys) && Stamped(s.metrics, order, time, interval, n, after)
    case Restart(loaded) => IsLoaded(g, s.store, prefix, loaded)
    case _ => true
  }

  /** The events are what the persister's methods do: requests to store and to remove, */
  method Request(p: P.Persister, e: Event, keys: seq<string>)
    requires e.Persist? || (e.Remove? && e.keys == KeySet(keys))
    modifies p`metrics, p`store
    ensures p.Now() == Step(p.g, old(p.Now()), e)
  {
    match e
    case Persist(payload, storeOk) => var _ := p.PersistHandler(payload, storeOk);
    case Remove(_, callOk, kept) => var _ := p.RemoveRows(keys, callOk, kept);
  }

  /** sending, */
  method SendAll(p: P.Persister, order: seq<string>, now: int, push: nat -> bool,
                 ghost prefix: string) returns (ghost e: Event)
    requires KeysIn(order, p.metrics) && Enumerates(order, p.metrics.Keys) && !p.locked
    modifies p`metrics, p`locked
    ensures e.Send? && Possible(p.g, prefix, old(p.Now()), e) && p.Now() == Step(p.g, old(p.Now()), e)
  {
    hide Stamped, Enumerates, Told;
    var reply, batches := p.Send(order, now, push);
    e := Send(order, now, p.interval, |Flat(batches)|, p.metrics, p.locked);
  }

  /** and starting anew over the same table. */
  method Start(p: P.Persister, rows: seq<string>, prefix: string) returns (q: P.Persister, ghost e: Event)
    requires forall k :: k in rows <==> k in p.store && HasPrefix(k, prefix)
    requires forall i, j :: 0 <= i < j < |rows| ==> rows[i] != rows[j] && Leq(rows[i], rows[j])
    ensures fresh(q) && q.g == p.g
    ensures e.Restart? && Possible(p.g, prefix, p.Now(), e) && q.Now() == Step(p.g, p.Now(), e)
  {
    hide IsLoaded, HasPrefix, Leq;
    q := new P.Persister(p.g, p.store, p.interval, p.maxBufferSize);
    var reply;
    ghost var loaded;
    reply, loaded := q.Load(rows, prefix, true);
    assert map[] + loaded == loaded;
    e := Restart(loaded);
  }

  function Exec(g: Generator, s: State, run: seq<Event>): State {
    if run == [] then s else Step(g, Exec(g, s, run[..|run| - 1]), run[|run| - 1])
  }

  ghost predicate IsRun(g: Generator, prefix: string, s: State, run: seq<Event>) {
    run == [] || (IsRun(g, prefix, s, run[..|run| - 1]) &&
        Possible(g, prefix, Exec(g, s, run[..|run| - 1]), run[|run| - 1]))
  }

  /** Requests succeed or fail as a whole, payloads can be decoded and are within the prefix. */
  predicate Clean(g: Generator, prefix: string, e: Event) {
    match e
    case Persist(p, storeOk) => storeOk ==> Decode(g, Row(p)).Some? && HasPrefix(RowKey(p), prefix)
    case Remove(keys, callOk, kept) => if callOk then keys !! kept else keys <= kept
    case Send(_, _, _, _, _, stuck) => !stuck
    case Restart(_) => true
  }

  predicate AllClean(g: Generator, prefix: string, run: seq<Event>) {
    forall i :: 0 <= i < |run| ==> Clean(g, prefix, run[i])
  }

  ghost predicate Readable(g: Generator, prefix: string, store: Store) {
    forall k :: k in store ==> Decode(g, store[k]).Some? && HasPrefix(k, prefix)
  }

  ghost predicate Sound(g: Generator, prefix: string, s: State) {
    Agrees(g, s) && Readable(g, prefix, s.store) && !s.locked
  }

  lemma {:induction false} LoadSound(g: Generator, prefix: string, store: Store, m: Memory)
    requires Readable(g, prefix, store) && IsLoaded(g, store, prefix, m)
    ensures Sound(g, prefix, State(m, store, false))
  {
    hide Decode, Leq, HasPrefix;
    ReloadIff(g, store, prefix, m);
  }

  lemma {:induction false} StepSound(g: Generator, prefix: string, s: State, e: Event)
    requires Sound(g, prefix, s) && Possible(g, prefix, s, e) && Clean(g, prefix, e)
    ensures Sound(g, prefix, Step(g, s, e))
  {
    hide Decode, Leq, HasPrefix, RowKey, Held, Wanted, Stamped, Enumerates, IsLoaded, Agree;
    match e
    case Persist(p, storeOk) => PersistAgreesIff(g, s, p, storeOk);
    case Remove(keys, callOk, kept) => RemoveAgreesIff(g, s, keys, callOk, kept);
    case Send(order, time, interval, n, after, _) =>
      StampedAgrees(g, s.store, s.metrics, order, time, interval, n, after);
    case Restart(loaded) => LoadSound(g, prefix, s.store, loaded);
  }

  lemma {:induction false} RunSound(g: Generator, prefix: string, s: State, run: seq<Event>)
    requires Sound(g, prefix, s) && IsRun(g, prefix, s, run) && AllClean(g, prefix, run)
    ensures Sound(g, prefix, Exec(g, s, run))
  {
    hide Sound, Possible, Step, Clean;
    if run != [] {
      var e := run[|run| - 1];
      RunSound(g, prefix, s, run[..|run| - 1]);
      assert Clean(g, prefix, e);
      StepSound(g, prefix, Exec(g, s, run[..|run| - 1]), e);
    }
  }

  /**
   The main result: from a start over readable rows, through any clean run, memory is at every
   point what generation makes of the table, and a restart at that point would hold the same.
   */
  lemma {:induction false} MemoryIsStore(g: Generator, prefix: string, store: Store, m: Memory, run: seq<Event>,
                                         reloaded: Memory)
    requires Readable(g, prefix, store) && IsLoaded(g, store, prefix, m)
    requires IsRun(g, prefix, State(m, store, false), run) && AllClean(g, prefix, run)
    requires IsLoaded(g, Exec(g, State(m, store, false), run).store, prefix, reloaded)
    ensures var s := Exec(g, State(m, store, false), run);
            && Agrees(g, s)
            && (forall k :: Held(reloaded, k) == Held(s.metrics, k))
  {
    hide Exec, IsRun, AllClean, Readable, IsLoaded, Held, Wanted;
    var s := Exec(g, State(m, store, false), run);
    LoadSound(g, prefix, store, m);
    RunSound(g, prefix, State(m, store, false), run);
    LoadSound(g, prefix, s.store, reloaded);
    forall k
      ensures Held(reloaded, k) == Held(s.metrics, k)
    {
      assert Held(reloaded, k) == Wanted(g, s.store, k) == Held(s.metrics, k);
    }
  }

  // ---- The last write wins ---------------------------------------------------------------

  /** The row of one host of one organisation, found by looking back through the run. */
  function Latest(store: Store, run: seq<Event>, org: int, host: string): Option<Row> {
    var k := RowKey(Payload(org, host, []));
    if run == [] then (if k in store then Some(store[k]) else None) else
      var earlier := Latest(store, run[..|run| - 1], org, host);
      match run[|run| - 1]
      case Persist(p, storeOk) => if storeOk && p.org == org && p.host == host then Some(Row(p)) else earlier
      case Remove(keys, callOk, kept) => if k in keys && k !in kept then None else earlier
      case _ => earlier
  }

  /** The table holds, under each key, the last payload of that host and organisation: others never interfere. */
  lemma {:induction false} LastWriteWins(g: Generator, s: State, run: seq<Event>, org: int, host: string)
    ensures var k := RowKey(Payload(org, host, []));
            var t := Exec(g, s, run).store;
            Latest(s.store, run, org, host) == if k in t then Some(t[k]) else None
  {
    hide RowKey, Decode;
    if run != [] {
      LastWriteWins(g, s, run[..|run| - 1], org, host);
      var e := run[|run| - 1];
      if e.Persist? {
        RowKeyInjective(e.p, Payload(org, host, []));
      }
    }
  }
}
