/**
 The key cache under concurrency, one step per critical section: any number of threads run
 `Touch` while the single clearing goroutine snapshots the caches, resets one shard of each,
 counts what is left shard by shard, and unlinks what it counted as empty.

 Caches are objects with identities, because a thread may hold a cache that has meanwhile
 been unlinked from the organisation map.
 */
module KeyCacheConcurrent {
  import opened Keys

  type CacheId = nat
  type ThreadId = nat

  datatype Target = Target(org: Uint32, cache: CacheId)

  /** Where a thread is inside `Touch`. */
  datatype TouchPc =
    | Looking(key: MKey)                  // about to read the organisation map
    | Missing(key: MKey)                  // found no cache, about to take the write lock
    | Holding(key: MKey, cache: CacheId)  // has a cache, about to take its shard's lock

  /**
   Where the clearing goroutine is. `checked` says how many shards the scan has counted and
   `emptyAtStart` whether the cache was empty when it counted the first one.
   */
  datatype ClearPc =
    | Waiting
    | Clearing(targets: seq<Target>)
    | Scanning(targets: seq<Target>, checked: nat, sum: nat, emptyAtStart: bool)

  /** What an observer could write down, in order. */
  datatype Event =
    | Touched(key: MKey, cache: CacheId, seen: bool)
    | ShardReset(cache: CacheId, shard: Byte)
    | Unlinked(target: Target, linked: map<Uint32, CacheId>, emptyAtStart: bool)
    | Kept(target: Target)
    | Linked(org: Uint32, cache: CacheId)
    | Cycled(shard: Byte, snapshot: map<Uint32, CacheId>, began: nat)

  /** `snapshot` is what was linked when the current cycle began, at position `began` of the log. */
  datatype State = State(
    linked: map<Uint32, CacheId>,
    data: map<CacheId, set<Key>>,
    owner: map<CacheId, Uint32>,
    threads: map<ThreadId, TouchPc>,
    clear: ClearPc,
    clearIdx: Byte,
    snapshot: map<Uint32, CacheId>,
    began: nat,
    log: seq<Event>)

  datatype Step =
    | Call(t: ThreadId, key: MKey)
    | Look(t: ThreadId)
    | Link(t: ThreadId, id: CacheId)
    | TouchShard(t: ThreadId)
    | Snapshot(orgs: seq<Uint32>)
    | Reset
    | Count
    | Decide
    | Advance

  const INITIAL := State(map[], map[], map[], map[], Waiting, 0, map[], 0, [])

  /** The keys of cache `c` that live in shard `i`. */
  function ShardOf(s: State, c: CacheId, i: int): set<Key>
    requires c in s.data
  {
    set k | k in s.data[c] && k[0] == i
  }

  ghost predicate Enumerates(orgs: seq<Uint32>, m: map<Uint32, CacheId>) {
    && (forall o :: o in orgs <==> o in m)
    && (forall i, j :: 0 <= i < j < |orgs| ==> orgs[i] != orgs[j])
  }

  ghost predicate Enabled(s: State, a: Step) {
    match a
    case Call(t, _) => t !in s.threads
    case Look(t) => t in s.threads && s.threads[t].Looking?
    case Link(t, id) => t in s.threads && s.threads[t].Missing? && id !in s.data
    case TouchShard(t) => t in s.threads && s.threads[t].Holding? && s.threads[t].cache in s.data
    case Snapshot(orgs) => s.clear.Waiting? && Enumerates(orgs, s.linked)
    case Reset => s.clear.Clearing? && s.clear.targets != [] && s.clear.targets[0].cache in s.data
    case Count =>
      s.clear.Scanning? && s.clear.checked < SHARDS && s.clear.targets != [] && s.clear.targets[0].cache in s.data
    case Decide => s.clear.Scanning? && s.clear.checked == SHARDS && s.clear.targets != []
    case Advance => s.clear.Clearing? && s.clear.targets == []
  }

  ghost function Do(s: State, a: Step): State
    requires Enabled(s, a)
  {
    match a
    case Call(t, key) =>
      s.(threads := s.threads[t := Looking(key)])
    case Look(t) =>
      var key := s.threads[t].key;
      s.(threads := s.threads[t := if key.org in s.linked then Holding(key, s.linked[key.org]) else Missing(key)])
    case Link(t, id) =>
      var key := s.threads[t].key;
      if key.org in s.linked then
        // another thread linked one in the meantime
        s.(threads := s.threads[t := Holding(key, s.linked[key.org])])
      else
        s.(threads := s.threads[t := Holding(key, id)],
           linked := s.linked[key.org := id],
           data := s.data[id := {}],
           owner := s.owner[id := key.org],
           log := s.log + [Linked(key.org, id)])
    case TouchShard(t) =>
      var Holding(key, c) := s.threads[t];
      s.(threads := s.threads - {t},
         data := s.data[c := s.data[c] + {key.key}],
         log := s.log + [Touched(key, c, key.key in s.data[c])])
    case Snapshot(orgs) =>
      s.(clear := Clearing(seq(|orgs|, i requires 0 <= i < |orgs| && orgs[i] in s.linked =>
                                 Target(orgs[i], s.linked[orgs[i]]))),
         snapshot := s.linked, began := |s.log|)
    case Reset =>
      var c := s.clear.targets[0].cache;
      var kept := set k | k in s.data[c] && k[0] != s.clearIdx;
      s.(data := s.data[c := kept],
         clear := Scanning(s.clear.targets, 0, 0, true),  // the scan has not begun
         log := s.log + [ShardReset(c, s.clearIdx)])
    case Count =>
      var c := s.clear.targets[0].cache;
      s.(clear := Scanning(s.clear.targets, s.clear.checked + 1,
                           s.clear.sum + |ShardOf(s, c, s.clear.checked)|,
                           if s.clear.checked == 0 then s.data[c] == {} else s.clear.emptyAtStart))
    case Decide =>
      var t := s.clear.targets[0];
      var rest := Clearing(s.clear.targets[1..]);
      if s.clear.sum == 0 then
        s.(linked := s.linked - {t.org}, clear := rest,
           log := s.log + [Unlinked(t, s.linked, s.clear.emptyAtStart)])
      else
        s.(clear := rest, log := s.log + [Kept(t)])
    case Advance =>
      s.(clear := Waiting, clearIdx := if s.clearIdx + 1 == SHARDS then 0 else s.clearIdx + 1,
         log := s.log + [Cycled(s.clearIdx, s.snapshot, s.began)])
  }

  /** Any interleaving: a step that is not enabled where it is tried does nothing. */
  ghost function Exec(s: State, steps: seq<Step>): State {
    if steps == [] then s
    else
      var p := Exec(s, steps[..|steps| - 1]);
      if Enabled(p, steps[|steps| - 1]) then Do(p, steps[|steps| - 1]) else p
  }

  // ---- What the log promises -------------------------------------------------------------

  /**
   Cache `c` has a record of `key`: some touch of this organisation and key through `c` answered
   false, and the key's shard of `c` was not reset since.
   */
  ghost predicate Recorded(log: seq<Event>, key: MKey, c: CacheId) {
    exists i :: 0 <= i < |log| && log[i] == Touched(key, c, false)
                && forall n :: i < n < |log| ==> log[n] != ShardReset(c, key.key[0])
  }

  /**
   Touches answer true exactly when their cache has a record of the key. Every unlinking removes
   the very cache that was snapshotted, and that cache was empty when its scan began. A cache is only
   kept while it has a record of some key.
   */
  ghost predicate GoodLog(log: seq<Event>) {
    forall j :: 0 <= j < |log| ==> GoodEvent(log[..j], log[j])
  }

  ghost predicate GoodEvent(before: seq<Event>, e: Event) {
    match e
    case Touched(key, c, seen) => seen <==> Recorded(before, key, c)
    case ShardReset(_, _) => true
    case Unlinked(t, linked, emptyAtStart) => t.org in linked && linked[t.org] == t.cache && emptyAtStart
    case Kept(t) => exists k :: Recorded(before, MKey(k, t.org), t.cache)
    case Linked(_, _) => true
    case Cycled(_, _, _) => true
  }

  lemma {:induction false} RecordedStep(log: seq<Event>, e: Event, key: MKey, c: CacheId)
    ensures Recorded(log + [e], key, c) <==>
            e == Touched(key, c, false) || (Recorded(log, key, c) && e != ShardReset(c, key.key[0]))
  {
    var next := log + [e];
    if Recorded(next, key, c) {
      var i :| 0 <= i < |next| && next[i] == Touched(key, c, false)
               && forall n :: i < n < |next| ==> next[n] != ShardReset(c, key.key[0]);
      if i < |log| {
        assert log[i] == next[i];
        assert forall n :: i < n < |log| ==> log[n] == next[n];
        assert next[|log|] == e;
      }
    }
    if e == Touched(key, c, false) {
      assert next[|log|] == e;
    } else if Recorded(log, key, c) && e != ShardReset(c, key.key[0]) {
      var i :| 0 <= i < |log| && log[i] == Touched(key, c, false)
               && forall n :: i < n < |log| ==> log[n] != ShardReset(c, key.key[0]);
      assert next[i] == log[i];
    }
  }

  lemma {:induction false} GoodLogStep(log: seq<Event>, e: Event)
    requires GoodLog(log) && GoodEvent(log, e)
    ensures GoodLog(log + [e])
  {
    var next := log + [e];
    forall j | 0 <= j < |next| ensures GoodEvent(next[..j], next[j]) {
      if j < |log| {
        assert next[..j] == log[..j] && next[j] == log[j];
      } else {
        assert next[..j] == log;
      }
    }
  }

  // ---- The invariant ---------------------------------------------------------------------

  /** Links point at caches made for their organisation, and so do the threads' references. */
  ghost predicate Owned(s: State) {
    && s.owner.Keys == s.data.Keys
    && (forall o :: o in s.linked ==> s.linked[o] in s.data && s.owner[s.linked[o]] == o)
    && (forall t :: t in s.threads && s.threads[t].Holding? ==>
          s.threads[t].cache in s.data && s.owner[s.threads[t].cache] == s.threads[t].key.org)
  }

  ghost function Pending(s: State): seq<Target> {
    if s.clear.Waiting? then [] else s.clear.targets
  }

  /** What the goroutine still has to visit is linked as it was snapshotted. */
  ghost predicate StillLinked(linked: map<Uint32, CacheId>, targets: seq<Target>) {
    && (forall i :: 0 <= i < |targets| ==> targets[i].org in linked && linked[targets[i].org] == targets[i].cache)
    && (forall i, j :: 0 <= i < j < |targets| ==> targets[i].org != targets[j].org)
  }

  /** A cache that was not empty when the scan began still has a key the scan has yet to meet. */
  ghost predicate ScanFair(s: State) {
    s.clear.Scanning? ==>
      && s.clear.targets != []
      && s.clear.targets[0].cache in s.data
      && (!s.clear.emptyAtStart && s.clear.sum == 0 ==>
            exists k :: k in s.data[s.clear.targets[0].cache] && k[0] >= s.clear.checked)
      && (s.clear.sum > 0 ==> s.data[s.clear.targets[0].cache] != {})
  }

  /** Every cache holds exactly the keys the log says it has a record of. */
  ghost predicate Exact(s: State)
    requires s.owner.Keys == s.data.Keys
  {
    && (forall c, k :: c in s.data ==> (k in s.data[c] <==> Recorded(s.log, MKey(k, s.owner[c]), c)))
    && (forall i :: 0 <= i < |s.log| && s.log[i].Touched? ==>
          s.log[i].cache in s.data && s.owner[s.log[i].cache] == s.log[i].key.org)
  }

  ghost predicate Inv(s: State) {
    Owned(s) && StillLinked(s.linked, Pending(s)) && ScanFair(s) && Exact(s) && GoodLog(s.log)
  }

  lemma {:induction false} LookKeeps(s: State, a: Step)
    requires Inv(s) && Enabled(s, a) && (a.Call? || a.Look?)
    ensures Inv(Do(s, a))
  {
  }

  lemma {:induction false} LinkKeeps(s: State, a: Step)
    requires Inv(s) && Enabled(s, a) && a.Link?
    ensures Inv(Do(s, a))
  {
    var org := s.threads[a.t].key.org;
    if org !in s.linked {
      var e, s' := Linked(org, a.id), Do(s, a);
      GoodLogStep(s.log, e);
      forall k: Key ensures !Recorded(s.log, MKey(k, org), a.id) {
      }
      forall d, k | d in s'.data ensures k in s'.data[d] <==> Recorded(s'.log, MKey(k, s'.owner[d]), d) {
        RecordedStep(s.log, e, MKey(k, s'.owner[d]), d);
      }
    }
  }

  lemma {:induction false} TouchKeeps(s: State, a: Step)
    requires Inv(s) && Enabled(s, a) && a.TouchShard?
    ensures Inv(Do(s, a))
  {
    var Holding(key, c) := s.threads[a.t];
    var e := Touched(key, c, key.key in s.data[c]);
    var s' := Do(s, a);
    assert key == MKey(key.key, s.owner[c]);
    GoodLogStep(s.log, e);
    forall d, k | d in s'.data ensures k in s'.data[d] <==> Recorded(s'.log, MKey(k, s'.owner[d]), d) {
      RecordedStep(s.log, e, MKey(k, s.owner[d]), d);
    }
  }

  lemma {:induction false} SnapshotKeeps(s: State, a: Step)
    requires Inv(s) && Enabled(s, a) && a.Snapshot?
    ensures Inv(Do(s, a))
  {
  }

  lemma {:induction false} AdvanceKeeps(s: State, a: Step)
    requires Inv(s) && Enabled(s, a) && a.Advance?
    ensures Inv(Do(s, a))
  {
    var e, s' := Cycled(s.clearIdx, s.snapshot, s.began), Do(s, a);
    GoodLogStep(s.log, e);
    forall d, k | d in s'.data ensures k in s'.data[d] <==> Recorded(s'.log, MKey(k, s'.owner[d]), d) {
      RecordedStep(s.log, e, MKey(k, s.owner[d]), d);
    }
  }

  lemma {:induction false} ResetKeeps(s: State, a: Step)
    requires Inv(s) && Enabled(s, a) && a.Reset?
    ensures Inv(Do(s, a))
  {
    var c := s.clear.targets[0].cache;
    var e := ShardReset(c, s.clearIdx);
    var s' := Do(s, a);
    GoodLogStep(s.log, e);
    forall d, k | d in s'.data ensures k in s'.data[d] <==> Recorded(s'.log, MKey(k, s'.owner[d]), d) {
      RecordedStep(s.log, e, MKey(k, s.owner[d]), d);
    }
  }

  lemma {:induction false} CountKeeps(s: State, a: Step)
    requires Inv(s) && Enabled(s, a) && a.Count?
    ensures Inv(Do(s, a))
  {
    var c := s.clear.targets[0].cache;
    var s' := Do(s, a);
    if !s'.clear.emptyAtStart && s.clear.sum == 0 {
      var k :| k in s.data[c] && k[0] >= s.clear.checked;
      assert k[0] == s.clear.checked ==> k in ShardOf(s, c, s.clear.checked);
    }
    if s.data[c] == {} {
      assert ShardOf(s, c, s.clear.checked) == {};
    }
  }

  lemma {:induction false} DecideKeeps(s: State, a: Step)
    requires Inv(s) && Enabled(s, a) && a.Decide?
    ensures Inv(Do(s, a))
  {
    var t := s.clear.targets[0];
    var s' := Do(s, a);
    if s.clear.sum == 0 {
      var e := Unlinked(t, s.linked, s.clear.emptyAtStart);
      GoodLogStep(s.log, e);
      forall d, k | d in s'.data ensures k in s'.data[d] <==> Recorded(s'.log, MKey(k, s'.owner[d]), d) {
        RecordedStep(s.log, e, MKey(k, s.owner[d]), d);
      }
    } else {
      var e := Kept(t);
      var k :| k in s.data[t.cache];
      assert s.linked[t.org] == t.cache && s.owner[t.cache] == t.org && Recorded(s.log, MKey(k, t.org), t.cache);
      GoodLogStep(s.log, e);
      forall d, k | d in s'.data ensures k in s'.data[d] <==> Recorded(s'.log, MKey(k, s'.owner[d]), d) {
        RecordedStep(s.log, e, MKey(k, s.owner[d]), d);
      }
    }
  }

  lemma {:induction false} StepKeeps(s: State, a: Step)
    requires Inv(s) && Enabled(s, a)
    ensures Inv(Do(s, a))
  {
    match a
    case Call(_, _) => LookKeeps(s, a);
    case Look(_) => LookKeeps(s, a);
    case Link(_, _) => LinkKeeps(s, a);
    case TouchShard(_) => TouchKeeps(s, a);
    case Snapshot(_) => SnapshotKeeps(s, a);
    case Advance => AdvanceKeeps(s, a);
    case Reset => ResetKeeps(s, a);
    case Count => CountKeeps(s, a);
    case Decide => DecideKeeps(s, a);
  }

  lemma {:induction false} ReachableInv(steps: seq<Step>)
    ensures Inv(Exec(INITIAL, steps))
  {
    if steps != [] {
      var p := Exec(INITIAL, steps[..|steps| - 1]);
      ReachableInv(steps[..|steps| - 1]);
      if Enabled(p, steps[|steps| - 1]) {
        StepKeeps(p, steps[|steps| - 1]);
      }
    }
  }

  // ---- Links and cycles ------------------------------------------------------------------

  /** Which caches are linked, told from the log. */
  ghost function LinksAfter(log: seq<Event>): map<Uint32, CacheId> {
    if log == [] then map[] else
    var before := LinksAfter(log[..|log| - 1]);
    match log[|log| - 1]
    case Linked(org, c) => before[org := c]
    case Unlinked(t, _, _) => before - {t.org}
    case _ => before
  }

  /** How many cycles of the clearing goroutine are over. */
  function Cycles(log: seq<Event>): nat {
    if log == [] then 0 else Cycles(log[..|log| - 1]) + if log[|log| - 1].Cycled? then 1 else 0
  }

  ghost predicate ResetSince(log: seq<Event>, from: nat, c: CacheId, shard: Byte) {
    exists n :: from <= n < |log| && log[n] == ShardReset(c, shard)
  }

  /**
   Caches are linked only for organisations that have none; an unlinking knows what is linked; and a
   cycle is over only when the shard of its turn was reset in every cache that was linked when it began.
   */
  ghost predicate GoodTurn(before: seq<Event>, e: Event) {
    match e
    case Linked(org, _) => org !in LinksAfter(before)
    case Unlinked(_, linked, _) => linked == LinksAfter(before)
    case Cycled(shard, snapshot, began) =>
      && shard == Cycles(before) % SHARDS
      && began <= |before| && snapshot == LinksAfter(before[..began])
      && forall o :: o in snapshot ==> ResetSince(before, began, snapshot[o], shard)
    case _ => true
  }

  ghost predicate GoodTurns(log: seq<Event>) {
    forall j :: 0 <= j < |log| ==> GoodTurn(log[..j], log[j])
  }

  /** The cache of `o` has yet to be visited in this cycle. */
  ghost predicate Awaits(s: State, o: Uint32)
    requires o in s.snapshot
  {
    exists i :: 0 <= i < |Pending(s)| && Pending(s)[i] == Target(o, s.snapshot[o]) && (s.clear.Scanning? ==> i > 0)
  }

  ghost predicate InCycle(s: State) {
    && s.linked == LinksAfter(s.log) && s.clearIdx == Cycles(s.log) % SHARDS && GoodTurns(s.log)
    && (s.clear.Scanning? ==> s.clear.targets != [])
    && (!s.clear.Waiting? ==>
          && s.began <= |s.log| && s.snapshot == LinksAfter(s.log[..s.began])
          && forall o :: o in s.snapshot ==> Awaits(s, o) || ResetSince(s.log, s.began, s.snapshot[o], s.clearIdx))
  }

  lemma {:induction false} LogGrows(log: seq<Event>, e: Event, began: nat)
    requires GoodTurns(log) && GoodTurn(log, e)
    ensures GoodTurns(log + [e])
    ensures Cycles(log + [e]) == Cycles(log) + if e.Cycled? then 1 else 0
    ensures LinksAfter(log + [e]) ==
            match e
            case Linked(org, c) => LinksAfter(log)[org := c]
            case Unlinked(t, _, _) => LinksAfter(log) - {t.org}
            case _ => LinksAfter(log)
    ensures began <= |log| ==> (log + [e])[..began] == log[..began]
    ensures forall c, shard :: ResetSince(log, began, c, shard) ==> ResetSince(log + [e], began, c, shard)
    ensures began <= |log| && e.ShardReset? ==> ResetSince(log + [e], began, e.cache, e.shard)
  {
    var next := log + [e];
    assert next[..|log|] == log && next[|log|] == e;
    forall j | 0 <= j < |next| ensures GoodTurn(next[..j], next[j]) {
      if j < |log| {
        assert next[..j] == log[..j] && next[j] == log[j];
      }
    }
    assert forall n :: 0 <= n < |log| ==> next[n] == log[n];
  }

  lemma {:induction false} QuietInCycle(s: State, a: Step)
    requires InCycle(s) && Enabled(s, a) && (a.Call? || a.Look? || a.Count?)
    ensures InCycle(Do(s, a))
  {
    hide GoodTurns, LinksAfter, Cycles, ResetSince;
    var t := Do(s, a);
    forall o | !t.clear.Waiting? && o in t.snapshot && Awaits(s, o) ensures Awaits(t, o) {
      var i :| 0 <= i < |Pending(s)| && Pending(s)[i] == Target(o, s.snapshot[o]) && (s.clear.Scanning? ==> i > 0);
      assert Pending(t)[i] == Target(o, t.snapshot[o]);
    }
  }

  lemma {:induction false} ThreadInCycle(s: State, a: Step)
    requires InCycle(s) && Enabled(s, a) && (a.Link? || a.TouchShard?)
    ensures InCycle(Do(s, a))
  {
    hide GoodTurns, LinksAfter, Cycles, ResetSince;
    var t := Do(s, a);
    if t.log != s.log {
      LogGrows(s.log, t.log[|s.log|], s.began);
    }
    forall o | !t.clear.Waiting? && o in t.snapshot && Awaits(s, o) ensures Awaits(t, o) {
      var i :| 0 <= i < |Pending(s)| && Pending(s)[i] == Target(o, s.snapshot[o]) && (s.clear.Scanning? ==> i > 0);
      assert Pending(t)[i] == Target(o, t.snapshot[o]);
    }
  }

  lemma {:induction false} SnapshotInCycle(s: State, a: Step)
    requires InCycle(s) && Enabled(s, a) && a.Snapshot?
    ensures InCycle(Do(s, a))
  {
    hide GoodTurns, LinksAfter, Cycles, ResetSince;
    var t := Do(s, a);
    assert t.log[..t.began] == s.log;
    forall o | o in t.snapshot ensures Awaits(t, o) {
      assert o in a.orgs;
      var i :| 0 <= i < |a.orgs| && a.orgs[i] == o;
      assert Pending(t)[i] == Target(o, t.snapshot[o]);
    }
  }

  lemma {:induction false} ResetInCycle(s: State, a: Step)
    requires InCycle(s) && Enabled(s, a) && a.Reset?
    ensures InCycle(Do(s, a))
  {
    hide GoodTurns, LinksAfter, Cycles, ResetSince;
    var t := Do(s, a);
    LogGrows(s.log, ShardReset(s.clear.targets[0].cache, s.clearIdx), s.began);
    forall o | o in t.snapshot ensures Awaits(t, o) || ResetSince(t.log, t.began, t.snapshot[o], t.clearIdx) {
      if Awaits(s, o) {
        var i :| 0 <= i < |Pending(s)| && Pending(s)[i] == Target(o, s.snapshot[o]);
        assert i > 0 ==> Pending(t)[i] == Target(o, t.snapshot[o]);
      }
    }
  }

  lemma {:induction false} DecideInCycle(s: State, a: Step)
    requires InCycle(s) && Enabled(s, a) && a.Decide?
    ensures InCycle(Do(s, a))
  {
    hide GoodTurns, LinksAfter, Cycles, ResetSince;
    var t := Do(s, a);
    if s.clear.sum == 0 {
      LogGrows(s.log, Unlinked(s.clear.targets[0], s.linked, s.clear.emptyAtStart), s.began);
    } else {
      LogGrows(s.log, Kept(s.clear.targets[0]), s.began);
    }
    forall o | o in t.snapshot ensures Awaits(t, o) || ResetSince(t.log, t.began, t.snapshot[o], t.clearIdx) {
      if Awaits(s, o) {
        var i :| 0 < i < |Pending(s)| && Pending(s)[i] == Target(o, s.snapshot[o]);
        assert Pending(t)[i - 1] == Target(o, t.snapshot[o]);
      }
    }
  }

  lemma {:induction false} AdvanceInCycle(s: State, a: Step)
    requires InCycle(s) && Enabled(s, a) && a.Advance?
    ensures InCycle(Do(s, a))
  {
    hide GoodTurns, LinksAfter, Cycles, ResetSince;
    LogGrows(s.log, Cycled(s.clearIdx, s.snapshot, s.began), s.began);
    NextTurn(Cycles(s.log));
  }

  lemma {:induction false} NextTurn(n: nat)
    ensures (n + 1) % SHARDS == if n % SHARDS + 1 == SHARDS then 0 else n % SHARDS + 1
  {
  }

  lemma {:induction false} ReachableInCycle(steps: seq<Step>)
    ensures InCycle(Exec(INITIAL, steps))
  {
    hide InCycle, Enabled, Do;
    if steps == [] {
      InitialInCycle();
    } else {
      var p, a := Exec(INITIAL, steps[..|steps| - 1]), steps[|steps| - 1];
      ReachableInCycle(steps[..|steps| - 1]);
      if Enabled(p, a) {
        match a
        case Call(_, _) => QuietInCycle(p, a);
        case Look(_) => QuietInCycle(p, a);
        case Count => QuietInCycle(p, a);
        case Link(_, _) => ThreadInCycle(p, a);
        case TouchShard(_) => ThreadInCycle(p, a);
        case Snapshot(_) => SnapshotInCycle(p, a);
        case Reset => ResetInCycle(p, a);
        case Decide => DecideInCycle(p, a);
        case Advance => AdvanceInCycle(p, a);
      }
    }
  }

  lemma {:induction false} InitialInCycle()
    ensures InCycle(INITIAL)
  {
  }

  // ---- Main results ----------------------------------------------------------------------

  /**
   Soundness in every interleaving: a touch that answers true was preceded by a touch of the same
   organisation and key that answered false, even through a cache unlinked in the meantime.
   */
  lemma {:induction false} TouchSound(steps: seq<Step>, j: nat)
    requires j < |Exec(INITIAL, steps).log|
    requires Exec(INITIAL, steps).log[j].Touched? && Exec(INITIAL, steps).log[j].seen
    ensures var log := Exec(INITIAL, steps).log;
            exists i :: 0 <= i < j && log[i].Touched? && log[i].key == log[j].key && !log[i].seen
  {
    ReachableInv(steps);
    var log := Exec(INITIAL, steps).log;
    assert GoodEvent(log[..j], log[j]);
    var i :| 0 <= i < |log[..j]| && log[..j][i] == Touched(log[j].key, log[j].cache, false);
    assert log[i] == log[..j][i];
  }

  /**
   Every unlinking, in every interleaving, removes the cache the goroutine snapshotted for that
   organisation, and that cache was empty when its scan began.
   */
  lemma {:induction false} UnlinkSound(steps: seq<Step>, j: nat)
    requires j < |Exec(INITIAL, steps).log| && Exec(INITIAL, steps).log[j].Unlinked?
    ensures var e := Exec(INITIAL, steps).log[j];
            e.target.org in e.linked && e.linked[e.target.org] == e.target.cache && e.emptyAtStart
  {
    ReachableInv(steps);
    var log := Exec(INITIAL, steps).log;
    assert GoodEvent(log[..j], log[j]);
  }

  /**
   In every interleaving cycle number `q`, counting from zero, is for shard `q` modulo 256; when it is
   over, that shard was reset in every cache that was linked when it began. So any 256 cycles in a row
   have one for each shard.
   */
  lemma {:induction false} CycleSound(steps: seq<Step>, j: nat)
    requires j < |Exec(INITIAL, steps).log| && Exec(INITIAL, steps).log[j].Cycled?
    ensures var log := Exec(INITIAL, steps).log;
            var e := log[j];
            && e.shard == Cycles(log[..j]) % 256
            && e.began <= j && e.snapshot == LinksAfter(log[..e.began])
            && forall o :: o in e.snapshot ==> ResetSince(log[..j], e.began, e.snapshot[o], e.shard)
  {
    ReachableInCycle(steps);
    var log := Exec(INITIAL, steps).log;
    assert GoodTurn(log[..j], log[j]);
    assert log[..j][..log[j].began] == log[..log[j].began];
  }

  /**
   The resend bound in every interleaving: once a cycle for the key's shard is over that began with
   the key's cache linked, a touch through that cache answers false, unless another touch of the key
   through it has answered false since the cycle began.
   */
  lemma {:induction false} ResendAfterCycle(steps: seq<Step>, e: nat, j: nat)
    requires e < j < |Exec(INITIAL, steps).log|
    requires Exec(INITIAL, steps).log[e].Cycled? && Exec(INITIAL, steps).log[j].Touched?
    requires var log := Exec(INITIAL, steps).log;
             var key, c := log[j].key, log[j].cache;
             && log[e].shard == key.key[0] && key.org in log[e].snapshot && log[e].snapshot[key.org] == c
             && forall i :: log[e].began <= i < j ==> log[i] != Touched(key, c, false)
    ensures !Exec(INITIAL, steps).log[j].seen
  {
    CycleSound(steps, e);
    ReachableInv(steps);
    var log := Exec(INITIAL, steps).log;
    var key, c := log[j].key, log[j].cache;
    assert GoodEvent(log[..j], log[j]);
    var n :| log[e].began <= n < e && log[..e][n] == ShardReset(c, key.key[0]);
    assert log[n] == ShardReset(c, key.key[0]) && log[..j][n] == log[n];
    assert forall i :: 0 <= i < j ==> log[..j][i] == log[i];
  }

  /** Every cache the goroutine decides to keep has a record of some key of its organisation. */
  lemma {:induction false} KeptSound(steps: seq<Step>, j: nat)
    requires j < |Exec(INITIAL, steps).log| && Exec(INITIAL, steps).log[j].Kept?
    ensures var log := Exec(INITIAL, steps).log;
            exists k :: Recorded(log[..j], MKey(k, log[j].target.org), log[j].target.cache)
  {
    ReachableInv(steps);
    var log := Exec(INITIAL, steps).log;
    assert GoodEvent(log[..j], log[j]);
  }
}
