/**
 Runs of the key cache as the plain set it refines: touches and clearing ticks in any
 order. The question is when a key that was seen is forgotten, and so sent in full again.
 */
module KeyCacheRuns {
  import opened Keys
  import KC = KeyCache

  datatype State = State(keys: set<MKey>, idx: Byte)
  datatype Event = Touch(key: MKey) | Tick

  /** What the classes `KeyCache.Touch` and `KeyCache.Tick` do to the set and the index. */
  ghost function Next(s: State, e: Event): State {
    match e
    case Touch(k) => s.(keys := s.keys + {k})
    case Tick => State(KC.Cleared(s.keys, s.idx), KC.NextShard(s.idx))
  }

  /** The events are what the cache's methods do. */
  method Perform(c: KC.KeyCache, e: Event) returns (seen: bool)
    requires c.Valid()
    modifies c`caches, c`clearIdx, c.Shards()
    ensures c.Valid()
    ensures State(c.Contents(), c.clearIdx) == Next(old(State(c.Contents(), c.clearIdx)), e)
    ensures e.Touch? ==> seen == Answer(old(State(c.Contents(), c.clearIdx)), e.key)
  {
    hide KC.KeyCache.Contents, KC.KeyCache.View, KC.KeyCache.Valid;
    seen := false;
    match e
    case Touch(key) => seen := c.Touch(key);
    case Tick => c.Tick();
  }

  ghost function Run(s: State, es: seq<Event>): State {
    if es == [] then s else Next(Run(s, es[..|es| - 1]), es[|es| - 1])
  }

  function Ticks(es: seq<Event>): nat {
    if es == [] then 0 else Ticks(es[..|es| - 1]) + if es[|es| - 1].Tick? then 1 else 0
  }

  /** How many ticks pass, starting at index `idx`, before the one that clears `shard`. */
  function TicksUntil(idx: Byte, shard: Byte): nat {
    (shard - idx) % SHARDS
  }

  /** The shard that tick number `n` clears, counting from index `idx`. */
  function ShardAt(idx: Byte, n: nat): Byte {
    (idx + n) % SHARDS
  }

  lemma {:induction false} ShardStart(idx: Byte)
    ensures ShardAt(idx, 0) == idx
  {
  }

  lemma {:induction false} ShardAfter(idx: Byte, n: nat)
    ensures KC.NextShard(ShardAt(idx, n)) == ShardAt(idx, n + 1)
  {
  }

  lemma {:induction false} IndexAfter(s: State, es: seq<Event>)
    ensures Run(s, es).idx == ShardAt(s.idx, Ticks(es))
  {
    hide ShardAt, KC.NextShard, KC.Cleared;
    ShardStart(s.idx);
    if es != [] {
      IndexAfter(s, es[..|es| - 1]);
      ShardAfter(s.idx, Ticks(es[..|es| - 1]));
    }
  }

  /**
   A key nobody touches survives exactly the ticks that come before its shard's turn:
   present after `es` if and only if it was present and at most `TicksUntil` ticks passed.
   */
  lemma {:induction false} ForgottenExactly(s: State, es: seq<Event>, k: MKey)
    requires Event.Touch(k) !in es
    ensures k in Run(s, es).keys <==> k in s.keys && Ticks(es) <= TicksUntil(s.idx, k.key[0])
  {
    if es != [] {
      var init := es[..|es| - 1];
      assert Event.Touch(k) !in init;
      ForgottenExactly(s, init, k);
      IndexAfter(s, init);
      if es[|es| - 1].Tick? {
        TurnOf(s.idx, k.key[0]);
      }
    }
  }

  /** Every round of 256 ticks clears every shard exactly once, whatever the starting index. */
  lemma {:induction false} TurnOf(idx: Byte, shard: Byte)
    ensures TicksUntil(idx, shard) < SHARDS
    ensures forall n: nat :: n < SHARDS ==> (ShardAt(idx, n) == shard <==> n == TicksUntil(idx, shard))
  {
  }

  lemma {:induction false} RunSplit(s: State, es: seq<Event>, fs: seq<Event>)
    ensures Run(s, es + fs) == Run(Run(s, es), fs)
    ensures Ticks(es + fs) == Ticks(es) + Ticks(fs)
  {
    if fs == [] {
      assert es + fs == es;
    } else {
      var n := |fs| - 1;
      RunSplit(s, es, fs[..n]);
      assert (es + fs)[..|es + fs| - 1] == es + fs[..n];
      assert (es + fs)[|es + fs| - 1] == fs[n];
    }
  }

  /** What a touch answers in a given state: whether the key was there. */
  ghost predicate Answer(s: State, k: MKey) {
    k in s.keys
  }

  /**
   The resend bound. After any history `es`, touch `k`, then let `fs` happen without another
   touch of `k`, then touch `k` again. The second touch answers true exactly while `k`'s shard
   has not had its turn since, and answers false as soon as 256 ticks have passed.
   */
  lemma {:induction false} ResendBound(s: State, es: seq<Event>, k: MKey, fs: seq<Event>)
    requires Event.Touch(k) !in fs
    ensures var before := Run(s, es + [Event.Touch(k)]);
            && (Answer(Run(s, es + [Event.Touch(k)] + fs), k) <==>
                Ticks(fs) <= TicksUntil(before.idx, k.key[0]))
            && (Ticks(fs) >= SHARDS ==> !Answer(Run(s, es + [Event.Touch(k)] + fs), k))
            && (Ticks(fs) == 0 ==> Answer(Run(s, es + [Event.Touch(k)] + fs), k))
  {
    var head := es + [Event.Touch(k)];
    RunSplit(s, head, fs);
    assert head[..|head| - 1] == es && head[|head| - 1] == Event.Touch(k);
    assert k in Run(s, head).keys;
    ForgottenExactly(Run(s, head), fs, k);
    TurnOf(Run(s, head).idx, k.key[0]);
  }
}
