/**
 The persister's bookkeeping on values: which metrics a stored payload stands for, what the
 memory should hold, how rows are keyed and how a list is cut into batches. How a payload's raw
 bytes are decoded and turned into metrics is a parameter.
 */
module PersisterSpec {
  import opened Keys
  import opened Text
  import opened Schema

  datatype Payload = Payload(org: int, host: string, raw: seq<Byte>)

  /** A row of the table; one that this program did not write may not even be a payload. */
  datatype Row = Row(payload: Payload) | Corrupt

  type Memory = map<string, seq<Metric>>
  type Store = map<string, Row>
  type Generator = (seq<Byte>, int) -> Option<seq<Metric>>

  function Decode(g: Generator, row: Row): Option<seq<Metric>> {
    match row case Corrupt => None case Row(p) => g(p.raw, p.org)
  }

  // ---- Row keys --------------------------------------------------------------------------

  function RowKey(p: Payload): string {
    PrintInt(p.org) + [':'] + p.host
  }

  /** The key determines the organisation and the host, whatever the host contains. */
  lemma {:induction false} RowKeyInjective(p: Payload, q: Payload)
    ensures RowKey(p) == RowKey(q) <==> p.org == q.org && p.host == q.host
  {
    PrintIntChars(p.org);
    PrintIntChars(q.org);
    FindInPrefix(PrintInt(p.org), ':', p.host);
    FindInPrefix(PrintInt(q.org), ':', q.host);
    PrintIntInjective(p.org, q.org);
    if RowKey(p) == RowKey(q) {
      var n := |PrintInt(p.org)|;
      assert PrintInt(p.org) == RowKey(p)[..n] == RowKey(q)[..n] == PrintInt(q.org);
      assert p.host == RowKey(p)[n + 1..] == RowKey(q)[n + 1..] == q.host;
    }
  }

  // ---- Stamps ----------------------------------------------------------------------------

  function Stamp(m: Metric, now: int, interval: int): Metric {
    m.(time := now, interval := interval)
  }

  /** The row with its first `n` metrics stamped. */
  function StampFirst(row: seq<Metric>, now: int, interval: int, n: int): (r: seq<Metric>)
    ensures |r| == |row|
  {
    seq(|row|, i requires 0 <= i < |row| => if i < n then Stamp(row[i], now, interval) else row[i])
  }

  function StampRow(row: seq<Metric>, now: int, interval: int): (r: seq<Metric>)
    ensures |r| == |row|
  {
    StampFirst(row, now, interval, |row|)
  }

  /** A row without its stamps: what a freshly generated one looks like. */
  function Blank(row: seq<Metric>): seq<Metric> {
    StampRow(row, 0, 0)
  }

  lemma {:induction false} StampingKeeps(row: seq<Metric>, now: int, interval: int, n: int)
    ensures Blank(StampFirst(row, now, interval, n)) == Blank(row)
  {
    var r := StampFirst(row, now, interval, n);
    forall i | 0 <= i < |row|
      ensures Blank(r)[i] == Blank(row)[i]
    {
      assert r[i] == row[i] || r[i] == Stamp(row[i], now, interval);
    }
  }

  // ---- Memory and store ------------------------------------------------------------------

  function Held(m: Memory, k: string): Option<seq<Metric>> {
    if k in m then Some(Blank(m[k])) else None
  }

  function Wanted(g: Generator, store: Store, k: string): Option<seq<Metric>> {
    if k in store && Decode(g, store[k]).Some? then Some(Blank(Decode(g, store[k]).value)) else None
  }

  /** Memory is what generation makes of the stored payloads, up to time and interval. */
  ghost predicate Agree(g: Generator, m: Memory, store: Store) {
    forall k :: Held(m, k) == Wanted(g, store, k)
  }

  datatype State = State(metrics: Memory, store: Store, locked: bool)

  function AfterPersist(g: Generator, s: State, p: Payload, storeOk: bool): State {
    if !storeOk then s else
      var stored := s.(store := s.store[RowKey(p) := Row(p)]);
      match Decode(g, Row(p))
      case None => stored
      case Some(row) => if s.locked then stored else stored.(metrics := s.metrics[RowKey(p) := row])
  }

  /** `kept` are the rows that the table did not delete, whether or not it reports an error for the call. */
  function AfterRemove(s: State, keys: set<string>, callOk: bool, kept: set<string>): State {
    State(if callOk && !s.locked then s.metrics - keys else s.metrics, s.store - (keys - kept), s.locked)
  }

  predicate HasPrefix(k: string, prefix: string) {
    prefix <= k
  }

  /** A row that stops the loading of itself and of every row after it in key order. */
  predicate Stops(g: Generator, store: Store, prefix: string, k: string) {
    k in store && HasPrefix(k, prefix) && Decode(g, store[k]).None?
  }

  /** What is read back of a row: nothing outside the prefix or from the first undecodable row on. */
  ghost predicate Loads(g: Generator, store: Store, prefix: string, k: string) {
    && k in store && HasPrefix(k, prefix) && Decode(g, store[k]).Some?
    && forall b :: Stops(g, store, prefix, b) ==> !Leq(b, k)
  }

  ghost predicate IsLoaded(g: Generator, store: Store, prefix: string, m: Memory) {
    forall k :: if Loads(g, store, prefix, k) then k in m && Some(m[k]) == Decode(g, store[k]) else k !in m
  }

  /**
   When a restart brings back everything that was stored: exactly when every row that can be
   decoded has the prefix and no undecodable row with the prefix comes before it.
   */
  lemma {:induction false} ReloadIff(g: Generator, store: Store, prefix: string, m: Memory)
    requires IsLoaded(g, store, prefix, m)
    ensures Agree(g, m, store) <==>
            forall k :: k in store && Decode(g, store[k]).Some? ==>
              HasPrefix(k, prefix) && forall b :: Stops(g, store, prefix, b) ==> !Leq(b, k)
  {
    if Agree(g, m, store) {
      forall k | k in store && Decode(g, store[k]).Some?
        ensures Loads(g, store, prefix, k)
      {
        assert Held(m, k) == Wanted(g, store, k);
      }
    }
    if forall k :: k in store && Decode(g, store[k]).Some? ==> Loads(g, store, prefix, k) {
      forall k
        ensures Held(m, k) == Wanted(g, store, k)
      {
        assert Loads(g, store, prefix, k) <==> k in store && Decode(g, store[k]).Some?;
      }
    }
  }

  /** One undecodable row hides every decodable row after it. */
  lemma {:induction false} OneBadRowHidesOthers(g: Generator, bad: Row, good: Row, m: Memory)
    requires Decode(g, bad).None? && Decode(g, good).Some?
    requires IsLoaded(g, map["1:a" := bad, "1:b" := good], "", m)
    ensures m == map[] && !Agree(g, m, map["1:a" := bad, "1:b" := good])
  {
    var store := map["1:a" := bad, "1:b" := good];
    assert "1:a"[0] == "1:b"[0];
    assert "1:a"[1..] == ":a" && "1:b"[1..] == ":b";
    assert ":a"[1..] == "a" && ":b"[1..] == "b";
    assert "a"[1..] == "";
    assert Leq("a", "b") && Leq(":a", ":b") && Leq("1:a", "1:b");
    assert Leq("a", "a") && Leq(":a", ":a") && Leq("1:a", "1:a");
    assert Stops(g, store, "", "1:a");
    assert !Loads(g, store, "", "1:a") && !Loads(g, store, "", "1:b");
    assert Held(m, "1:b") == None && Wanted(g, store, "1:b").Some?;
  }

  // ---- Batches ---------------------------------------------------------------------------

  function Flat<T>(bs: seq<seq<T>>): seq<T> {
    if bs == [] then [] else Flat(bs[..|bs| - 1]) + bs[|bs| - 1]
  }

  /** Cutting a list into pieces of `n`, the last of which may be shorter. */
  function Chunks<T>(s: seq<T>, n: nat): seq<seq<T>>
    requires n > 0
    decreases |s|
  {
    if s == [] then [] else if |s| <= n then [s] else [s[..n]] + Chunks(s[n..], n)
  }

  lemma {:induction false} FlatAppend<T>(bs: seq<seq<T>>, b: seq<T>)
    ensures Flat(bs + [b]) == Flat(bs) + b
  {
    assert (bs + [b])[..|bs|] == bs;
  }

  lemma {:induction false} FlatHead<T>(b: seq<T>, bs: seq<seq<T>>)
    ensures Flat([b] + bs) == b + Flat(bs)
  {
    if bs == [] {
      assert [b] + bs == [b];
      assert [b][..0] == [];
    } else {
      var init := bs[..|bs| - 1];
      FlatHead(b, init);
      assert ([b] + bs)[..|bs|] == [b] + init;
      assert [b] + bs == [b] + init + [bs[|bs| - 1]];
    }
  }

  /** Nothing is lost, duplicated or moved; no batch is empty; all but the last are full. */
  lemma {:induction false} ChunksMean<T>(s: seq<T>, n: nat)
    requires n > 0
    ensures Flat(Chunks(s, n)) == s
    ensures forall i :: 0 <= i < |Chunks(s, n)| ==>
              0 < |Chunks(s, n)[i]| <= n && (i < |Chunks(s, n)| - 1 ==> |Chunks(s, n)[i]| == n)
    decreases |s|
  {
    if s != [] && |s| <= n {
      assert [s][..0] == [];
    } else if |s| > n {
      ChunksMean(s[n..], n);
      FlatHead(s[..n], Chunks(s[n..], n));
    }
  }

  predicate AllFull<T>(bs: seq<seq<T>>, n: nat) {
    forall i :: 0 <= i < |bs| ==> |bs[i]| == n
  }

  /** Full batches followed by more are the first batches of the whole. */
  lemma {:induction false} FullChunks<T>(bs: seq<seq<T>>, rest: seq<T>, n: nat)
    requires n > 0 && AllFull(bs, n)
    ensures Chunks(Flat(bs) + rest, n) == bs + Chunks(rest, n)
    decreases |bs|
  {
    if bs == [] {
      assert Flat(bs) + rest == rest && bs + Chunks(rest, n) == Chunks(rest, n);
    } else {
      var b, more := bs[0], bs[1..];
      assert bs == [b] + more;
      FlatHead(b, more);
      FullChunks(more, rest, n);
      var s := Flat(bs) + rest;
      assert s == b + (Flat(more) + rest);
      assert s[..n] == b && s[n..] == Flat(more) + rest;
      if |s| <= n {
        assert s == b && Flat(more) + rest == [];
        assert bs + Chunks(rest, n) == [b] + (more + Chunks(rest, n));
      } else {
        assert bs + Chunks(rest, n) == [b] + (more + Chunks(rest, n));
      }
    }
  }

  // ---- Rows in the order they are visited ------------------------------------------------

  function KeySet(keys: seq<string>): set<string> {
    set k | k in keys
  }

  predicate KeysIn(order: seq<string>, m: Memory) {
    forall i :: 0 <= i < |order| ==> order[i] in m
  }

  /** Every key once, in some order. */
  ghost predicate Enumerates(order: seq<string>, keys: set<string>) {
    && (forall i, j :: 0 <= i < j < |order| ==> order[i] != order[j])
    && (forall k :: k in keys <==> k in order)
  }

  /** All metrics, stamped, in the order of the rows. */
  function All(m: Memory, order: seq<string>, now: int, interval: int): seq<Metric>
    requires KeysIn(order, m)
  {
    if order == [] then [] else
      All(m, order[..|order| - 1], now, interval) + StampRow(m[order[|order| - 1]], now, interval)
  }

  /** How many metrics come before row `i`. */
  function Before(m: Memory, order: seq<string>, i: nat): nat
    requires KeysIn(order, m) && i <= |order|
  {
    if i == 0 then 0 else Before(m, order, i - 1) + |m[order[i - 1]]|
  }

  lemma {:induction false} AllNext(m: Memory, order: seq<string>, i: nat, now: int, interval: int)
    requires KeysIn(order, m) && i < |order|
    ensures All(m, order[..i + 1], now, interval) ==
            All(m, order[..i], now, interval) + StampRow(m[order[i]], now, interval)
  {
    assert order[..i + 1][..i] == order[..i];
  }

  lemma {:induction false} AllCount(m: Memory, order: seq<string>, i: nat, now: int, interval: int)
    requires KeysIn(order, m) && i <= |order|
    ensures |All(m, order[..i], now, interval)| == Before(m, order, i)
  {
    if i > 0 {
      AllCount(m, order, i - 1, now, interval);
      AllNext(m, order, i - 1, now, interval);
    }
  }

  lemma {:induction false} BeforeGrows(m: Memory, order: seq<string>, i: nat, j: nat)
    requires KeysIn(order, m) && i <= j <= |order|
    ensures Before(m, order, i) <= Before(m, order, j)
  {
    if i < j {
      BeforeGrows(m, order, i, j - 1);
    }
  }

  lemma {:induction false} AllPrefix(m: Memory, order: seq<string>, i: nat, now: int, interval: int)
    requires KeysIn(order, m) && i <= |order|
    ensures All(m, order[..i], now, interval) <= All(m, order, now, interval)
    decreases |order|
  {
    if i == |order| {
      assert order[..i] == order;
    } else {
      var init := order[..|order| - 1];
      AllPrefix(m, init, i, now, interval);
      assert init[..i] == order[..i];
    }
  }

  /** `now` is `was` with the first `n` metrics in the order of the rows stamped, and no others. */
  ghost predicate Stamped(was: Memory, order: seq<string>, time: int, interval: int, n: int, now: Memory) {
    && KeysIn(order, was) && KeysIn(order, now) && now.Keys == was.Keys
    && forall i :: 0 <= i < |order| ==>
         now[order[i]] == StampFirst(was[order[i]], time, interval, n - Before(was, order, i))
  }

  lemma {:induction false} StampNone(row: seq<Metric>, time: int, interval: int, n: int)
    requires n <= 0
    ensures StampFirst(row, time, interval, n) == row
  {
  }

  lemma {:induction false} StampAll(row: seq<Metric>, time: int, interval: int, n: int)
    requires n >= |row|
    ensures StampFirst(row, time, interval, n) == StampRow(row, time, interval)
  {
  }

  lemma {:induction false} StampOne(row: seq<Metric>, time: int, interval: int, n: nat)
    requires n < |row|
    ensures StampFirst(row, time, interval, n)[n := Stamp(row[n], time, interval)] ==
            StampFirst(row, time, interval, n + 1)
    ensures StampRow(row, time, interval)[..n + 1] ==
            StampRow(row, time, interval)[..n] + [Stamp(row[n], time, interval)]
  {
  }

  lemma {:induction false} NothingStamped(was: Memory, order: seq<string>, time: int, interval: int)
    requires KeysIn(order, was)
    ensures Stamped(was, order, time, interval, 0, was)
  {
    hide StampFirst, Before;
    forall i | 0 <= i < |order|
      ensures was[order[i]] == StampFirst(was[order[i]], time, interval, 0 - Before(was, order, i))
    {
      StampNone(was[order[i]], time, interval, 0 - Before(was, order, i));
    }
  }

  /** Row `i` gets its first `n` stamps after all rows before it got theirs. */
  lemma {:induction false} StampedNext(was: Memory, order: seq<string>, time: int, interval: int, i: nat, n: nat,
                                       now: Memory)
    requires KeysIn(order, was) && Enumerates(order, was.Keys)
    requires i < |order| && n <= |was[order[i]]|
    requires Stamped(was, order, time, interval, Before(was, order, i), now)
    ensures Stamped(was, order, time, interval, Before(was, order, i) + n,
            now[order[i] := StampFirst(was[order[i]], time, interval, n)])
  {
    hide StampFirst, Before, Enumerates;
    var next := now[order[i] := StampFirst(was[order[i]], time, interval, n)];
    assert next.Keys == now.Keys;
    forall j | 0 <= j < |order|
      ensures next[order[j]] == StampFirst(was[order[j]], time, interval,
              Before(was, order, i) + n - Before(was, order, j))
    {
      NextRow(was, order, time, interval, i, n, now, j);
    }
  }

  lemma {:induction false} NextRow(was: Memory, order: seq<string>, time: int, interval: int, i: nat, n: nat,
                                   now: Memory, j: nat)
    requires KeysIn(order, was) && Enumerates(order, was.Keys) && i < |order| && n <= |was[order[i]]| && j < |order|
    requires order[j] in now && now[order[j]] ==
             StampFirst(was[order[j]], time, interval, Before(was, order, i) - Before(was, order, j))
    ensures now[order[i] := StampFirst(was[order[i]], time, interval, n)][order[j]] ==
            StampFirst(was[order[j]], time, interval, Before(was, order, i) + n - Before(was, order, j))
  {
    hide StampFirst, Before, KeysIn;
    if j != i {
      Different(order, was.Keys, i, j);
      hide Enumerates;
      OtherRow(was, order, time, interval, i, n, j);
    }
  }

  lemma {:induction false} Different(order: seq<string>, keys: set<string>, i: nat, j: nat)
    requires Enumerates(order, keys) && i < |order| && j < |order| && i != j
    ensures order[i] != order[j]
  {
  }

  lemma {:induction false} OtherRow(was: Memory, order: seq<string>, time: int, interval: int, i: nat, n: nat, j: nat)
    requires KeysIn(order, was) && i < |order| && n <= |was[order[i]]| && j < |order| && j != i
    ensures var b := Before(was, order, i) - Before(was, order, j);
            StampFirst(was[order[j]], time, interval, b + n) == StampFirst(was[order[j]], time, interval, b)
  {
    hide StampFirst, Before;
    var b := Before(was, order, i) - Before(was, order, j);
    if j < i {
      RowBefore(was, order, j, i);
      StampAll(was[order[j]], time, interval, b);
      StampAll(was[order[j]], time, interval, b + n);
    } else {
      RowBefore(was, order, i, j);
      StampNone(was[order[j]], time, interval, b);
      StampNone(was[order[j]], time, interval, b + n);
    }
  }

  lemma {:induction false} RowBefore(m: Memory, order: seq<string>, i: nat, j: nat)
    requires KeysIn(order, m) && i < j < |order|
    ensures Before(m, order, i) + |m[order[i]]| <= Before(m, order, j)
  {
    hide Before;
    BeforeNext(m, order, i);
    BeforeGrows(m, order, i + 1, j);
  }

  lemma {:induction false} BeforeNext(m: Memory, order: seq<string>, i: nat)
    requires KeysIn(order, m) && i < |order|
    ensures Before(m, order, i + 1) == Before(m, order, i) + |m[order[i]]|
  {
  }

  /** Stamps are all that sending changes in memory. */
  lemma {:induction false} StampedAgrees(g: Generator, store: Store, was: Memory, order: seq<string>, time: int,
                                         interval: int, n: int, now: Memory)
    requires Stamped(was, order, time, interval, n, now) && Enumerates(order, was.Keys)
    ensures forall k :: Held(now, k) == Held(was, k)
    ensures Agree(g, now, store) <==> Agree(g, was, store)
  {
    hide StampFirst, Before, Decode, Blank;
    forall k
      ensures Held(now, k) == Held(was, k)
    {
      if k in was {
        assert k in order;
        var i :| 0 <= i < |order| && order[i] == k;
        StampingKeeps(was[k], time, interval, n - Before(was, order, i));
      }
    }
  }

  // ---- Position by position --------------------------------------------------------------

  /** All metrics in the order of the rows, as they are. */
  function Rows(m: Memory, order: seq<string>): seq<Metric>
    requires KeysIn(order, m)
  {
    if order == [] then [] else Rows(m, order[..|order| - 1]) + m[order[|order| - 1]]
  }

  /** The metric as it was, but for time and interval, which are those of the sending. */
  predicate SentFrom(m: Metric, was: Metric, now: int, interval: int) {
    && m.time == now && m.interval == interval
    && m.id == was.id && m.org == was.org && m.name == was.name && m.value == was.value
    && m.unit == was.unit && m.mtype == was.mtype && m.tags == was.tags
  }

  lemma {:induction false} AllSentFrom(m: Memory, order: seq<string>, now: int, interval: int)
    requires KeysIn(order, m)
    ensures var all, rows := All(m, order, now, interval), Rows(m, order);
            |all| == |rows| && forall q :: 0 <= q < |rows| ==> SentFrom(all[q], rows[q], now, interval)
  {
    if order != [] {
      AllSentFrom(m, order[..|order| - 1], now, interval);
    }
  }

  lemma {:induction false} RowsNext(m: Memory, order: seq<string>, i: nat)
    requires KeysIn(order, m) && i < |order|
    ensures Rows(m, order[..i + 1]) == Rows(m, order[..i]) + m[order[i]]
  {
    assert order[..i + 1][..i] == order[..i];
  }

  /** With the first `n` metrics stamped, exactly the first `n` positions have changed, to what was stamped. */
  lemma {:induction false} RowsStamped(was: Memory, order: seq<string>, time: int, interval: int, n: int, now: Memory,
                                       i: nat)
    requires Stamped(was, order, time, interval, n, now) && i <= |order|
    ensures var old_, new_, all := Rows(was, order[..i]), Rows(now, order[..i]), All(was, order[..i], time, interval);
            && |old_| == |new_| == |all| == Before(was, order, i)
            && forall q :: 0 <= q < |old_| ==> new_[q] == if q < n then all[q] else old_[q]
  {
    hide Rows, All, Before, StampFirst, StampRow;
    if i == 0 {
      NoRows(was, now, order, time, interval);
    } else {
      var row := was[order[i - 1]];
      RowsStamped(was, order, time, interval, n, now, i - 1);
      RowsNext(was, order, i - 1);
      RowsNext(now, order, i - 1);
      AllNext(was, order, i - 1, time, interval);
      BeforeNext(was, order, i - 1);
      StampedRow(row, time, interval, n - Before(was, order, i - 1));
      BothStamped(Rows(was, order[..i - 1]), Rows(now, order[..i - 1]), All(was, order[..i - 1], time, interval),
                  row, now[order[i - 1]], StampRow(row, time, interval), n);
    }
  }

  lemma {:induction false} NoRows(was: Memory, now: Memory, order: seq<string>, time: int, interval: int)
    requires KeysIn(order, was) && KeysIn(order, now)
    ensures Rows(was, order[..0]) == Rows(now, order[..0]) == All(was, order[..0], time, interval) == []
    ensures Before(was, order, 0) == 0
  {
  }

  lemma {:induction false} StampedRow(row: seq<Metric>, time: int, interval: int, n: int)
    ensures forall q :: 0 <= q < |row| ==>
              StampFirst(row, time, interval, n)[q] == if q < n then StampRow(row, time, interval)[q] else row[q]
  {
  }

  lemma {:induction false} BothStamped(a: seq<Metric>, b: seq<Metric>, c: seq<Metric>,
                                       r: seq<Metric>, s: seq<Metric>, t: seq<Metric>, n: int)
    requires |a| == |b| == |c| && |r| == |s| == |t|
    requires forall q :: 0 <= q < |a| ==> b[q] == if q < n then c[q] else a[q]
    requires forall q :: 0 <= q < |r| ==> s[q] == if q < n - |a| then t[q] else r[q]
    ensures forall q :: 0 <= q < |a + r| ==> (b + s)[q] == if q < n then (c + t)[q] else (a + r)[q]
  {
  }

  lemma {:induction false} FlatPrefix<T>(bs: seq<seq<T>>, cs: seq<seq<T>>)
    requires bs <= cs
    ensures Flat(bs) <= Flat(cs)
    decreases |cs|
  {
    if |bs| < |cs| {
      FlatPrefix(bs, cs[..|cs| - 1]);
    } else {
      assert bs == cs;
    }
  }

  /** What was pushed, position by position, and what is in memory then. */
  ghost predicate Told(was: Memory, order: seq<string>, time: int, interval: int, pushed: seq<Metric>, now: Memory)
    requires KeysIn(order, was)
  {
    && KeysIn(order, now) && now.Keys == was.Keys
    && |pushed| <= |Rows(was, order)| == |Rows(now, order)|
    && (forall q :: 0 <= q < |pushed| ==>
          SentFrom(pushed[q], Rows(was, order)[q], time, interval) && Rows(now, order)[q] == pushed[q])
    && (forall q :: |pushed| <= q < |Rows(was, order)| ==> Rows(now, order)[q] == Rows(was, order)[q])
  }

  lemma {:induction false} SendTold(was: Memory, order: seq<string>, time: int, interval: int, size: nat,
                                    batches: seq<seq<Metric>>, now: Memory)
    requires KeysIn(order, was) && size > 0 && batches <= Chunks(All(was, order, time, interval), size)
    requires Stamped(was, order, time, interval, |Flat(batches)|, now)
    ensures Told(was, order, time, interval, Flat(batches), now)
  {
    hide All, Rows, Chunks, Flat, SentFrom, Before;
    var all := All(was, order, time, interval);
    ChunksMean(all, size);
    FlatPrefix(batches, Chunks(all, size));
    AllSentFrom(was, order, time, interval);
    RowsStamped(was, order, time, interval, |Flat(batches)|, now, |order|);
    assert order[..|order|] == order;
  }

  /** Rows are alike without stamps exactly if they agree, position by position, in everything else. */
  lemma {:induction false} BlankIff(a: seq<Metric>, b: seq<Metric>)
    ensures Blank(a) == Blank(b) <==>
            |a| == |b| && forall i :: 0 <= i < |a| ==> SentFrom(a[i], b[i], a[i].time, a[i].interval)
  {
    if Blank(a) == Blank(b) {
      assert |a| == |Blank(a)| == |Blank(b)| == |b|;
      forall i | 0 <= i < |a| ensures SentFrom(a[i], b[i], a[i].time, a[i].interval) {
        assert Blank(a)[i] == Blank(b)[i];
      }
    }
  }

  /** The row key splits at its first colon into the organisation's number and the host. */
  lemma {:induction false} RowKeySplits(p: Payload)
    ensures var k := RowKey(p);
            var i := Find(k, ':');
            i < |k| && k[..i] == PrintInt(p.org) && k[i + 1..] == p.host
  {
    PrintIntChars(p.org);
    FindInPrefix(PrintInt(p.org), ':', p.host);
  }

  lemma {:induction false} PrefixMeans(k: string, prefix: string)
    ensures HasPrefix(k, prefix) <==> exists rest :: k == prefix + rest
  {
    if HasPrefix(k, prefix) {
      assert k == prefix + k[|prefix|..];
    }
  }
}
