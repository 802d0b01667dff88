/**
 The persister: payloads kept in a table and, as generated metrics, in memory, from where they
 are sent in batches at every interval. The table and the gateway it pushes to answer through
 parameters; a call that waits for a mutex nobody will release is a call that never replies.
 */
module Persister {
  import opened Text
  import opened Schema
  import opened PersisterSpec

  datatype Reply = Ok | BadRequest | ServerError | Never
  datatype SendReply = Sent | Failed | Stuck

  class Persister {
    var metrics: Memory
    var store: Store
    var locked: bool
    const g: Generator
    const interval: int
    const maxBufferSize: int

    constructor (g: Generator, store: Store, interval: int, maxBufferSize: int)
      ensures this.g == g && this.interval == interval && this.maxBufferSize == maxBufferSize
      ensures metrics == map[] && this.store == store && !locked
    {
      this.g, this.interval, this.maxBufferSize := g, interval, maxBufferSize;
      this.metrics, this.store, this.locked := map[], store, false;
    }

    function Now(): State
      reads this
    {
      State(metrics, store, locked)
    }

    /** A batch is sent as soon as it is this long: a limit below one means one by one. */
    function Size(): nat {
      if maxBufferSize < 1 then 1 else maxBufferSize
    }

    // ---- Storing and removing ------------------------------------------------------------

    method Persist(k: string, row: seq<Metric>) returns (done: bool)
      modifies this`metrics
      ensures done == !locked
      ensures metrics == if done then old(metrics)[k := row] else old(metrics)
    {
      if locked {
        return false;
      }
      metrics := metrics[k := row];
      return true;
    }

    /** The payload is stored before it is known whether it can be decoded. */
    method PersistHandler(p: Payload, storeOk: bool) returns (reply: Reply)
      modifies this`metrics, this`store
      ensures reply.ServerError? <==> !storeOk
      ensures reply.Ok? <==> storeOk && Decode(g, Row(p)).Some? && !locked
      ensures reply.BadRequest? <==> storeOk && Decode(g, Row(p)).None?
      ensures Now() == AfterPersist(g, old(Now()), p, storeOk)
      ensures var k := PrintInt(p.org) + ":" + p.host;
              && (storeOk ==> store == old(store)[k := Row(p)])
              && (reply.Ok? ==> g(p.raw, p.org).Some? && metrics == old(metrics)[k := g(p.raw, p.org).value])
    {
      if !storeOk {
        return ServerError;
      }
      var k := PrintInt(p.org) + ":" + p.host;
      store := store[k := Row(p)];
      match g(p.raw, p.org)
      case None => return BadRequest;
      case Some(row) =>
        var done := Persist(k, row);
        return if done then Ok else Never;
    }

    method RemoveRows(keys: seq<string>, callOk: bool, kept: set<string>) returns (reply: Reply)
      modifies this`metrics, this`store
      ensures reply.ServerError? <==> !callOk
      ensures reply.Ok? <==> callOk && !locked
      ensures !reply.BadRequest?
      ensures Now() == AfterRemove(old(Now()), KeySet(keys), callOk, kept)
    {
      store := store - (KeySet(keys) - kept);
      if !callOk {
        return ServerError;
      }
      if locked {
        return Never;
      }
      for i := 0 to |keys|
        invariant store == old(store) - (KeySet(keys) - kept)
        invariant metrics == old(metrics) - KeySet(keys[..i])
      {
        assert keys[..i + 1] == keys[..i] + [keys[i]];
        metrics := metrics - {keys[i]};
      }
      assert keys[..|keys|] == keys;
      return Ok;
    }

    // ---- Loading -------------------------------------------------------------------------

    /** `rows` are the table's keys with the prefix, as the table delivers them: in key order. */
    method Retrieve(rows: seq<string>, prefix: string) returns (found: Memory)
      requires forall k :: k in rows <==> k in store && HasPrefix(k, prefix)
      requires forall i, j :: 0 <= i < j < |rows| ==> rows[i] != rows[j] && Leq(rows[i], rows[j])
      ensures IsLoaded(g, store, prefix, found)
    {
      found := map[];
      var i := 0;
      while i < |rows| && Decode(g, store[rows[i]]).Some?
        invariant i <= |rows|
        invariant forall k :: k in found <==> k in rows[..i]
        invariant forall j :: 0 <= j < i ==> Decode(g, store[rows[j]]) == Some(found[rows[j]])
      {
        found := found[rows[i] := Decode(g, store[rows[i]]).value];
        i := i + 1;
      }
      LoadedUpTo(g, store, prefix, rows, i, found);
    }

    /** Loading adds what the table delivers to the memory, and does nothing when reading fails. */
    method Load(rows: seq<string>, prefix: string, readOk: bool) returns (reply: Reply, ghost loaded: Memory)
      requires forall k :: k in rows <==> k in store && HasPrefix(k, prefix)
      requires forall i, j :: 0 <= i < j < |rows| ==> rows[i] != rows[j] && Leq(rows[i], rows[j])
      modifies this`metrics
      ensures IsLoaded(g, store, prefix, loaded)
      ensures reply.ServerError? <==> !readOk
      ensures !reply.BadRequest? && (reply.Never? ==> locked)
      ensures metrics == if reply.Ok? then old(metrics) + loaded else old(metrics)
    {
      var found := Retrieve(rows, prefix);
      loaded := found;
      if !readOk {
        return ServerError, loaded;
      }
      var done := PersistAll(found);
      return if done then Ok else Never, loaded;
    }

    method PersistAll(rows: Memory) returns (done: bool)
      modifies this`metrics
      ensures done <==> !locked || rows == map[]
      ensures metrics == if done then old(metrics) + rows else old(metrics)
    {
      var todo := rows;
      while todo != map[]
        invariant metrics + todo == old(metrics) + rows
        invariant locked ==> todo == rows && metrics == old(metrics)
        decreases |todo|
      {
        assert exists k :: k in todo by {
          assert todo.Keys != {};
        }
        var k :| k in todo;
        MergeStep(metrics, todo, k);
        done := Persist(k, todo[k]);
        if !done {
          return false;
        }
        todo := todo - {k};
      }
      assert metrics + todo == metrics;
      return true;
    }

    // ---- Sending -------------------------------------------------------------------------

    /** The inner loop: `batches` went out before, `batch` is being filled. */
    method SendRow(key: string, now: int, push: nat -> bool, sent: seq<seq<Metric>>, open: seq<Metric>)
      returns (ok: bool, batches: seq<seq<Metric>>, batch: seq<Metric>, ghost n: nat)
      requires key in metrics && AllFull(sent, Size()) && |open| < Size()
      modifies this`metrics
      ensures AllFull(batches, Size()) && |batch| < Size()
      ensures |sent| <= |batches| && Accepted(push, |sent|, |batches|, ok)
      ensures n <= |old(metrics)[key]|
      ensures if ok then n == |old(metrics)[key]| else |sent| < |batches| && batch == []
      ensures Flat(batches) + batch == Flat(sent) + open + StampRow(old(metrics)[key], now, interval)[..n]
      ensures metrics == old(metrics)[key := StampFirst(old(metrics)[key], now, interval, n)]
    {
      hide StampFirst, StampRow, Flat;
      var row := metrics[key];
      batches, batch, n := sent, open, 0;
      StampNone(row, now, interval, 0);
      for j := 0 to |row|
        invariant n == j
        invariant AllFull(batches, Size()) && |batch| < Size()
        invariant |sent| <= |batches| && Accepted(push, |sent|, |batches|, true)
        invariant Flat(batches) + batch == Flat(sent) + open + StampRow(row, now, interval)[..j]
        invariant metrics == old(metrics)[key := StampFirst(row, now, interval, j)]
      {
        StampOne(row, now, interval, j);
        var m := row[j].(time := now, interval := interval);
        metrics := metrics[key := metrics[key][j := m]];
        n := j + 1;
        BothGrow(Flat(batches), batch, Flat(sent) + open, StampRow(row, now, interval)[..j], m);
        batch := batch + [m];
        if |batch| >= maxBufferSize {
          FlatAppend(batches, batch);
          batches := batches + [batch];
          batch := [];
          assert Flat(batches) + batch == Flat(batches);
          if !push(|batches| - 1) {
            return false, batches, batch, n;
          }
        }
      }
      return true, batches, batch, n;
    }

    /**
     Sending everything in memory: `order` is the order in which the rows happen to be visited,
     `push` says which pushes the gateway accepts. The pushed batches are the first chunks of all
     metrics in that order, up to the first refused one; exactly the pushed metrics are stamped.
     A refusal inside the loop leaves the mutex held, a refusal of the rest does not.
     */
    method Send(order: seq<string>, now: int, push: nat -> bool) returns (reply: SendReply, batches: seq<seq<Metric>>)
      requires KeysIn(order, metrics) && Enumerates(order, metrics.Keys)
      modifies this`metrics, this`locked
      ensures reply.Stuck? <==> old(locked)
      ensures reply.Stuck? ==> batches == [] && metrics == old(metrics) && locked
      ensures batches <= Chunks(All(old(metrics), order, now, interval), Size())
      ensures reply.Sent? ==> batches == Chunks(All(old(metrics), order, now, interval), Size())
      ensures Accepted(push, 0, |batches|, reply.Sent?)
      ensures reply.Failed? ==> batches != []
      ensures !reply.Stuck? ==> Stamped(old(metrics), order, now, interval, |Flat(batches)|, metrics)
      ensures !reply.Stuck? ==> (locked <==> reply.Failed? && |batches[|batches| - 1]| == Size())
      ensures !reply.Stuck? ==> Told(old(metrics), order, now, interval, Flat(batches), metrics)
    {
      hide StampFirst, StampRow, Stamp, Flat, All, Before, Stamped, Chunks, Enumerates, Told;
      if locked {
        return Stuck, [];
      }
      locked := true;
      ghost var was := metrics;
      var ok, batch, i := true, [], 0;
      batches := [];
      StartSend(was, order, now, interval);
      while i < |order|
        invariant i <= |order| && locked
        invariant AllFull(batches, Size()) && |batch| < Size()
        invariant Accepted(push, 0, |batches|, true)
        invariant Flat(batches) + batch == All(was, order[..i], now, interval)
        invariant Stamped(was, order, now, interval, Before(was, order, i), metrics)
      {
        reply, batches, batch := SendNext(was, order, i, now, push, batches, batch);
        if reply.Failed? {
          SendTold(was, order, now, interval, Size(), batches, metrics);
          return;
        }
        i := i + 1;
      }
      assert order[..i] == order;
      locked := false;
      AllCount(was, order, i, now, interval);
      reply, batches := SendRest(was, order, now, push, batches, batch);
      SendTold(was, order, now, interval, Size(), batches, metrics);
    }

    /** The last batch, when there is one, after the mutex is released. */
    method SendRest(ghost was: Memory, order: seq<string>, now: int, push: nat -> bool, sent: seq<seq<Metric>>,
                    batch: seq<Metric>)
      returns (reply: SendReply, batches: seq<seq<Metric>>)
      requires AllFull(sent, Size()) && |batch| < Size() && KeysIn(order, was)
      requires Accepted(push, 0, |sent|, true)
      requires Flat(sent) + batch == All(was, order, now, interval)
      ensures batches == Chunks(All(was, order, now, interval), Size())
      ensures Flat(batches) == All(was, order, now, interval)
      ensures !reply.Stuck? && Accepted(push, 0, |batches|, reply.Sent?)
      ensures reply.Failed? ==> batches != [] && |batches[|batches| - 1]| < Size()
    {
      hide Flat, All;
      FullChunks(sent, batch, Size());
      if |batch| > 0 {
        FlatAppend(sent, batch);
        batches := sent + [batch];
        reply := if push(|sent|) then Sent else Failed;
      } else {
        batches, reply := sent, Sent;
      }
    }

    /** Row `i` of the outer loop. */
    method SendNext(ghost was: Memory, order: seq<string>, i: nat, now: int, push: nat -> bool,
                    sent: seq<seq<Metric>>, open: seq<Metric>)
      returns (reply: SendReply, batches: seq<seq<Metric>>, batch: seq<Metric>)
      requires KeysIn(order, was) && Enumerates(order, was.Keys) && i < |order|
      requires AllFull(sent, Size()) && |open| < Size() && Accepted(push, 0, |sent|, true)
      requires Flat(sent) + open == All(was, order[..i], now, interval)
      requires Stamped(was, order, now, interval, Before(was, order, i), metrics)
      modifies this`metrics
      ensures !reply.Stuck? && AllFull(batches, Size()) && |batch| < Size()
      ensures Accepted(push, 0, |batches|, reply.Sent?)
      ensures reply.Sent? ==> Flat(batches) + batch == All(was, order[..i + 1], now, interval)
      ensures reply.Sent? ==> Stamped(was, order, now, interval, Before(was, order, i + 1), metrics)
      ensures reply.Failed? ==> batches != [] && batches <= Chunks(All(was, order, now, interval), Size())
      ensures reply.Failed? ==> Stamped(was, order, now, interval, |Flat(batches)|, metrics)
    {
      hide StampFirst, StampRow, Stamp, Flat, All, Before, Stamped, Chunks, Enumerates;
      CurrentRow(was, order, now, interval, i, metrics);
      AllNext(was, order, i, now, interval);
      AllCount(was, order, i, now, interval);
      BeforeNext(was, order, i);
      var row := metrics[order[i]];
      if |row| < 1 {
        StampedNext(was, order, now, interval, i, 0, metrics);
        StampNone(row, now, interval, 0);
        assert metrics[order[i] := row] == metrics;
        return Sent, sent, open;
      }
      var ok; ghost var n;
      ghost var before := metrics;
      ok, batches, batch, n := SendRow(order[i], now, push, sent, open);
      StampedNext(was, order, now, interval, i, n, before);
      if !ok {
        assert Flat(batches) + batch == Flat(batches);
        PushedPrefix(was, order, now, interval, i, n, batches, Size());
      }
      return if ok then Sent else Failed, batches, batch;
    }
  }

  /** In a sequence of pushes all were accepted, except for the last one when the result is a failure. */
  ghost predicate Accepted(push: nat -> bool, from: nat, to: nat, ok: bool) {
    forall k :: from <= k < to ==> (push(k) <==> ok || k < to - 1)
  }

  lemma {:induction false} BothGrow(a: seq<Metric>, b: seq<Metric>, c: seq<Metric>, d: seq<Metric>, m: Metric)
    requires a + b == c + d
    ensures a + (b + [m]) == c + (d + [m])
  {
    assert a + (b + [m]) == a + b + [m];
    assert c + (d + [m]) == c + d + [m];
  }

  lemma {:induction false} StartSend(was: Memory, order: seq<string>, now: int, interval: int)
    requires KeysIn(order, was)
    ensures Flat<Metric>([]) + [] == All(was, order[..0], now, interval)
    ensures Stamped(was, order, now, interval, Before(was, order, 0), was)
  {
    NothingStamped(was, order, now, interval);
  }

  /** Full batches made of whole rows and the first `n` metrics of row `i` are the first chunks of everything. */
  lemma {:induction false} PushedPrefix(m: Memory, order: seq<string>, time: int, interval: int, i: nat, n: nat,
                                        batches: seq<seq<Metric>>, size: nat)
    requires KeysIn(order, m) && i < |order| && n <= |m[order[i]]| && size > 0 && AllFull(batches, size)
    requires Flat(batches) == All(m, order[..i], time, interval) + StampRow(m[order[i]], time, interval)[..n]
    ensures batches <= Chunks(All(m, order, time, interval), size)
    ensures |Flat(batches)| == Before(m, order, i) + n
  {
    hide StampFirst, StampRow, Flat, All, Chunks;
    var all := All(m, order, time, interval);
    AllNext(m, order, i, time, interval);
    AllCount(m, order, i, time, interval);
    AllPrefix(m, order, i + 1, time, interval);
    assert Flat(batches) <= all;
    assert all == Flat(batches) + all[|Flat(batches)|..];
    FullChunks(batches, all[|Flat(batches)|..], size);
  }

  /** The rows not yet visited are as they were. */
  lemma {:induction false} CurrentRow(was: Memory, order: seq<string>, time: int, interval: int, i: nat, now: Memory)
    requires KeysIn(order, was) && i < |order|
    requires Stamped(was, order, time, interval, Before(was, order, i), now)
    ensures order[i] in now && now[order[i]] == was[order[i]]
  {
    hide StampFirst, Before;
    StampNone(was[order[i]], time, interval, 0);
  }

  lemma {:induction false} MergeStep(m: Memory, todo: Memory, k: string)
    requires k in todo
    ensures m[k := todo[k]] + (todo - {k}) == m + todo
    ensures |todo - {k}| < |todo|
  {
    var rest := todo - {k};
    assert rest.Keys == todo.Keys - {k};
  }

  /** Reading in key order up to the first undecodable row finds the rows that `Loads` describes. */
  lemma {:induction false} LoadedUpTo(g: Generator, store: Store, prefix: string, rows: seq<string>, i: nat,
                                      found: Memory)
    requires forall k :: k in rows <==> k in store && HasPrefix(k, prefix)
    requires forall i, j :: 0 <= i < j < |rows| ==> rows[i] != rows[j] && Leq(rows[i], rows[j])
    requires i <= |rows| && (i < |rows| ==> Decode(g, store[rows[i]]).None?)
    requires forall k :: k in found <==> k in rows[..i]
    requires forall j :: 0 <= j < i ==> Decode(g, store[rows[j]]) == Some(found[rows[j]])
    ensures IsLoaded(g, store, prefix, found)
  {
    hide Leq, Decode;
    forall k
      ensures if Loads(g, store, prefix, k) then k in found && Some(found[k]) == Decode(g, store[k]) else k !in found
    {
      if k in rows[..i] {
        var j :| 0 <= j < i && rows[j] == k;
        assert k in rows;
        forall b | Stops(g, store, prefix, b)
          ensures !Leq(b, k)
        {
          assert b in rows;
          var n :| 0 <= n < |rows| && rows[n] == b;
          assert j < n;
          if Leq(b, k) {
            LeqAntisymmetric(b, k);
          }
        }
      } else if k in rows {
        var j :| 0 <= j < |rows| && rows[j] == k;
        assert j >= i;
        assert Stops(g, store, prefix, rows[i]);
        if i == j {
          LeqReflexive(k);
        }
        assert Leq(rows[i], k);
      }
    }
  }
}
