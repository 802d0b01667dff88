/**
 Carbon ingest: connections dispatch packets into a channel, any number of flush workers take
 them out, turn them into metrics or reject them, and publish their buffers when their ticker
 fires. Packets have identities, so that conservation says where each one is and not only how
 many there are. Metrics live in objects recycled through a pool.
 */
module Carbon {
  import opened Keys
  import opened Text
  import S = Schema
  import PS = PublishSpec
  import PF = PublishForms
  import PB = PublishBatch
  import TopicSettings

  type PacketId = nat
  type ObjectId = nat

  /** A metric in a buffer: the object, the packet it was made from, whose it was, and what it is now. */
  datatype Metric = Metric(obj: ObjectId, packet: PacketId, user: int, rec: S.Metric)

  datatype Worker = Worker(buf: seq<Metric>, hand: Option<PacketId>, done: bool)

  /** What becomes of a packet that a worker looks at. */
  datatype Verdict = Malformed | Unauthorized | Unparsable | Good(obj: ObjectId, rec: S.Metric)

  /** The counters keep the packets they counted, so that each is also a number. */
  datatype State = State(
    received: seq<PacketId>,
    droppedFull: seq<PacketId>,
    rejected: seq<PacketId>,
    authFailed: seq<PacketId>,
    valid: seq<PacketId>,
    failed: nat,
    pending: seq<PacketId>,  // dispatched and counted, not yet at the channel
    queue: seq<PacketId>,
    closed: bool,
    workers: seq<Worker>,
    pool: seq<ObjectId>,
    nextObject: ObjectId)

  datatype Config = Config(bufferSize: nat, nonBlocking: bool, concurrency: nat, w: S.World, pub: PS.Config)

  datatype Step =
    | Dispatch(p: PacketId)
    | Enqueue(i: nat)
    | DropFull(i: nat)
    | Take(w: nat)
    | Classify(w: nat, verdict: Verdict)
    | Flush(w: nat, keys: set<MKey>, outcome: PS.Outcome)
    | Close
    | Exit(w: nat)

  function Init(cfg: Config): State {
    State([], [], [], [], [], 0, [], [], false,
          seq(cfg.concurrency, _ => Worker([], None, false)), [], 0)
  }

  /** The channel can take one more; an unbuffered one hands over directly. */
  predicate Room(cfg: Config, s: State) {
    |s.queue| < (if cfg.bufferSize == 0 then 1 else cfg.bufferSize)
  }

  predicate Running(s: State, w: nat) {
    w < |s.workers| && !s.workers[w].done
  }

  predicate Enabled(cfg: Config, s: State, a: Step) {
    match a
    case Dispatch(_) => !s.closed
    case Enqueue(i) => i < |s.pending| && !s.closed && Room(cfg, s)
    case DropFull(i) => i < |s.pending| && cfg.nonBlocking && |s.queue| >= cfg.bufferSize
    case Take(w) => Running(s, w) && s.workers[w].hand.None? && s.queue != []
    // a parsed metric has no interval yet and the id that goes with its fields
    case Classify(w, v) =>
      && Running(s, w) && s.workers[w].hand.Some?
      && (v.Good? ==> (v.obj in s.pool || v.obj == s.nextObject) && v.rec.interval == 0 && S.Canonical(cfg.w, v.rec))
    case Flush(w, _, _) => Running(s, w) && s.workers[w].hand.None?
    // stopping waits for the listener, so no dispatch is under way when the channel is closed
    case Close => !s.closed && s.pending == []
    case Exit(w) => Running(s, w) && s.workers[w].hand.None? && s.closed && s.queue == []
  }

  function Without<T>(s: seq<T>, i: nat): seq<T>
    requires i < |s|
  {
    s[..i] + s[i + 1..]
  }

  function Packets(buf: seq<Metric>): seq<PacketId> {
    if buf == [] then [] else [buf[0].packet] + Packets(buf[1..])
  }

  function Objects(buf: seq<Metric>): seq<ObjectId> {
    if buf == [] then [] else [buf[0].obj] + Objects(buf[1..])
  }

  /** Taking an object from the pool, if that is where it comes from. */
  function FromPool(pool: seq<ObjectId>, o: ObjectId): seq<ObjectId> {
    if pool == [] then [] else if pool[0] == o then pool[1..] else [pool[0]] + FromPool(pool[1..], o)
  }

  // ---- Publishing a buffer ---------------------------------------------------------------

  function Records(buf: seq<Metric>): (recs: seq<S.Metric>)
    ensures |recs| == |buf| && forall i :: 0 <= i < |buf| ==> recs[i] == buf[i].rec
  {
    seq(|buf|, i requires 0 <= i < |buf| => buf[i].rec)
  }

  /** The loops of `Publish` over the buffer, when the key cache holds `keys`. */
  function Loops(cfg: Config, keys: set<MKey>, buf: seq<Metric>): (r: PS.Progress<PS.Batch<nat>>)
    ensures forall i :: i in r.st.vals <==> 0 <= i < |buf|
  {
    PS.Called(cfg.w, cfg.pub, keys, Records(buf))
  }

  predicate Accepted(cfg: Config, keys: set<MKey>, outcome: PS.Outcome, buf: seq<Metric>) {
    buf == [] || cfg.pub.topics == [] || (Loops(cfg, keys, buf).Go? && outcome.Delivered?)
  }

  /** The buffer as a failed `Publish` leaves it: the same objects, with what the loops made of them. */
  function Left(cfg: Config, keys: set<MKey>, buf: seq<Metric>): (r: seq<Metric>)
    ensures |r| == |buf| && forall i :: 0 <= i < |buf| ==> r[i] == buf[i].(rec := Loops(cfg, keys, buf).st.vals[i])
  {
    var vals := Loops(cfg, keys, buf).st.vals;
    seq(|buf|, i requires 0 <= i < |buf| => buf[i].(rec := vals[i]))
  }

  function Do(cfg: Config, s: State, a: Step): State
    requires Enabled(cfg, s, a)
  {
    match a
    case Dispatch(p) => s.(received := s.received + [p], pending := s.pending + [p])
    case Enqueue(i) => s.(pending := Without(s.pending, i), queue := s.queue + [s.pending[i]])
    case DropFull(i) => s.(pending := Without(s.pending, i), droppedFull := s.droppedFull + [s.pending[i]])
    case Take(w) => s.(queue := s.queue[1..], workers := s.workers[w := s.workers[w].(hand := Some(s.queue[0]))])
    case Classify(w, v) =>
      var me := s.workers[w];
      var p := me.hand.value;
      (match v
       case Malformed => s.(rejected := s.rejected + [p], workers := s.workers[w := me.(hand := None)])
       case Unauthorized => s.(authFailed := s.authFailed + [p], workers := s.workers[w := me.(hand := None)])
       case Unparsable => s.(rejected := s.rejected + [p], workers := s.workers[w := me.(hand := None)])
       case Good(o, rec) =>
         s.(workers := s.workers[w := Worker(me.buf + [Metric(o, p, rec.org, rec)], None, me.done)],
            pool := if o == s.nextObject then s.pool else FromPool(s.pool, o),
            nextObject := if o == s.nextObject then o + 1 else s.nextObject))
    case Flush(w, keys, outcome) =>
      var me := s.workers[w];
      if Accepted(cfg, keys, outcome, me.buf) then
        s.(valid := s.valid + Packets(me.buf), pool := s.pool + Objects(me.buf),
            workers := s.workers[w := me.(buf := [])])
      else
        s.(failed := s.failed + |me.buf|, workers := s.workers[w := me.(buf := Left(cfg, keys, me.buf))])
    case Close => s.(closed := true)
    case Exit(w) => s.(workers := s.workers[w := s.workers[w].(done := true)])
  }

  /** Any interleaving: a step that is not enabled where it is tried does nothing. */
  function Exec(cfg: Config, steps: seq<Step>): State {
    if steps == [] then Init(cfg) else
    var p := Exec(cfg, steps[..|steps| - 1]);
    if Enabled(cfg, p, steps[|steps| - 1]) then Do(cfg, p, steps[|steps| - 1]) else p
  }

  // ---- Where packets and objects are -----------------------------------------------------

  function InHand(w: Worker): seq<PacketId> {
    match w.hand case None => [] case Some(p) => [p]
  }

  function Hands(ws: seq<Worker>): seq<PacketId> {
    if ws == [] then [] else InHand(ws[0]) + Hands(ws[1..])
  }

  function Buffered(ws: seq<Worker>): seq<PacketId> {
    if ws == [] then [] else Packets(ws[0].buf) + Buffered(ws[1..])
  }

  function Held(ws: seq<Worker>): seq<ObjectId> {
    if ws == [] then [] else Objects(ws[0].buf) + Held(ws[1..])
  }

  /** How many of `s` belong to the class `c`; the classes that matter are `Any` and `Only(x)`. */
  function Count(s: seq<nat>, c: nat -> bool): nat {
    if s == [] then 0 else (if c(s[0]) then 1 else 0) + Count(s[1..], c)
  }

  function Any(): nat -> bool {
    _ => true
  }

  function Only(x: nat): nat -> bool {
    y => y == x
  }

  lemma {:induction false} CountAppend(s: seq<nat>, t: seq<nat>, c: nat -> bool)
    ensures Count(s + t, c) == Count(s, c) + Count(t, c)
  {
    if s == [] {
      assert s + t == t;
    } else {
      assert (s + t)[1..] == s[1..] + t;
      CountAppend(s[1..], t, c);
    }
  }

  lemma {:induction false} CountOne(x: nat, c: nat -> bool)
    ensures Count([x], c) == if c(x) then 1 else 0
  {
    assert [x][1..] == [];
  }

  lemma {:induction false} CountAny(s: seq<nat>)
    ensures Count(s, Any()) == |s|
  {
    if s != [] {
      CountAny(s[1..]);
    }
  }

  lemma {:induction false} CountWithout(s: seq<nat>, i: nat, c: nat -> bool)
    requires i < |s|
    ensures Count(Without(s, i), c) + Count([s[i]], c) == Count(s, c)
  {
    hide Count;
    assert s == s[..i] + ([s[i]] + s[i + 1..]);
    CountAppend(s[..i], [s[i]] + s[i + 1..], c);
    CountAppend([s[i]], s[i + 1..], c);
    CountAppend(s[..i], s[i + 1..], c);
  }

  lemma {:induction false} FromPoolCounts(pool: seq<ObjectId>, o: ObjectId, c: nat -> bool)
    requires o in pool
    ensures Count(FromPool(pool, o), c) + Count([o], c) == Count(pool, c)
  {
    CountOne(o, c);
    if pool[0] != o {
      FromPoolCounts(pool[1..], o, c);
      CountAppend([pool[0]], FromPool(pool[1..], o), c);
      CountOne(pool[0], c);
    }
  }

  lemma {:induction false} BufferAppend(buf: seq<Metric>, m: Metric)
    ensures Packets(buf + [m]) == Packets(buf) + [m.packet]
    ensures Objects(buf + [m]) == Objects(buf) + [m.obj]
  {
    if buf == [] {
      assert buf + [m] == [m];
    } else {
      assert (buf + [m])[1..] == buf[1..] + [m];
      BufferAppend(buf[1..], m);
    }
  }

  /** What replacing one worker does to the counts over all of them. */
  lemma {:induction false} WorkerStep(ws: seq<Worker>, w: nat, me: Worker, c: nat -> bool)
    requires w < |ws|
    ensures Count(Hands(ws[w := me]), c) + Count(InHand(ws[w]), c) == Count(Hands(ws), c) + Count(InHand(me), c)
    ensures Count(Buffered(ws[w := me]), c) + Count(Packets(ws[w].buf), c) ==
            Count(Buffered(ws), c) + Count(Packets(me.buf), c)
    ensures Count(Held(ws[w := me]), c) + Count(Objects(ws[w].buf), c) == Count(Held(ws), c) + Count(Objects(me.buf), c)
  {
    hide Packets, Objects, InHand, Count;
    var next := ws[w := me];
    FirstWorker(ws, c);
    FirstWorker(next, c);
    if w == 0 {
      assert next[1..] == ws[1..];
    } else {
      assert next[1..] == ws[1..][w - 1 := me] && next[0] == ws[0];
      WorkerStep(ws[1..], w - 1, me, c);
    }
  }

  lemma {:induction false} FirstWorker(ws: seq<Worker>, c: nat -> bool)
    requires ws != []
    ensures Count(Hands(ws), c) == Count(InHand(ws[0]), c) + Count(Hands(ws[1..]), c)
    ensures Count(Buffered(ws), c) == Count(Packets(ws[0].buf), c) + Count(Buffered(ws[1..]), c)
    ensures Count(Held(ws), c) == Count(Objects(ws[0].buf), c) + Count(Held(ws[1..]), c)
  {
    CountAppend(InHand(ws[0]), Hands(ws[1..]), c);
    CountAppend(Packets(ws[0].buf), Buffered(ws[1..]), c);
    CountAppend(Objects(ws[0].buf), Held(ws[1..]), c);
  }

  lemma {:induction false} IdleWorkers(n: nat)
    ensures var ws := seq(n, _ => Worker([], None, false)); Hands(ws) == Buffered(ws) == Held(ws) == []
  {
    if n > 0 {
      IdleWorkers(n - 1);
      assert seq(n, _ => Worker([], None, false))[1..] == seq(n - 1, _ => Worker([], None, false));
    }
  }

  lemma {:induction false} NoHands(ws: seq<Worker>)
    requires forall w :: 0 <= w < |ws| ==> ws[w].hand.None?
    ensures Hands(ws) == []
  {
    if ws != [] {
      NoHands(ws[1..]);
    }
  }

  // ---- Conservation ----------------------------------------------------------------------

  function Settled(s: State, c: nat -> bool): nat {
    Count(s.droppedFull, c) + Count(s.rejected, c) + Count(s.authFailed, c) + Count(s.valid, c)
  }

  function InFlight(s: State, c: nat -> bool): nat {
    Count(s.pending, c) + Count(s.queue, c) + Count(Hands(s.workers), c)
  }

  /** Of the packets in `c`, as many are in one of the places as were received. */
  ghost predicate Conserved(s: State, c: nat -> bool) {
    Count(s.received, c) == Settled(s, c) + InFlight(s, c) + Count(Buffered(s.workers), c)
  }

  lemma {:induction false} ChannelConserves(cfg: Config, s: State, a: Step, c: nat -> bool)
    requires Conserved(s, c) && Enabled(cfg, s, a) && (a.Dispatch? || a.Enqueue? || a.DropFull? || a.Close?)
    ensures Conserved(Do(cfg, s, a), c)
  {
    hide Count, Hands, Buffered;
    if a.Dispatch? {
      CountAppend(s.received, [a.p], c);
      CountAppend(s.pending, [a.p], c);
    } else if a.Enqueue? || a.DropFull? {
      CountWithout(s.pending, a.i, c);
      CountAppend(s.queue, [s.pending[a.i]], c);
      CountAppend(s.droppedFull, [s.pending[a.i]], c);
    }
  }

  lemma {:induction false} TakeConserves(cfg: Config, s: State, a: Step, c: nat -> bool)
    requires Conserved(s, c) && Enabled(cfg, s, a) && (a.Take? || a.Exit?)
    ensures Conserved(Do(cfg, s, a), c)
  {
    hide Count, Hands, Buffered, Packets, Objects;
    WorkerStep(s.workers, a.w, Do(cfg, s, a).workers[a.w], c);
    if a.Take? {
      assert s.queue == [s.queue[0]] + s.queue[1..];
      CountAppend([s.queue[0]], s.queue[1..], c);
      CountNone(c);
    }
  }

  lemma {:induction false} ClassifyConserves(cfg: Config, s: State, a: Step, c: nat -> bool)
    requires Conserved(s, c) && Enabled(cfg, s, a) && a.Classify?
    ensures Conserved(Do(cfg, s, a), c)
  {
    hide Count, Hands, Buffered, Packets, Objects;
    var me := s.workers[a.w];
    var p := me.hand.value;
    WorkerStep(s.workers, a.w, Do(cfg, s, a).workers[a.w], c);
    CountNone(c);
    if a.verdict.Good? {
      BufferAppend(me.buf, Metric(a.verdict.obj, p, a.verdict.rec.org, a.verdict.rec));
      CountAppend(Packets(me.buf), [p], c);
    } else {
      CountAppend(s.rejected, [p], c);
      CountAppend(s.authFailed, [p], c);
    }
  }

  lemma {:induction false} CountNone(c: nat -> bool)
    ensures Count([], c) == 0
  {
  }

  lemma {:induction false} FlushConserves(cfg: Config, s: State, a: Step, c: nat -> bool)
    requires Conserved(s, c) && Enabled(cfg, s, a) && a.Flush?
    ensures Conserved(Do(cfg, s, a), c)
  {
    hide Count, Hands, Buffered, Objects, Packets, Accepted, Left;
    var me := s.workers[a.w];
    WorkerStep(s.workers, a.w, Do(cfg, s, a).workers[a.w], c);
    if Accepted(cfg, a.keys, a.outcome, me.buf) {
      CountAppend(s.valid, Packets(me.buf), c);
      NoMetrics();
      CountNone(c);
    } else {
      LeftSame(cfg, a.keys, me.buf);
    }
  }

  lemma {:induction false} NoMetrics()
    ensures Packets([]) == [] && Objects([]) == []
  {
  }

  lemma {:induction false} SameObjects(buf: seq<Metric>, other: seq<Metric>)
    requires |buf| == |other| && forall i :: 0 <= i < |buf| ==>
             buf[i].obj == other[i].obj && buf[i].packet == other[i].packet
    ensures Packets(other) == Packets(buf) && Objects(other) == Objects(buf)
  {
    if buf != [] {
      SameObjects(buf[1..], other[1..]);
    }
  }

  lemma {:induction false} LeftSame(cfg: Config, keys: set<MKey>, buf: seq<Metric>)
    ensures Packets(Left(cfg, keys, buf)) == Packets(buf) && Objects(Left(cfg, keys, buf)) == Objects(buf)
  {
    hide Loops;
    SameObjects(buf, Left(cfg, keys, buf));
  }

  lemma {:induction false} InitConserved(cfg: Config, c: nat -> bool)
    ensures Conserved(Init(cfg), c)
  {
    IdleWorkers(cfg.concurrency);
  }

  /**
   Conservation in every run with any number of workers: of any class of packets as many were
   received as are in the places a packet can be.
   */
  lemma {:induction false} Conservation(cfg: Config, steps: seq<Step>, c: PacketId -> bool)
    ensures Conserved(Exec(cfg, steps), c)
  {
    hide Conserved, Enabled, Do, Init;
    if steps == [] {
      InitConserved(cfg, c);
    } else {
      var p, a := Exec(cfg, steps[..|steps| - 1]), steps[|steps| - 1];
      Conservation(cfg, steps[..|steps| - 1], c);
      if Enabled(cfg, p, a) {
        match a
        case Take(_) => TakeConserves(cfg, p, a, c);
        case Exit(_) => TakeConserves(cfg, p, a, c);
        case Classify(_, _) => ClassifyConserves(cfg, p, a, c);
        case Flush(_, _, _) => FlushConserves(cfg, p, a, c);
        case _ => ChannelConserves(cfg, p, a, c);
      }
    }
  }

  /** The counters add up, with abandoned buffers counted among the buffers. */
  lemma {:induction false} CountersAddUp(cfg: Config, steps: seq<Step>)
    ensures var s := Exec(cfg, steps);
            |s.received| == |s.droppedFull| + |s.rejected| + |s.authFailed| + |s.valid|
                            + |s.pending| + |s.queue| + |Hands(s.workers)| + |Buffered(s.workers)|
  {
    hide Count, Exec, Hands, Buffered;
    Conservation(cfg, steps, Any());
    var s := Exec(cfg, steps);
    CountAny(s.received); CountAny(s.droppedFull); CountAny(s.rejected); CountAny(s.authFailed); CountAny(s.valid);
    CountAny(s.pending); CountAny(s.queue); CountAny(Hands(s.workers)); CountAny(Buffered(s.workers));
  }

  /** A packet received once is in exactly one place: never both dropped and published, or published twice. */
  lemma {:induction false} OnePlace(cfg: Config, steps: seq<Step>, p: PacketId)
    requires Count(Exec(cfg, steps).received, Only(p)) == 1
    ensures var s, c := Exec(cfg, steps), Only(p);
            Settled(s, c) + InFlight(s, c) + Count(Buffered(s.workers), c) == 1
  {
    hide Count, Exec, Hands, Buffered;
    Conservation(cfg, steps, Only(p));
  }

  // ---- What is counted where -------------------------------------------------------------

  datatype Account = Received | DroppedFull | Rejected | AuthFailed | Valid | Queued | TakenOut

  /**
   When publishing a buffer succeeds: there is nothing to send or nowhere to send it, or every record
   gets through all topics and the brokers acknowledge everything.
   */
  ghost predicate PublishReturnsNil(cfg: Config, buf: seq<Metric>, keys: set<MKey>, outcome: PS.Outcome) {
    |buf| == 0 || |cfg.pub.topics| == 0
    || ((forall i :: 0 <= i < |buf| ==> PB.Passing(cfg.w, cfg.pub, buf[i].rec)) && outcome == PS.Delivered)
  }

  /** The packets that a step, taken in state `s`, is to be counted for. */
  ghost function CountedBy(cfg: Config, s: State, a: Step, account: Account): seq<PacketId>
    requires Enabled(cfg, s, a)
  {
    match account
    case Received => if a.Dispatch? then [a.p] else []
    case DroppedFull => if a.DropFull? then [s.pending[a.i]] else []
    case Rejected =>
      if a.Classify? && (a.verdict.Malformed? || a.verdict.Unparsable?) then [s.workers[a.w].hand.value] else []
    case AuthFailed => if a.Classify? && a.verdict.Unauthorized? then [s.workers[a.w].hand.value] else []
    case Valid =>
      if a.Flush? && PublishReturnsNil(cfg, s.workers[a.w].buf, a.keys, a.outcome) then Packets(s.workers[a.w].buf)
         else []
    case Queued => if a.Enqueue? then [s.pending[a.i]] else []
    case TakenOut => if a.Take? then [s.queue[0]] else []
  }

  /** The packets that all steps of a run that were taken count for, in order. */
  ghost function Ledger(cfg: Config, steps: seq<Step>, account: Account): seq<PacketId> {
    if steps == [] then [] else
    var s, a := Exec(cfg, steps[..|steps| - 1]), steps[|steps| - 1];
    Ledger(cfg, steps[..|steps| - 1], account) + if Enabled(cfg, s, a) then CountedBy(cfg, s, a, account) else []
  }

  /** The lengths of the buffers of all flushes that failed. */
  ghost function Failures(cfg: Config, steps: seq<Step>): nat {
    if steps == [] then 0 else
    var s, a := Exec(cfg, steps[..|steps| - 1]), steps[|steps| - 1];
    Failures(cfg, steps[..|steps| - 1]) +
    if Enabled(cfg, s, a) && a.Flush? && !PublishReturnsNil(cfg, s.workers[a.w].buf, a.keys, a.outcome)
    then |s.workers[a.w].buf| else 0
  }

  lemma {:induction false} StepCounts(cfg: Config, s: State, a: Step)
    requires Enabled(cfg, s, a)
    ensures var t := Do(cfg, s, a);
            && t.received == s.received + CountedBy(cfg, s, a, Received)
            && t.droppedFull == s.droppedFull + CountedBy(cfg, s, a, DroppedFull)
            && t.rejected == s.rejected + CountedBy(cfg, s, a, Rejected)
            && t.authFailed == s.authFailed + CountedBy(cfg, s, a, AuthFailed)
            && t.valid == s.valid + CountedBy(cfg, s, a, Valid)
            && s.queue + CountedBy(cfg, s, a, Queued) == CountedBy(cfg, s, a, TakenOut) + t.queue
  {
    hide Packets, Objects, Left, Accepted, PublishReturnsNil, FromPool, S.Canon;
    if a.Take? {
      assert s.queue == [s.queue[0]] + s.queue[1..];
    } else if a.Flush? {
      AcceptedIff(cfg, a.keys, a.outcome, s.workers[a.w].buf);
    }
  }

  lemma {:induction false} StepFails(cfg: Config, s: State, a: Step)
    requires Enabled(cfg, s, a)
    ensures Do(cfg, s, a).failed == s.failed +
            if a.Flush? && !PublishReturnsNil(cfg, s.workers[a.w].buf, a.keys, a.outcome) then |s.workers[a.w].buf|
               else 0
  {
    hide Packets, Objects, Left, Accepted, PublishReturnsNil, FromPool, S.Canon;
    if a.Flush? {
      AcceptedIff(cfg, a.keys, a.outcome, s.workers[a.w].buf);
    }
  }

  lemma {:induction false} AcceptedIff(cfg: Config, keys: set<MKey>, outcome: PS.Outcome, buf: seq<Metric>)
    ensures Accepted(cfg, keys, outcome, buf) <==> PublishReturnsNil(cfg, buf, keys, outcome)
  {
    hide PB.Passing;
    PB.CalledKeys(cfg.w, cfg.pub, keys, Records(buf));
  }

  /**
   In every run each counter has counted exactly the packets of the steps that are its own: rejected
   those found malformed or unparsable, refused those that were not authorised, valid those of the
   buffers that were published. The channel hands packets out in the order in which they came.
   */
  lemma {:induction false} CountersCount(cfg: Config, steps: seq<Step>)
    ensures var s := Exec(cfg, steps);
            && s.received == Ledger(cfg, steps, Received)
            && s.droppedFull == Ledger(cfg, steps, DroppedFull)
            && s.rejected == Ledger(cfg, steps, Rejected)
            && s.authFailed == Ledger(cfg, steps, AuthFailed)
            && s.valid == Ledger(cfg, steps, Valid)
            && s.failed == Failures(cfg, steps)
            && Ledger(cfg, steps, Queued) == Ledger(cfg, steps, TakenOut) + s.queue
  {
    hide Enabled, Do, CountedBy, Accepted;
    if steps != [] {
      var init, a := steps[..|steps| - 1], steps[|steps| - 1];
      var s := Exec(cfg, init);
      CountersCount(cfg, init);
      if Enabled(cfg, s, a) {
        StepCounts(cfg, s, a);
        StepFails(cfg, s, a);
        var q, t := Ledger(cfg, init, TakenOut), Do(cfg, s, a).queue;
        assert q + s.queue + CountedBy(cfg, s, a, Queued) == q + (s.queue + CountedBy(cfg, s, a, Queued));
        assert q + CountedBy(cfg, s, a, TakenOut) + t == q + (CountedBy(cfg, s, a, TakenOut) + t);
      } else {
        NothingMore(Ledger(cfg, init, Received), Ledger(cfg, init, TakenOut));
      }
    }
  }

  lemma {:induction false} NothingMore(s: seq<PacketId>, t: seq<PacketId>)
    ensures s + [] == s && t + [] == t
  {
  }

  /** The channel never holds more than it has room for, and a blocking one never drops anything. */
  lemma {:induction false} ChannelBounded(cfg: Config, steps: seq<Step>)
    ensures var s := Exec(cfg, steps);
            && |s.queue| <= (if cfg.bufferSize == 0 then 1 else cfg.bufferSize)
            && (!cfg.nonBlocking ==> s.droppedFull == [])
  {
    hide Packets, Objects, Left, Accepted, FromPool, S.Canon;
    if steps != [] {
      ChannelBounded(cfg, steps[..|steps| - 1]);
    }
  }

  // ---- Recycled metrics ------------------------------------------------------------------

  function Owners(s: State, o: ObjectId): nat {
    Count(s.pool, Only(o)) + Count(Held(s.workers), Only(o))
  }

  /** An object that was ever allocated is in the pool or in one worker's buffer, once. */
  ghost predicate Exclusive(s: State, o: ObjectId) {
    Owners(s, o) == if o < s.nextObject then 1 else 0
  }

  lemma {:induction false} StepExclusive(cfg: Config, s: State, a: Step, o: ObjectId)
    requires Exclusive(s, o) && Enabled(cfg, s, a) && !a.Classify?
    ensures Exclusive(Do(cfg, s, a), o)
  {
    hide Count, Hands, Buffered, Held, Packets, Objects, Accepted, Left;
    var c := Only(o);
    if a.Take? || a.Exit? || a.Flush? {
      WorkerStep(s.workers, a.w, Do(cfg, s, a).workers[a.w], c);
    }
    if a.Flush? {
      var buf := s.workers[a.w].buf;
      CountAppend(s.pool, Objects(buf), c);
      NoMetrics();
      CountNone(c);
      LeftSame(cfg, a.keys, buf);
    }
  }

  lemma {:induction false} ClassifyExclusive(cfg: Config, s: State, a: Step, o: ObjectId)
    requires Exclusive(s, o) && Enabled(cfg, s, a) && a.Classify?
    ensures Exclusive(Do(cfg, s, a), o)
  {
    hide Count, Hands, Buffered, Held, Packets, Objects, FromPool;
    var me, c := s.workers[a.w], Only(o);
    WorkerStep(s.workers, a.w, Do(cfg, s, a).workers[a.w], c);
    if a.verdict.Good? {
      var got := a.verdict.obj;
      BufferAppend(me.buf, Metric(got, me.hand.value, a.verdict.rec.org, a.verdict.rec));
      CountAppend(Objects(me.buf), [got], c);
      CountOne(got, c);
      if got != s.nextObject {
        FromPoolCounts(s.pool, got, c);
      }
    }
  }

  /** No metric object is pooled twice, in two buffers, or both pooled and in a buffer, and none is lost. */
  lemma {:induction false} ObjectsExclusive(cfg: Config, steps: seq<Step>, o: ObjectId)
    ensures Exclusive(Exec(cfg, steps), o)
  {
    hide Exclusive, Enabled, Do, Init;
    if steps == [] {
      InitExclusive(cfg, o);
    } else {
      var p, a := Exec(cfg, steps[..|steps| - 1]), steps[|steps| - 1];
      ObjectsExclusive(cfg, steps[..|steps| - 1], o);
      if Enabled(cfg, p, a) {
        if a.Classify? {
          ClassifyExclusive(cfg, p, a, o);
        } else {
          StepExclusive(cfg, p, a, o);
        }
      }
    }
  }

  lemma {:induction false} InitExclusive(cfg: Config, o: ObjectId)
    ensures Exclusive(Init(cfg), o)
  {
    IdleWorkers(cfg.concurrency);
  }

  // ---- Shutdown --------------------------------------------------------------------------

  /** A worker only leaves once the channel is closed and drained. */
  ghost predicate Orderly(cfg: Config, s: State) {
    && |s.workers| == cfg.concurrency
    && (s.closed ==> s.pending == [])
    && (forall w :: 0 <= w < |s.workers| && s.workers[w].done ==> s.closed && s.queue == [] && s.workers[w].hand.None?)
  }

  lemma {:induction false} WorkerOrderly(cfg: Config, s: State, a: Step)
    requires Orderly(cfg, s) && Enabled(cfg, s, a) && (a.Take? || a.Classify? || a.Flush? || a.Exit?)
    ensures Orderly(cfg, Do(cfg, s, a))
  {
    hide Left, Accepted, Packets, Objects, FromPool, S.Canon;
    var t := Do(cfg, s, a);
    assert forall w :: 0 <= w < |s.workers| && w != a.w ==> t.workers[w] == s.workers[w];
  }

  lemma {:induction false} ChannelOrderly(cfg: Config, s: State, a: Step)
    requires Orderly(cfg, s) && Enabled(cfg, s, a) && (a.Dispatch? || a.Enqueue? || a.DropFull? || a.Close?)
    ensures Orderly(cfg, Do(cfg, s, a))
  {
    hide Left, Accepted, Packets, Objects, FromPool, S.Canon;
  }

  lemma {:induction false} ReachableOrderly(cfg: Config, steps: seq<Step>)
    ensures Orderly(cfg, Exec(cfg, steps))
  {
    hide Enabled, Do;
    if steps != [] {
      var p, a := Exec(cfg, steps[..|steps| - 1]), steps[|steps| - 1];
      ReachableOrderly(cfg, steps[..|steps| - 1]);
      if Enabled(cfg, p, a) {
        if a.Take? || a.Classify? || a.Flush? || a.Exit? {
          WorkerOrderly(cfg, p, a);
        } else {
          ChannelOrderly(cfg, p, a);
        }
      }
    }
  }

  /**
   After a shutdown that every worker has noticed, every packet was dropped, rejected, refused or
   published, or is in a buffer that was abandoned unpublished.
   */
  lemma {:induction false} AfterShutdown(cfg: Config, steps: seq<Step>, c: PacketId -> bool)
    requires cfg.concurrency > 0
    requires forall w :: 0 <= w < |Exec(cfg, steps).workers| ==> Exec(cfg, steps).workers[w].done
    ensures var s := Exec(cfg, steps); Count(s.received, c) == Settled(s, c) + Count(Buffered(s.workers), c)
  {
    hide Exec, Buffered;
    ReachableOrderly(cfg, steps);
    Conservation(cfg, steps, c);
    var s := Exec(cfg, steps);
    assert s.workers[0].done;
    NoHands(s.workers);
  }

  /** A buffer still full when its worker leaves is lost: nothing that happens later touches it. */
  lemma {:induction false} AbandonedForever(cfg: Config, steps: seq<Step>, later: seq<Step>, w: nat)
    requires w < |Exec(cfg, steps).workers| && Exec(cfg, steps).workers[w].done
    ensures |Exec(cfg, steps + later).workers| == |Exec(cfg, steps).workers|
    ensures Exec(cfg, steps + later).workers[w] == Exec(cfg, steps).workers[w]
  {
    hide Exec, Do, Enabled;
    if later == [] {
      assert steps + later == steps;
    } else {
      var init, a := later[..|later| - 1], later[|later| - 1];
      AbandonedForever(cfg, steps, init, w);
      ExecStep(cfg, steps + init, a);
      assert steps + later == steps + init + [a];
      if Enabled(cfg, Exec(cfg, steps + init), a) {
        LeftAlone(cfg, Exec(cfg, steps + init), a, w);
      }
    }
  }

  lemma {:induction false} LeftAlone(cfg: Config, s: State, a: Step, w: nat)
    requires w < |s.workers| && s.workers[w].done && Enabled(cfg, s, a)
    ensures |Do(cfg, s, a).workers| == |s.workers| && Do(cfg, s, a).workers[w] == s.workers[w]
  {
    hide Left, Accepted, Packets, Objects, FromPool;
  }

  lemma {:induction false} ExecStep(cfg: Config, steps: seq<Step>, a: Step)
    ensures var p := Exec(cfg, steps);
            Exec(cfg, steps + [a]) == if Enabled(cfg, p, a) then Do(cfg, p, a) else p
  {
    assert (steps + [a])[..|steps|] == steps;
  }

  lemma {:induction false} ExecNone(cfg: Config)
    ensures Exec(cfg, []) == Init(cfg)
  {
  }

  function TakenRun(): seq<Step> {
    [Dispatch(7)] + [Enqueue(0)] + [Take(0)]
  }

  lemma {:induction false} Taken(cfg: Config)
    requires cfg.bufferSize > 0 && cfg.concurrency == 1
    ensures Exec(cfg, TakenRun()) == Init(cfg).(received := [7], workers := [Worker([], Some(7), false)])
  {
    hide Exec;
    assert [] + [Dispatch(7)] == [Dispatch(7)];
    ExecNone(cfg);
    ExecStep(cfg, [], Dispatch(7));
    ExecStep(cfg, [Dispatch(7)], Enqueue(0));
    ExecStep(cfg, [Dispatch(7)] + [Enqueue(0)], Take(0));
  }

  /** And that happens: a packet buffered since the last tick when the channel is closed. */
  lemma {:induction false} ShutdownAbandons(cfg: Config, rec: S.Metric)
    requires cfg.bufferSize > 0 && cfg.concurrency == 1 && rec.interval == 0 && S.Canonical(cfg.w, rec)
    ensures var s := Exec(cfg, TakenRun() + [Classify(0, Good(0, rec))] + [Close] + [Exit(0)]);
            s.workers == [Worker([Metric(0, 7, rec.org, rec)], None, true)] && s.received == [7] && s.valid == []
  {
    hide Exec, TakenRun, S.Canon;
    var run := TakenRun() + [Classify(0, Good(0, rec))];
    Taken(cfg);
    ExecStep(cfg, TakenRun(), Classify(0, Good(0, rec)));
    assert Exec(cfg, run).workers[0].buf == [Metric(0, 7, rec.org, rec)];
    ExecStep(cfg, run, Close);
    ExecStep(cfg, run + [Close], Exit(0));
  }

  // ---- Failed publishes ------------------------------------------------------------------

  /**
   What a failed `Publish` leaves in the buffer: the same objects for the same packets in the same
   order. If only the send failed, every metric is settled. If a metric stopped the loops, those
   before it are settled, those after it untouched, and it is left in the form it was stopped in.
   */
  lemma {:induction false} FailedFlushLeaves(cfg: Config, keys: set<MKey>, buf: seq<Metric>)
    ensures var left := Left(cfg, keys, buf);
            && Objects(left) == Objects(buf) && Packets(left) == Packets(buf)
            && (Loops(cfg, keys, buf).Go? ==> forall q :: 0 <= q < |buf| ==>
               left[q].rec == PB.Settle(cfg.w, cfg.pub, buf[q].rec))
            && (Loops(cfg, keys, buf).Stop? ==>
                  exists i :: 0 <= i < |buf| && PB.StopsAt(cfg.w, cfg.pub, Records(buf), i)
                    && PB.StoppedForm(cfg.w, cfg.pub, buf[i].rec, left[i].rec)
                    && (forall q :: 0 <= q < i ==> left[q].rec == PB.Settle(cfg.w, cfg.pub, buf[q].rec))
                    && (forall q :: i < q < |buf| ==> left[q].rec == buf[q].rec))
  {
    hide Packets, Objects, PS.Called, PB.Settle, PB.StopsAt, PB.StoppedForm;
    LeftSame(cfg, keys, buf);
    PB.CalledLeaves(cfg.w, cfg.pub, keys, Records(buf));
  }

  /**
   A retried metric belongs to another organisation exactly if it is the one that stopped the
   loops, at a topic that rewrites its organisation. This can be told from the buffer alone.
   */
  lemma {:induction false} RetriedForeignIff(cfg: Config, keys: set<MKey>, buf: seq<Metric>, q: nat)
    requires q < |buf|
    ensures Left(cfg, keys, buf)[q].rec.org != buf[q].rec.org <==> PB.ForeignAt(cfg.w, cfg.pub, Records(buf), q)
  {
    hide PS.Called, PB.ForeignAt;
    PB.ForeignIff(cfg.w, cfg.pub, keys, Records(buf), q);
  }

  ghost predicate OwnersKept(ws: seq<Worker>) {
    forall w, q :: 0 <= w < |ws| && 0 <= q < |ws[w].buf| ==> ws[w].buf[q].rec.org == ws[w].buf[q].user
  }

  /** A flush, if it happens, that hands no metric of its buffer to another organisation. */
  ghost predicate Faithful(cfg: Config, s: State, a: Step) {
    a.Flush? && Enabled(cfg, s, a) ==>
      var recs := Records(s.workers[a.w].buf);
      forall q :: 0 <= q < |recs| ==> !PB.ForeignAt(cfg.w, cfg.pub, recs, q)
  }

  ghost predicate FaithfulRun(cfg: Config, steps: seq<Step>) {
    steps == [] || (FaithfulRun(cfg, steps[..|steps| - 1]) &&
        Faithful(cfg, Exec(cfg, steps[..|steps| - 1]), steps[|steps| - 1]))
  }

  lemma {:induction false} FlushKeepsOwners(cfg: Config, s: State, a: Step)
    requires OwnersKept(s.workers) && Enabled(cfg, s, a) && a.Flush? && Faithful(cfg, s, a)
    ensures OwnersKept(Do(cfg, s, a).workers)
  {
    hide PB.ForeignAt, Loops, Accepted, Packets, Objects;
    var me := s.workers[a.w];
    var left := Left(cfg, a.keys, me.buf);
    forall q | 0 <= q < |me.buf| ensures left[q].rec.org == left[q].user {
      RetriedForeignIff(cfg, a.keys, me.buf, q);
    }
  }

  lemma {:induction false} OthersKeepOwners(cfg: Config, s: State, a: Step)
    requires OwnersKept(s.workers) && Enabled(cfg, s, a) && !a.Flush?
    ensures OwnersKept(Do(cfg, s, a).workers)
  {
    hide FromPool, S.Canon;
  }

  lemma {:induction false} RunKeepsOwners(cfg: Config, steps: seq<Step>)
    requires FaithfulRun(cfg, steps)
    ensures OwnersKept(Exec(cfg, steps).workers)
  {
    hide Enabled, Do, Faithful;
    if steps != [] {
      var p, a := Exec(cfg, steps[..|steps| - 1]), steps[|steps| - 1];
      RunKeepsOwners(cfg, steps[..|steps| - 1]);
      if Enabled(cfg, p, a) {
        if a.Flush? {
          FlushKeepsOwners(cfg, p, a);
        } else {
          OthersKeepOwners(cfg, p, a);
        }
      }
    }
  }

  /** A metric that stops its publish at a topic that rewrites it is not its sender's any more. */
  lemma {:induction false} UnfaithfulLosesOwner(cfg: Config, s: State, a: Step)
    requires OwnersKept(s.workers) && Enabled(cfg, s, a) && !Faithful(cfg, s, a)
    ensures !OwnersKept(Do(cfg, s, a).workers)
  {
    hide PB.ForeignAt, Loops, Left, Packets, Objects;
    var me := s.workers[a.w];
    var recs := Records(me.buf);
    var q: nat :| q < |recs| && PB.ForeignAt(cfg.w, cfg.pub, recs, q);
    ForeignNotAccepted(cfg, a.keys, a.outcome, me.buf, q);
    RetriedForeignIff(cfg, a.keys, me.buf, q);
    var left := Left(cfg, a.keys, me.buf);
    var t := Do(cfg, s, a);
    assert t.workers[a.w].buf == left && left[q].rec.org != left[q].user;
  }

  lemma {:induction false} ForeignNotAccepted(cfg: Config, keys: set<MKey>, outcome: PS.Outcome, buf: seq<Metric>,
                                              q: nat)
    requires q < |buf| && PB.ForeignAt(cfg.w, cfg.pub, Records(buf), q)
    ensures !Accepted(cfg, keys, outcome, buf)
  {
    hide PS.Called, PB.StopsAt, PF.FailsFirst;
    if Loops(cfg, keys, buf).Go? {
      PB.GoStopsNowhere(cfg.w, cfg.pub, keys, Records(buf), q);
    }
  }

  lemma {:induction false} FaithfulPrefix(cfg: Config, steps: seq<Step>, p: nat)
    requires FaithfulRun(cfg, steps) && p <= |steps|
    ensures FaithfulRun(cfg, steps[..p])
    decreases |steps|
  {
    hide Faithful, Exec;
    if p == |steps| {
      assert steps[..p] == steps;
    } else {
      FaithfulPrefix(cfg, steps[..|steps| - 1], p);
      assert steps[..|steps| - 1][..p] == steps[..p];
    }
  }

  ghost predicate AlwaysOwned(cfg: Config, steps: seq<Step>) {
    forall p :: 0 <= p <= |steps| ==> OwnersKept(Exec(cfg, steps[..p]).workers)
  }

  /**
   For every run: at every point of it all buffered metrics belong to whoever sent them, if and only
   if no flush of it hands one to another organisation.
   */
  lemma {:induction false} OwnersKeptIff(cfg: Config, steps: seq<Step>)
    ensures AlwaysOwned(cfg, steps) <==> FaithfulRun(cfg, steps)
  {
    hide Faithful, Enabled, Do, OwnersKept;
    if FaithfulRun(cfg, steps) {
      forall p | 0 <= p <= |steps| ensures OwnersKept(Exec(cfg, steps[..p]).workers) {
        FaithfulPrefix(cfg, steps, p);
        RunKeepsOwners(cfg, steps[..p]);
      }
    }
    if AlwaysOwned(cfg, steps) && steps != [] {
      var init, a := steps[..|steps| - 1], steps[|steps| - 1];
      forall p | 0 <= p <= |init| ensures OwnersKept(Exec(cfg, init[..p]).workers) {
        assert init[..p] == steps[..p];
      }
      OwnersKeptIff(cfg, init);
      assert init[..|init|] == init && steps[..|steps|] == steps;
      assert OwnersKept(Exec(cfg, init).workers) && OwnersKept(Exec(cfg, steps).workers);
      if !Faithful(cfg, Exec(cfg, init), a) {
        OnlyEnabledFlushes(cfg, Exec(cfg, init), a);
        UnfaithfulLosesOwner(cfg, Exec(cfg, init), a);
      }
    }
  }

  lemma {:induction false} OnlyEnabledFlushes(cfg: Config, s: State, a: Step)
    requires !Faithful(cfg, s, a)
    ensures Enabled(cfg, s, a)
  {
  }

  /** Without rewriting all runs are. */
  lemma {:induction false} NoRewriteFaithful(cfg: Config, steps: seq<Step>)
    requires forall t :: t in cfg.pub.topics ==> t.rewrite.source == t.rewrite.target
    ensures FaithfulRun(cfg, steps)
  {
    hide Exec, PB.StopsAt, PF.FailsFirst;
    if steps != [] {
      NoRewriteFaithful(cfg, steps[..|steps| - 1]);
    }
  }

  /**
   And it happens: a metric that its only topic rewrites to an organisation without a key comes back
   as that organisation's, which no topic takes. The retry succeeds, counts it as valid and sends nothing.
   */
  lemma {:induction false} RetryDropsMetric(cfg: Config, keys: set<MKey>, later: set<MKey>, m: Metric,
                                            t: TopicSettings.Topic)
    requires cfg.pub == PS.Config(true, true, true, [t]) && m.rec.org == 1 && m.rec.interval == 0
    requires t.discardPrefixes == [] && t.onlyOrg == 1 && t.rewrite == TopicSettings.Rewrite(1, 0x1_0000_0000)
    ensures Loops(cfg, keys, [m]).Stop?
    ensures var left := Left(cfg, keys, [m]);
            && left[0].rec.org == 0x1_0000_0000
            && Accepted(cfg, later, PS.Delivered, left) && Loops(cfg, later, left).st.payload == []
  {
    hide PS.Called;
    assert Records([m]) == [m.rec];
    PB.SingleDropped(cfg.w, cfg.pub, keys, m.rec, t);
    var left := Left(cfg, keys, [m]);
    assert Records(left) == [left[0].rec];
    PB.SingleUntaken(cfg.w, cfg.pub, later, left[0].rec, t);
  }
}
