/**
 An authentication cache under concurrency, one step per critical section or reply: any number
 of requests read through the cache while the background validation snapshots the expired keys,
 asks about them one by one without holding a lock, and updates the entries under the lock.
 */
module AuthConcurrent {
  import opened AuthCache

  type RequestId = nat

  /** A request that missed: waiting for the reply, or holding it. */
  datatype Request<A> = Waiting(key: string) | Holding(key: string, answer: A)

  datatype Validation<A> =
    | Idle
    | Asking(now: int, todo: seq<string>)
    | Updating(now: int, todo: seq<string>, verdict: Verdict<A>)  // the verdict is about todo[0]

  /**
   `given` is what was ever answered about which key, `stored` the keys set since the last clear,
   `expired` the keys that the last validation began with and `asked` those it has asked about.
   */
  datatype State<A(==)> = State(
    items: Items<A>, requests: map<RequestId, Request<A>>, validation: Validation<A>,
    given: set<(string, A)>, stored: set<string>, expired: seq<string>, asked: seq<string>)

  datatype Step<A> =
    | Hit(key: string, t: int)
    | Miss(r: RequestId, key: string)
    | Reply(r: RequestId, verdict: Verdict<A>)
    | Store(r: RequestId, t: int)
    | Clear
    | Begin(now: int, keys: seq<string>)
    | Verify(verdict: Verdict<A>)
    | Update
    | End

  ghost predicate Enabled<A>(s: State<A>, ttl: int, a: Step<A>) {
    match a
    case Hit(k, _) => k in s.items
    case Miss(r, k) => k !in s.items && r !in s.requests
    case Reply(r, _) => r in s.requests && s.requests[r].Waiting?
    case Store(r, _) => r in s.requests && s.requests[r].Holding?
    case Clear => true
    case Begin(now, keys) =>
      s.validation.Idle? && forall k :: k in keys <==> k in s.items && Expired(s.items[k], now, ttl)
    case Verify(_) => s.validation.Asking? && s.validation.todo != []
    case Update => s.validation.Updating? && s.validation.todo != []
    case End => s.validation.Asking? && s.validation.todo == []
  }

  ghost function Told<A>(given: set<(string, A)>, k: string, v: Verdict<A>): set<(string, A)> {
    match v case Definite(a) => given + {(k, a)} case Unknown => given
  }

  ghost function Do<A>(s: State<A>, ttl: int, a: Step<A>): State<A>
    requires Enabled(s, ttl, a)
  {
    match a
    case Hit(k, t) => s.(items := s.items[k := Read(s.items[k], t)])
    case Miss(r, k) => s.(requests := s.requests[r := Waiting(k)])
    case Reply(r, v) =>
      var k := s.requests[r].key;
      s.(given := Told(s.given, k, v),
         requests := match v
                     case Definite(answer) => s.requests[r := Holding(k, answer)]
                     case Unknown => s.requests - {r})
    case Store(r, t) =>
      var Holding(k, answer) := s.requests[r];
      s.(items := s.items[k := Entry(answer, t, Unix(t))], requests := s.requests - {r}, stored := s.stored + {k})
    case Clear => s.(items := map[], stored := {})
    case Begin(now, keys) => s.(validation := Asking(now, keys), expired := keys, asked := [])
    case Verify(v) =>
      s.(given := Told(s.given, s.validation.todo[0], v),
         validation := Updating(s.validation.now, s.validation.todo, v), asked := s.asked + [s.validation.todo[0]])
    case Update =>
      var Updating(now, todo, v) := s.validation;
      s.(items := Updated(s.items, todo[0], now, v), validation := Asking(now, todo[1..]))
    case End => s.(validation := Idle)
  }

  /** The steps that hold a lock are what the cache's methods do. */
  method Perform<A>(c: ResponseCache<A>, s: State<A>, a: Step<A>)
    requires Enabled(s, c.cacheTTL, a) && c.items == s.items
    modifies c
    ensures c.items == Do(s, c.cacheTTL, a).items
  {
    match a
    case Hit(k, t) => var _ := c.Get(k, t);
    case Store(r, t) => c.Set(s.requests[r].key, s.requests[r].answer, t);
    case Clear => c.Clear();
    case Update => c.Update(s.validation.todo[0], s.validation.now, s.validation.verdict);
    case _ =>
  }

  /** Any interleaving: a step that is not enabled where it is tried does nothing. */
  ghost function Exec<A>(ttl: int, steps: seq<Step<A>>): State<A> {
    if steps == [] then State(map[], map[], Idle, {}, {}, [], []) else
    var p := Exec(ttl, steps[..|steps| - 1]);
    if Enabled(p, ttl, steps[|steps| - 1]) then Do(p, ttl, steps[|steps| - 1]) else p
  }

  /** What was asked about and what is still to be asked about make up what the validation began with. */
  ghost predicate Visiting<A(!new)>(s: State<A>) {
    match s.validation
    case Idle => s.asked == s.expired
    case Asking(_, todo) => s.asked + todo == s.expired
    case Updating(_, todo, _) =>
      && todo != [] && s.asked != [] && s.asked[|s.asked| - 1] == todo[0]
      && s.asked + todo[1..] == s.expired
  }

  lemma {:induction false} StepVisits<A(!new)>(s: State<A>, ttl: int, a: Step<A>)
    requires Visiting(s) && Enabled(s, ttl, a)
    ensures Visiting(Do(s, ttl, a))
  {
    if a.Verify? {
      var todo := s.validation.todo;
      assert s.asked + todo == s.asked + [todo[0]] + todo[1..];
    }
  }

  /** In every interleaving a validation that is over has asked about each key it began with, in order. */
  lemma {:induction false} AllAsked<A(!new)>(ttl: int, steps: seq<Step<A>>)
    ensures Visiting(Exec(ttl, steps))
    ensures Exec(ttl, steps).validation.Idle? ==> Exec(ttl, steps).asked == Exec(ttl, steps).expired
  {
    hide Enabled, Do;
    if steps == [] {
      assert Exec(ttl, steps).validation.Idle?;
    } else {
      var p := Exec(ttl, steps[..|steps| - 1]);
      AllAsked(ttl, steps[..|steps| - 1]);
      if Enabled(p, ttl, steps[|steps| - 1]) {
        StepVisits(p, ttl, steps[|steps| - 1]);
      }
    }
  }

  ghost predicate Inv<A(!new)>(s: State<A>) {
    && (forall k :: k in s.items ==> (k, s.items[k].answer) in s.given && k in s.stored)
    && (forall r :: r in s.requests && s.requests[r].Holding? ==> (s.requests[r].key, s.requests[r].answer) in s.given)
    && (s.validation.Updating? ==>
          s.validation.todo != [] &&
          (s.validation.verdict.Definite? ==> (s.validation.todo[0], s.validation.verdict.answer) in s.given))
  }

  lemma {:induction false} StepKeeps<A(!new)>(s: State<A>, ttl: int, a: Step<A>)
    requires Inv(s) && Enabled(s, ttl, a)
    ensures Inv(Do(s, ttl, a))
  {
  }

  lemma {:induction false} ReachableInv<A(!new)>(ttl: int, steps: seq<Step<A>>)
    ensures Inv(Exec(ttl, steps))
  {
    if steps != [] {
      ReachableInv(ttl, steps[..|steps| - 1]);
      var p := Exec(ttl, steps[..|steps| - 1]);
      if Enabled(p, ttl, steps[|steps| - 1]) {
        StepKeeps(p, ttl, steps[|steps| - 1]);
      }
    }
  }

  /**
   In every interleaving each cached answer is one that was given about that very key, and the key
   was set since the last clear: a validation that overlaps a clear does not bring it back.
   */
  lemma {:induction false} CachedWasGiven<A(!new)>(ttl: int, steps: seq<Step<A>>, k: string)
    requires k in Exec(ttl, steps).items
    ensures var s := Exec(ttl, steps); (k, s.items[k].answer) in s.given && k in s.stored
  {
    ReachableInv(ttl, steps);
  }

  ghost predicate SameEntry<A>(u: Items<A>, v: Items<A>, k: string) {
    (k in u <==> k in v) && (k in u ==> u[k] == v[k])
  }

  /**
   What can change an entry: reading it, storing a reply for it, a clear, or a validation's definite
   verdict about it. In particular failures and other keys' validations never do, and only storing
   adds one.
   */
  lemma {:induction false} OnlyTheseChange<A>(s: State<A>, ttl: int, a: Step<A>, k: string)
    requires Enabled(s, ttl, a)
    ensures !SameEntry(s.items, Do(s, ttl, a).items, k) ==>
              || (a.Hit? && a.key == k)
              || (a.Store? && s.requests[a.r].key == k)
              || a.Clear?
              || (a.Update? && s.validation.todo[0] == k && s.validation.verdict.Definite?)
    ensures k !in s.items && k in Do(s, ttl, a).items ==> a.Store?
    ensures k in s.items && k in Do(s, ttl, a).items && Do(s, ttl, a).items[k].answer != s.items[k].answer ==> !a.Hit?
  {
  }
}
