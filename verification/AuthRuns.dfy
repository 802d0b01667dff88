/**
 Runs of an authentication cache: reads, writes, clears and validation ticks, in any order, at
 times that never go back. How stale an entry can get, and which entries are dropped.
 */
module AuthRuns {
  import opened Text
  import opened AuthCache
  import opened AuthCheck

  datatype Event<A> =
    | Get(key: string, t: int)
    | Set(key: string, answer: A, t: int)
    | Clear(t: int)
    | Tick(t: int, ask: string -> Verdict<A>)

  /**
   The cache, the time, the time of the last tick, which keys that tick could not validate though
   they had expired, and when each key was last read or set.
   */
  datatype State<A> = State(items: Items<A>, now: int, lastTick: int, failed: set<string>, touched: map<string, int>)

  ghost function Start<A>(t: int): State<A> {
    State(map[], t, t, {}, map[])
  }

  /** Keys whose validation at `now` failed though they had expired. */
  ghost function FailedAt<A>(items: Items<A>, now: int, ttl: int, ask: string -> Verdict<A>): set<string> {
    set k | k in items && Expired(items[k], now, ttl) && ask(k).Unknown?
  }

  ghost function Next<A>(s: State<A>, ttl: int, e: Event<A>): State<A> {
    match e
    case Get(k, t) =>
      if k in s.items then s.(items := s.items[k := Read(s.items[k], t)], now := t, touched := s.touched[k := t])
      else s.(now := t)
    case Set(k, a, t) =>
      s.(items := s.items[k := Entry(a, t, Unix(t))], now := t, failed := s.failed - {k}, touched := s.touched[k := t])
    case Clear(t) => s.(items := map[], now := t)
    case Tick(t, ask) =>
      s.(items := Validated(s.items, t, ttl, ask), now := t, lastTick := t, failed := FailedAt(s.items, t, ttl, ask))
  }

  ghost function Run<A>(s: State<A>, ttl: int, es: seq<Event<A>>): State<A> {
    if es == [] then s else Next(Run(s, ttl, es[..|es| - 1]), ttl, es[|es| - 1])
  }

  /** Time never goes back, and no event comes more than `gap` after the last tick. */
  ghost predicate Timely<A>(s: State<A>, ttl: int, gap: int, es: seq<Event<A>>) {
    es == [] ||
    var p := Run(s, ttl, es[..|es| - 1]);
    Timely(s, ttl, gap, es[..|es| - 1]) && p.now <= es[|es| - 1].t <= p.lastTick + gap
  }

  /** The events are what the cache's methods do. */
  method Perform<A>(c: ResponseCache<A>, s: State<A>, e: Event<A>) returns (r: Option<A>)
    requires c.items == s.items
    modifies c
    ensures c.items == Next(s, c.cacheTTL, e).items
    ensures e.Get? ==> r == if e.key in s.items then Some(s.items[e.key].answer) else None
  {
    r := None;
    match e
    case Get(k, t) => r := c.Get(k, t);
    case Set(k, a, t) => c.Set(k, a, t);
    case Clear(_) => c.Clear();
    case Tick(t, ask) => c.Validate(t, ask);
  }

  // ---- Staleness -------------------------------------------------------------------------

  ghost predicate Inv<A>(s: State<A>, ttl: int, gap: int) {
    && s.lastTick <= s.now <= s.lastTick + gap
    && (forall k :: k in s.items ==>
          && s.items[k].retrieved <= s.now
          && k in s.touched && s.touched[k] <= s.now && s.items[k].lastRead == Unix(s.touched[k])
          && (s.items[k].retrieved >= s.lastTick - ttl || k in s.failed))
  }

  lemma {:induction false} NextKeeps<A>(s: State<A>, ttl: int, gap: int, e: Event<A>)
    requires ttl >= 0 && Inv(s, ttl, gap) && s.now <= e.t <= s.lastTick + gap && gap >= 0
    ensures Inv(Next(s, ttl, e), ttl, gap)
  {
  }

  lemma {:induction false} RunKeeps<A>(start: int, ttl: int, gap: int, es: seq<Event<A>>)
    requires ttl >= 0 && gap >= 0 && Timely(Start(start), ttl, gap, es)
    ensures Inv(Run(Start(start), ttl, es), ttl, gap)
  {
    if es != [] {
      RunKeeps(start, ttl, gap, es[..|es| - 1]);
      NextKeeps(Run(Start(start), ttl, es[..|es| - 1]), ttl, gap, es[|es| - 1]);
    }
  }

  /**
   With ticks at most `gap` apart, every entry in every reachable state is at most `ttl + gap` old,
   unless the last tick failed to validate it; and just after a tick it is older than `ttl` exactly
   if that tick failed to validate it. With ticks every half `ttl` the bound is `ttl + ttl / 2`.
   */
  lemma {:induction false} StalenessBound<A>(start: int, ttl: int, gap: int, es: seq<Event<A>>, k: string)
    requires ttl >= 0 && gap >= 0 && Timely(Start(start), ttl, gap, es)
    requires k in Run(Start(start), ttl, es).items
    ensures var s := Run(Start(start), ttl, es);
            && (k !in s.failed ==> s.now - s.items[k].retrieved <= ttl + gap)
            && (es != [] && es[|es| - 1].Tick? ==> (s.now - s.items[k].retrieved > ttl <==> k in s.failed))
  {
    RunKeeps(start, ttl, gap, es);
    if es != [] && es[|es| - 1].Tick? {
      RunKeeps(start, ttl, gap, es[..|es| - 1]);
    }
  }

  ghost predicate AlwaysDefinite<A>(es: seq<Event<A>>) {
    forall i, k :: 0 <= i < |es| && es[i].Tick? ==> es[i].ask(k).Definite?
  }

  lemma {:induction false} DefiniteFailsNone<A>(start: int, ttl: int, es: seq<Event<A>>)
    requires AlwaysDefinite(es)
    ensures Run(Start(start), ttl, es).failed == {}
  {
    if es != [] {
      var init := es[..|es| - 1];
      assert forall i :: 0 <= i < |init| ==> init[i] == es[i];
      DefiniteFailsNone(start, ttl, init);
    }
  }

  /**
   With ticks every half `ttl` and definite answers, no entry of any reachable state is older than
   `ttl` and a half, and none is older than `ttl` just after a tick.
   */
  lemma {:induction false} DefiniteStaleness<A>(start: int, ttl: int, es: seq<Event<A>>, k: string)
    requires ttl >= 0 && Timely(Start(start), ttl, ttl / 2, es) && AlwaysDefinite(es)
    requires k in Run(Start(start), ttl, es).items
    ensures var s := Run(Start(start), ttl, es);
            var age := s.now - s.items[k].retrieved;
            age <= ttl + ttl / 2 && (es != [] && es[|es| - 1].Tick? ==> age <= ttl)
  {
    hide Timely, Run, AlwaysDefinite;
    DefiniteFailsNone(start, ttl, es);
    StalenessBound(start, ttl, ttl / 2, es, k);
  }

  // ---- Eviction --------------------------------------------------------------------------

  /** An entry read since it was last retrieved is never dropped by a tick, in any run. */
  lemma {:induction false} ReadNeverDropped<A>(start: int, ttl: int, gap: int, es: seq<Event<A>>, t: int,
                                               ask: string -> Verdict<A>, k: string)
    requires ttl >= 0 && gap >= 0 && Timely(Start(start), ttl, gap, es)
    requires var s := Run(Start(start), ttl, es);
             k in s.items && k !in Next(s, ttl, Tick(t, ask)).items
    ensures var s := Run(Start(start), ttl, es); k in s.touched && s.touched[k] < s.items[k].retrieved
  {
    RunKeeps(start, ttl, gap, es);
  }

  /** The events `es` leave the entry of `k` alone: nobody reads, sets or clears it, and it does not expire. */
  ghost predicate Quiet<A>(es: seq<Event<A>>, k: string, e: Entry<A>, ttl: int) {
    forall i :: 0 <= i < |es| ==>
      match es[i]
      case Get(key, _) => key != k
      case Set(key, _, _) => key != k
      case Clear(_) => false
      case Tick(t, _) => !Expired(e, t, ttl)
  }

  lemma {:induction false} QuietKeeps<A>(s: State<A>, ttl: int, es: seq<Event<A>>, k: string)
    requires k in s.items && Quiet(es, k, s.items[k], ttl)
    ensures var r := Run(s, ttl, es); k in r.items && r.items[k] == s.items[k]
  {
    if es != [] {
      var init := es[..|es| - 1];
      assert forall i :: 0 <= i < |init| ==> init[i] == es[i];
      QuietKeeps(s, ttl, init, k);
    }
  }

  lemma {:induction false} AbsentStays<A>(s: State<A>, ttl: int, es: seq<Event<A>>, k: string)
    requires k !in s.items && forall i :: 0 <= i < |es| && es[i].Set? ==> es[i].key != k
    ensures k !in Run(s, ttl, es).items
  {
    if es != [] {
      AbsentStays(s, ttl, es[..|es| - 1], k);
    }
  }

  lemma {:induction false} RunConcat<A>(s: State<A>, ttl: int, es: seq<Event<A>>, fs: seq<Event<A>>)
    ensures Run(s, ttl, es + fs) == Run(Run(s, ttl, es), ttl, fs)
  {
    if fs == [] {
      assert es + fs == es;
    } else {
      RunConcat(s, ttl, es, fs[..|fs| - 1]);
      assert (es + fs)[..|es + fs| - 1] == es + fs[..|fs| - 1];
    }
  }

  /** Nobody sets or clears the entry of `k`, and every tick fails to validate it. */
  ghost predicate Failing<A>(es: seq<Event<A>>, k: string) {
    forall i :: 0 <= i < |es| ==>
      match es[i]
      case Get(_, _) => true
      case Set(key, _, _) => key != k
      case Clear(_) => false
      case Tick(_, ask) => ask(k).Unknown?
  }

  /**
   As long as validation fails an entry keeps its answer, however old it gets and however often it
   is used.
   */
  lemma {:induction false} FailuresKeep<A>(s: State<A>, ttl: int, es: seq<Event<A>>, k: string)
    requires k in s.items && Failing(es, k)
    ensures var r := Run(s, ttl, es);
            k in r.items && r.items[k].answer == s.items[k].answer && r.items[k].retrieved == s.items[k].retrieved
  {
    if es != [] {
      var init := es[..|es| - 1];
      assert forall i :: 0 <= i < |init| ==> init[i] == es[i];
      FailuresKeep(s, ttl, init, k);
    }
  }

  /**
   In a run of the token cache, whatever grafana.com says about `k` in a validation is either no reply
   or that the organisation is not a permitted one; nobody asks anew, and the cache is not cleared.
   */
  ghost predicate OrgRefused(es: seq<Event<Option<User>>>, replies: seq<string -> TokenReply>, k: string) {
    |replies| == |es| &&
    forall i :: 0 <= i < |es| ==>
      match es[i]
      case Get(_, _) => true
      case Set(key, _, _) => key != k
      case Clear(_) => false
      case Tick(_, ask) => ask == Revalidating(replies[i]) && (replies[i](k).InvalidOrg? || replies[i](k).Unavailable?)
  }

  /**
   A token that was accepted goes on being accepted as the same user, however long and however often
   grafana.com refuses its organisation.
   */
  lemma {:induction false} RefusedOrgStaysAccepted(s: State<Option<User>>, ttl: int, es: seq<Event<Option<User>>>,
                                                   replies: seq<string -> TokenReply>, k: string, u: User)
    requires k in s.items && s.items[k].answer == Some(u) && OrgRefused(es, replies, k)
    ensures var r := Run(s, ttl, es);
            k in r.items && r.items[k].answer == Some(u) && FromCache(r.items[k].answer) == Accepted(u)
  {
    forall i | 0 <= i < |es| && es[i].Tick? ensures es[i].ask(k).Unknown? {
      assert es[i].ask(k) == ToRevalidate(replies[i](k));
    }
    FailuresKeep(s, ttl, es, k);
  }

  /**
   The life of an entry that is never read. Set at `t0`, it is unchanged until its first expiry at
   `t1`, where it is kept with the new answer; it is unchanged again until its second expiry at `t2`,
   and is then dropped exactly if `t0` and `t1` fall into different seconds. Once dropped it stays
   away, whatever happens, until it is set again.
   */
  lemma {:induction false} UnreadLife<A>(s: State<A>, ttl: int, k: string, a: A, t0: int, quiet1: seq<Event<A>>,
                      t1: int, ask1: string -> Verdict<A>, quiet2: seq<Event<A>>, t2: int, ask2: string -> Verdict<A>,
                      rest: seq<Event<A>>)
    requires Quiet(quiet1, k, Entry(a, t0, Unix(t0)), ttl) && t0 < t1 - ttl && ask1(k).Definite?
    requires Quiet(quiet2, k, Entry(ask1(k).answer, t1, Unix(t0)), ttl) && t1 < t2 - ttl && ask2(k).Definite?
    requires forall i :: 0 <= i < |rest| && rest[i].Set? ==> rest[i].key != k
    ensures var set_ := Run(s, ttl, [Set(k, a, t0)] + quiet1);
            var kept := Run(s, ttl, [Set(k, a, t0)] + quiet1 + [Tick(t1, ask1)] + quiet2);
            var end := Run(s, ttl, [Set(k, a, t0)] + quiet1 + [Tick(t1, ask1)] + quiet2 + [Tick(t2, ask2)]);
            && k in set_.items && set_.items[k] == Entry(a, t0, Unix(t0))
            && k in kept.items && kept.items[k] == Entry(ask1(k).answer, t1, Unix(t0))
            && (k !in end.items <==> Unix(t0) < Unix(t1))
            && (Unix(t0) < Unix(t1) ==> k !in Run(end, ttl, rest).items)
  {
    var es0 := [Set(k, a, t0)];
    assert es0[..0] == [];
    RunConcat(s, ttl, es0, quiet1);
    QuietKeeps(Run(s, ttl, es0), ttl, quiet1, k);
    var es1 := es0 + quiet1;
    RunTick(s, ttl, es1, t1, ask1);
    RunConcat(s, ttl, es1 + [Tick(t1, ask1)], quiet2);
    QuietKeeps(Run(s, ttl, es1 + [Tick(t1, ask1)]), ttl, quiet2, k);
    RunTick(s, ttl, es1 + [Tick(t1, ask1)] + quiet2, t2, ask2);
    if Unix(t0) < Unix(t1) {
      AbsentStays(Run(s, ttl, es1 + [Tick(t1, ask1)] + quiet2 + [Tick(t2, ask2)]), ttl, rest, k);
    }
  }

  lemma {:induction false} RunTick<A>(s: State<A>, ttl: int, es: seq<Event<A>>, t: int, ask: string -> Verdict<A>)
    ensures Run(s, ttl, es + [Tick(t, ask)]) == Next(Run(s, ttl, es), ttl, Tick(t, ask))
  {
    assert (es + [Tick(t, ask)])[..|es|] == es;
  }

  /** Whenever an entry expires, the second it was set in is over. */
  ghost predicate SecondsDiffer(ttl: int) {
    forall t0, t1 :: t0 < t1 - ttl ==> Unix(t0) < Unix(t1)
  }

  /**
   The second expiry drops an unread entry in all cases exactly if the time-to-live is a second, or
   one nanosecond less; with a shorter one there are entries that outlive it.
   */
  lemma {:induction false} SecondExpiryDropsIff(ttl: int)
    requires ttl >= 0
    ensures SecondsDiffer(ttl) <==> ttl >= 999_999_999
  {
    if ttl < SECOND - 1 {
      assert Unix(0) == Unix(ttl + 1);
    }
  }
}
