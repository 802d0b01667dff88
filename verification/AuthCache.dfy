/**
 The two authentication caches, which are the same but for what they remember, and the
 read-through checks in front of them. grafana.com is a parameter: what it replies is up to
 the caller. Times are nanoseconds; what `Unix` gives is whole seconds.
 */
module AuthCache {
  import opened Text

  const SECOND: int := 1_000_000_000

  function Unix(t: int): int {
    t / SECOND
  }

  datatype Entry<A> = Entry(answer: A, retrieved: int, lastRead: int)

  /** What a validation learns: an answer to keep, or nothing because it failed. */
  datatype Verdict<A> = Definite(answer: A) | Unknown

  type Items<A> = map<string, Entry<A>>

  function Read<A>(e: Entry<A>, now: int): Entry<A> {
    e.(lastRead := Unix(now))
  }

  predicate Expired<A>(e: Entry<A>, now: int, ttl: int) {
    e.retrieved < now - ttl
  }

  /** Not read since it was retrieved, as far as whole seconds tell. */
  predicate Unread<A>(e: Entry<A>) {
    e.lastRead < Unix(e.retrieved)
  }

  /** A validation at `now` drops the entry. */
  predicate Dropped<A>(e: Entry<A>, now: int, ttl: int, v: Verdict<A>) {
    Expired(e, now, ttl) && v.Definite? && Unread(e)
  }

  /** What a validation makes of an entry that it does not drop. */
  function Revalidated<A>(e: Entry<A>, now: int, ttl: int, v: Verdict<A>): Entry<A> {
    if Expired(e, now, ttl) && v.Definite? then Entry(v.answer, now, e.lastRead) else e
  }

  /** The cache after a validation at `now`, entry by entry. */
  function Validated<A>(items: Items<A>, now: int, ttl: int, ask: string -> Verdict<A>): Items<A> {
    map k | k in items && !Dropped(items[k], now, ttl, ask(k)) :: Revalidated(items[k], now, ttl, ask(k))
  }

  class ResponseCache<A> {
    var items: Items<A>
    const cacheTTL: int

    constructor (ttl: int)
      ensures items == map[] && cacheTTL == ttl
    {
      items, cacheTTL := map[], ttl;
    }

    method Get(key: string, now: int) returns (r: Option<A>)
      modifies this
      ensures r == if key in old(items) then Some(old(items)[key].answer) else None
      ensures items == if key in old(items)
                       then old(items)[key := old(items)[key].(lastRead := now / 1_000_000_000)] else old(items)
    {
      r := None;
      if key in items {
        r := Some(items[key].answer);
        items := items[key := Read(items[key], now)];
      }
    }

    method Set(key: string, a: A, now: int)
      modifies this
      ensures items == old(items)[key := Entry(a, now, now / 1_000_000_000)]
    {
      items := items[key := Entry(a, now, Unix(now))];
    }

    method Clear()
      modifies this
      ensures items == map[]
    {
      items := map[];
    }

    /** The keys to look at, collected in one go. */
    method ExpiredKeys(now: int) returns (keys: seq<string>)
      ensures forall k :: k in keys <==> k in items && Expired(items[k], now, cacheTTL)
      ensures forall i, j :: 0 <= i < j < |keys| ==> keys[i] != keys[j]
    {
      keys := [];
      var rest := items.Keys;
      while rest != {}
        invariant rest <= items.Keys
        invariant forall k :: k in keys <==> k in items && k !in rest && Expired(items[k], now, cacheTTL)
        invariant forall i, j :: 0 <= i < j < |keys| ==> keys[i] != keys[j]
        decreases rest
      {
        var k :| k in rest;
        if Expired(items[k], now, cacheTTL) {
          keys := keys + [k];
        }
        rest := rest - {k};
      }
    }

    /** What is done about one key once its verdict is in. */
    method Update(k: string, now: int, v: Verdict<A>)
      modifies this
      ensures items == Updated(old(items), k, now, v)
    {
      if v.Unknown? || k !in items {
        return;
      }
      if items[k].lastRead < Unix(items[k].retrieved) {
        items := items - {k};
        return;
      }
      items := items[k := items[k].(retrieved := now, answer := v.answer)];
    }

    /** A whole validation with nothing else going on in between. */
    method Validate(now: int, ask: string -> Verdict<A>)
      modifies this
      ensures items == Validated(old(items), now, cacheTTL, ask)
    {
      var keys := ExpiredKeys(now);
      for i := 0 to |keys|
        invariant forall k :: k !in keys[..i] ==>
                  (k in items <==> k in old(items)) && (k in items ==> items[k] == old(items)[k])
        invariant forall k :: k in keys[..i] ==>
                    (k in items <==> !Dropped(old(items)[k], now, cacheTTL, ask(k)))
                    && (k in items ==> items[k] == Revalidated(old(items)[k], now, cacheTTL, ask(k)))
      {
        assert keys[..i + 1] == keys[..i] + [keys[i]];
        assert keys[i] !in keys[..i];
        Update(keys[i], now, ask(keys[i]));
      }
      assert keys[..|keys|] == keys;
    }
  }

  /** The locked part of a validation: it may drop or refresh the entry, but never adds one. */
  function Updated<A>(items: Items<A>, k: string, now: int, v: Verdict<A>): Items<A> {
    if v.Unknown? || k !in items then items
    else if Unread(items[k]) then items - {k}
    else items[k := Entry(v.answer, now, items[k].lastRead)]
  }
}
