/** The checks in front of the caches: answer from the cache, else ask and remember. */
module AuthCheck {
  import opened Text
  import opened AuthCache

  datatype User = User(key: string, org: int, admin: bool)

  /** How grafana.com may reply about a token. */
  datatype TokenReply = Accepted(user: User) | InvalidKey | InvalidOrg | Unavailable

  datatype InstanceReply = Valid | InvalidInstance | OtherError

  /** What `Auth` remembers: both rejections are kept as a missing user. */
  function ToRemember(r: TokenReply): Verdict<Option<User>> {
    match r
    case Accepted(u) => Definite(Some(u))
    case InvalidKey => Definite(None)
    case InvalidOrg => Definite(None)
    case Unavailable => Unknown
  }

  /** What a background validation learns: there a wrong organisation counts as a failure. */
  function ToRevalidate(r: TokenReply): Verdict<Option<User>> {
    if r.InvalidOrg? then Unknown else ToRemember(r)
  }

  function InstanceVerdict(r: InstanceReply): Verdict<bool> {
    match r case Valid => Definite(true) case InvalidInstance => Definite(false) case OtherError => Unknown
  }

  /** What a caller is told from the cache. */
  function FromCache(a: Option<User>): TokenReply {
    match a case Some(u) => Accepted(u) case None => InvalidKey
  }

  function InstanceKey(id: string, key: string): string {
    id + ":" + key
  }

  /** `strings.SplitN(s, ":", 2)`, with no second part when there is no colon. */
  function SplitKey(s: string): (string, Option<string>) {
    var i := Find(s, ':');
    (s[..i], if i < |s| then Some(s[i + 1..]) else None)
  }

  /** The cache key splits back into the pair it was made from exactly if the id has no colon. */
  lemma {:induction false} InstanceKeySplits(id: string, key: string)
    ensures SplitKey(InstanceKey(id, key)) == (id, Some(key)) <==> ':' !in id
  {
    var s := InstanceKey(id, key);
    if ':' !in id {
      FindInPrefix(id, ':', key);
      assert s == id + [':'] + key;
      assert s[..|id|] == id && s[|id| + 1..] == key;
    } else {
      assert ':' !in SplitKey(s).0;
    }
  }

  /** Different pairs of a colon-free id and a key never share a cache key. */
  lemma {:induction false} InstanceKeyInjective(id: string, key: string, id': string, key': string)
    requires ':' !in id && ':' !in id' && InstanceKey(id, key) == InstanceKey(id', key')
    ensures id == id' && key == key'
  {
    InstanceKeySplits(id, key);
    InstanceKeySplits(id', key');
  }

  class Authenticator {
    const adminKey: string
    const tokens: ResponseCache<Option<User>>
    const instances: ResponseCache<bool>

    constructor (adminKey: string, ttl: int)
      ensures this.adminKey == adminKey && tokens.items == map[] && instances.items == map[]
    {
      this.adminKey := adminKey;
      tokens := new ResponseCache(ttl);
      instances := new ResponseCache(ttl);
    }

    /**
     `reply` is what grafana.com would answer now; it is used only for a key that is neither the
     admin key nor cached, and remembered unless it is a failure.
     */
    method Auth(key: string, now: int, reply: TokenReply) returns (r: TokenReply)
      modifies tokens
      ensures key == adminKey ==> r == Accepted(User(key, 1, true)) && tokens.items == old(tokens.items)
      ensures key != adminKey && key in old(tokens.items) ==>
                && (forall u :: old(tokens.items)[key].answer == Some(u) ==> r == Accepted(u))
                && (old(tokens.items)[key].answer == None ==> r == InvalidKey)
                && tokens.items == old(tokens.items)[key := Read(old(tokens.items)[key], now)]
      ensures key != adminKey && key !in old(tokens.items) ==>
                && r == reply
                && (forall u :: reply == Accepted(u) ==>
                      tokens.items == old(tokens.items)[key := Entry(Some(u), now, Unix(now))])
                && (reply == InvalidKey || reply == InvalidOrg ==>
                      tokens.items == old(tokens.items)[key := Entry(None, now, Unix(now))])
                && (reply == Unavailable ==> tokens.items == old(tokens.items))
    {
      if key == adminKey {
        return Accepted(User(key, 1, true));
      }
      var cached := tokens.Get(key, now);
      if cached.Some? {
        return FromCache(cached.value);
      }
      if reply.Unavailable? {
        return reply;
      }
      tokens.Set(key, if reply.Accepted? then Some(reply.user) else None, now);
      r := reply;
    }

    /** The same for an instance of a user: valid, invalid, or an error that is not remembered. */
    method CheckInstance(user: User, id: string, now: int, reply: InstanceReply) returns (r: InstanceReply)
      modifies instances
      ensures var k := id + ":" + user.key;
              && (k in old(instances.items) ==>
                    && (old(instances.items)[k].answer ==> r == Valid)
                    && (!old(instances.items)[k].answer ==> r == InvalidInstance)
                    && instances.items == old(instances.items)[k := Read(old(instances.items)[k], now)])
              && (k !in old(instances.items) ==>
                    && r == reply
                    && (reply == Valid ==> instances.items == old(instances.items)[k := Entry(true, now, Unix(now))])
                    && (reply == InvalidInstance ==>
                          instances.items == old(instances.items)[k := Entry(false, now, Unix(now))])
                    && (reply == OtherError ==> instances.items == old(instances.items)))
    {
      var k := InstanceKey(id, user.key);
      var cached := instances.Get(k, now);
      if cached.Some? {
        return if cached.value then Valid else InvalidInstance;
      }
      if reply.OtherError? {
        return reply;
      }
      instances.Set(k, reply.Valid?, now);
      r := reply;
    }

    /**
     Two requests in a row with a key that is not remembered: what grafana.com decides about the first
     is the answer to the second, whatever it would say then; if it does not decide, it is asked again.
     */
    method AuthTwice(key: string, now: int, reply: TokenReply, later: int, reply': TokenReply) returns (r: TokenReply)
      requires key != adminKey && key !in tokens.items
      modifies tokens
      ensures match reply
              case Accepted(u) => r == Accepted(u)
              case InvalidKey => r == InvalidKey
              case InvalidOrg => r == InvalidKey
              case Unavailable => r == reply'
    {
      r := Auth(key, now, reply);
      r := Auth(key, later, reply');
    }

    method CheckTwice(user: User, id: string, now: int, reply: InstanceReply, later: int, reply': InstanceReply)
      returns (r: InstanceReply)
      requires InstanceKey(id, user.key) !in instances.items
      modifies instances
      ensures match reply
              case Valid => r == Valid
              case InvalidInstance => r == InvalidInstance
              case OtherError => r == reply'
    {
      r := CheckInstance(user, id, now, reply);
      r := CheckInstance(user, id, later, reply');
    }

    /** The background validation of the tokens: `reply` is what grafana.com says about each of them. */
    method ValidateTokens(now: int, reply: string -> TokenReply)
      modifies tokens
      ensures tokens.items == Validated(old(tokens.items), now, tokens.cacheTTL, Revalidating(reply))
    {
      tokens.Validate(now, Revalidating(reply));
    }

    /** And that of the instances. */
    method ValidateInstances(now: int, reply: string -> InstanceReply)
      modifies instances
      ensures instances.items == Validated(old(instances.items), now, instances.cacheTTL,
              k => InstanceVerdict(reply(k)))
    {
      instances.Validate(now, k => InstanceVerdict(reply(k)));
    }
  }

  /** What a validation learns about each token, and what it would learn if it judged replies as `Auth` does. */
  function Revalidating(reply: string -> TokenReply): string -> Verdict<Option<User>> {
    k => ToRevalidate(reply(k))
  }

  function Remembering(reply: string -> TokenReply): string -> Verdict<Option<User>> {
    k => ToRemember(reply(k))
  }

  /** What a validation makes of the entry of a token that has expired, reply by reply. */
  lemma {:induction false} TokenValidated(items: Items<Option<User>>, now: int, ttl: int,
                                          reply: string -> TokenReply, k: string)
    requires k in items && items[k].retrieved < now - ttl
    ensures var e, after := items[k], EntryAt(Validated(items, now, ttl, Revalidating(reply)), k);
            match reply(k)
            case Accepted(u) => after == if e.lastRead < Unix(e.retrieved) then None
                else Some(Entry(Some(u), now, e.lastRead))
            case InvalidKey => after == if e.lastRead < Unix(e.retrieved) then None
                else Some(Entry(None, now, e.lastRead))
            case InvalidOrg => after == Some(e)
            case Unavailable => after == Some(e)
  {
  }

  lemma {:induction false} InstanceValidated(items: Items<bool>, now: int, ttl: int,
                                             reply: string -> InstanceReply, k: string)
    requires k in items && items[k].retrieved < now - ttl
    ensures var e, after := items[k], EntryAt(Validated(items, now, ttl, k => InstanceVerdict(reply(k))), k);
            match reply(k)
            case Valid => after == if e.lastRead < Unix(e.retrieved) then None else Some(Entry(true, now, e.lastRead))
            case InvalidInstance => after == if e.lastRead < Unix(e.retrieved) then None
                else Some(Entry(false, now, e.lastRead))
            case OtherError => after == Some(e)
  {
  }

  function EntryAt<A>(items: Items<A>, k: string): Option<Entry<A>> {
    if k in items then Some(items[k]) else None
  }

  /**
   The two ways to judge a reply make a difference for exactly the expired tokens of which
   grafana.com says that their organisation is not a permitted one.
   */
  lemma {:induction false} JudgementsDifferIff(items: Items<Option<User>>, now: int, ttl: int,
                                               reply: string -> TokenReply, k: string)
    requires ttl >= 0
    ensures EntryAt(Validated(items, now, ttl, Revalidating(reply)), k) !=
            EntryAt(Validated(items, now, ttl, Remembering(reply)), k) <==>
            k in items && Expired(items[k], now, ttl) && reply(k).InvalidOrg?
  {
  }

  /** There the one leaves the entry alone, the other drops it or makes it a rejection. */
  lemma {:induction false} WrongOrgValidated(items: Items<Option<User>>, now: int, ttl: int,
                                             reply: string -> TokenReply, k: string)
    requires k in items && Expired(items[k], now, ttl) && reply(k).InvalidOrg?
    ensures EntryAt(Validated(items, now, ttl, Revalidating(reply)), k) == Some(items[k])
    ensures EntryAt(Validated(items, now, ttl, Remembering(reply)), k) ==
            if Unread(items[k]) then None else Some(Entry(None, now, items[k].lastRead))
  {
  }
}
