/** Per-topic settings, and the parser that spreads the command-line lists over the topics. */
module TopicSettings {
  import opened Text
  import opened Schema

  datatype Rewrite = Rewrite(source: int, target: int)

  datatype Topic = Topic(
    name: string, method_: Method, numPartitions: int, onlyOrg: int,
    discardPrefixes: seq<string>, rewrite: Rewrite)

  const NO_REWRITE := Rewrite(0, 0)

  function MethodFromString(s: string): Option<Method> {
    if s == "byOrg" then Some(ByOrg)
    else if s == "bySeries" then Some(BySeries)
    else if s == "bySeriesWithTags" then Some(BySeriesWithTags)
    else if s == "bySeriesWithTagsFnv" then Some(BySeriesWithTagsFnv)
    else None
  }

  /** Go's conversion of an unsigned 64-bit number to a signed one. */
  function ToSigned(n: nat): int
    requires n <= MAX_UINT64
  {
    if n <= MAX_INT64 then n else n - (MAX_UINT64 + 1)
  }

  function Fields(s: string, c: char): (r: seq<string>)
    ensures forall p :: p in r ==> p != "" && c !in p
  {
    NonEmpty(Split(s, c))
  }

  /** One `source:target` entry; an empty one stands for no rewriting. */
  function ParseRewrite(s: string): Option<Rewrite> {
    if s == "" then Some(NO_REWRITE) else
    var parts := Split(s, ':');
    if |parts| != 2 then None else
    match (ParseUint(parts[0]), ParseUint(parts[1]))
    case (Some(a), Some(b)) => Some(Rewrite(ToSigned(a), ToSigned(b)))
    case _ => None
  }

  datatype SettingsError =
    SchemesPerTopic | OrgsPerTopic | PrefixesPerTopic | RewritesPerTopic | UnknownScheme | BadRewrite

  datatype Options = Options(schemes: string, topics: string, onlyOrgs: seq<Int64>, prefixes: string, rewrites: string)

  /** A list given as an empty string has no entries. */
  function OptionalList(s: string): seq<string> {
    if s == "" then [] else Split(s, ',')
  }

  /** The entry that topic `i` takes from a list that may have a single entry for all. */
  function Shared(n: nat, i: nat): nat {
    if n == 1 then 0 else i
  }

  /** The lists fit the topics: one entry for all or one each, and for the last two one each. */
  predicate CountsFit(o: Options) {
    var n := |Split(o.topics, ',')|;
    && (|Split(o.schemes, ',')| > 1 ==> |Split(o.schemes, ',')| == n)
    && (|o.onlyOrgs| > 1 ==> |o.onlyOrgs| == n)
    && (|OptionalList(o.prefixes)| > 0 ==> |OptionalList(o.prefixes)| == n)
    && (|OptionalList(o.rewrites)| > 0 ==> |OptionalList(o.rewrites)| == n)
  }

  /** Every entry that is looked at can be read. */
  predicate EntriesParse(o: Options) {
    && (forall s :: s in Split(o.schemes, ',') ==> MethodFromString(TrimSpace(s)).Some?)
    && (forall s :: s in OptionalList(o.rewrites) ==> ParseRewrite(s).Some?)
  }

  /** What topic number `i` gets, entry by entry. */
  predicate Configured(o: Options, i: nat, t: Topic)
    requires CountsFit(o) && i < |Split(o.topics, ',')|
  {
    var schemes := Split(o.schemes, ',');
    && t.name == TrimSpace(Split(o.topics, ',')[i])
    && MethodFromString(TrimSpace(schemes[Shared(|schemes|, i)])) == Some(t.method_)
    && t.onlyOrg == (if o.onlyOrgs == [] then 0 else o.onlyOrgs[Shared(|o.onlyOrgs|, i)])
    && t.discardPrefixes == (if o.prefixes == "" then [] else Fields(OptionalList(o.prefixes)[i], '|'))
    && Some(t.rewrite) == (if o.rewrites == "" then Some(NO_REWRITE) else ParseRewrite(OptionalList(o.rewrites)[i]))
  }

  /**
   Reads the settings. Succeeds exactly when the counts fit and the entries parse, and then
   configures every topic; no input makes it index a list out of range.
   */
  method Parse(o: Options) returns (r: Result<seq<Topic>, SettingsError>)
    ensures r.Success? <==> CountsFit(o) && EntriesParse(o)
    ensures r.Success? ==> |r.value| == |Split(o.topics, ',')|
    ensures r.Success? ==> forall i :: 0 <= i < |r.value| ==> Configured(o, i, r.value[i])
  {
    var schemes, names := Split(o.schemes, ','), Split(o.topics, ',');
    var prefixes, rewrites := OptionalList(o.prefixes), OptionalList(o.rewrites);
    if |schemes| > 1 && |schemes| != |names| {
      return Failure(SchemesPerTopic);
    }
    if |o.onlyOrgs| > 1 && |o.onlyOrgs| != |names| {
      return Failure(OrgsPerTopic);
    }
    if |prefixes| > 0 && |prefixes| != |names| {
      return Failure(PrefixesPerTopic);
    }
    if |rewrites| > 0 && |rewrites| != |names| {
      return Failure(RewritesPerTopic);
    }
    r := ParseTopics(o);
  }

  /** The loop over the topics, once the counts are known to fit. */
  method ParseTopics(o: Options) returns (r: Result<seq<Topic>, SettingsError>)
    requires CountsFit(o)
    ensures r.Success? <==> EntriesParse(o)
    ensures r.Success? ==> |r.value| == |Split(o.topics, ',')|
    ensures r.Success? ==> forall i :: 0 <= i < |r.value| ==> Configured(o, i, r.value[i])
  {
    var topics: seq<Topic> := [];
    while |topics| < |Split(o.topics, ',')|
      invariant |topics| <= |Split(o.topics, ',')| && Prefix(o, topics)
    {
      var t := ParseTopic(o, topics);
      if t.Failure? {
        r := Failure(t.error);
        return;
      }
      topics := topics + [t.value];
    }
    PrefixAll(o, topics);
    r := Success(topics);
  }

  /** The entries that topic number `i` looks at can be read. */
  predicate EntriesParseAt(o: Options, i: nat) {
    && (i < |Split(o.schemes, ',')| ==> MethodFromString(TrimSpace(Split(o.schemes, ',')[i])).Some?)
    && (i < |OptionalList(o.rewrites)| ==> ParseRewrite(OptionalList(o.rewrites)[i]).Some?)
  }

  /** The topics read so far are configured, from entries that parse. */
  predicate Prefix(o: Options, topics: seq<Topic>)
    requires CountsFit(o) && |topics| <= |Split(o.topics, ',')|
  {
    topics != [] ==>
      var n := |topics| - 1;
      Prefix(o, topics[..n]) && EntriesParseAt(o, n) && Configured(o, n, topics[n])
  }

  lemma {:induction false} AllEntriesParse(o: Options, j: nat)
    ensures EntriesParse(o) ==> EntriesParseAt(o, j)
  {
    var schemes, rewrites := Split(o.schemes, ','), OptionalList(o.rewrites);
    assert j < |schemes| ==> schemes[j] in schemes;
    assert j < |rewrites| ==> rewrites[j] in rewrites;
  }

  lemma {:induction false} PrefixSnoc(o: Options, done: seq<Topic>, t: Topic)
    requires CountsFit(o) && |done| < |Split(o.topics, ',')| && Prefix(o, done)
    requires EntriesParseAt(o, |done|) && Configured(o, |done|, t)
    ensures Prefix(o, done + [t])
  {
    assert (done + [t])[..|done|] == done;
  }

  lemma {:induction false} PrefixAt(o: Options, topics: seq<Topic>, i: nat)
    requires CountsFit(o) && |topics| <= |Split(o.topics, ',')| && Prefix(o, topics) && i < |topics|
    ensures EntriesParseAt(o, i) && Configured(o, i, topics[i])
  {
    if i < |topics| - 1 {
      PrefixAt(o, topics[..|topics| - 1], i);
    }
  }

  lemma {:induction false} PrefixAll(o: Options, topics: seq<Topic>)
    requires CountsFit(o) && |topics| == |Split(o.topics, ',')| && Prefix(o, topics)
    ensures EntriesParse(o)
    ensures forall i :: 0 <= i < |topics| ==> Configured(o, i, topics[i])
  {
    var schemes, rewrites := Split(o.schemes, ','), OptionalList(o.rewrites);
    forall i | 0 <= i < |topics| ensures Configured(o, i, topics[i]) {
      PrefixAt(o, topics, i);
    }
    forall i | 0 <= i < |schemes| ensures MethodFromString(TrimSpace(schemes[i])).Some? {
      PrefixAt(o, topics, i);
    }
    forall i | 0 <= i < |rewrites| ensures ParseRewrite(rewrites[i]).Some? {
      PrefixAt(o, topics, i);
    }
  }

  /** One turn of the loop, after the topics `done`; the first of them may lend its partition method. */
  method ParseTopic(o: Options, done: seq<Topic>) returns (r: Result<Topic, SettingsError>)
    requires CountsFit(o) && |done| < |Split(o.topics, ',')| && Prefix(o, done)
    ensures r.Success? ==> Prefix(o, done + [r.value])
    ensures r.Failure? ==> !EntriesParse(o)
  {
    AllEntriesParse(o, |done|);
    var m := ReadMethod(o, done);
    if m.None? {
      return Failure(UnknownScheme);
    }
    r := FillTopic(o, |done|, m.value);
    if r.Success? {
      PrefixSnoc(o, done, r.value);
    }
  }

  /** The entries other than the partition method. */
  method FillTopic(o: Options, i: nat, m: Method) returns (r: Result<Topic, SettingsError>)
    requires CountsFit(o) && i < |Split(o.topics, ',')|
    requires var schemes := Split(o.schemes, ','); MethodFromString(TrimSpace(schemes[Shared(|schemes|, i)])) == Some(m)
    ensures r.Success? ==> Configured(o, i, r.value)
    ensures r.Success? <==> EntriesParseAt(o, i)
  {
    var rewrite := if o.rewrites == "" then Some(NO_REWRITE) else ParseRewrite(OptionalList(o.rewrites)[i]);
    if rewrite.None? {
      return Failure(BadRewrite);
    }
    var org := if |o.onlyOrgs| == 0 then 0 else if |o.onlyOrgs| == 1 then o.onlyOrgs[0] else o.onlyOrgs[i];
    var discard := if |OptionalList(o.prefixes)| > 0 then Fields(OptionalList(o.prefixes)[i], '|') else [];
    r := Success(Topic(TrimSpace(Split(o.topics, ',')[i]), m, 0, org, discard, rewrite.value));
  }

  method ReadMethod(o: Options, done: seq<Topic>) returns (m: Option<Method>)
    requires CountsFit(o) && |done| < |Split(o.topics, ',')| && Prefix(o, done)
    ensures var schemes := Split(o.schemes, ',');
            m == MethodFromString(TrimSpace(schemes[Shared(|schemes|, |done|)]))
    ensures m.None? ==> |done| < |Split(o.schemes, ',')|
  {
    var schemes := Split(o.schemes, ',');
    if |schemes| == 1 && |done| > 0 {
      PrefixAt(o, done, 0);
      m := Some(done[0].method_);
    } else {
      m := MethodFromString(TrimSpace(schemes[|done|]));
    }
  }

  /** Whatever is accepted, no discard prefix is empty or contains the separator. */
  lemma {:induction false} PrefixesClean(o: Options, i: nat, t: Topic, p: string)
    requires CountsFit(o) && i < |Split(o.topics, ',')| && Configured(o, i, t) && p in t.discardPrefixes
    ensures p != "" && '|' !in p
  {
  }

  // ---- Printing settings and reading them back -------------------------------------------

  /** An entry `source:target` for any two unsigned 64-bit numbers, which are then taken as signed. */
  lemma {:induction false} RewriteRoundTrip(a: nat, b: nat)
    requires a < 0x1_0000_0000_0000_0000 && b < 0x1_0000_0000_0000_0000
    ensures ParseRewrite(PrintNat(a) + ":" + PrintNat(b)) ==
            Some(Rewrite(if a < 0x8000_0000_0000_0000 then a else a - 0x1_0000_0000_0000_0000,
                         if b < 0x8000_0000_0000_0000 then b else b - 0x1_0000_0000_0000_0000))
  {
    var parts := [PrintNat(a), PrintNat(b)];
    var s := PrintNat(a) + ":" + PrintNat(b);
    assert Join(parts, ":") == s by {
      assert parts[1..] == [PrintNat(b)];
    }
    SplitJoin(parts, ':');
    ParseUintPrint(a);
    ParseUintPrint(b);
  }

  /** A rewrite entry needs exactly two numbers of 64 bits around one colon. */
  lemma {:induction false} RewriteEntryIff(p: string, q: string)
    requires ':' !in p
    ensures ParseRewrite(p + ":" + q).Some? <==> ':' !in q && ParseUint(p).Some? && ParseUint(q).Some?
  {
    var s := p + ":" + q;
    assert s[..|p|] == p && s[|p| + 1..] == q;
    SplitAt(s, ':', |p|);
    if ':' !in q {
      SplitNone(q, ':');
    } else {
      SplitColon(q);
    }
  }

  lemma {:induction false} SplitColon(q: string)
    requires ':' in q
    ensures |Split(q, ':')| >= 2
  {
    assert q[..|q|] == q;
  }

  function MethodName(m: Method): string {
    match m
    case ByOrg => "byOrg"
    case BySeries => "bySeries"
    case BySeriesWithTags => "bySeriesWithTags"
    case BySeriesWithTagsFnv => "bySeriesWithTagsFnv"
  }

  lemma {:induction false} MethodNames(m: Method)
    ensures MethodFromString(TrimSpace(MethodName(m))) == Some(m)
    ensures ',' !in MethodName(m)
  {
    AsciiSpace('b');
    AsciiSpace(MethodName(m)[|MethodName(m)| - 1]);
    TrimNothing(MethodName(m));
  }

  function RewriteText(r: Rewrite): string
    requires r.source >= 0 && r.target >= 0
  {
    PrintNat(r.source) + ":" + PrintNat(r.target)
  }

  /** Settings that can be written as options: no entry contains a separator, and numbers fit. */
  predicate Writable(t: Topic) {
    && ',' !in t.name && TrimSpace(t.name) == t.name
    && MIN_INT64 <= t.onlyOrg <= MAX_INT64 && t.numPartitions == 0
    && (forall p :: p in t.discardPrefixes ==> p != "" && ',' !in p && '|' !in p)
    && 0 <= t.rewrite.source <= MAX_INT64 && 0 <= t.rewrite.target <= MAX_INT64
  }

  predicate AllWritable(ts: seq<Topic>) {
    ts != [] && forall i :: 0 <= i < |ts| ==> Writable(ts[i])
  }

  function Schemes(ts: seq<Topic>): seq<string> {
    seq(|ts|, i requires 0 <= i < |ts| => MethodName(ts[i].method_))
  }

  function Names(ts: seq<Topic>): seq<string> {
    seq(|ts|, i requires 0 <= i < |ts| => ts[i].name)
  }

  function PrefixLists(ts: seq<Topic>): seq<string> {
    seq(|ts|, i requires 0 <= i < |ts| => Join(ts[i].discardPrefixes, "|"))
  }

  function RewriteTexts(ts: seq<Topic>): seq<string>
    requires AllWritable(ts)
  {
    seq(|ts|, i requires 0 <= i < |ts| => RewriteText(ts[i].rewrite))
  }

  /** The options that say what `ts` says, list by list. */
  function Written(ts: seq<Topic>): Options
    requires AllWritable(ts)
  {
    Options(Join(Schemes(ts), ","), Join(Names(ts), ","),
            seq(|ts|, i requires 0 <= i < |ts| => ts[i].onlyOrg),
            Join(PrefixLists(ts), ","), Join(RewriteTexts(ts), ","))
  }

  lemma {:induction false} JoinClean(parts: seq<string>, sep: string, c: char)
    requires c !in sep && forall p :: p in parts ==> c !in p
    ensures c !in Join(parts, sep)
  {
    if |parts| > 1 {
      assert parts[0] in parts && forall p :: p in parts[1..] ==> p in parts;
      JoinClean(parts[1..], sep, c);
    } else if |parts| == 1 {
      assert parts[0] in parts;
    }
  }

  /** Prefixes joined with bars are the fields between the bars. */
  lemma {:induction false} FieldsJoin(ps: seq<string>)
    requires forall p :: p in ps ==> p != "" && '|' !in p
    ensures Fields(Join(ps, "|"), '|') == ps
  {
    if ps == [] {
      SplitNone("", '|');
      assert [""][1..] == [];
    } else {
      SplitJoin(ps, '|');
      NonEmptyFixed(ps);
    }
  }

  lemma {:induction false} WrittenLists(ts: seq<Topic>)
    requires AllWritable(ts)
    ensures Split(Written(ts).schemes, ',') == Schemes(ts)
    ensures Split(Written(ts).topics, ',') == Names(ts)
    ensures Split(Written(ts).prefixes, ',') == PrefixLists(ts)
    ensures Split(Written(ts).rewrites, ',') == RewriteTexts(ts)
  {
    hide Split, Join, Find, TrimSpace, PrintNat;
    forall i | 0 <= i < |ts|
      ensures ',' !in Schemes(ts)[i] && ',' !in Names(ts)[i] && ',' !in PrefixLists(ts)[i] &&
              ',' !in RewriteTexts(ts)[i]
    {
      assert Writable(ts[i]);
      MethodNames(ts[i].method_);
      JoinClean(ts[i].discardPrefixes, "|", ',');
      NoComma(ts[i].rewrite);
    }
    SplitJoin(Schemes(ts), ',');
    SplitJoin(Names(ts), ',');
    SplitJoin(PrefixLists(ts), ',');
    SplitJoin(RewriteTexts(ts), ',');
  }

  lemma {:induction false} NoComma(r: Rewrite)
    requires r.source >= 0 && r.target >= 0
    ensures ',' !in RewriteText(r) && RewriteText(r) != ""
  {
  }

  /** What is configured from written options is what was written. */
  lemma {:induction false} WrittenConfigures(ts: seq<Topic>)
    requires AllWritable(ts)
    ensures CountsFit(Written(ts)) && EntriesParse(Written(ts)) && |Split(Written(ts).topics, ',')| == |ts|
    ensures forall i, t :: 0 <= i < |ts| && Configured(Written(ts), i, t) ==> t.(numPartitions := 0) == ts[i]
  {
    hide Split, Join, Find, TrimSpace, PrintNat, MethodFromString, ParseRewrite, Fields, MethodName;
    var o := Written(ts);
    WrittenLists(ts);
    SomeRewrites(ts);
    SomePrefixes(ts);
    forall i | 0 <= i < |ts|
      ensures MethodFromString(TrimSpace(Schemes(ts)[i])) == Some(ts[i].method_)
      ensures ParseRewrite(RewriteTexts(ts)[i]) == Some(ts[i].rewrite)
      ensures Fields(PrefixLists(ts)[i], '|') == ts[i].discardPrefixes
    {
      assert Writable(ts[i]);
      MethodNames(ts[i].method_);
      RewriteRoundTrip(ts[i].rewrite.source, ts[i].rewrite.target);
      FieldsJoin(ts[i].discardPrefixes);
    }
    forall i, t | 0 <= i < |ts| && Configured(o, i, t) ensures t.(numPartitions := 0) == ts[i] {
      assert Writable(ts[i]);
    }
  }

  /** The rewrite list is never empty, and the list of prefixes only is if there are none at all. */
  lemma {:induction false} SomeRewrites(ts: seq<Topic>)
    requires AllWritable(ts)
    ensures Written(ts).rewrites != ""
  {
    hide PrintNat;
    assert Writable(ts[0]);
    NoComma(ts[0].rewrite);
  }

  lemma {:induction false} SomePrefixes(ts: seq<Topic>)
    requires AllWritable(ts)
    ensures Written(ts).prefixes == "" ==> |ts| == 1 && ts[0].discardPrefixes == []
  {
    var ps := PrefixLists(ts);
    if |ts| == 1 && ts[0].discardPrefixes != [] {
      assert Writable(ts[0]);
      assert ts[0].discardPrefixes[0] in ts[0].discardPrefixes;
      assert Join(ps, ",") == ps[0] == Join(ts[0].discardPrefixes, "|") != "";
    }
  }

  /** Settings written as options and parsed come back as they were. */
  method Reread(ts: seq<Topic>) returns (r: Result<seq<Topic>, SettingsError>)
    requires AllWritable(ts)
    ensures r.Success? && |r.value| == |ts|
    ensures forall i :: 0 <= i < |ts| ==> r.value[i].(numPartitions := 0) == ts[i]
  {
    hide *;
    WrittenConfigures(ts);
    r := Parse(Written(ts));
  }

  /**
   A single scheme and a single organisation, or none, hold for all topics, however many there are; without
   further options nothing is discarded and nothing rewritten.
   */
  lemma {:induction false} SharedByAll(scheme: string, topics: string, orgs: seq<Int64>)
    requires ',' !in scheme && |orgs| <= 1
    ensures var o := Options(scheme, topics, orgs, "", "");
            && CountsFit(o) && (EntriesParse(o) <==> MethodFromString(TrimSpace(scheme)).Some?)
            && forall i, t :: 0 <= i < |Split(topics, ',')| && Configured(o, i, t) ==>
                 && Some(t.method_) == MethodFromString(TrimSpace(scheme))
                 && t.onlyOrg == (if |orgs| == 1 then orgs[0] else 0)
                 && t.discardPrefixes == [] && t.rewrite.source == 0 && t.rewrite.target == 0
  {
    hide TrimSpace, MethodFromString, ParseRewrite, Fields;
    SplitNone(scheme, ',');
    assert scheme in Split(scheme, ',');
  }
}
