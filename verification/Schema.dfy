/**
 Metrics as the gateway handles them. What the gateway takes from its libraries is a
 parameter: the hash behind an id, the partition functions, the storage-schema lookup and
 the size of an encoded metric.
 */
module Schema {
  import opened Keys
  import opened Text

  datatype Method = ByOrg | BySeries | BySeriesWithTags | BySeriesWithTagsFnv

  /** The fields that an id is hashed from, with sorted tags. */
  datatype Ident = Ident(name: string, unit: string, mtype: string, interval: int, tags: seq<string>)

  /** An id is `org.hash` when it was set by `SetId`; a client may have sent anything. */
  datatype MetricId = Id(org: int, key: Key) | Garbage(text: string)

  datatype Metric = Metric(
    id: MetricId, org: int, name: string, interval: int, value: real,
    unit: string, time: int, mtype: string, tags: seq<string>)

  datatype World = World(
    hash: Ident -> Key,
    partition: (Method, int, string, seq<string>, int) -> Option<int>,
    secondsPerPoint: string -> int,
    size: Metric -> nat)

  // ---- Sorting tags ----------------------------------------------------------------------

  /** The order of strings by code point, which is the byte-wise order of their UTF-8 encodings. */
  predicate Leq(a: string, b: string) {
    a == "" || (b != "" && (a[0] < b[0] || (a[0] == b[0] && Leq(a[1..], b[1..]))))
  }

  predicate Sorted(s: seq<string>) {
    |s| <= 1 || (Leq(s[0], s[1]) && Sorted(s[1..]))
  }

  function Insert(x: string, s: seq<string>): seq<string> {
    if s == [] then [x] else if Leq(x, s[0]) then [x] + s else [s[0]] + Insert(x, s[1..])
  }

  function Sort(s: seq<string>): seq<string> {
    if s == [] then [] else Insert(s[0], Sort(s[1..]))
  }

  lemma {:induction false} LeqTotal(a: string, b: string)
    ensures Leq(a, b) || Leq(b, a)
  {
    if a != "" && b != "" {
      LeqTotal(a[1..], b[1..]);
    }
  }

  lemma {:induction false} LeqAntisymmetric(a: string, b: string)
    requires Leq(a, b) && Leq(b, a)
    ensures a == b
  {
    if a != "" && b != "" {
      LeqAntisymmetric(a[1..], b[1..]);
      assert a == [a[0]] + a[1..] && b == [b[0]] + b[1..];
    }
  }

  lemma {:induction false} LeqReflexive(a: string)
    ensures Leq(a, a)
  {
    if a != "" {
      LeqReflexive(a[1..]);
    }
  }

  lemma {:induction false} LeqTransitive(a: string, b: string, c: string)
    requires Leq(a, b) && Leq(b, c)
    ensures Leq(a, c)
  {
    if a != "" && a[0] == b[0] == c[0] {
      LeqTransitive(a[1..], b[1..], c[1..]);
    }
  }

  lemma {:induction false} InsertKeepsSorted(x: string, s: seq<string>)
    requires Sorted(s)
    ensures Sorted(Insert(x, s))
  {
    if s != [] && !Leq(x, s[0]) {
      LeqTotal(x, s[0]);
      InsertKeepsSorted(x, s[1..]);
      var r := [s[0]] + Insert(x, s[1..]);
      assert r[1..] == Insert(x, s[1..]);
    } else if s != [] {
      assert ([x] + s)[1..] == s;
    }
  }

  lemma {:induction false} SortSorts(s: seq<string>)
    ensures Sorted(Sort(s))
  {
    if s != [] {
      SortSorts(s[1..]);
      InsertKeepsSorted(s[0], Sort(s[1..]));
    }
  }

  lemma {:induction false} SortedFixed(s: seq<string>)
    requires Sorted(s)
    ensures Sort(s) == s
  {
    if s != [] {
      SortedFixed(s[1..]);
      assert s == [s[0]] + s[1..];
    }
  }

  lemma {:induction false} InsertPermutes(x: string, s: seq<string>)
    ensures multiset(Insert(x, s)) == multiset{x} + multiset(s)
  {
    if s != [] && !Leq(x, s[0]) {
      InsertPermutes(x, s[1..]);
      assert s == [s[0]] + s[1..];
    }
  }

  lemma {:induction false} SortPermutes(s: seq<string>)
    ensures multiset(Sort(s)) == multiset(s)
  {
    if s != [] {
      SortPermutes(s[1..]);
      InsertPermutes(s[0], Sort(s[1..]));
      assert s == [s[0]] + s[1..];
    }
  }

  lemma {:induction false} SortedHead(s: seq<string>, x: string)
    requires Sorted(s) && x in s
    ensures Leq(s[0], x)
  {
    if x == s[0] {
      LeqReflexive(x);
    } else {
      assert x in s[1..];
      SortedHead(s[1..], x);
      LeqTransitive(s[0], s[1], x);
    }
  }

  /** There is only one way to sort. */
  lemma {:induction false} SortedUnique(s: seq<string>, t: seq<string>)
    requires Sorted(s) && Sorted(t) && multiset(s) == multiset(t)
    ensures s == t
  {
    hide Sorted, Leq;
    if s == [] {
      assert |multiset(t)| == 0;
    } else {
      assert |multiset(t)| == |multiset(s)| > 0;
      SameHead(s, t);
      SameTails(s, t);
      SortedTail(s);
      SortedTail(t);
      SortedUnique(s[1..], t[1..]);
      assert s == [s[0]] + s[1..] && t == [t[0]] + t[1..];
    }
  }

  lemma {:induction false} SameHead(s: seq<string>, t: seq<string>)
    requires Sorted(s) && Sorted(t) && multiset(s) == multiset(t) && s != [] && t != []
    ensures s[0] == t[0]
  {
    hide Sorted, Leq;
    assert s[0] in multiset(s) && t[0] in multiset(t);
    SortedHead(s, t[0]);
    SortedHead(t, s[0]);
    LeqAntisymmetric(s[0], t[0]);
  }

  lemma {:induction false} SameTails(s: seq<string>, t: seq<string>)
    requires s != [] && t != [] && s[0] == t[0] && multiset(s) == multiset(t)
    ensures multiset(s[1..]) == multiset(t[1..])
  {
    assert s == [s[0]] + s[1..] && t == [t[0]] + t[1..];
    assert multiset(s[1..]) == multiset(s) - multiset{s[0]};
    assert multiset(t[1..]) == multiset(t) - multiset{t[0]};
  }

  lemma {:induction false} SortedTail(s: seq<string>)
    requires Sorted(s) && s != []
    ensures Sorted(s[1..])
  {
  }

  /** Two lists sort to the same exactly if they are permutations of each other. */
  lemma {:induction false} SortIff(s: seq<string>, t: seq<string>)
    ensures Sort(s) == Sort(t) <==> multiset(s) == multiset(t)
  {
    SortPermutes(s);
    SortPermutes(t);
    SortSorts(s);
    SortSorts(t);
    if multiset(s) == multiset(t) {
      SortedUnique(Sort(s), Sort(t));
    }
  }

  // ---- Ids -------------------------------------------------------------------------------

  function IdentOf(m: Metric): Ident {
    Ident(m.name, m.unit, m.mtype, m.interval, Sort(m.tags))
  }

  function SortTags(m: Metric): Metric {
    m.(tags := Sort(m.tags))
  }

  /** What `SetId` makes of a metric: the tags sorted in place and the id recomputed. */
  function Canon(w: World, m: Metric): Metric {
    m.(tags := Sort(m.tags), id := Id(m.org, w.hash(IdentOf(m))))
  }

  /** The id agrees with the fields, as `SetId` leaves it. */
  predicate Canonical(w: World, m: Metric) {
    Canon(w, m) == m
  }

  /** The metric as it would be for organisation `org`. */
  function Under(w: World, m: Metric, org: int): Metric {
    Canon(w, m.(org := org))
  }

  /** The binary key an id stands for, when it has one: the organisation must fit 32 bits. */
  function ParseKey(id: MetricId): Option<MKey> {
    if id.Id? && 0 <= id.org < 0x1_0000_0000 then Some(MKey(id.key, id.org)) else None
  }

  lemma {:induction false} CanonFacts(w: World, m: Metric)
    ensures Canonical(w, Canon(w, m))
    ensures IdentOf(Canon(w, m)) == IdentOf(m) == IdentOf(SortTags(m))
    ensures Canon(w, SortTags(m)) == Canon(w, m)
    ensures SortTags(Canon(w, m)) == Canon(w, m)
    ensures SortTags(SortTags(m)) == SortTags(m)
  {
    SortSorts(m.tags);
    SortedFixed(Sort(m.tags));
  }

  /**
   Without a collision ids tell metrics apart by organisation, name, unit, type and interval, and by
   the tags whatever their order; value and time do not matter.
   */
  lemma {:induction false} IdsSeparate(w: World, a: Metric, b: Metric)
    requires w.hash(IdentOf(a)) == w.hash(IdentOf(b)) ==> IdentOf(a) == IdentOf(b)
    ensures Canon(w, a).id == Canon(w, b).id <==>
            && a.org == b.org && a.name == b.name && a.unit == b.unit && a.mtype == b.mtype && a.interval == b.interval
            && multiset(a.tags) == multiset(b.tags)
  {
    hide Sort;
    SortIff(a.tags, b.tags);
  }

  /** Ids have a key exactly if their organisation fits 32 bits, and then different ids have different ones. */
  lemma {:induction false} KeysSeparate(a: MetricId, b: MetricId)
    ensures ParseKey(a).Some? <==> a.Id? && 0 <= a.org < 4_294_967_296
    ensures ParseKey(a).Some? && ParseKey(b).Some? ==> (ParseKey(a) == ParseKey(b) <==> a == b)
    ensures ParseKey(a).Some? ==> a == Id(ParseKey(a).value.org, ParseKey(a).value.key)
  {
  }

  /** Changing the organisation there and back, with the id recomputed each time. */
  lemma {:induction false} UnderBack(w: World, m: Metric, org: int)
    ensures Canon(w, Under(w, m, org).(org := m.org)) == Canon(w, m)
  {
    SortSorts(m.tags);
    SortedFixed(Sort(m.tags));
  }
}
