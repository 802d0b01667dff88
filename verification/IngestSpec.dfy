/** Preparing a batch for publishing, on values: what becomes of each metric, and what is reported. */
module IngestSpec {
  import opened Text
  import opened Schema
  import opened Validation

  datatype Context = Context(isAdmin: bool, id: int)

  // ---- One metric ------------------------------------------------------------------------

  /** Only administrators may send for other organisations; a missing type means a gauge. */
  function Addressed(ctx: Context, m: Metric): Metric {
    m.(org := if ctx.isAdmin then m.org else ctx.id, mtype := if m.mtype == "" then "gauge" else m.mtype)
  }

  function Verdict(ctx: Context, m: Metric): Option<Fault> {
    FaultOf(Addressed(ctx, m))
  }

  /** The metric as it is left behind, published or not. */
  function Prepared(ctx: Context, w: World, m: Metric): Metric {
    var c := Cleaned(Addressed(ctx, m));
    if ctx.isAdmin || Verdict(ctx, m).Some? then c else Canon(w, c)
  }

  lemma {:induction false} SortedTagsValid(tags: seq<string>)
    ensures ValidTags(Sort(tags)) <==> ValidTags(tags)
  {
    hide ValidTag, Sort;
    SortPermutes(tags);
    forall t: string
      ensures t in tags <==> t in Sort(tags)
    {
      assert t in tags <==> t in multiset(tags);
      assert t in Sort(tags) <==> t in multiset(Sort(tags));
    }
  }

  /** What is published would pass again unchanged, and belongs to the sender unless an administrator sent it. */
  lemma {:induction false} PublishedSound(ctx: Context, w: World, m: Metric)
    requires Verdict(ctx, m).None?
    ensures var r := Prepared(ctx, w, m);
            && FaultOf(r) == None && Cleaned(r) == r && Addressed(ctx, r) == r
            && (!ctx.isAdmin ==> r.org == ctx.id && Canonical(w, r))
            && (ctx.isAdmin ==> r.org == m.org && r.id == m.id && r.tags == m.tags)
            && Prepared(ctx, w, r) == r
  {
    hide EatDots, ValidTags, KnownMtype, Sort;
    var c := Cleaned(Addressed(ctx, m));
    ValidateAgain(Addressed(ctx, m));
    SortedTagsValid(c.tags);
    CanonFacts(w, c);
    assert KnownMtype(c.mtype) && c.mtype != "";
  }

  /** A metric that comes round again meets the same verdict and is not changed any more. */
  lemma {:induction false} PreparedAgain(ctx: Context, w: World, m: Metric)
    ensures var r := Prepared(ctx, w, m);
            && Verdict(ctx, r) == Verdict(ctx, m) && Prepared(ctx, w, r) == r
            && Addressed(ctx, r).org == Addressed(ctx, m).org
  {
    hide EatDots, ValidTags, KnownMtype, Sort;
    if Verdict(ctx, m).None? {
      PublishedSound(ctx, w, m);
    } else {
      ValidateAgain(Addressed(ctx, m));
    }
  }

  // ---- A batch ---------------------------------------------------------------------------

  /** A refused metric: its position in the batch, the organisation it counts for and the reason. */
  datatype Entry = Entry(index: nat, org: int, fault: Fault)

  function Faults(ctx: Context, ms: seq<Metric>): seq<Entry> {
    if ms == [] then [] else
      var m := ms[|ms| - 1];
      Faults(ctx, ms[..|ms| - 1]) +
      match Verdict(ctx, m) case None => [] case Some(f) => [Entry(|ms| - 1, Addressed(ctx, m).org, f)]
  }

  /** The positions of the metrics that pass. */
  function Passed(ctx: Context, ms: seq<Metric>): seq<nat> {
    if ms == [] then [] else
      Passed(ctx, ms[..|ms| - 1]) + if Verdict(ctx, ms[|ms| - 1]).None? then [|ms| - 1] else []
  }

  ghost predicate Increasing(s: seq<nat>) {
    forall i, j :: 0 <= i < j < |s| ==> s[i] < s[j]
  }

  /** Exactly the positions that pass, in increasing order. */
  lemma {:induction false} PassedMean(ctx: Context, ms: seq<Metric>)
    ensures Increasing(Passed(ctx, ms))
    ensures forall i: nat :: i in Passed(ctx, ms) <==> i < |ms| && Verdict(ctx, ms[i]).None?
  {
    hide Verdict;
    if ms != [] {
      var p := Passed(ctx, ms[..|ms| - 1]);
      PassedMean(ctx, ms[..|ms| - 1]);
      assert forall i :: 0 <= i < |p| ==> p[i] in p;
    }
  }

  /** Exactly the others, once each in increasing order, with their own reason and organisation. */
  lemma {:induction false} FaultsMean(ctx: Context, ms: seq<Metric>)
    ensures forall a, b :: 0 <= a < b < |Faults(ctx, ms)| ==> Faults(ctx, ms)[a].index < Faults(ctx, ms)[b].index
    ensures forall e :: e in Faults(ctx, ms) <==>
              e.index < |ms| && Verdict(ctx, ms[e.index]) == Some(e.fault) && e.org == Addressed(ctx, ms[e.index]).org
  {
    hide Verdict, Addressed;
    if ms != [] {
      FaultsMean(ctx, ms[..|ms| - 1]);
    }
  }

  /** Nothing is lost and nothing is both published and refused. */
  lemma {:induction false} NothingLost(ctx: Context, ms: seq<Metric>)
    ensures |Passed(ctx, ms)| + |Faults(ctx, ms)| == |ms|
  {
    hide Verdict, Addressed;
    if ms != [] {
      NothingLost(ctx, ms[..|ms| - 1]);
    }
  }

  /** The chosen elements, in the order of their positions. */
  ghost predicate Picks<T>(picked: seq<T>, from: seq<T>, at: seq<nat>) {
    |picked| == |at| && forall j :: 0 <= j < |at| ==> at[j] < |from| && picked[j] == from[at[j]]
  }

  // ---- Reports ---------------------------------------------------------------------------

  function IndicesOf(log: seq<Entry>, f: Fault): seq<nat> {
    if log == [] then [] else
      IndicesOf(log[..|log| - 1], f) + if log[|log| - 1].fault == f then [log[|log| - 1].index] else []
  }

  function CountFor(log: seq<Entry>, org: int, f: Fault): nat {
    if log == [] then 0 else
      CountFor(log[..|log| - 1], org, f) + if log[|log| - 1].fault == f && log[|log| - 1].org == org then 1 else 0
  }

  /** Examples are kept while the count is below ten, which is for the first nine. */
  function Examples(indices: seq<nat>): seq<nat> {
    if |indices| <= 9 then indices else indices[..9]
  }

  function EachFault(count: Fault -> nat): nat {
    count(OrgIdZero) + count(IntervalZero) + count(EmptyName) + count(InvalidMtype) + count(InvalidTagFormat)
  }

  lemma {:induction false} ErrorsAddUp(log: seq<Entry>)
    ensures EachFault(f => |IndicesOf(log, f)|) == |log|
  {
    if log != [] {
      ErrorsAddUp(log[..|log| - 1]);
    }
  }

  /** All discards of one organisation, and of all organisations in some order. */
  function OrgTotal(log: seq<Entry>, org: int): nat {
    EachFault(f => CountFor(log, org, f))
  }

  function Total(log: seq<Entry>, orgs: seq<int>): nat {
    if orgs == [] then 0 else Total(log, orgs[..|orgs| - 1]) + OrgTotal(log, orgs[|orgs| - 1])
  }

  predicate Distinct(orgs: seq<int>) {
    forall i, j :: 0 <= i < j < |orgs| ==> orgs[i] != orgs[j]
  }

  lemma {:induction false} OrgTotalNext(log: seq<Entry>, org: int)
    requires log != []
    ensures OrgTotal(log, org) == OrgTotal(log[..|log| - 1], org) + if log[|log| - 1].org == org then 1 else 0
  {
  }

  lemma {:induction false} TotalNext(log: seq<Entry>, orgs: seq<int>)
    requires log != [] && Distinct(orgs)
    ensures Total(log, orgs) == Total(log[..|log| - 1], orgs) + if log[|log| - 1].org in orgs then 1 else 0
  {
    hide OrgTotal;
    if orgs != [] {
      var init := orgs[..|orgs| - 1];
      TotalNext(log, init);
      OrgTotalNext(log, orgs[|orgs| - 1]);
      assert orgs == init + [orgs[|orgs| - 1]];
    }
  }

  lemma {:induction false} TotalNone(orgs: seq<int>)
    ensures Total([], orgs) == 0
  {
    if orgs != [] {
      TotalNone(orgs[..|orgs| - 1]);
    }
  }

  /** The discards counted by organisation and reason are the refused metrics, in whatever order they are visited. */
  lemma {:induction false} DiscardsAddUp(log: seq<Entry>, orgs: seq<int>)
    requires Distinct(orgs) && forall i :: 0 <= i < |log| ==> log[i].org in orgs
    ensures Total(log, orgs) == |log|
  {
    hide Total;
    if log == [] {
      TotalNone(orgs);
    } else {
      DiscardsAddUp(log[..|log| - 1], orgs);
      TotalNext(log, orgs);
    }
  }
}
