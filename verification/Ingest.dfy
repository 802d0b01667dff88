/** Preparing a batch received over HTTP, with metrics changed in place and counters kept. */
module Ingest {
  import opened Text
  import opened Schema
  import opened Validation
  import opened IngestSpec
  import P = Publisher

  datatype ValidationError = ValidationError(count: nat, examples: seq<nat>)

  class MetricsResponse {
    var Invalid: nat
    var Published: nat
    var ValidationErrors: map<Fault, ValidationError>

    constructor ()
      ensures Reports([]) && Published == 0
    {
      Invalid, Published, ValidationErrors := 0, 0, map[];
    }

    /** The response tells of exactly the refused metrics in `log`. */
    ghost predicate Reports(log: seq<Entry>)
      reads this
    {
      Invalid == |log| && Summarises(ValidationErrors, log)
    }

    method AddInvalid(err: Fault, index: nat, ghost log: seq<Entry>, ghost org: int)
      requires Reports(log)
      modifies this`Invalid, this`ValidationErrors
      ensures Reports(log + [Entry(index, org, err)])
    {
      Invalid := Invalid + 1;
      var vErr := if err in ValidationErrors then ValidationErrors[err] else ValidationError(0, []);
      vErr := vErr.(count := vErr.count + 1);
      if vErr.count < 10 {
        vErr := vErr.(examples := vErr.examples + [index]);
      }
      SummaryNext(ValidationErrors, log, Entry(index, org, err), vErr);
      ValidationErrors := ValidationErrors[err := vErr];
    }
  }

  ghost predicate Summarises(errs: map<Fault, ValidationError>, log: seq<Entry>) {
    forall f :: var at := IndicesOf(log, f);
      if at == [] then f !in errs else f in errs && errs[f] == ValidationError(|at|, Examples(at))
  }

  lemma {:induction false} SummaryNext(errs: map<Fault, ValidationError>, log: seq<Entry>, e: Entry, v: ValidationError)
    requires Summarises(errs, log)
    requires var was := if e.fault in errs then errs[e.fault] else ValidationError(0, []);
             v == ValidationError(was.count + 1, if was.count + 1 < 10 then was.examples + [e.index] else was.examples)
    ensures Summarises(errs[e.fault := v], log + [e])
  {
    assert (log + [e])[..|log|] == log;
    var at := IndicesOf(log, e.fault);
    assert IndicesOf(log + [e], e.fault) == at + [e.index];
    assert |at| >= 9 ==> (at + [e.index])[..9] == at[..9];
  }

  // ---- Discards --------------------------------------------------------------------------

  class DiscardsByOrg {
    var data: map<int, map<Fault, nat>>

    constructor ()
      ensures Counts([])
    {
      data := map[];
    }

    ghost predicate Counts(log: seq<Entry>)
      reads this
    {
      Tallies(data, log)
    }

    method Add(org: int, reason: Fault, ghost log: seq<Entry>, ghost index: nat)
      requires Counts(log)
      modifies this`data
      ensures Counts(log + [Entry(index, org, reason)])
    {
      hide Tallies;
      var dbr := if org in data then data[org] else map[];
      dbr := dbr[reason := (if reason in dbr then dbr[reason] else 0) + 1];
      TallyNext(data, log, Entry(index, org, reason));
      data := data[org := dbr];
    }
  }

  function Tally(data: map<int, map<Fault, nat>>, org: int, f: Fault): nat {
    if org in data && f in data[org] then data[org][f] else 0
  }

  /** Each count is that of the log, and no organisation is there without a refused metric. */
  ghost predicate Tallies(data: map<int, map<Fault, nat>>, log: seq<Entry>) {
    && (forall org, f :: Tally(data, org, f) == CountFor(log, org, f))
    && (forall org :: org in data <==> exists i :: 0 <= i < |log| && log[i].org == org)
  }

  lemma {:induction false} TallyNext(data: map<int, map<Fault, nat>>, log: seq<Entry>, e: Entry)
    requires Tallies(data, log)
    ensures var dbr := if e.org in data then data[e.org] else map[];
            Tallies(data[e.org := dbr[e.fault := Tally(data, e.org, e.fault) + 1]], log + [e])
  {
    var dbr := if e.org in data then data[e.org] else map[];
    var next := data[e.org := dbr[e.fault := Tally(data, e.org, e.fault) + 1]];
    var log' := log + [e];
    assert log'[..|log|] == log && log'[|log|] == e;
    forall org, f
      ensures Tally(next, org, f) == CountFor(log', org, f)
    {
      assert Tally(data, org, f) == CountFor(log, org, f);
    }
    forall org
      ensures org in next <==> exists i :: 0 <= i < |log'| && log'[i].org == org
    {
      assert forall i :: 0 <= i < |log| ==> log'[i] == log[i];
    }
  }

  // ---- Preparing -------------------------------------------------------------------------

  /** Validating cleans the name in place, unless an earlier check failed. */
  method Validate(m: P.MetricData) returns (fault: Option<Fault>)
    modifies m`Name
    ensures fault == FaultOf(old(m.Record()))
    ensures m.Record() == Cleaned(old(m.Record()))
  {
    hide EatDots, ValidTags;
    if m.OrgId == 0 {
      return Some(OrgIdZero);
    }
    if m.Interval == 0 {
      return Some(IntervalZero);
    }
    m.Name := EatDotsInPlace(m.Name);
    if m.Name == "" {
      return Some(EmptyName);
    }
    if m.Mtype == "" || (m.Mtype != "gauge" && m.Mtype != "rate" && m.Mtype != "count" && m.Mtype != "counter"
                         && m.Mtype != "timestamp") {
      return Some(InvalidMtype);
    }
    var tagsOk := ValidateTags(m.Tags);
    if !tagsOk {
      return Some(InvalidTagFormat);
    }
    return None;
  }

  method PrepareOne(ctx: Context, w: World, m: P.MetricData) returns (fault: Option<Fault>)
    modifies m
    ensures fault == Verdict(ctx, old(m.Record()))
    ensures m.Record() == Prepared(ctx, w, old(m.Record()))
    ensures m.OrgId == Addressed(ctx, old(m.Record())).org
  {
    hide FaultOf, EatDots;
    if !ctx.isAdmin {
      m.OrgId := ctx.id;
    }
    if m.Mtype == "" {
      m.Mtype := "gauge";
    }
    fault := Validate(m);
    if fault.Some? {
      return;
    }
    if !ctx.isAdmin {
      m.SetId(w);
    }
  }

  /** The objects listed so far are prepared, the others as they came. */
  ghost predicate DoneUpTo(ctx: Context, w: World, input: seq<P.MetricData>, recs: seq<Metric>, i: nat)
    requires |recs| == |input| && i <= |input|
    reads input
  {
    forall j :: 0 <= j < |input| ==>
      input[j].Record() == if input[j] in input[..i] then Prepared(ctx, w, recs[j]) else recs[j]
  }

  lemma {:induction false} NothingDone(ctx: Context, w: World, input: seq<P.MetricData>, recs: seq<Metric>)
    requires |recs| == |input| && forall i :: 0 <= i < |input| ==> input[i].Record() == recs[i]
    ensures DoneUpTo(ctx, w, input, recs, 0)
  {
  }

  lemma {:induction false} AllDone(ctx: Context, w: World, input: seq<P.MetricData>, recs: seq<Metric>)
    requires |recs| == |input| && DoneUpTo(ctx, w, input, recs, |input|)
    ensures forall i :: 0 <= i < |input| ==> input[i].Record() == Prepared(ctx, w, recs[i])
  {
    hide Prepared, P.MetricData.Record;
    assert input[..|input|] == input;
  }

  /** The turn of metric number `i`, which may have had one before. */
  method PrepareNext(ctx: Context, w: World, input: seq<P.MetricData>, i: nat,
                     ghost recs: seq<Metric>) returns (fault: Option<Fault>)
    requires |recs| == |input| && i < |input| && DoneUpTo(ctx, w, input, recs, i)
    modifies input[i]
    ensures DoneUpTo(ctx, w, input, recs, i + 1)
    ensures fault == Verdict(ctx, recs[i]) && input[i].OrgId == Addressed(ctx, recs[i]).org
  {
    hide Prepared, Verdict, Addressed, P.MetricData.Record;
    PreparedAgain(ctx, w, recs[i]);
    assert input[..i + 1] == input[..i] + [input[i]];
    fault := PrepareOne(ctx, w, input[i]);
  }

  method PrepareAll(ctx: Context, w: World, input: seq<P.MetricData>, start: seq<P.MetricData>, ghost recs: seq<Metric>)
    returns (toPublish: seq<P.MetricData>, resp: MetricsResponse, discards: DiscardsByOrg)
    requires |recs| == |input| && forall i :: 0 <= i < |input| ==> input[i].Record() == recs[i]
    modifies input
    ensures forall i :: 0 <= i < |input| ==> input[i].Record() == Prepared(ctx, w, recs[i])
    ensures |start| <= |toPublish| && toPublish[..|start|] == start
    ensures Picks(toPublish[|start|..], input, Passed(ctx, recs))
    ensures fresh(resp) && resp.Reports(Faults(ctx, recs)) && resp.Published == 0
    ensures fresh(discards) && discards.Counts(Faults(ctx, recs))
  {
    hide Prepared, Verdict, Passed, Faults, Summarises, Tallies, Addressed, Picks, P.MetricData.Record, DoneUpTo;
    NothingDone(ctx, w, input, recs);
    resp := new MetricsResponse();
    discards := new DiscardsByOrg();
    toPublish := start;
    BatchStart(ctx, recs);
    PicksNone(input, toPublish[|start|..], Passed(ctx, recs[..0]));
    for i := 0 to |input|
      invariant fresh(resp) && fresh(discards)
      invariant DoneUpTo(ctx, w, input, recs, i)
      invariant |start| <= |toPublish| && toPublish[..|start|] == start
      invariant Picks(toPublish[|start|..], input, Passed(ctx, recs[..i]))
      invariant resp.Reports(Faults(ctx, recs[..i])) && resp.Published == 0
      invariant discards.Counts(Faults(ctx, recs[..i]))
    {
      BatchNext(ctx, recs, i);
      var m := input[i];
      var fault := PrepareNext(ctx, w, input, i, recs);
      if fault.Some? {
        resp.AddInvalid(fault.value, i, Faults(ctx, recs[..i]), m.OrgId);
        discards.Add(m.OrgId, fault.value, Faults(ctx, recs[..i]), i);
      } else {
        PicksNext(toPublish[|start|..], input, Passed(ctx, recs[..i]), i);
        assert (toPublish + [m])[|start|..] == toPublish[|start|..] + [m];
        toPublish := toPublish + [m];
      }
    }
    assert recs[..|input|] == recs;
    AllDone(ctx, w, input, recs);
  }

  type Samples = map<(Fault, string), nat>

  function Sample(s: Samples, f: Fault, org: string): nat {
    if (f, org) in s then s[(f, org)] else 0
  }

  /** The discards of some organisations have been added to the samples, under their labels. */
  ghost predicate Added(was: Samples, now: Samples, data: map<int, map<Fault, nat>>, orgs: set<int>) {
    forall f, org :: Sample(now, f, PrintInt(org)) ==
           Sample(was, f, PrintInt(org)) + if org in orgs then Tally(data, org, f) else 0
  }

  class Counters {
    var metricsValid: nat
    var metricsRejected: nat
    var discarded: Samples

    method AddOrg(org: int, dbr: map<Fault, nat>)
      modifies this`discarded
      ensures forall f, tag :: Sample(discarded, f, tag) ==
                Sample(old(discarded), f, tag) + if tag == PrintInt(org) && f in dbr then dbr[f] else 0
    {
      var tag := PrintInt(org);
      var todo := dbr.Keys;
      while todo != {}
        invariant todo <= dbr.Keys
        invariant forall f, l :: Sample(discarded, f, l) ==
                    Sample(old(discarded), f, l) + if l == tag && f in dbr && f !in todo then dbr[f] else 0
        decreases |todo|
      {
        var f :| f in todo;
        discarded := discarded[(f, tag) := (if (f, tag) in discarded then discarded[(f, tag)] else 0) + dbr[f]];
        todo := todo - {f};
      }
    }

    method AddDiscards(d: DiscardsByOrg)
      modifies this`discarded
      ensures Added(old(discarded), discarded, d.data, d.data.Keys)
    {
      var todo := d.data.Keys;
      while todo != {}
        invariant todo <= d.data.Keys
        invariant Added(old(discarded), discarded, d.data, d.data.Keys - todo)
        decreases |todo|
      {
        NotEmpty(todo);
        var org :| org in todo;
        ghost var before := discarded;
        AddOrg(org, d.data[org]);
        AddedNext(old(discarded), before, discarded, d.data, d.data.Keys - todo, org);
        assert d.data.Keys - (todo - {org}) == d.data.Keys - todo + {org};
        todo := todo - {org};
      }
      assert d.data.Keys - todo == d.data.Keys;
    }

    /**
     The batch is split in two: the metrics that pass go, in order, behind those already to be
     published; the others are reported and counted. All are changed in place.
     */
    method PrepareIngest(ctx: Context, w: World, input: seq<P.MetricData>, start: seq<P.MetricData>,
                         ghost recs: seq<Metric>)
      returns (toPublish: seq<P.MetricData>, resp: MetricsResponse)
      requires |recs| == |input| && forall i :: 0 <= i < |input| ==> input[i].Record() == recs[i]
      modifies this, input
      ensures forall i :: 0 <= i < |input| ==> input[i].Record() == Prepared(ctx, w, recs[i])
      ensures |start| <= |toPublish| && toPublish[..|start|] == start
      ensures Picks(toPublish[|start|..], input, Passed(ctx, recs))
      ensures fresh(resp) && resp.Reports(Faults(ctx, recs)) && resp.Published == 0
      ensures |toPublish| - |start| + resp.Invalid == |input|
      ensures metricsRejected == old(metricsRejected) + resp.Invalid
      ensures metricsValid == old(metricsValid) + |toPublish|
      ensures forall f, org :: Sample(discarded, f, PrintInt(org)) ==
                Sample(old(discarded), f, PrintInt(org)) + CountFor(Faults(ctx, recs), org, f)
    {
      hide Prepared, Verdict, Sample, PrintInt, Passed, Faults, CountFor, Summarises, Tallies;
      var discards;
      toPublish, resp, discards := PrepareAll(ctx, w, input, start, recs);
      NothingLost(ctx, recs);
      Account(resp, discards, |toPublish|, Faults(ctx, recs));
    }

    method Account(resp: MetricsResponse, discards: DiscardsByOrg, published: nat, ghost log: seq<Entry>)
      requires discards.Counts(log)
      modifies this
      ensures metricsRejected == old(metricsRejected) + resp.Invalid
      ensures metricsValid == old(metricsValid) + published
      ensures forall f, org :: Sample(discarded, f, PrintInt(org)) ==
                Sample(old(discarded), f, PrintInt(org)) + CountFor(log, org, f)
    {
      hide Sample, PrintInt, CountFor, Tallies;
      metricsRejected := metricsRejected + resp.Invalid;
      metricsValid := metricsValid + published;
      AddDiscards(discards);
      AddedAll(old(discarded), discarded, discards.data, log);
    }
  }

  lemma {:induction false} PicksNone(from: seq<P.MetricData>, picked: seq<P.MetricData>, at: seq<nat>)
    requires picked == [] && at == []
    ensures Picks(picked, from, at)
  {
  }

  lemma {:induction false} PicksNext(picked: seq<P.MetricData>, from: seq<P.MetricData>, at: seq<nat>, i: nat)
    requires Picks(picked, from, at) && i < |from|
    ensures Picks(picked + [from[i]], from, at + [i])
  {
  }

  lemma {:induction false} NotEmpty(s: set<int>)
    ensures s == {} || exists x :: x in s
  {
    if forall x :: x !in s {
      assert s == {};
    }
  }

  lemma {:induction false} AddedAll(was: Samples, now: Samples, data: map<int, map<Fault, nat>>, log: seq<Entry>)
    requires Added(was, now, data, data.Keys) && Tallies(data, log)
    ensures forall f, org :: Sample(now, f, PrintInt(org)) == Sample(was, f, PrintInt(org)) + CountFor(log, org, f)
  {
    hide PrintInt, Sample, CountFor;
    forall f, org
      ensures Sample(now, f, PrintInt(org)) == Sample(was, f, PrintInt(org)) + CountFor(log, org, f)
    {
      assert Tally(data, org, f) == CountFor(log, org, f);
    }
  }

  lemma {:induction false} BatchStart(ctx: Context, ms: seq<Metric>)
    ensures Passed(ctx, ms[..0]) == [] && Faults(ctx, ms[..0]) == []
  {
  }

  lemma {:induction false} BatchNext(ctx: Context, ms: seq<Metric>, i: nat)
    requires i < |ms|
    ensures var ok, before, now := Verdict(ctx, ms[i]).None?, ms[..i], ms[..i + 1];
            && Passed(ctx, now) == (if ok then Passed(ctx, before) + [i] else Passed(ctx, before))
            && Faults(ctx, now) ==
               if ok then Faults(ctx, before)
               else Faults(ctx, before) + [Entry(i, Addressed(ctx, ms[i]).org, Verdict(ctx, ms[i]).value)]
  {
    hide Verdict, Addressed;
    assert ms[..i + 1][..i] == ms[..i];
  }

  lemma {:induction false} AddedNext(was: Samples, before: Samples, now: Samples, data: map<int, map<Fault, nat>>,
                                     orgs: set<int>, next: int)
    requires next in data && next !in orgs
    requires Added(was, before, data, orgs)
    requires forall f, tag :: Sample(now, f, tag) ==
               Sample(before, f, tag) + if tag == PrintInt(next) && f in data[next] then data[next][f] else 0
    ensures Added(was, now, data, orgs + {next})
  {
    hide PrintInt, Sample;
    forall f, org
      ensures Sample(now, f, PrintInt(org)) ==
              Sample(was, f, PrintInt(org)) + if org in orgs + {next} then Tally(data, org, f) else 0
    {
      PrintIntInjective(org, next);
      assert Sample(before, f, PrintInt(org)) ==
             Sample(was, f, PrintInt(org)) + if org in orgs then Tally(data, org, f) else 0;
    }
  }
}
