/** The three counters of published messages: what they are raised by, and when that is the number of messages. */
module PublishCounters {
  import opened TopicSettings
  import opened PublishSpec

  datatype Kind = MetricData | MetricPoint | MetricPointNoOrg

  function KindOf(wire: Wire): Kind {
    match wire
    case Full(_) => MetricData
    case Point(_, _, _) => MetricPoint
    case PointNoOrg(_, _, _) => MetricPointNoOrg
  }

  /** Messages of one kind for topic name `name`. */
  function KindCount(ms: seq<Message>, name: string, kind: Kind): nat {
    if ms == [] then 0 else
    var m := ms[|ms| - 1];
    KindCount(ms[..|ms| - 1], name, kind) + if m.topic == name && KindOf(m.wire) == kind then 1 else 0
  }

  /** What the counter of a kind is raised by: the count of each topic's name, topic by topic. */
  function KindReported(topics: seq<Topic>, ms: seq<Message>, kind: Kind): nat {
    if topics == [] then 0 else
    KindReported(topics[..|topics| - 1], ms, kind) + KindCount(ms, topics[|topics| - 1].name, kind)
  }

  /** What the three counters are raised by in total. */
  function Reported(topics: seq<Topic>, ms: seq<Message>): nat {
    KindReported(topics, ms, MetricData) + KindReported(topics, ms, MetricPoint) + KindReported(topics, ms,
        MetricPointNoOrg)
  }

  function Occurrences(topics: seq<Topic>, name: string): nat {
    if topics == [] then 0
    else Occurrences(topics[..|topics| - 1], name) + if topics[|topics| - 1].name == name then 1 else 0
  }

  lemma {:induction false} KindReportedSnoc(topics: seq<Topic>, ms: seq<Message>, m: Message, kind: Kind)
    ensures KindReported(topics, ms + [m], kind) ==
            KindReported(topics, ms, kind) + if KindOf(m.wire) == kind then Occurrences(topics, m.topic) else 0
  {
    if topics != [] {
      KindReportedSnoc(topics[..|topics| - 1], ms, m, kind);
      assert (ms + [m])[..|ms|] == ms;
    }
  }

  lemma {:induction false} ReportedSnoc(topics: seq<Topic>, ms: seq<Message>, m: Message)
    ensures Reported(topics, ms + [m]) == Reported(topics, ms) + Occurrences(topics, m.topic)
  {
    KindReportedSnoc(topics, ms, m, MetricData);
    KindReportedSnoc(topics, ms, m, MetricPoint);
    KindReportedSnoc(topics, ms, m, MetricPointNoOrg);
  }

  lemma {:induction false} ReportedNothing(topics: seq<Topic>)
    ensures forall kind :: KindReported(topics, [], kind) == 0
  {
    if topics != [] {
      ReportedNothing(topics[..|topics| - 1]);
    }
  }

  lemma {:induction false} OccursSome(topics: seq<Topic>, j: nat)
    requires j < |topics|
    ensures Occurrences(topics, topics[j].name) >= 1
  {
    if j < |topics| - 1 {
      OccursSome(topics[..|topics| - 1], j);
    }
  }

  /**
   The counters add up to the number of messages exactly when every message's topic name is
   configured once; a name configured twice is counted twice.
   */
  lemma {:induction false} CountersAddUp(topics: seq<Topic>, ms: seq<Message>)
    requires forall m :: m in ms ==> exists j :: 0 <= j < |topics| && topics[j].name == m.topic
    ensures Reported(topics, ms) >= |ms|
    ensures Reported(topics, ms) == |ms| <==> forall m :: m in ms ==> Occurrences(topics, m.topic) == 1
  {
    if ms == [] {
      ReportedNothing(topics);
    } else {
      var init, last := ms[..|ms| - 1], ms[|ms| - 1];
      assert ms == init + [last];
      assert forall m :: m in init ==> m in ms;
      CountersAddUp(topics, init);
      ReportedSnoc(topics, init, last);
      assert last in ms;
      var j :| 0 <= j < |topics| && topics[j].name == last.topic;
      OccursSome(topics, j);
      assert forall m :: m in ms <==> m in init || m == last;
    }
  }

  lemma {:induction false} OccursOnce(topics: seq<Topic>, j: nat)
    requires j < |topics|
    requires forall i, k :: 0 <= i < k < |topics| ==> topics[i].name != topics[k].name
    ensures Occurrences(topics, topics[j].name) == 1
  {
    var init := topics[..|topics| - 1];
    if j < |topics| - 1 {
      OccursOnce(init, j);
    } else {
      OccursNever(init, topics[j].name);
    }
  }

  lemma {:induction false} OccursNever(topics: seq<Topic>, name: string)
    requires forall i :: 0 <= i < |topics| ==> topics[i].name != name
    ensures Occurrences(topics, name) == 0
  {
    if topics != [] {
      OccursNever(topics[..|topics| - 1], name);
    }
  }

  // ---- Kind by kind ----------------------------------------------------------------------

  function Fulls(ms: seq<Message>): nat {
    if ms == [] then 0 else Fulls(ms[..|ms| - 1]) + if ms[|ms| - 1].wire.Full? then 1 else 0
  }

  function Points(ms: seq<Message>): nat {
    if ms == [] then 0 else Points(ms[..|ms| - 1]) + if ms[|ms| - 1].wire.Point? then 1 else 0
  }

  function PointsNoOrg(ms: seq<Message>): nat {
    if ms == [] then 0 else PointsNoOrg(ms[..|ms| - 1]) + if ms[|ms| - 1].wire.PointNoOrg? then 1 else 0
  }

  /** Each counter counts the messages of its own kind, if their topics' names are configured once. */
  lemma {:induction false} KindsReported(topics: seq<Topic>, ms: seq<Message>)
    requires forall m :: m in ms ==> Occurrences(topics, m.topic) == 1
    ensures KindReported(topics, ms, MetricData) == Fulls(ms)
    ensures KindReported(topics, ms, MetricPoint) == Points(ms)
    ensures KindReported(topics, ms, MetricPointNoOrg) == PointsNoOrg(ms)
  {
    if ms == [] {
      ReportedNothing(topics);
    } else {
      var init, last := ms[..|ms| - 1], ms[|ms| - 1];
      assert ms == init + [last] && last in ms && forall m :: m in init ==> m in ms;
      KindsReported(topics, init);
      KindReportedSnoc(topics, init, last, MetricData);
      KindReportedSnoc(topics, init, last, MetricPoint);
      KindReportedSnoc(topics, init, last, MetricPointNoOrg);
    }
  }
}
