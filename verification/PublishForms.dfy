/**
 What the loops of `Publish` do to any metric, whether or not its id fits its fields. A topic that
 takes the metric sends one message. The buffer it sends was made by the first topic that saw the
 metric as the same organisation, from the form the metric had at that point; the partition is that
 of the metric under the topic's own organisation.
 */
module PublishForms {
  import opened Keys
  import opened Text
  import opened Schema
  import opened TopicSettings
  import opened PublishSpec

  // ---- What becomes of a metric ----------------------------------------------------------

  predicate Takes(t: Topic, v: Metric) {
    Accepts(t, v.name, v.org)
  }

  function AsSeenBy(w: World, v: Metric, t: Topic): Metric {
    Under(w, v, Effective(t, v.org))
  }

  predicate Rewrites(t: Topic, v: Metric) {
    Takes(t, v) && v.org == t.rewrite.source
  }

  /**
   The form that any metric is in after `n` topics: its id set anew if a topic rewrote it, else its
   tags sorted if a topic partitions by tags, else untouched.
   */
  function FormAfter(w: World, cfg: Config, v: Metric, n: nat): Metric
    requires n <= |cfg.topics|
  {
    if exists j :: 0 <= j < n && Rewrites(cfg.topics[j], v) then Canon(w, v)
    else if exists j :: 0 <= j < n && Takes(cfg.topics[j], v) && ByTags(cfg.topics[j].method_) then SortTags(v)
    else v
  }

  /** Only the id and the order of the tags can differ, and neither does for a canonical metric. */
  predicate SameButId(w: World, v: Metric, f: Metric) {
    && f == v.(id := f.id, tags := f.tags)
    && multiset(f.tags) == multiset(v.tags)
    && (Canonical(w, v) ==> f == v)
    && (Sorted(v.tags) ==> f.tags == v.tags)
    && (f.id != v.id ==> Canonical(w, f))
  }

  lemma {:induction false} FormFacts(w: World, cfg: Config, v: Metric, n: nat)
    requires n <= |cfg.topics|
    ensures SameButId(w, v, FormAfter(w, cfg, v, n))
  {
    SortPermutes(v.tags);
    CanonFacts(w, v);
    if Sorted(v.tags) {
      SortedFixed(v.tags);
    }
    assert SameButId(w, v, v) && SameButId(w, v, SortTags(v)) && SameButId(w, v, Canon(w, v));
  }

  lemma {:induction false} StepForm(w: World, t: Topic, v: Metric, f: Metric)
    requires f == v || f == SortTags(v) || f == Canon(w, v)
    requires Takes(t, v)
    ensures Restored(w, Partitioned(t, Rewritten(w, t, f)), v.org) ==
            if v.org == t.rewrite.source then Canon(w, v) else if ByTags(t.method_) then SortTags(f) else f
    ensures SortTags(f) == if f == Canon(w, v) then f else SortTags(v)
  {
    CanonFacts(w, v);
    CanonFacts(w, v.(org := t.rewrite.target));
    UnderBack(w, v, t.rewrite.target);
    UnderBack(w, f, t.rewrite.target);
    CanonFacts(w, f.(org := t.rewrite.target));
  }

  lemma {:induction false} FormStep(w: World, cfg: Config, v: Metric, n: nat)
    requires 0 < n <= |cfg.topics|
    ensures var t, f := cfg.topics[n - 1], FormAfter(w, cfg, v, n - 1);
            FormAfter(w, cfg, v, n) ==
              if !Takes(t, v) then f else Restored(w, Partitioned(t, Rewritten(w, t, f)), v.org)
  {
    var t, f := cfg.topics[n - 1], FormAfter(w, cfg, v, n - 1);
    if Takes(t, v) {
      StepForm(w, t, v, f);
    }
    CanonFacts(w, v);
  }

  // ---- Buffers, keys and messages --------------------------------------------------------

  /** The organisations that the first `n` topics see `v` as. */
  function Orgs(cfg: Config, v: Metric, n: nat): set<int>
    requires n <= |cfg.topics|
  {
    if n == 0 then {} else
    Orgs(cfg, v, n - 1) + if Takes(cfg.topics[n - 1], v) then {Effective(cfg.topics[n - 1], v.org)} else {}
  }

  lemma {:induction false} OrgsMember(cfg: Config, v: Metric, n: nat, e: int)
    requires n <= |cfg.topics|
    ensures e in Orgs(cfg, v, n) <==>
            exists j :: 0 <= j < n && Takes(cfg.topics[j], v) && Effective(cfg.topics[j], v.org) == e
  {
    if n > 0 {
      OrgsMember(cfg, v, n - 1, e);
    }
  }

  /** Topic number `j` makes a buffer: it is the first to see `v` as the organisation it sees. */
  predicate Makes(cfg: Config, v: Metric, j: nat)
    requires j < |cfg.topics|
  {
    Takes(cfg.topics[j], v) && Effective(cfg.topics[j], v.org) !in Orgs(cfg, v, j)
  }

  /** The topic that makes the buffer for organisation `e`. */
  function Maker(cfg: Config, v: Metric, e: int, n: nat): (i: nat)
    requires n <= |cfg.topics| && e in Orgs(cfg, v, n)
    ensures i < n && Makes(cfg, v, i) && Effective(cfg.topics[i], v.org) == e
  {
    if e in Orgs(cfg, v, n - 1) then Maker(cfg, v, e, n - 1) else n - 1
  }

  /** The topic whose buffer topic number `j` sends. */
  function MakerIn(cfg: Config, v: Metric, j: nat): (i: nat)
    requires j < |cfg.topics| && Takes(cfg.topics[j], v)
    ensures Effective(cfg.topics[j], v.org) in Orgs(cfg, v, j + 1)
    ensures i == Maker(cfg, v, Effective(cfg.topics[j], v.org), j + 1)
    ensures i <= j && Makes(cfg, v, i) && Effective(cfg.topics[i], v.org) == Effective(cfg.topics[j], v.org)
  {
    Maker(cfg, v, Effective(cfg.topics[j], v.org), j + 1)
  }

  /** The metric as topic number `j` encodes it, if it is the one to do so. */
  function MadeAt(w: World, cfg: Config, v: Metric, j: nat): Metric
    requires j < |cfg.topics|
  {
    Rewritten(w, cfg.topics[j], FormAfter(w, cfg, v, j))
  }

  function KeyAt(w: World, cfg: Config, v: Metric, j: nat): Option<MKey>
    requires j < |cfg.topics|
  {
    ParseKey(MadeAt(w, cfg, v, j).id)
  }

  /** The keys touched on the way through the first `n` topics: one for each buffer made. */
  function Touches(w: World, cfg: Config, v: Metric, n: nat): seq<MKey>
    requires n <= |cfg.topics|
  {
    if n == 0 || !cfg.v2 then [] else
    Touches(w, cfg, v, n - 1) +
    if Makes(cfg, v, n - 1) && KeyAt(w, cfg, v, n - 1).Some? then [KeyAt(w, cfg, v, n - 1).value] else []
  }

  function AsSet(ks: seq<MKey>): set<MKey> {
    set k | k in ks
  }

  /** The buffer that topic number `j` makes, if `keys` were seen before `v`. */
  function WireAt(w: World, cfg: Config, keys: set<MKey>, v: Metric, j: nat): Wire
    requires j < |cfg.topics|
  {
    var m, k := MadeAt(w, cfg, v, j), KeyAt(w, cfg, v, j);
    if cfg.v2 && k.Some? && (k.value in keys || k.value in Touches(w, cfg, v, j)) then PointOf(cfg, k.value, m)
       else Full(m)
  }

  /** Topic number `j` causes no error: its buffer has a key, if it makes one, and there is a partition. */
  predicate PassesAt(w: World, cfg: Config, v: Metric, j: nat)
    requires j < |cfg.topics|
  {
    Takes(cfg.topics[j], v) ==>
      && (cfg.v2 && Makes(cfg, v, j) ==> KeyAt(w, cfg, v, j).Some?)
      && PartitionOf(w, cfg.topics[j], AsSeenBy(w, v, cfg.topics[j])).Some?
  }

  predicate Passes(w: World, cfg: Config, v: Metric, n: nat)
    requires n <= |cfg.topics|
  {
    forall j :: 0 <= j < n ==> PassesAt(w, cfg, v, j)
  }

  function PartitionAt(w: World, v: Metric, t: Topic): int {
    match PartitionOf(w, t, AsSeenBy(w, v, t)) case Some(p) => p case None => 0
  }

  function MessageAt(w: World, cfg: Config, keys: set<MKey>, v: Metric, j: nat): Message
    requires j < |cfg.topics| && Takes(cfg.topics[j], v)
  {
    var t := cfg.topics[j];
    Message(t.name, PartitionAt(w, v, t), WireAt(w, cfg, keys, v, Maker(cfg, v, Effective(t, v.org), j + 1)))
  }

  /** One message for each of the first `n` topics that takes the metric. */
  function Messages(w: World, cfg: Config, keys: set<MKey>, v: Metric, n: nat): seq<Message>
    requires n <= |cfg.topics|
  {
    if n == 0 then [] else
    Messages(w, cfg, keys, v, n - 1) +
    if Takes(cfg.topics[n - 1], v) then [MessageAt(w, cfg, keys, v, n - 1)] else []
  }

  /** The topics that take the metric, in order. */
  function Taking(cfg: Config, v: Metric, n: nat): seq<nat>
    requires n <= |cfg.topics|
  {
    if n == 0 then [] else Taking(cfg, v, n - 1) + if Takes(cfg.topics[n - 1], v) then [n - 1] else []
  }

  lemma {:induction false} MessagesAre(w: World, cfg: Config, keys: set<MKey>, v: Metric, n: nat)
    requires n <= |cfg.topics|
    ensures var ms, at := Messages(w, cfg, keys, v, n), Taking(cfg, v, n);
            && |ms| == |at|
            && (forall k :: 0 <= k < |at| ==>
               at[k] < n && Takes(cfg.topics[at[k]], v) && ms[k] == MessageAt(w, cfg, keys, v, at[k]))
            && (forall k, l :: 0 <= k < l < |at| ==> at[k] < at[l])
    ensures forall j: nat :: j in Taking(cfg, v, n) <==> j < n && Takes(cfg.topics[j], v)
  {
    hide Accepts, MessageAt;
    if n > 0 {
      MessagesAre(w, cfg, keys, v, n - 1);
    }
  }

  // ---- One metric ------------------------------------------------------------------------

  /** The state of the topic loop after `n` topics. */
  ghost predicate Reaches(w: World, cfg: Config, v: Metric, start: Prep, n: nat, p: Prep)
    requires n <= |cfg.topics|
  {
    && p.cur == FormAfter(w, cfg, v, n)
    && p.payload == start.payload + Messages(w, cfg, start.keys, v, n)
    && Buffers(w, cfg, v, start.keys, n, p.memo)
    && Touched(w, cfg, v, start.keys, n, p.keys, p.touches)
  }

  ghost predicate Buffers(w: World, cfg: Config, v: Metric, keys: set<MKey>, n: nat, memo: map<int, Wire>)
    requires n <= |cfg.topics|
  {
    memo.Keys == Orgs(cfg, v, n) && forall e :: e in memo ==> memo[e] == WireAt(w, cfg, keys, v, Maker(cfg, v, e, n))
  }

  /** Exactly one touch for each organisation. */
  ghost predicate Touched(w: World, cfg: Config, v: Metric, before: set<MKey>, n: nat, keys: set<MKey>,
                          touches: seq<MKey>)
    requires n <= |cfg.topics|
  {
    && touches == Touches(w, cfg, v, n) && keys == before + AsSet(touches)
    && (cfg.v2 ==> |touches| == |Orgs(cfg, v, n)|)
  }

  /** The forms a metric takes differ in nothing that filters or partitions look at. */
  lemma {:induction false} FormPartition(w: World, cfg: Config, v: Metric, j: nat)
    requires j < |cfg.topics|
    ensures var f := FormAfter(w, cfg, v, j);
            && f.org == v.org && f.name == v.name
            && MadeAt(w, cfg, v, j).org == Effective(cfg.topics[j], v.org)
            && PartitionOf(w, cfg.topics[j], MadeAt(w, cfg, v, j)) ==
               PartitionOf(w, cfg.topics[j], AsSeenBy(w, v, cfg.topics[j]))
  {
    CanonFacts(w, v);
    CanonFacts(w, v.(org := Effective(cfg.topics[j], v.org)));
    CanonFacts(w, FormAfter(w, cfg, v, j).(org := Effective(cfg.topics[j], v.org)));
  }

  /** The buffer was made before: nothing is touched again. */
  lemma {:induction false} BufferFound(w: World, cfg: Config, v: Metric, keys: set<MKey>, n: nat, memo: map<int,
                                       Wire>, touched: set<MKey>, touches: seq<MKey>)
    requires 0 < n <= |cfg.topics| && Takes(cfg.topics[n - 1], v) &&
             Effective(cfg.topics[n - 1], v.org) in Orgs(cfg, v, n - 1)
    requires Buffers(w, cfg, v, keys, n - 1, memo) && Touched(w, cfg, v, keys, n - 1, touched, touches)
    ensures Buffers(w, cfg, v, keys, n, memo) && Touched(w, cfg, v, keys, n, touched, touches)
  {
    hide Accepts, WireAt, KeyAt;
    assert Orgs(cfg, v, n) == Orgs(cfg, v, n - 1);
  }

  /** A new organisation: one more buffer. */
  lemma {:induction false} BufferMade(w: World, cfg: Config, v: Metric, keys: set<MKey>, n: nat, memo: map<int, Wire>)
    requires 0 < n <= |cfg.topics| && Makes(cfg, v, n - 1) && Buffers(w, cfg, v, keys, n - 1, memo)
    ensures Buffers(w, cfg, v, keys, n, memo[Effective(cfg.topics[n - 1], v.org) := WireAt(w, cfg, keys, v, n - 1)])
  {
    hide Accepts, WireAt, KeyAt;
  }

  /** And one more touch. */
  lemma {:induction false} KeyTouched(w: World, cfg: Config, v: Metric, keys: set<MKey>, n: nat, touched: set<MKey>,
                                      touches: seq<MKey>)
    requires 0 < n <= |cfg.topics| && Makes(cfg, v, n - 1) && (cfg.v2 ==> KeyAt(w, cfg, v, n - 1).Some?)
    requires Touched(w, cfg, v, keys, n - 1, touched, touches)
    ensures if cfg.v2
            then Touched(w, cfg, v, keys, n, touched + {KeyAt(w, cfg, v, n - 1).value},
                touches + [KeyAt(w, cfg, v, n - 1).value])
            else Touched(w, cfg, v, keys, n, touched, touches)
  {
    hide Accepts, WireAt, KeyAt;
  }

  /** Making or finding the buffer for topic number `n - 1`. */
  lemma {:induction false} BufferedMeans(w: World, cfg: Config, v: Metric, start: Prep, n: nat, p: Prep)
    requires 0 < n <= |cfg.topics| && Takes(cfg.topics[n - 1], v) && Reaches(w, cfg, v, start, n - 1, p)
    ensures var e := Effective(cfg.topics[n - 1], v.org);
            var b := Buffered(cfg, p.(cur := MadeAt(w, cfg, v, n - 1)));
            && (b.Go? <==> (cfg.v2 && Makes(cfg, v, n - 1) ==> KeyAt(w, cfg, v, n - 1).Some?))
            && (b.Go? ==> e in Orgs(cfg, v, n) && b.st.1 == WireAt(w, cfg, start.keys, v, Maker(cfg, v, e, n))
                          && Buffers(w, cfg, v, start.keys, n, b.st.0.memo)
                          && Touched(w, cfg, v, start.keys, n, b.st.0.keys, b.st.0.touches))
            && (b.Stop? ==> b.st.0.keys == p.keys && b.st.0.touches == p.touches && Touches(w, cfg, v, n) == p.touches)
  {
    hide Accepts, FormAfter, Rewritten, Canon, PartitionOf, Messages;
    FormPartition(w, cfg, v, n - 1);
    if Makes(cfg, v, n - 1) {
      if cfg.v2 ==> KeyAt(w, cfg, v, n - 1).Some? {
        BufferMade(w, cfg, v, start.keys, n, p.memo);
        KeyTouched(w, cfg, v, start.keys, n, p.keys, p.touches);
      }
    } else {
      BufferFound(w, cfg, v, start.keys, n, p.memo, p.keys, p.touches);
    }
  }

  /** Where an error at topic number `j` leaves metric and keys: the metric as that topic saw it. */
  ghost predicate LeftAt(w: World, cfg: Config, v: Metric, before: set<MKey>, j: nat, q: Prep)
    requires j < |cfg.topics|
  {
    && Takes(cfg.topics[j], v) && q.cur == MadeAt(w, cfg, v, j)
    && q.keys == before + AsSet(Touches(w, cfg, v, j + 1))
  }

  lemma {:induction false} TopicMeans(w: World, cfg: Config, v: Metric, start: Prep, n: nat, p: Prep)
    requires 0 < n <= |cfg.topics| && Reaches(w, cfg, v, start, n - 1, p)
    ensures var r := TopicStep(w, cfg, cfg.topics[n - 1], p);
            && (r.Go? <==> PassesAt(w, cfg, v, n - 1))
            && (r.Go? ==> Reaches(w, cfg, v, start, n, r.st))
            && (r.Stop? ==> LeftAt(w, cfg, v, start.keys, n - 1, r.st))
  {
    hide Accepts, PartitionOf, Canon, FormAfter, Orgs, Touches, WireAt, KeyAt, Buffered, Touched, Buffers;
    var t := cfg.topics[n - 1];
    FormPartition(w, cfg, v, n - 1);
    FormStep(w, cfg, v, n);
    if Takes(t, v) {
      BufferedMeans(w, cfg, v, start, n, p);
      TouchedSet(w, cfg, v, start.keys, n - 1, p.keys, p.touches);
      var b := Buffered(cfg, p.(cur := MadeAt(w, cfg, v, n - 1)));
      if b.Go? {
        TouchedSet(w, cfg, v, start.keys, n, b.st.0.keys, b.st.0.touches);
      }
    } else {
      Untaken(w, cfg, v, start, n, p);
    }
  }

  lemma {:induction false} TouchedSet(w: World, cfg: Config, v: Metric, before: set<MKey>, n: nat, keys: set<MKey>,
                                      touches: seq<MKey>)
    requires n <= |cfg.topics| && Touched(w, cfg, v, before, n, keys, touches)
    ensures keys == before + AsSet(Touches(w, cfg, v, n)) && touches == Touches(w, cfg, v, n)
  {
  }

  lemma {:induction false} Untaken(w: World, cfg: Config, v: Metric, start: Prep, n: nat, p: Prep)
    requires 0 < n <= |cfg.topics| && !Takes(cfg.topics[n - 1], v)
    requires Buffers(w, cfg, v, start.keys, n - 1, p.memo) && Touched(w, cfg, v, start.keys, n - 1, p.keys, p.touches)
    ensures Buffers(w, cfg, v, start.keys, n, p.memo) && Touched(w, cfg, v, start.keys, n, p.keys, p.touches)
    ensures Messages(w, cfg, start.keys, v, n) == Messages(w, cfg, start.keys, v, n - 1)
  {
    hide Accepts, WireAt, KeyAt;
    assert Orgs(cfg, v, n) == Orgs(cfg, v, n - 1);
  }

  /** The first topic that causes an error. */
  predicate FailsFirst(w: World, cfg: Config, v: Metric, j: nat)
    requires j < |cfg.topics|
  {
    Passes(w, cfg, v, j) && !PassesAt(w, cfg, v, j)
  }

  /**
   The topic loop, for every metric: it gets through exactly if no topic causes an error, and is
   then in the state `Reaches` describes; otherwise the first such topic leaves the metric and
   the keys as `LeftAt` describes.
   */
  lemma {:induction false} LoopMeans(w: World, cfg: Config, v: Metric, start: Prep, n: nat)
    requires n <= |cfg.topics| && start.cur == v && start.memo == map[] && start.touches == []
    ensures var r := Topics(w, cfg, start, n);
            && (r.Go? <==> Passes(w, cfg, v, n))
            && (r.Go? ==> Reaches(w, cfg, v, start, n, r.st))
            && (r.Stop? ==> exists j :: 0 <= j < n && FailsFirst(w, cfg, v, j)
                                        && LeftAt(w, cfg, v, start.keys, j, r.st))
  {
    hide Accepts, PartitionOf, Canon, PassesAt, Reaches, LeftAt, TopicStep;
    if n == 0 {
      LoopStarts(w, cfg, v, start);
    } else {
      LoopMeans(w, cfg, v, start, n - 1);
      if Passes(w, cfg, v, n - 1) {
        TopicMeans(w, cfg, v, start, n, Topics(w, cfg, start, n - 1).st);
      }
    }
  }

  /**
   The in-place rewrite is undone, for every metric: past the loop the metric is in `FormAfter`, so
   it has its own organisation again and differs at most as `SameButId` allows. When a topic causes
   an error the restoring is skipped: the metric is left as that topic saw it, with a foreign
   organisation exactly if that topic rewrites to another one.
   */
  lemma {:induction false} RewriteUndone(w: World, cfg: Config, v: Metric, start: Prep, n: nat)
    requires n <= |cfg.topics| && start.cur == v && start.memo == map[] && start.touches == []
    ensures var r := Topics(w, cfg, start, n);
            && (r.Go? ==> SameButId(w, v, r.st.cur))
            && (r.Stop? ==> exists j :: 0 <= j < n && FailsFirst(w, cfg, v, j) && r.st.cur == MadeAt(w, cfg, v, j)
                                        && (r.st.cur.org != v.org <==> Effective(cfg.topics[j], v.org) != v.org))
  {
    hide FormAfter, Topics, MadeAt, FailsFirst, PartitionOf, SameButId;
    LoopMeans(w, cfg, v, start, n);
    FormFacts(w, cfg, v, n);
    var r := Topics(w, cfg, start, n);
    if r.Stop? {
      var j :| 0 <= j < n && FailsFirst(w, cfg, v, j) && LeftAt(w, cfg, v, start.keys, j, r.st);
      FormPartition(w, cfg, v, j);
    }
  }

  lemma {:induction false} LoopStarts(w: World, cfg: Config, v: Metric, start: Prep)
    requires start.cur == v && start.memo == map[] && start.touches == []
    ensures Reaches(w, cfg, v, start, 0, start)
  {
  }

  // ---- When the bytes are those of the topic's organisation ------------------------------

  /** Topic number `i` or one before it rewrites the metric, which sets its id anew. */
  predicate RewrittenBy(cfg: Config, v: Metric, i: nat)
    requires i < |cfg.topics|
  {
    exists h :: 0 <= h <= i && Rewrites(cfg.topics[h], v)
  }

  /** The tags are sorted by the time topic number `i` looks at the metric. */
  predicate SortedBy(cfg: Config, v: Metric, i: nat)
    requires i < |cfg.topics|
  {
    Sort(v.tags) == v.tags || exists h :: 0 <= h < i && Takes(cfg.topics[h], v) && ByTags(cfg.topics[h].method_)
  }

  /** What topic number `i` makes of the metric, and the id it gives it, against the metric as the topic sees it. */
  lemma {:induction false} MadeAsSeenIff(w: World, cfg: Config, v: Metric, i: nat)
    requires i < |cfg.topics| && Takes(cfg.topics[i], v)
    ensures var made, seen := MadeAt(w, cfg, v, i), AsSeenBy(w, v, cfg.topics[i]);
            && (made == seen <==> RewrittenBy(cfg, v, i) || (Canon(w, v).id == v.id && SortedBy(cfg, v, i)))
            && (made.id == seen.id <==> RewrittenBy(cfg, v, i) || Canon(w, v).id == v.id)
            && made.value == v.value && made.time == v.time
  {
    hide Accepts, Sort;
    CanonFacts(w, v);
    CanonFacts(w, v.(org := Effective(cfg.topics[i], v.org)));
  }

  /**
   When what a topic is sent is the metric as the topic sees it. The buffer was made by topic number
   `i`, possibly an earlier one. A full metric is that of the topic's view exactly if topic `i` or
   one before it rewrote the metric, or the id fits the fields and the tags were sorted by then; a
   point has the key of the topic's view exactly if one of them rewrote it, or the id fits. In all
   other cases it depends on which topics come before.
   */
  lemma {:induction false} SentAsSeenIff(w: World, cfg: Config, keys: set<MKey>, v: Metric, j: nat)
    requires j < |cfg.topics| && Takes(cfg.topics[j], v)
    ensures var i, seen := MakerIn(cfg, v, j), AsSeenBy(w, v, cfg.topics[j]);
            var wire := MessageAt(w, cfg, keys, v, j).wire;
            && (wire.Full? ==>
                  (wire == Full(seen) <==> RewrittenBy(cfg, v, i) || (Canon(w, v).id == v.id && SortedBy(cfg, v, i))))
            && (!wire.Full? ==>
                  && KeyAt(w, cfg, v, i).Some? && wire == PointOf(cfg, KeyAt(w, cfg, v, i).value, v)
                  && (KeyAt(w, cfg, v, i) == ParseKey(seen.id) <==> RewrittenBy(cfg, v, i) || Canon(w, v).id == v.id))
  {
    hide Sort, RewrittenBy, SortedBy, PartitionOf, Touches, Accepts;
    var i := MakerIn(cfg, v, j);
    MadeAsSeenIff(w, cfg, v, i);
    assert AsSeenBy(w, v, cfg.topics[i]) == AsSeenBy(w, v, cfg.topics[j]);
    assert MessageAt(w, cfg, keys, v, j).wire == WireAt(w, cfg, keys, v, i);
    assert AsSeenBy(w, v, cfg.topics[j]).id.Id?;
  }

  /** A rewriting topic in between does not help: the third topic is sent the buffer of the first. */
  lemma {:induction false} MemoKeepsForm(w: World, t: Topic, other: Topic, u: Topic, v: Metric)
    requires t.discardPrefixes == [] && t.onlyOrg == 0 && t.rewrite == NO_REWRITE
    requires u.discardPrefixes == [] && u.onlyOrg == 0 && u.rewrite == NO_REWRITE
    requires other.discardPrefixes == [] && other.onlyOrg == 0 && other.rewrite == Rewrite(1, 2)
    requires v.org == 1 && !Canonical(w, v)
    ensures var cfg := Config(false, false, false, [t, other, u]);
            && MadeAt(w, cfg, v, 2) == AsSeenBy(w, v, u)
            && MessageAt(w, cfg, {}, v, 2).wire == Full(v) != Full(AsSeenBy(w, v, u))
  {
    hide Sort;
    var cfg := Config(false, false, false, [t, other, u]);
    assert Rewrites(cfg.topics[1], v) && RewrittenBy(cfg, v, 2);
    MadeAsSeenIff(w, cfg, v, 2);
    assert Orgs(cfg, v, 1) == Orgs(cfg, v, 0) + {1};
    assert Orgs(cfg, v, 2) == Orgs(cfg, v, 1) + {2};
    assert Maker(cfg, v, 1, 3) == Maker(cfg, v, 1, 2) == Maker(cfg, v, 1, 1) == 0;
    CanonFacts(w, v);
  }

  /** The same metric and the same plain topic, before and after one that rewrites: two different messages. */
  lemma {:induction false} OrderMatters(w: World, plain: Topic, other: Topic, v: Metric)
    requires plain.discardPrefixes == [] && plain.onlyOrg == 0 && plain.rewrite == NO_REWRITE
    requires other.discardPrefixes == [] && other.onlyOrg == 0 && other.rewrite == Rewrite(1, 2)
    requires v.org == 1 && !Canonical(w, v)
    ensures MessageAt(w, Config(false, false, false, [plain, other]), {}, v, 0).wire == Full(v)
    ensures MessageAt(w, Config(false, false, false, [other, plain]), {}, v, 1).wire == Full(Canon(w, v)) != Full(v)
  {
    hide Sort;
    var first, second := Config(false, false, false, [plain, other]), Config(false, false, false, [other, plain]);
    assert second.topics[0] == other && Rewrites(other, v);
    assert Orgs(second, v, 1) == Orgs(second, v, 0) + {2};
    CanonFacts(w, v);
  }

  // ---- What messages carry ---------------------------------------------------------------

  /** The contents tell value and time of `v`; a point says whose it is exactly if it is configured to. */
  predicate Carries(cfg: Config, v: Metric, wire: Wire) {
    match wire
    case Full(m) => m.value == v.value && m.time == v.time && m.name == v.name
    case Point(_, value, time) => cfg.v2 && cfg.v2Org && value == v.value && time == v.time % 4_294_967_296
    case PointNoOrg(_, value, time) => cfg.v2 && !cfg.v2Org && value == v.value && time == v.time % 4_294_967_296
  }

  /** Every message carries value and time of its metric, and a point the key its maker encoded. */
  lemma {:induction false} MessageCarries(w: World, cfg: Config, keys: set<MKey>, v: Metric, j: nat)
    requires j < |cfg.topics| && Takes(cfg.topics[j], v)
    ensures var wire, made := MessageAt(w, cfg, keys, v, j).wire, MadeAt(w, cfg, v, MakerIn(cfg, v, j));
            && Carries(cfg, v, wire)
            && (wire.Full? ==> wire.metric == made)
            && (wire.Point? ==> Id(wire.mkey.org, wire.mkey.key) == made.id)
            && (wire.PointNoOrg? ==> made.id.Id? && made.id.key == wire.key)
  {
    hide Sort, PartitionOf, Touches, Accepts;
    var i := MakerIn(cfg, v, j);
    FormFacts(w, cfg, v, i);
    assert MessageAt(w, cfg, keys, v, j).wire == WireAt(w, cfg, keys, v, i);
  }

  /**
   The partition of a message is what the topic's own method makes of the topic's own number of
   partitions and of the organisation the topic sees, the name, or the name and the tags in order.
   */
  lemma {:induction false} MessagePartition(w: World, cfg: Config, keys: set<MKey>, v: Metric, j: nat)
    requires j < |cfg.topics| && Takes(cfg.topics[j], v) && PassesAt(w, cfg, v, j)
    ensures var t := cfg.topics[j];
            var p := Some(MessageAt(w, cfg, keys, v, j).partition);
            match t.method_
            case ByOrg => p == w.partition(ByOrg, Effective(t, v.org), "", [], t.numPartitions)
            case BySeries => p == w.partition(BySeries, 0, v.name, [], t.numPartitions)
            case BySeriesWithTags => p == w.partition(BySeriesWithTags, 0, v.name, Sort(v.tags), t.numPartitions)
            case BySeriesWithTagsFnv => p == w.partition(BySeriesWithTagsFnv, 0, v.name, Sort(v.tags), t.numPartitions)
  {
    hide Accepts, WireAt;
    CanonFacts(w, v.(org := Effective(cfg.topics[j], v.org)));
  }
}
