/** Validating a metric: what is refused and why, and how dots in names are cleaned up. */
module Validation {
  import opened Text
  import opened Schema

  datatype Fault = OrgIdZero | IntervalZero | EmptyName | InvalidMtype | InvalidTagFormat

  // ---- Dots in names ---------------------------------------------------------------------

  /** The name without leading, trailing and repeated dots: its non-empty parts. */
  function EatDots(name: string): string {
    Join(NonEmpty(Split(name, '.')), ".")
  }

  /** Cleaning a clean name changes nothing. */
  lemma {:induction false} EatDotsAgain(name: string)
    ensures EatDots(EatDots(name)) == EatDots(name)
  {
    var parts := NonEmpty(Split(name, '.'));
    assert forall p :: p in parts ==> p in Split(name, '.');
    if parts == [] {
      assert Split("", '.') == [""];
      assert NonEmpty([""]) == [] by {
        assert [""][1..] == [];
      }
    } else {
      SplitJoin(parts, '.');
      NonEmptyFixed(parts);
    }
  }

  /** The result as it grows: a dot that was seen is owed until a character follows. */
  datatype Scan = Scan(out: string, owed: bool)

  function ScanNext(s: Scan, c: char): Scan {
    if c == '.' then s.(owed := s.owed || s.out != "")
    else Scan(s.out + (if s.owed then "." else "") + [c], false)
  }

  function ScanOf(name: string): Scan {
    if name == "" then Scan("", false) else ScanNext(ScanOf(name[..|name| - 1]), name[|name| - 1])
  }

  /** How many dots the first pass finds superfluous before the last position is looked at. */
  function Superfluous(name: string): nat {
    if name == "" then 0 else
      Superfluous(name[..|name| - 1]) +
      if name[|name| - 1] == '.' && (|name| == 1 || name[|name| - 2] == '.') then 1 else 0
  }

  /** The count is right: with an owed dot, everything but the superfluous dots and that one is in. */
  lemma {:induction false} ScanLength(name: string)
    ensures var s := ScanOf(name);
            && |s.out| + (if s.owed then 1 else 0) + Superfluous(name) == |name|
            && (s.owed ==> s.out != "")
            && (name != "" ==> (s.owed || s.out == "" <==> name[|name| - 1] == '.'))
            && (Superfluous(name) == 0 ==> name == s.out + if s.owed then "." else "")
  {
    if name != "" {
      ScanLength(name[..|name| - 1]);
    }
  }

  lemma {:induction false} ScanGrows(name: string, i: nat)
    requires i <= |name|
    ensures |ScanOf(name[..i]).out| <= |ScanOf(name).out|
    decreases |name|
  {
    if i == |name| {
      assert name[..i] == name;
    } else {
      var init := name[..|name| - 1];
      assert init[..i] == name[..i];
      ScanGrows(init, i);
    }
  }

  function Snoc(parts: seq<string>, c: char, x: char): seq<string>
    requires parts != []
  {
    if x == c then parts + [""] else parts[..|parts| - 1] + [parts[|parts| - 1] + [x]]
  }

  lemma {:induction false} SnocCons(p: string, parts: seq<string>, c: char, x: char)
    requires parts != []
    ensures Snoc([p] + parts, c, x) == [p] + Snoc(parts, c, x)
  {
    assert ([p] + parts)[..|parts|] == [p] + parts[..|parts| - 1];
  }

  lemma {:induction false} SplitSnoc(s: string, c: char, x: char)
    ensures Split(s + [x], c) == Snoc(Split(s, c), c, x)
    decreases |s|
  {
    var i := Find(s, c);
    var t := s + [x];
    hide Split, Find;
    if i == |s| {
      assert s[..i] == s;
      SplitNone(s, c);
      if x == c {
        assert t[..i] == s && t[i + 1..] == "";
        SplitAt(t, c, i);
        SplitNone("", c);
      } else {
        SplitNone(t, c);
      }
    } else {
      var rest := s[i + 1..];
      assert t[..i] == s[..i] && t[i + 1..] == rest + [x];
      SplitAt(s, c, i);
      SplitAt(t, c, i);
      SplitSnoc(rest, c, x);
      SnocCons(s[..i], Split(rest, c), c, x);
    }
  }

  lemma {:induction false} NonEmptySnoc(parts: seq<string>, p: string)
    ensures NonEmpty(parts + [p]) == NonEmpty(parts) + if p == "" then [] else [p]
  {
    if parts == [] {
      assert parts + [p] == [p] && [p][1..] == [];
    } else {
      assert (parts + [p])[1..] == parts[1..] + [p];
      NonEmptySnoc(parts[1..], p);
    }
  }

  lemma {:induction false} JoinSnoc(parts: seq<string>, p: string)
    ensures Join(parts + [p], ".") == if parts == [] then p else Join(parts, ".") + "." + p
  {
    if parts == [] {
      assert parts + [p] == [p];
    } else {
      assert (parts + [p])[1..] == parts[1..] + [p];
      JoinSnoc(parts[1..], p);
    }
  }

  /** What a scan has to hold when the pieces so far are `parts`. */
  predicate Scans(s: Scan, parts: seq<string>) {
    && parts != []
    && s.out == Join(NonEmpty(parts), ".")
    && (s.owed <==> parts[|parts| - 1] == "" && NonEmpty(parts) != [])
    && (s.out == "" <==> NonEmpty(parts) == [])
  }

  lemma {:induction false} ScansSnoc(s: Scan, parts: seq<string>, c: char)
    requires Scans(s, parts)
    ensures Scans(ScanNext(s, c), Snoc(parts, '.', c))
  {
    hide Join, NonEmpty;
    var most, last := parts[..|parts| - 1], parts[|parts| - 1];
    assert parts == most + [last];
    if c == '.' {
      NonEmptySnoc(parts, "");
      assert NonEmpty(parts) + [] == NonEmpty(parts);
    } else {
      var whole := last + [c];
      NonEmptySnoc(most, last);
      NonEmptySnoc(most, whole);
      JoinSnoc(NonEmpty(most), last);
      JoinSnoc(NonEmpty(most), whole);
      if last == "" {
        assert whole == [c];
        assert NonEmpty(most) + [] == NonEmpty(most);
      }
    }
  }

  /** Scanning once finds what splitting, filtering and joining describe. */
  lemma {:induction false} ScanIsEatDots(name: string)
    ensures Scans(ScanOf(name), Split(name, '.'))
    ensures ScanOf(name).out == EatDots(name)
  {
    hide Split, Join, Scans;
    if name == "" {
      SplitNone("", '.');
      NoParts();
    } else {
      var init, x := name[..|name| - 1], name[|name| - 1];
      ScanIsEatDots(init);
      assert name == init + [x];
      SplitSnoc(init, '.', x);
      ScansSnoc(ScanOf(init), Split(init, '.'), x);
    }
    ScansOut(ScanOf(name), Split(name, '.'));
  }

  lemma {:induction false} ScansOut(s: Scan, parts: seq<string>)
    requires Scans(s, parts)
    ensures s.out == Join(NonEmpty(parts), ".")
  {
  }

  lemma {:induction false} NoParts()
    ensures Scans(Scan("", false), [""])
  {
    assert [""][1..] == [];
  }

  /** The two passes: count the dots to drop, then copy the rest into a buffer of exactly that size. */
  method EatDotsInPlace(name: string) returns (r: string)
    ensures r == EatDots(name)
  {
    hide EatDots, ScanOf, Superfluous;
    ScanIsEatDots(name);
    ScanLength(name);
    var remove := CountDots(name);
    if remove == 0 {
      assert ScanOf(name).out == name;
      return name;
    }
    if remove >= |name| {
      return "";
    }
    r := CopyParts(name, |name| - remove);
  }

  method CountDots(name: string) returns (remove: nat)
    ensures remove == Superfluous(name) + if |name| > 1 && name[|name| - 1] == '.' then 1 else 0
  {
    if |name| == 0 {
      return 0;
    }
    remove := if name[0] == '.' then 1 else 0;
    assert name[..1][..0] == "";
    for i := 1 to |name|
      invariant remove == Superfluous(name[..i]) + if i == |name| && i > 1 && name[i - 1] == '.' then 1 else 0
    {
      assert name[..i + 1][..i] == name[..i];
      if name[i] == '.' {
        if name[i - 1] == '.' {
          remove := remove + 1;
        }
        if i == |name| - 1 {
          remove := remove + 1;
        }
      }
    }
    assert name[..|name|] == name;
  }

  /** The buffer is never written beyond its end and is full at the end. */
  method CopyParts(name: string, size: nat) returns (r: string)
    requires size == |ScanOf(name).out|
    ensures r == ScanOf(name).out
  {
    var newName := new char[size];
    var j, sawDot := 0, false;
    for i := 0 to |name|
      invariant j == |ScanOf(name[..i]).out| <= size && sawDot == ScanOf(name[..i]).owed
      invariant newName[..j] == ScanOf(name[..i]).out
    {
      assert name[..i + 1][..i] == name[..i];
      ScanGrows(name, i + 1);
      if name[i] != '.' {
        if sawDot {
          newName[j] := '.';
          sawDot := false;
          j := j + 1;
        }
        newName[j] := name[i];
        j := j + 1;
      } else if j > 0 {
        sawDot := true;
      }
    }
    assert name[..|name|] == name;
    return newName[..];
  }

  // ---- Tags ------------------------------------------------------------------------------

  /**
   A key and a value, neither of them empty, around the first equals sign; no semicolon, exclamation
   mark or caret before it, no tilde right after it and no semicolon anywhere after it.
   */
  predicate ValidTag(tag: string) {
    exists e :: 0 < e < |tag| - 1 && SplitsTag(tag, e)
  }

  predicate SplitsTag(tag: string, e: nat)
    requires 0 < e < |tag| - 1
  {
    && tag[e] == '='
    && (forall i :: 0 <= i < e ==> tag[i] != '=' && tag[i] != ';' && tag[i] != '!' && tag[i] != '^')
    && tag[e + 1] != '~' && (forall i :: e < i < |tag| ==> tag[i] != ';')
  }

  predicate ValidTags(tags: seq<string>) {
    forall t :: t in tags ==> ValidTag(t)
  }

  predicate KnownMtype(t: string) {
    t == "gauge" || t == "rate" || t == "count" || t == "counter" || t == "timestamp"
  }

  /** `strings.Index` of one character, with the length for minus one. */
  method Index(s: string, c: char) returns (i: nat)
    ensures i <= |s| && (i < |s| ==> s[i] == c) && forall k :: 0 <= k < i ==> s[k] != c
  {
    i := 0;
    while i < |s| && s[i] != c
      invariant i <= |s| && forall k :: 0 <= k < i ==> s[k] != c
    {
      i := i + 1;
    }
  }

  /** `strings.ContainsAny` */
  method ContainsAny(s: string, chars: string) returns (found: bool)
    ensures found <==> exists i :: 0 <= i < |s| && s[i] in chars
  {
    for i := 0 to |s|
      invariant forall k :: 0 <= k < i ==> s[k] !in chars
    {
      if s[i] in chars {
        return true;
      }
    }
    return false;
  }

  method ValidateTagKey(key: string) returns (ok: bool)
    ensures ok <==> key != "" && forall i :: 0 <= i < |key| ==>
              key[i] != ';' && key[i] != '!' && key[i] != '^' && key[i] != '='
  {
    if |key| == 0 {
      return false;
    }
    var found := ContainsAny(key, ";!^=");
    return !found;
  }

  method ValidateTagValue(value: string) returns (ok: bool)
    ensures ok <==> value != "" && value[0] != '~' && forall i :: 0 <= i < |value| ==> value[i] != ';'
  {
    if |value| == 0 {
      return false;
    }
    if value[0] == '~' {
      return false;
    }
    var at := Index(value, ';');
    return at == |value|;
  }

  method ValidateTag(tag: string) returns (ok: bool)
    ensures ok <==> ValidTag(tag)
  {
    if |tag| < 3 {
      return false;
    }
    var equal := Index(tag, '=');
    if equal == |tag| {
      return false;
    }
    FirstEquals(tag, equal);
    if equal == 0 || equal == |tag| - 1 {
      return false;
    }
    var key, value := tag[..equal], tag[equal + 1..];
    assert forall i :: equal < i < |tag| ==> tag[i] == value[i - equal - 1];
    ok := ValidateTagKey(key);
    if ok {
      ok := ValidateTagValue(value);
    }
  }

  /** The equals sign that matters is the first one. */
  lemma {:induction false} FirstEquals(tag: string, e: nat)
    requires e < |tag| && tag[e] == '=' && forall k :: 0 <= k < e ==> tag[k] != '='
    ensures ValidTag(tag) <==>
            && 0 < e < |tag| - 1 && (forall i :: 0 <= i < e ==> tag[i] != ';' && tag[i] != '!' && tag[i] != '^')
            && tag[e + 1] != '~' && (forall i :: e < i < |tag| ==> tag[i] != ';')
  {
    if 0 < e < |tag| - 1 {
      assert SplitsTag(tag, e) <==>
             && (forall i :: 0 <= i < e ==> tag[i] != ';' && tag[i] != '!' && tag[i] != '^')
             && tag[e + 1] != '~' && (forall i :: e < i < |tag| ==> tag[i] != ';');
    }
    if ValidTag(tag) {
      var f :| 0 < f < |tag| - 1 && SplitsTag(tag, f);
      assert f == e;
    }
  }

  method ValidateTags(tags: seq<string>) returns (ok: bool)
    ensures ok <==> ValidTags(tags)
  {
    hide ValidTag;
    for i := 0 to |tags|
      invariant forall k :: 0 <= k < i ==> ValidTag(tags[k])
    {
      ok := ValidateTag(tags[i]);
      if !ok {
        return false;
      }
    }
    return true;
  }

  // ---- Validate --------------------------------------------------------------------------

  /** The first thing wrong with a metric. */
  function FaultOf(m: Metric): Option<Fault> {
    if m.org == 0 then Some(OrgIdZero)
    else if m.interval == 0 then Some(IntervalZero)
    else if EatDots(m.name) == "" then Some(EmptyName)
    else if !KnownMtype(m.mtype) then Some(InvalidMtype)
    else if !ValidTags(m.tags) then Some(InvalidTagFormat)
    else None
  }

  /** What validating leaves behind: the name is cleaned unless an earlier check failed. */
  function Cleaned(m: Metric): Metric {
    if m.org == 0 || m.interval == 0 then m else m.(name := EatDots(m.name))
  }

  /** Validating again says the same and changes nothing more. */
  lemma {:induction false} ValidateAgain(m: Metric)
    ensures FaultOf(Cleaned(m)) == FaultOf(m)
    ensures Cleaned(Cleaned(m)) == Cleaned(m)
  {
    hide EatDots, ValidTags, KnownMtype;
    EatDotsAgain(m.name);
  }
}
