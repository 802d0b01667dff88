/** The comma-separated integer flag, and the text it prints itself as. */
module Flags {
  import opened Text

  /** Numbers of a list, printed one by one. */
  function Printed(l: seq<Int64>): (ps: seq<string>)
    ensures |ps| == |l| && forall i :: 0 <= i < |l| ==> ps[i] == PrintInt(l[i])
  {
    seq(|l|, i requires 0 <= i < |l| => PrintInt(l[i]))
  }

  /** What `fmt.Sprint` makes of a slice. */
  function Sprint(l: seq<Int64>): string {
    "[" + Join(Printed(l), " ") + "]"
  }

  /** Every single `c` replaced by the text `text`. */
  function Replace(s: string, c: char, text: string): string {
    if s == "" then "" else (if s[0] == c then text else [s[0]]) + Replace(s[1..], c, text)
  }

  predicate IsBracket(c: char) {
    c == '[' || c == ']'
  }

  /** The flag's text, by the three passes over the printed slice that the source makes. */
  function Show(l: seq<Int64>): string {
    Trim(Replace(Sprint(l), ' ', ", "), IsBracket)
  }

  /** What a piece of the input contributes: nothing when blank, a number, or an error. */
  function Parsed(pieces: seq<string>): Result<seq<Int64>, string> {
    if pieces == [] then Success([]) else
    var init := Parsed(pieces[..|pieces| - 1]);
    if init.Failure? then init else
    var piece := TrimSpace(pieces[|pieces| - 1]);
    if piece == "" then init else
    match Atoi(piece)
    case None => Failure(piece)
    case Some(n) => Success(init.value + [n])
  }

  /** The numbers read before the first piece that is neither blank nor a number. */
  function ReadBeforeError(pieces: seq<string>): seq<Int64> {
    if pieces == [] then [] else
    match Parsed(pieces)
    case Success(l) => l
    case Failure(_) => ReadBeforeError(pieces[..|pieces| - 1])
  }

  class Int64SliceFlag {
    var values: seq<Int64>

    constructor ()
      ensures values == []
    {
      values := [];
    }

    /** Appends the numbers of `value`; on an error what came before it has been appended. */
    method Set(value: string) returns (ok: bool)
      modifies this
      ensures ok <==> Parsed(Split(value, ',')).Success?
      ensures values == old(values) + ReadBeforeError(Split(value, ','))
    {
      hide TrimSpace, Atoi, Split;
      var pieces := Split(value, ',');
      for i := 0 to |pieces|
        invariant Parsed(pieces[..i]).Success?
        invariant values == old(values) + Parsed(pieces[..i]).value
      {
        assert pieces[..i + 1][..i] == pieces[..i];
        var piece := TrimSpace(pieces[i]);
        if piece != "" {
          var n := Atoi(piece);
          if n.None? {
            StuckAfterError(pieces, i + 1);
            return false;
          }
          values := values + [n.value];
        }
      }
      assert pieces[..|pieces|] == pieces;
      ok := true;
    }
  }

  lemma {:induction false} StuckAfterError(pieces: seq<string>, i: nat)
    requires 0 < i <= |pieces| && Parsed(pieces[..i]).Failure?
    ensures Parsed(pieces).Failure?
    ensures ReadBeforeError(pieces) == ReadBeforeError(pieces[..i - 1])
  {
    if i == |pieces| {
      assert pieces[..i] == pieces;
    } else {
      assert pieces[..|pieces| - 1][..i] == pieces[..i];
      assert pieces[..|pieces| - 1][..i - 1] == pieces[..i - 1];
      StuckAfterError(pieces[..|pieces| - 1], i);
    }
  }

  // ---- The round trip --------------------------------------------------------------------

  lemma {:induction false} ReplaceNone(s: string, c: char, text: string)
    requires c !in s
    ensures Replace(s, c, text) == s
  {
    if s != "" {
      ReplaceNone(s[1..], c, text);
      assert s == [s[0]] + s[1..];
    }
  }

  lemma {:induction false} ReplaceConcat(s: string, t: string, c: char, text: string)
    ensures Replace(s + t, c, text) == Replace(s, c, text) + Replace(t, c, text)
  {
    if s == "" {
      assert s + t == t;
    } else {
      ReplaceConcat(s[1..], t, c, text);
      assert (s + t)[1..] == s[1..] + t && (s + t)[0] == s[0];
      var head := if s[0] == c then text else [s[0]];
      assert head + (Replace(s[1..], c, text) + Replace(t, c, text)) ==
             head + Replace(s[1..], c, text) + Replace(t, c, text);
    }
  }

  lemma {:induction false} ReplaceJoin(parts: seq<string>, c: char, text: string)
    requires forall p :: p in parts ==> c !in p
    ensures Replace(Join(parts, [c]), c, text) == Join(parts, text)
  {
    if |parts| == 1 {
      assert parts[0] in parts;
      ReplaceNone(parts[0], c, text);
    } else if parts != [] {
      assert parts[0] in parts;
      ReplaceNone(parts[0], c, text);
      ReplaceJoin(parts[1..], c, text);
      ReplaceConcat(parts[0] + [c], Join(parts[1..], [c]), c, text);
      ReplaceConcat(parts[0], [c], c, text);
      assert Replace([c], c, text) == text + Replace("", c, text);
    }
  }

  /** The three passes amount to joining the printed numbers with a comma and a blank. */
  lemma {:induction false} ShowIsJoin(l: seq<Int64>)
    ensures Show(l) == Join(Printed(l), ", ")
  {
    hide Replace, Join, PrintInt, Printed, TrimLeft, TrimRight;
    var ps := Printed(l);
    forall p | p in ps ensures ' ' !in p {
      var i :| 0 <= i < |l| && p == PrintInt(l[i]);
      PrintIntChars(l[i]);
    }
    ReplaceJoin(ps, ' ', ", ");
    var inner := Join(ps, " ");
    ReplaceConcat("[" + inner, "]", ' ', ", ");
    ReplaceConcat("[", inner, ' ', ", ");
    ReplaceNone("[", ' ', ", ");
    ReplaceNone("]", ' ', ", ");
    var j := Join(ps, ", ");
    assert Replace(Sprint(l), ' ', ", ") == "[" + (j + "]");
    if j == "" {
      TrimBrackets();
    } else {
      JoinEnds(l);
      TrimLeftDrops("[", j + "]", IsBracket);
      TrimRightDrops(j, "]", IsBracket);
    }
  }

  lemma {:induction false} TrimBrackets()
    ensures Trim("[" + ("" + "]"), IsBracket) == ""
  {
    TrimLeftDrops("[]", "", IsBracket);
    assert "[" + ("" + "]") == "[]" + "";
  }

  lemma {:induction false} JoinEnds(l: seq<Int64>)
    ensures var j := Join(Printed(l), ", "); j != "" ==> !IsBracket(j[0]) && !IsBracket(j[|j| - 1])
    ensures l != [] ==> Join(Printed(l), ", ") != ""
  {
    if l != [] {
      PrintIntChars(l[0]);
      if |l| > 1 {
        JoinEnds(l[1..]);
        assert Printed(l)[1..] == Printed(l[1..]);
      }
    }
  }

  /** Splitting at commas leaves the numbers, all but the first with a leading blank. */
  function Padded(l: seq<Int64>): (ps: seq<string>)
    ensures |ps| == |l|
    ensures forall i :: 0 <= i < |l| ==> ps[i] == (if i == 0 then "" else " ") + PrintInt(l[i])
  {
    if l == [] then [] else
    var n := |l| - 1;
    Padded(l[..n]) + [(if n == 0 then "" else " ") + PrintInt(l[n])]
  }

  lemma {:induction false} JoinPadded(ps: seq<string>, qs: seq<string>)
    requires |ps| == |qs| >= 1 && qs[0] == ps[0]
    requires forall i :: 0 < i < |ps| ==> qs[i] == " " + ps[i]
    ensures Join(ps, ", ") == Join(qs, ",")
    decreases |ps|
  {
    if |ps| > 1 {
      var ps', qs' := [" " + ps[1]] + ps[2..], qs[1..];
      JoinPadded(ps', qs');
      JoinHead(" ", ps[1..], ", ");
      assert [" " + ps[1..][0]] + ps[1..][1..] == ps';
      assert ", " + Join(ps[1..], ", ") == "," + (" " + Join(ps[1..], ", "));
    }
  }

  lemma {:induction false} JoinHead(pad: string, ps: seq<string>, sep: string)
    requires |ps| >= 1
    ensures Join([pad + ps[0]] + ps[1..], sep) == pad + Join(ps, sep)
  {
    if |ps| > 1 {
      assert ([pad + ps[0]] + ps[1..])[1..] == ps[1..];
    }
  }

  lemma {:induction false} TrimPadded(pad: string, n: Int64)
    requires forall c :: c in pad ==> c == ' '
    ensures TrimSpace(pad + PrintInt(n)) == PrintInt(n) != ""
  {
    var p := PrintInt(n);
    PrintIntChars(n);
    assert p[0] in p && p[|p| - 1] in p;
    TrimLeftDrops(pad, p, IsSpace);
    assert p + "" == p;
    TrimRightDrops(p, "", IsSpace);
  }

  lemma {:induction false} ParsedNumber(pieces: seq<string>, piece: string, l: seq<Int64>, n: Int64)
    requires Parsed(pieces) == Success(l) && TrimSpace(piece) == PrintInt(n) != ""
    ensures Parsed(pieces + [piece]) == Success(l + [n])
  {
    AtoiPrint(n);
    assert (pieces + [piece])[..|pieces|] == pieces;
  }

  lemma {:induction false} PaddedStep(l: seq<Int64>)
    requires l != []
    ensures var n := |l| - 1; Padded(l) == Padded(l[..n]) + [(if n == 0 then "" else " ") + PrintInt(l[n])]
  {
  }

  lemma {:induction false} ParsedEmpty()
    ensures Parsed(Padded([])) == Success([])
  {
  }

  lemma {:induction false} ParsedPadded(l: seq<Int64>)
    ensures Parsed(Padded(l)) == Success(l)
  {
    hide *;
    if l == [] {
      ParsedEmpty();
    } else {
      var n := |l| - 1;
      var pad := if n == 0 then "" else " ";
      ParsedPadded(l[..n]);
      TrimPadded(pad, l[n]);
      ParsedNumber(Padded(l[..n]), pad + PrintInt(l[n]), l[..n], l[n]);
      PaddedStep(l);
      assert l == l[..n] + [l[n]];
    }
  }

  lemma {:induction false} ParsedBlank()
    ensures Parsed(Split("", ',')) == Success([])
  {
    assert Split("", ',') == [""];
    assert [""][..0] == [];
  }

  /**
   Setting an empty flag from the text of any list of 64-bit integers restores the list,
   the empty list and negative numbers included.
   */
  lemma {:induction false} RoundTrip(l: seq<Int64>)
    ensures Parsed(Split(Show(l), ',')) == Success(l)
    ensures ReadBeforeError(Split(Show(l), ',')) == l
  {
    hide *;
    ShowIsJoin(l);
    if l == [] {
      ParsedBlank();
      JoinNothing();
    } else {
      JoinPadded(Printed(l), Padded(l));
      PaddedClean(l);
      SplitJoin(Padded(l), ',');
      ParsedPadded(l);
    }
    ReadAll(Split(Show(l), ','), l);
  }

  lemma {:induction false} PaddedClean(l: seq<Int64>)
    ensures forall p :: p in Padded(l) ==> ',' !in p
  {
    hide PrintInt, Padded;
    forall i | 0 <= i < |l| ensures ',' !in Padded(l)[i] {
      PrintIntChars(l[i]);
    }
  }

  lemma {:induction false} ReadAll(pieces: seq<string>, l: seq<Int64>)
    requires Parsed(pieces) == Success(l)
    ensures ReadBeforeError(pieces) == l
  {
  }

  lemma {:induction false} JoinNothing()
    ensures Join(Printed([]), ", ") == ""
  {
  }

  /** The same through the object: print one flag, set a new one from the text. */
  method Reparse(flag: Int64SliceFlag) returns (copy: Int64SliceFlag)
    ensures fresh(copy) && copy.values == flag.values
  {
    RoundTrip(flag.values);
    copy := new Int64SliceFlag();
    var ok := copy.Set(Show(flag.values));
  }
}
