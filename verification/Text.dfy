/** Strings as the gateway's parsers see them, code point by code point: splitting, trimming and decimal numbers. */
module Text {
  datatype Option<+T> = None | Some(value: T)
  datatype Result<+T, +E> = Success(value: T) | Failure(error: E)

  // ---- Splitting -------------------------------------------------------------------------

  /** Position of the first `c`, or the length when there is none. */
  function Find(s: string, c: char): (i: nat)
    ensures i <= |s| && c !in s[..i] && (i < |s| ==> s[i] == c)
  {
    if s == "" || s[0] == c then 0 else
      var r := Find(s[1..], c);
      assert s[..1 + r] == [s[0]] + s[1..][..r];
      1 + r
  }

  /** All pieces between separators; never empty, as a text without `c` is one piece. */
  function Split(s: string, c: char): (parts: seq<string>)
    ensures |parts| >= 1
    ensures forall p :: p in parts ==> c !in p
    decreases |s|
  {
    var i := Find(s, c);
    if i == |s| then
      assert s[..i] == s;
      [s]
    else [s[..i]] + Split(s[i + 1..], c)
  }

  /** The pieces that are not empty. */
  function NonEmpty(parts: seq<string>): (r: seq<string>)
    ensures forall p :: p in r <==> p in parts && p != ""
  {
    if parts == [] then [] else
      var rest := NonEmpty(parts[1..]);
      assert parts == [parts[0]] + parts[1..];
      if parts[0] == "" then rest else [parts[0]] + rest
  }

  lemma {:induction false} NonEmptyFixed(parts: seq<string>)
    requires forall p :: p in parts ==> p != ""
    ensures NonEmpty(parts) == parts
  {
    if parts != [] {
      assert parts[0] in parts && forall p :: p in parts[1..] ==> p in parts;
      NonEmptyFixed(parts[1..]);
      assert parts == [parts[0]] + parts[1..];
    }
  }

  function Join(parts: seq<string>, sep: string): string {
    if parts == [] then ""
    else if |parts| == 1 then parts[0]
    else parts[0] + sep + Join(parts[1..], sep)
  }

  lemma {:induction false} FindIs(s: string, c: char, i: nat)
    requires i <= |s| && c !in s[..i] && (i < |s| ==> s[i] == c)
    ensures Find(s, c) == i
  {
  }

  lemma {:induction false} FindInPrefix(p: string, c: char, rest: string)
    requires c !in p
    ensures Find(p + [c] + rest, c) == |p|
  {
    var s := p + [c] + rest;
    assert s[..|p|] == p;
    FindIs(s, c, |p|);
  }

  lemma {:induction false} SplitAt(s: string, c: char, i: nat)
    requires i < |s| && c !in s[..i] && s[i] == c
    ensures Split(s, c) == [s[..i]] + Split(s[i + 1..], c)
  {
    FindIs(s, c, i);
  }

  lemma {:induction false} SplitNone(s: string, c: char)
    requires c !in s
    ensures Split(s, c) == [s]
  {
    assert s[..|s|] == s;
    FindIs(s, c, |s|);
  }

  /** Joining pieces free of the separator and splitting again returns the pieces. */
  lemma {:induction false} SplitJoin(parts: seq<string>, c: char)
    requires |parts| >= 1 && forall p :: p in parts ==> c !in p
    ensures Split(Join(parts, [c]), c) == parts
  {
    hide Split, Find;
    assert parts[0] in parts;
    if |parts| == 1 {
      SplitNone(parts[0], c);
      assert parts == [parts[0]];
    } else {
      var n, rest := |parts[0]|, Join(parts[1..], [c]);
      var s := parts[0] + [c] + rest;
      assert s[..n] == parts[0] && s[n] == c && s[n + 1..] == rest;
      SplitAt(s, c, n);
      SplitJoin(parts[1..], c);
      assert parts == [parts[0]] + parts[1..];
    }
  }

  // ---- Trimming --------------------------------------------------------------------------

  predicate IsSpace(c: char) {
    var n := c as int;
    || 9 <= n <= 13 || n == 0x20 || n == 0x85 || n == 0xA0 || n == 0x1680 || 0x2000 <= n <= 0x200a
    || n == 0x2028 || n == 0x2029 || n == 0x202f || n == 0x205f || n == 0x3000
  }

  function TrimLeft(s: string, drop: char -> bool): string {
    if s != "" && drop(s[0]) then TrimLeft(s[1..], drop) else s
  }

  function TrimRight(s: string, drop: char -> bool): string {
    if s != "" && drop(s[|s| - 1]) then TrimRight(s[..|s| - 1], drop) else s
  }

  function Trim(s: string, drop: char -> bool): string {
    TrimRight(TrimLeft(s, drop), drop)
  }

  function TrimSpace(s: string): string {
    Trim(s, IsSpace)
  }

  /** Among ASCII characters: tab, line feed, vertical tab, form feed, carriage return and blank. */
  lemma {:induction false} AsciiSpace(c: char)
    requires c as int < 0x80
    ensures IsSpace(c) <==> c == '\t' || c == '\n' || c as int == 11 || c as int == 12 || c == '\r' || c == ' '
  {
  }

  /** Nothing is trimmed of a text that neither begins nor ends with a space. */
  lemma {:induction false} TrimNothing(s: string)
    requires s == "" || (!IsSpace(s[0]) && !IsSpace(s[|s| - 1]))
    ensures TrimSpace(s) == s
  {
  }

  lemma {:induction false} TrimLeftDrops(pad: string, s: string, drop: char -> bool)
    requires forall c :: c in pad ==> drop(c)
    requires s == "" || !drop(s[0])
    ensures TrimLeft(pad + s, drop) == s
  {
    if pad == "" {
      assert pad + s == s;
    } else {
      assert pad[0] in pad;
      assert (pad + s)[1..] == pad[1..] + s;
      TrimLeftDrops(pad[1..], s, drop);
    }
  }

  lemma {:induction false} TrimRightDrops(s: string, pad: string, drop: char -> bool)
    requires forall c :: c in pad ==> drop(c)
    requires s == "" || !drop(s[|s| - 1])
    ensures TrimRight(s + pad, drop) == s
  {
    if pad == "" {
      assert s + pad == s;
    } else {
      assert pad[|pad| - 1] in pad;
      assert (s + pad)[..|s + pad| - 1] == s + pad[..|pad| - 1];
      TrimRightDrops(s, pad[..|pad| - 1], drop);
    }
  }

  // ---- Decimal numbers -------------------------------------------------------------------

  const DIGITS := "0123456789"

  predicate IsDigit(c: char) {
    '0' <= c <= '9'
  }

  function DigitValue(c: char): nat
    requires IsDigit(c)
  {
    c as int - '0' as int
  }

  function Digit(d: nat): (c: char)
    requires d < 10
    ensures IsDigit(c) && DigitValue(c) == d
  {
    DIGITS[d]
  }

  function PrintNat(n: nat): (s: string)
    ensures s != "" && forall i :: 0 <= i < |s| ==> IsDigit(s[i])
  {
    if n < 10 then [Digit(n)] else PrintNat(n / 10) + [Digit(n % 10)]
  }

  /** strconv.Itoa */
  function PrintInt(n: int): string {
    if n < 0 then "-" + PrintNat(-n) else PrintNat(n)
  }

  predicate AllDigits(s: string) {
    s != "" && forall i :: 0 <= i < |s| ==> IsDigit(s[i])
  }

  function NatValue(s: string): nat
    requires forall i :: 0 <= i < |s| ==> IsDigit(s[i])
  {
    if s == "" then 0 else 10 * NatValue(s[..|s| - 1]) + DigitValue(s[|s| - 1])
  }

  const MAX_UINT64: nat := 0xffff_ffff_ffff_ffff
  const MAX_INT64: nat := 0x7fff_ffff_ffff_ffff
  const MIN_INT64: int := -0x8000_0000_0000_0000

  type Int64 = n: int | MIN_INT64 <= n <= MAX_INT64

  /** strconv.ParseUint in base 10 with 64 bits: digits only, and no larger than the type. */
  function ParseUint(s: string): (r: Option<nat>)
    ensures r.Some? ==> r.value <= MAX_UINT64
  {
    if AllDigits(s) && NatValue(s) <= MAX_UINT64 then Some(NatValue(s)) else None
  }

  /** strconv.Atoi: an optional sign, digits, and a value that fits 64 bits. */
  function Atoi(s: string): Option<Int64> {
    var signed := s != "" && (s[0] == '-' || s[0] == '+');
    var digits := if signed then s[1..] else s;
    if !AllDigits(digits) then None
    else if signed && s[0] == '-' then
      if 0 - NatValue(digits) >= MIN_INT64 then Some(0 - NatValue(digits)) else None
    else
      if NatValue(digits) <= MAX_INT64 then Some(NatValue(digits)) else None
  }

  lemma {:induction false} NatValuePrint(n: nat)
    ensures NatValue(PrintNat(n)) == n
  {
    var s := PrintNat(n);
    if n < 10 {
      assert s[..0] == "";
      assert NatValue(s[..0]) == 0;
    } else {
      NatValuePrint(n / 10);
      assert s[..|s| - 1] == PrintNat(n / 10);
    }
  }

  /** Printing an integer and parsing it gives it back exactly if it fits 64 bits. */
  lemma {:induction false} AtoiPrint(n: int)
    ensures Atoi(PrintInt(n)) ==
            if -9_223_372_036_854_775_808 <= n <= 9_223_372_036_854_775_807 then Some(n) else None
  {
    if n < 0 {
      NatValuePrint(0 - n);
      assert PrintInt(n)[1..] == PrintNat(0 - n);
    } else {
      NatValuePrint(n);
      assert IsDigit(PrintInt(n)[0]);
    }
  }

  /** A plus sign is read over, */
  lemma {:induction false} AtoiPlus(n: nat)
    ensures Atoi("+" + PrintNat(n)) == Atoi(PrintNat(n))
  {
    hide NatValue, PrintNat;
    var digits := PrintNat(n);
    assert ("+" + digits)[1..] == digits && IsDigit(digits[0]);
  }

  /** leading zeros count for nothing, */
  lemma {:induction false} AtoiZero(n: nat)
    ensures Atoi("-0" + PrintNat(n)) == Atoi("-" + PrintNat(n))
  {
    hide NatValue, PrintNat;
    var digits := PrintNat(n);
    assert ("-" + digits)[1..] == digits && ("-0" + digits)[1..] == "0" + digits;
    LeadingZero(digits);
  }

  /** and a sign without digits is no number. */
  lemma {:induction false} AtoiNone()
    ensures Atoi("+") == Atoi("-") == Atoi("") == None
  {
  }

  lemma {:induction false} LeadingZero(s: string)
    requires forall i :: 0 <= i < |s| ==> IsDigit(s[i])
    ensures NatValue("0" + s) == NatValue(s)
  {
    if s == "" {
      assert ("0" + s)[..0] == "" && "0" + s == "0";
    } else {
      LeadingZero(s[..|s| - 1]);
      assert ("0" + s)[..|s|] == "0" + s[..|s| - 1];
    }
  }

  /** The same without a sign, for unsigned numbers. */
  lemma {:induction false} ParseUintPrint(n: nat)
    ensures ParseUint(PrintNat(n)) == if n <= 18_446_744_073_709_551_615 then Some(n) else None
  {
    NatValuePrint(n);
  }

  lemma {:induction false} PrintIntInjective(m: int, n: int)
    ensures PrintInt(m) == PrintInt(n) ==> m == n
  {
    if PrintInt(m) == PrintInt(n) {
      assert IsDigit(PrintNat(if m < 0 then -m else m)[0]);
      assert IsDigit(PrintNat(if n < 0 then -n else n)[0]);
      assert (m < 0) == (PrintInt(m)[0] == '-');
      assert (n < 0) == (PrintInt(n)[0] == '-');
      if m < 0 {
        assert PrintInt(m)[1..] == PrintNat(-m) && PrintInt(n)[1..] == PrintNat(-n);
        NatValuePrint(-m);
        NatValuePrint(-n);
      } else {
        NatValuePrint(m);
        NatValuePrint(n);
      }
    }
  }

  /** Printed integers are non-empty and made of digits and at most a leading minus sign. */
  lemma {:induction false} PrintIntChars(n: int)
    ensures PrintInt(n) != ""
    ensures forall c :: c in PrintInt(n) ==> c == '-' || IsDigit(c)
  {
  }
}
