/** The text functions of Go's standard library that the handlers call. */
module GoText {
  import opened Prelude

  // strconv: base-10 printing and 64-bit parsing

  const UINT64_LIMIT: nat := 0x1_0000_0000_0000_0000

  predicate IsDigit(c: char) { '0' <= c <= '9' }

  predicate AllDigits(s: string) { forall i :: 0 <= i < |s| ==> IsDigit(s[i]) }

  function DigitValue(c: char): nat
    requires IsDigit(c)
  {
    c as int - '0' as int
  }

  function Digit(d: nat): char
    requires d < 10
  {
    ('0' as int + d) as char
  }

  function DecimalValue(s: string): nat
    requires AllDigits(s)
  {
    if s == "" then 0 else 10 * DecimalValue(s[..|s| - 1]) + DigitValue(s[|s| - 1])
  }

  /** `strconv.FormatUint(n, 10)`, also the `%d` of `fmt.Sprintf`. */
  function FormatUint(n: nat): string {
    if n < 10 then [Digit(n)] else FormatUint(n / 10) + [Digit(n % 10)]
  }

  /** `strconv.ParseUint(s, 10, 64)`: digits only, at least one, below 2^64. */
  function ParseUint(s: string): Option<nat> {
    if s != "" && AllDigits(s) && DecimalValue(s) < UINT64_LIMIT then Some(DecimalValue(s)) else None
  }

  lemma {:induction false} FormatUintDigits(n: nat)
    ensures FormatUint(n) != "" && AllDigits(FormatUint(n))
    ensures DecimalValue(FormatUint(n)) == n
  {
    if n >= 10 {
      FormatUintDigits(n / 10);
      var front := FormatUint(n / 10);
      assert FormatUint(n)[..|front|] == front;
    }
  }

  /** Every 64-bit id survives being printed and parsed. */
  lemma ParseFormatUint(n: nat)
    requires n < UINT64_LIMIT
    ensures ParseUint(FormatUint(n)) == Some(n)
  {
    FormatUintDigits(n);
  }

  predicate AllZeros(s: string) { forall i :: 0 <= i < |s| ==> s[i] == '0' }

  /** Digits that stand for n: its printed form behind any number of zeros. */
  predicate StandsFor(s: string, n: nat) {
    |FormatUint(n)| <= |s| && var zeros := |s| - |FormatUint(n)|; AllZeros(s[..zeros]) && s[zeros..] == FormatUint(n)
  }

  lemma {:induction false} DigitsStandForValue(s: string)
    requires s != "" && AllDigits(s)
    ensures StandsFor(s, DecimalValue(s))
  {
    var front, last := s[..|s| - 1], s[|s| - 1];
    assert [Digit(DigitValue(last))] == [last];
    if front == "" {
      assert s == [last] && DecimalValue(front) == 0;
    } else {
      DigitsStandForValue(front);
      var n, m := DecimalValue(s), DecimalValue(front);
      assert n / 10 == m && n % 10 == DigitValue(last);
      var zeros := |front| - |FormatUint(m)|;
      if m == 0 {
        assert FormatUint(n) == [last] && FormatUint(0) == "0";
        assert forall i :: 0 <= i < |front| ==> s[i] == front[i];
        assert front[zeros..] == "0";
        assert front[zeros] == '0';
      } else {
        assert FormatUint(n) == FormatUint(m) + [last];
        assert s[..zeros] == front[..zeros] && s[zeros..] == front[zeros..] + [last];
      }
    }
  }

  lemma {:induction false} StandsForValue(s: string, n: nat)
    requires StandsFor(s, n)
    ensures s != "" && AllDigits(s) && DecimalValue(s) == n
  {
    FormatUintDigits(n);
    var zeros := |s| - |FormatUint(n)|;
    if zeros == 0 {
      assert s == FormatUint(n);
    } else {
      LeadingZero(s);
      StandsForValue(s[1..], n);
      assert s[1..][..zeros - 1] == s[..zeros][1..] && s[1..][zeros - 1..] == s[zeros..];
    }
  }

  lemma {:induction false} LeadingZero(s: string)
    requires |s| > 1 && s[0] == '0'
    ensures AllDigits(s) <==> AllDigits(s[1..])
    ensures AllDigits(s) ==> DecimalValue(s) == DecimalValue(s[1..])
  {
    assert AllDigits(s[1..]) ==> forall i :: 1 <= i < |s| ==> s[i] == s[1..][i - 1];
    var front := s[..|s| - 1];
    if |s| > 2 {
      LeadingZero(front);
      assert front[1..] == s[1..][..|s| - 2];
    } else {
      assert front == "0" && DecimalValue("") == 0 && s[1..][..0] == "";
    }
  }

  /** Exactly the printed 64-bit numbers, leading zeros allowed, are parsed, and to that number. */
  lemma ParseUintExactly(s: string, n: nat)
    ensures ParseUint(s) == Some(n) <==> n < UINT64_LIMIT && StandsFor(s, n)
  {
    if ParseUint(s) == Some(n) { DigitsStandForValue(s); }
    if StandsFor(s, n) { StandsForValue(s, n); }
  }

  // strings

  predicate MatchesAt(s: string, sub: string, i: nat) {
    i + |sub| <= |s| && s[i..i + |sub|] == sub
  }

  /** The last match that starts at or before `i`, or -1. */
  function LastMatch(s: string, sub: string, i: nat): int {
    if MatchesAt(s, sub, i) then i else if i == 0 then -1 else LastMatch(s, sub, i - 1)
  }

  /** `strings.LastIndex`. */
  function LastIndex(s: string, sub: string): int { LastMatch(s, sub, |s|) }

  lemma {:induction false} LastMatchIs(s: string, sub: string, at: nat, i: nat)
    requires at <= i && MatchesAt(s, sub, at)
    requires forall j :: at < j <= i ==> !MatchesAt(s, sub, j)
    ensures LastMatch(s, sub, i) == at
  {
    if i != at { LastMatchIs(s, sub, at, i - 1); }
  }

  lemma {:induction false} LastMatchNone(s: string, sub: string, i: nat)
    requires forall j: nat :: j <= i ==> !MatchesAt(s, sub, j)
    ensures LastMatch(s, sub, i) == -1
  {
    if i != 0 { LastMatchNone(s, sub, i - 1); }
  }

  lemma {:induction false} LastMatchMatches(s: string, sub: string, i: nat)
    ensures LastMatch(s, sub, i) >= 0 ==> LastMatch(s, sub, i) <= i && MatchesAt(s, sub, LastMatch(s, sub, i))
    ensures forall j: nat :: LastMatch(s, sub, i) < j <= i ==> !MatchesAt(s, sub, j)
  {
    if !MatchesAt(s, sub, i) && i != 0 { LastMatchMatches(s, sub, i - 1); }
  }

  /** Matches in a tail are matches in the whole. */
  lemma MatchInTail(s: string, sub: string, k: nat, j: nat)
    requires k <= |s|
    ensures MatchesAt(s[k..], sub, j) <==> MatchesAt(s, sub, k + j)
  {
    if k + j + |sub| <= |s| { assert s[k..][j..j + |sub|] == s[k + j..k + j + |sub|]; }
  }

  function TrimLeft(s: string, cut: char -> bool): string {
    if s != "" && cut(s[0]) then TrimLeft(s[1..], cut) else s
  }

  function TrimRight(s: string, cut: char -> bool): string {
    if s != "" && cut(s[|s| - 1]) then TrimRight(s[..|s| - 1], cut) else s
  }

  /** `strings.Trim` and, with the white-space set, `strings.TrimSpace`. */
  function Trim(s: string, cut: char -> bool): string { TrimRight(TrimLeft(s, cut), cut) }

  /** `unicode.IsSpace`. */
  predicate IsSpace(c: char) {
    var n := c as int;
    9 <= n <= 13 || n == 0x20 || n == 0x85 || n == 0xA0 || n == 0x1680 || 0x2000 <= n <= 0x200A
    || n == 0x2028 || n == 0x2029 || n == 0x202F || n == 0x205F || n == 0x3000
  }

  /** Among ASCII characters: tab, line feed, vertical tab, form feed, carriage return and the space. */
  lemma AsciiSpaces(c: char)
    requires c as int < 128
    ensures IsSpace(c) <==> c == ' ' || '\t' <= c <= '\r'
  {
  }

  function TrimSpace(s: string): string { Trim(s, IsSpace) }

  predicate All(s: string, p: char -> bool) { forall i :: 0 <= i < |s| ==> p(s[i]) }

  lemma {:induction false} TrimLeftSkips(pad: string, core: string, cut: char -> bool)
    requires All(pad, cut)
    requires core == "" || !cut(core[0])
    ensures TrimLeft(pad + core, cut) == core
  {
    if pad == "" {
      assert pad + core == core;
    } else {
      assert (pad + core)[1..] == pad[1..] + core;
      assert (pad + core)[0] == pad[0];
      TrimLeftSkips(pad[1..], core, cut);
    }
  }

  lemma {:induction false} TrimRightSkips(core: string, pad: string, cut: char -> bool)
    requires All(pad, cut)
    requires core == "" || !cut(core[|core| - 1])
    ensures TrimRight(core + pad, cut) == core
  {
    if pad == "" {
      assert core + pad == core;
    } else {
      assert (core + pad)[..|core + pad| - 1] == core + pad[..|pad| - 1];
      assert (core + pad)[|core + pad| - 1] == pad[|pad| - 1];
      TrimRightSkips(core, pad[..|pad| - 1], cut);
    }
  }

  /** Padding from the cut set on both sides of a clean core is exactly what `Trim` removes. */
  lemma TrimCore(left: string, core: string, right: string, cut: char -> bool)
    requires All(left, cut) && All(right, cut) && core != ""
    requires !cut(core[0]) && !cut(core[|core| - 1])
    ensures Trim(left + core + right, cut) == core
  {
    assert left + core + right == left + (core + right);
    TrimLeftSkips(left, core + right, cut);
    TrimRightSkips(core, right, cut);
  }

  lemma {:induction false} TrimLeftParts(s: string, cut: char -> bool) returns (pad: string)
    ensures s == pad + TrimLeft(s, cut) && All(pad, cut)
    ensures TrimLeft(s, cut) != "" ==> !cut(TrimLeft(s, cut)[0])
  {
    pad := "";
    if s != "" && cut(s[0]) {
      var rest := TrimLeftParts(s[1..], cut);
      pad := [s[0]] + rest;
    }
  }

  lemma {:induction false} TrimRightParts(s: string, cut: char -> bool) returns (pad: string)
    ensures s == TrimRight(s, cut) + pad && All(pad, cut)
    ensures TrimRight(s, cut) != "" ==> !cut(TrimRight(s, cut)[|TrimRight(s, cut)| - 1])
  {
    pad := "";
    if s != "" && cut(s[|s| - 1]) {
      var rest := TrimRightParts(s[..|s| - 1], cut);
      pad := rest + [s[|s| - 1]];
    }
  }

  /** A text that neither begins nor ends with something to cut. */
  predicate CleanEnds(s: string, cut: char -> bool) { s != "" ==> !cut(s[0]) && !cut(s[|s| - 1]) }

  /** What `Trim` takes off are two runs from the cut set, and what it leaves has clean ends. */
  lemma TrimParts(s: string, cut: char -> bool) returns (left: string, right: string)
    ensures s == left + Trim(s, cut) + right && All(left, cut) && All(right, cut) && CleanEnds(Trim(s, cut), cut)
  {
    left := TrimLeftParts(s, cut);
    right := TrimRightParts(TrimLeft(s, cut), cut);
    var core := Trim(s, cut);
    if core != "" { assert TrimLeft(s, cut)[0] == core[0]; }
  }

  /** Position of the first `c`, or the length when there is none. */
  function IndexOf(s: string, c: char): (i: nat)
    ensures i <= |s| && (i < |s| ==> s[i] == c)
    ensures forall j :: 0 <= j < i ==> s[j] != c
  {
    if s == "" || s[0] == c then 0 else 1 + IndexOf(s[1..], c)
  }

  /** `strings.Split` on a one-character separator. */
  function Split(s: string, c: char): seq<string> {
    var i := IndexOf(s, c);
    if i < |s| then [s[..i]] + Split(s[i + 1..], c) else [s]
  }

  /** Text without the separator, then the separator, then the rest: `Split` cuts right there. */
  lemma SplitFirst(a: string, c: char, rest: string)
    requires c !in a
    ensures IndexOf(a + [c] + rest, c) == |a|
    ensures Split(a + [c] + rest, c) == [a] + Split(rest, c)
  {
    var s := a + [c] + rest;
    assert s[|a|] == c;
    assert forall j :: 0 <= j < |a| ==> s[j] == a[j] && a[j] in a;
    assert s[..|a|] == a && s[|a| + 1..] == rest;
  }

  lemma SplitWhole(s: string, c: char)
    requires c !in s
    ensures Split(s, c) == [s]
  {
    assert forall j :: 0 <= j < |s| ==> s[j] in s;
  }

  /** Two parts mean one separator, between them. */
  lemma SplitInTwo(s: string, c: char)
    ensures |Split(s, c)| == 2 ==>
              var parts := Split(s, c); s == parts[0] + [c] + parts[1] && c !in parts[0] && c !in parts[1]
  {
    var i := IndexOf(s, c);
    if i < |s| {
      var rest := s[i + 1..];
      assert s == s[..i] + [c] + rest;
      var j := IndexOf(rest, c);
      if j == |rest| {
        assert Split(rest, c) == [rest];
      } else {
        assert |Split(rest[j + 1..], c)| >= 1;
        assert Split(rest, c) == [rest[..j]] + Split(rest[j + 1..], c);
      }
    }
  }

  lemma DigitsAvoid(s: string, c: char)
    requires AllDigits(s) && !IsDigit(c)
    ensures c !in s
  {
  }

  /** Go's `<` on strings: bytewise lexicographic. */
  predicate Less(a: string, b: string) {
    b != "" && (a == "" || a[0] < b[0] || (a[0] == b[0] && Less(a[1..], b[1..])))
  }

  /** ASCII lower-casing, which is all of `strings.EqualFold` for the prefix "Bearer ". */
  function ToLower(c: char): char {
    if 'A' <= c <= 'Z' then (c as int + 32) as char else c
  }

  predicate EqualFold(a: string, b: string) {
    |a| == |b| && forall i :: 0 <= i < |a| ==> ToLower(a[i]) == ToLower(b[i])
  }
}
