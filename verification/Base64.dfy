/** Standard base64 with padding (section 4 of RFC 4648), decoding as leniently as Go's StdEncoding. */
module Base64 {
  import opened Prelude

  type Byte = b: int | 0 <= b < 256

  type Sextet = v: int | 0 <= v < 64

  function EncodeSextet(v: Sextet): char {
    if v < 26 then ('A' as int + v) as char
    else if v < 52 then ('a' as int + v - 26) as char
    else if v < 62 then ('0' as int + v - 52) as char
    else if v == 62 then '+'
    else '/'
  }

  function DecodeSextet(c: char): Option<Sextet> {
    if 'A' <= c <= 'Z' then Some(c as int - 'A' as int)
    else if 'a' <= c <= 'z' then Some(c as int - 'a' as int + 26)
    else if '0' <= c <= '9' then Some(c as int - '0' as int + 52)
    else if c == '+' then Some(62)
    else if c == '/' then Some(63)
    else None
  }

  lemma SextetRoundTrip(v: Sextet)
    ensures DecodeSextet(EncodeSextet(v)) == Some(v)
    ensures EncodeSextet(v) != '=' && !IsNewline(EncodeSextet(v))
  {
  }

  /** Four characters for three bytes. */
  function Quantum(x: Byte, y: Byte, z: Byte): string {
    [EncodeSextet(x / 4), EncodeSextet(x % 4 * 16 + y / 16), EncodeSextet(y % 16 * 4 + z / 64), EncodeSextet(z % 64)]
  }

  function Encode(b: seq<Byte>): string {
    if |b| == 0 then ""
    else if |b| == 1 then [EncodeSextet(b[0] / 4), EncodeSextet(b[0] % 4 * 16), '=', '=']
    else if |b| == 2 then
      [EncodeSextet(b[0] / 4), EncodeSextet(b[0] % 4 * 16 + b[1] / 16), EncodeSextet(b[1] % 16 * 4), '=']
    else Quantum(b[0], b[1], b[2]) + Encode(b[3..])
  }

  predicate IsNewline(c: char) { c == '\r' || c == '\n' }

  function DropNewlines(s: string): string {
    if s == "" then "" else (if IsNewline(s[0]) then "" else [s[0]]) + DropNewlines(s[1..])
  }

  /** Quantum by quantum; padding only in the last one; leftover bits under the padding are not checked. */
  function DecodeQuanta(s: string): Option<seq<Byte>> {
    if s == "" then Some([])
    else if |s| < 4 then None
    else
      var v0, v1, v2, v3 := DecodeSextet(s[0]), DecodeSextet(s[1]), DecodeSextet(s[2]), DecodeSextet(s[3]);
      if v0.None? || v1.None? then None
      else
        var b0 := v0.value * 4 + v1.value / 16;
        if s[2] == '=' then (if s[3] == '=' && |s| == 4 then Some([b0]) else None)
        else if v2.None? then None
        else
          var b1 := v1.value % 16 * 16 + v2.value / 4;
          if s[3] == '=' then (if |s| == 4 then Some([b0, b1]) else None)
          else if v3.None? then None
          else
            var rest := DecodeQuanta(s[4..]);
            if rest.None? then None else Some([b0, b1, v2.value % 4 * 64 + v3.value] + rest.value)
  }

  /** `base64.StdEncoding.DecodeString`. */
  function Decode(s: string): Option<seq<Byte>> { DecodeQuanta(DropNewlines(s)) }

  lemma {:induction false} DropNewlinesNone(s: string)
    requires forall i :: 0 <= i < |s| ==> s[i] != '\r' && s[i] != '\n'
    ensures DropNewlines(s) == s
  {
    if s != "" { DropNewlinesNone(s[1..]); }
  }

  lemma {:induction false} DropNewlinesApart(s: string, t: string)
    ensures DropNewlines(s + t) == DropNewlines(s) + DropNewlines(t)
  {
    if s == "" {
      assert s + t == t;
    } else {
      assert (s + t)[1..] == s[1..] + t;
      DropNewlinesApart(s[1..], t);
    }
  }

  /** A line break anywhere makes no difference. */
  lemma LineBreaksDoNotCount(s: string, c: char, t: string)
    requires c == '\r' || c == '\n'
    ensures Decode(s + [c] + t) == Decode(s + t)
  {
    DropNewlinesApart(s + [c], t);
    DropNewlinesApart(s, [c]);
    DropNewlinesApart(s, t);
    assert [c][1..] == "" && DropNewlines([c]) == "";
    assert DropNewlines(s) + "" == DropNewlines(s);
  }

  lemma {:induction false} EncodeHasNoNewline(b: seq<Byte>)
    ensures forall i :: 0 <= i < |Encode(b)| ==> !IsNewline(Encode(b)[i])
  {
    if |b| >= 3 { EncodeHasNoNewline(b[3..]); }
  }

  /** Splitting three bytes into sextets and joining them again, with or without trailing zero bytes. */
  lemma BytesRejoin(x: Byte, y: Byte, z: Byte)
    ensures x / 4 * 4 + (x % 4 * 16 + y / 16) / 16 == x
    ensures (x % 4 * 16 + y / 16) % 16 * 16 + (y % 16 * 4 + z / 64) / 4 == y
    ensures (y % 16 * 4 + z / 64) % 4 * 64 + z % 64 == z
  {
    assert (x % 4 * 16 + y / 16) / 16 == x % 4;
    assert (x % 4 * 16 + y / 16) % 16 == y / 16;
    assert (y % 16 * 4 + z / 64) / 4 == y % 16;
    assert (y % 16 * 4 + z / 64) % 4 == z / 64;
  }

  /** A full quantum in front of anything decodable. */
  lemma QuantumDecodes(v0: Sextet, v1: Sextet, v2: Sextet, v3: Sextet, rest: string)
    ensures var q := [EncodeSextet(v0), EncodeSextet(v1), EncodeSextet(v2), EncodeSextet(v3)];
            var tail := DecodeQuanta(rest);
            DecodeQuanta(q + rest)
              == if tail.None? then None
                 else Some([v0 * 4 + v1 / 16, v1 % 16 * 16 + v2 / 4, v2 % 4 * 64 + v3] + tail.value)
  {
    var c0, c1, c2, c3 := EncodeSextet(v0), EncodeSextet(v1), EncodeSextet(v2), EncodeSextet(v3);
    assert DecodeSextet(c0) == Some(v0) && DecodeSextet(c1) == Some(v1) by { SextetRoundTrip(v0); SextetRoundTrip(v1); }
    assert DecodeSextet(c2) == Some(v2) && c2 != '=' by { SextetRoundTrip(v2); }
    assert DecodeSextet(c3) == Some(v3) && c3 != '=' by { SextetRoundTrip(v3); }
    QuantumStep([c0, c1, c2, c3] + rest, v0, v1, v2, v3);
    assert ([c0, c1, c2, c3] + rest)[4..] == rest;
  }

  /** Four decodable characters in front. */
  lemma QuantumStep(s: string, v0: Sextet, v1: Sextet, v2: Sextet, v3: Sextet)
    requires |s| >= 4 && s[2] != '=' && s[3] != '='
    requires DecodeSextet(s[0]) == Some(v0) && DecodeSextet(s[1]) == Some(v1)
    requires DecodeSextet(s[2]) == Some(v2) && DecodeSextet(s[3]) == Some(v3)
    ensures var tail := DecodeQuanta(s[4..]);
            DecodeQuanta(s)
              == if tail.None? then None
                 else Some([v0 * 4 + v1 / 16, v1 % 16 * 16 + v2 / 4, v2 % 4 * 64 + v3] + tail.value)
  {
  }

  lemma OneByteDecodes(x: Byte)
    ensures DecodeQuanta(Encode([x])) == Some([x])
  {
    SextetRoundTrip(x / 4);
    SextetRoundTrip(x % 4 * 16);
    BytesRejoin(x, 0, 0);
  }

  lemma TwoBytesDecode(x: Byte, y: Byte)
    ensures DecodeQuanta(Encode([x, y])) == Some([x, y])
  {
    SextetRoundTrip(x / 4);
    SextetRoundTrip(x % 4 * 16 + y / 16);
    SextetRoundTrip(y % 16 * 4);
    BytesRejoin(x, y, 0);
  }

  /** Three bytes make a quantum in front of the encoding of the rest. */
  lemma EncodeStep(b: seq<Byte>)
    requires |b| >= 3
    ensures Encode(b) == Quantum(b[0], b[1], b[2]) + Encode(b[3..])
  {
  }

  lemma QuantumRoundTrip(x: Byte, y: Byte, z: Byte, tail: string, rest: seq<Byte>)
    requires DecodeQuanta(tail) == Some(rest)
    ensures DecodeQuanta(Quantum(x, y, z) + tail) == Some([x, y, z] + rest)
  {
    var v0, v1, v2, v3 := x / 4, x % 4 * 16 + y / 16, y % 16 * 4 + z / 64, z % 64;
    QuantumDecodes(v0, v1, v2, v3, tail);
    assert v0 * 4 + v1 / 16 == x && v1 % 16 * 16 + v2 / 4 == y && v2 % 4 * 64 + v3 == z by { BytesRejoin(x, y, z); }
  }

  lemma {:induction false} QuantaRoundTrip(b: seq<Byte>)
    ensures DecodeQuanta(Encode(b)) == Some(b)
  {
    if |b| == 0 {
    } else if |b| == 1 {
      OneByteDecodes(b[0]);
      assert b == [b[0]];
    } else if |b| == 2 {
      TwoBytesDecode(b[0], b[1]);
      assert b == [b[0], b[1]];
    } else {
      var code, rest := Encode(b[3..]), b[3..];
      QuantaRoundTrip(rest);
      assert b == [b[0], b[1], b[2]] + rest;
      assert DecodeQuanta(Encode(b)) == Some([b[0], b[1], b[2]] + rest) by {
        QuantumRoundTrip(b[0], b[1], b[2], code, rest);
        EncodeStep(b);
      }
    }
  }

  /** Every byte string decodes back from its encoding. */
  lemma RoundTrip(b: seq<Byte>)
    ensures Decode(Encode(b)) == Some(b)
  {
    EncodeHasNoNewline(b);
    DropNewlinesNone(Encode(b));
    QuantaRoundTrip(b);
  }

  // What decodes, and to what

  predicate InAlphabet(c: char) { 'A' <= c <= 'Z' || 'a' <= c <= 'z' || '0' <= c <= '9' || c == '+' || c == '/' }

  /** Whole quanta of the alphabet, the last one with at most two characters of padding. */
  predicate WellFormed(s: string) {
    && |s| % 4 == 0
    && (forall i :: 0 <= i < |s| - 2 ==> InAlphabet(s[i]))
    && (s != "" ==> || (InAlphabet(s[|s| - 2]) && (InAlphabet(s[|s| - 1]) || s[|s| - 1] == '='))
                    || s[|s| - 2] == s[|s| - 1] == '=')
  }

  lemma AlphabetDecodes(c: char)
    ensures DecodeSextet(c).Some? <==> InAlphabet(c)
    ensures DecodeSextet(c).Some? ==> EncodeSextet(DecodeSextet(c).value) == c && c != '='
  {
  }

  lemma {:induction false} DecodesExactly(s: string)
    ensures DecodeQuanta(s).Some? <==> WellFormed(s)
    decreases |s|
  {
    if |s| >= 4 {
      AlphabetDecodes(s[0]);
      AlphabetDecodes(s[1]);
      AlphabetDecodes(s[2]);
      AlphabetDecodes(s[3]);
      if |s| > 4 {
        DecodesExactly(s[4..]);
        WellFormedStep(s);
      }
    }
  }

  lemma WellFormedStep(s: string)
    requires |s| > 4
    ensures WellFormed(s) <==> InAlphabet(s[0]) && InAlphabet(s[1]) && InAlphabet(s[2]) && InAlphabet(s[3])
                               && WellFormed(s[4..])
  {
    var t := s[4..];
    assert forall i :: 0 <= i < |t| ==> t[i] == s[i + 4];
    if WellFormed(s) {
      assert |s| >= 8 && InAlphabet(s[0]) && InAlphabet(s[1]) && InAlphabet(s[2]) && InAlphabet(s[3]);
      forall i | 0 <= i < |t| - 2 ensures InAlphabet(t[i]) { assert InAlphabet(s[i + 4]); }
    }
    if InAlphabet(s[0]) && InAlphabet(s[1]) && InAlphabet(s[2]) && InAlphabet(s[3]) && WellFormed(t) {
      forall i | 0 <= i < |s| - 2 ensures InAlphabet(s[i]) {
        if i >= 4 { assert InAlphabet(t[i - 4]); }
      }
    }
  }

  /** The character right before the padding, whose low bits are not checked. */
  predicate IsSpare(s: string, i: nat) { i + 1 < |s| && s[i] != '=' && s[i + 1] == '=' }

  /** Its sextet without those bits: four of them before two characters of padding, two before one. */
  predicate SameBits(c: char, d: char, twoPads: bool) {
    DecodeSextet(c).Some? && d == EncodeSextet(if twoPads then DecodeSextet(c).value / 16 * 16
                                               else DecodeSextet(c).value / 4 * 4)
  }

  /** The same text, up to the unchecked bits. */
  predicate SameCode(s: string, e: string) {
    |s| == |e| && forall i :: 0 <= i < |s| ==> if IsSpare(s, i) then SameBits(s[i], e[i], i + 2 < |s|) else e[i] == s[i]
  }

  /** Sextets joined into bytes and split again. */
  lemma SextetsRejoin(v0: Sextet, v1: Sextet, v2: Sextet, v3: Sextet)
    ensures var x, y, z := v0 * 4 + v1 / 16, v1 % 16 * 16 + v2 / 4, v2 % 4 * 64 + v3;
            && 0 <= x < 256 && 0 <= y < 256 && 0 <= z < 256
            && x / 4 == v0 && x % 4 * 16 + y / 16 == v1 && y % 16 * 4 + z / 64 == v2 && z % 64 == v3
            && x % 4 * 16 == v1 / 16 * 16 && y % 16 * 4 == v2 / 4 * 4
  {
    var x, y := v0 * 4 + v1 / 16, v1 % 16 * 16 + v2 / 4;
    assert x / 4 == v0 && x % 4 == v1 / 16;
    assert y / 16 == v1 % 16 && y % 16 == v2 / 4;
  }

  lemma TwoPadsBack(s: string, v0: Sextet, v1: Sextet)
    requires |s| == 4 && s[2] == s[3] == '=' && s[0] == EncodeSextet(v0) && s[1] == EncodeSextet(v1)
    ensures 0 <= v0 * 4 + v1 / 16 < 256 && SameCode(s, Encode([v0 * 4 + v1 / 16]))
  {
    SextetsRejoin(v0, v1, 0, 0);
    SextetRoundTrip(v0);
    SextetRoundTrip(v1);
    SextetRoundTrip(v1 / 16 * 16);
  }

  lemma OnePadBack(s: string, v0: Sextet, v1: Sextet, v2: Sextet)
    requires |s| == 4 && s[3] == '='
    requires s[0] == EncodeSextet(v0) && s[1] == EncodeSextet(v1) && s[2] == EncodeSextet(v2)
    ensures 0 <= v0 * 4 + v1 / 16 < 256 && 0 <= v1 % 16 * 16 + v2 / 4 < 256
    ensures SameCode(s, Encode([v0 * 4 + v1 / 16, v1 % 16 * 16 + v2 / 4]))
  {
    SextetsRejoin(v0, v1, v2, 0);
    SextetRoundTrip(v0);
    SextetRoundTrip(v1);
    SextetRoundTrip(v2);
    SextetRoundTrip(v2 / 4 * 4);
  }

  lemma QuantumBack(s: string, v0: Sextet, v1: Sextet, v2: Sextet, v3: Sextet, rest: seq<Byte>)
    requires |s| >= 4 && s[0] == EncodeSextet(v0) && s[1] == EncodeSextet(v1)
    requires s[2] == EncodeSextet(v2) && s[3] == EncodeSextet(v3) && SameCode(s[4..], Encode(rest))
    requires |s| > 4 ==> s[4] != '='
    ensures var x, y, z := v0 * 4 + v1 / 16, v1 % 16 * 16 + v2 / 4, v2 % 4 * 64 + v3;
            && 0 <= x < 256 && 0 <= y < 256 && 0 <= z < 256
            && SameCode(s, Encode([x, y, z] + rest))
  {
    SextetsRejoin(v0, v1, v2, v3);
    SextetRoundTrip(v1);
    SextetRoundTrip(v2);
    SextetRoundTrip(v3);
    var b: seq<Byte> := [v0 * 4 + v1 / 16, v1 % 16 * 16 + v2 / 4, v2 % 4 * 64 + v3] + rest;
    assert b[3..] == rest;
    EncodeStep(b);
    var e, t := Encode(b), s[4..];
    forall i | 4 <= i < |s|
      ensures e[i] == Encode(rest)[i - 4] && s[i] == t[i - 4] && (IsSpare(s, i) <==> IsSpare(t, i - 4))
    {
    }
  }

  /** The sextets behind a last quantum of one byte. */
  lemma TwoPadSextets(s: string) returns (v0: Sextet, v1: Sextet)
    requires |s| >= 4 && s[2] == '=' && DecodeQuanta(s).Some?
    ensures |s| == 4 && s[3] == '=' && s[0] == EncodeSextet(v0) && s[1] == EncodeSextet(v1)
    ensures DecodeQuanta(s).value == [v0 * 4 + v1 / 16]
  {
    AlphabetDecodes(s[0]);
    AlphabetDecodes(s[1]);
    v0, v1 := DecodeSextet(s[0]).value, DecodeSextet(s[1]).value;
  }

  /** The sextets behind a last quantum of two bytes. */
  lemma OnePadSextets(s: string) returns (v0: Sextet, v1: Sextet, v2: Sextet)
    requires |s| >= 4 && s[2] != '=' && s[3] == '=' && DecodeQuanta(s).Some?
    ensures |s| == 4 && s[0] == EncodeSextet(v0) && s[1] == EncodeSextet(v1) && s[2] == EncodeSextet(v2)
    ensures DecodeQuanta(s).value == [v0 * 4 + v1 / 16, v1 % 16 * 16 + v2 / 4]
  {
    AlphabetDecodes(s[0]);
    AlphabetDecodes(s[1]);
    AlphabetDecodes(s[2]);
    v0, v1, v2 := DecodeSextet(s[0]).value, DecodeSextet(s[1]).value, DecodeSextet(s[2]).value;
  }

  /** The sextets behind a quantum of three bytes. */
  lemma QuantumSextets(s: string) returns (v0: Sextet, v1: Sextet, v2: Sextet, v3: Sextet)
    requires |s| >= 4 && s[2] != '=' && s[3] != '=' && DecodeQuanta(s).Some?
    ensures s[0] == EncodeSextet(v0) && s[1] == EncodeSextet(v1) && s[2] == EncodeSextet(v2) && s[3] == EncodeSextet(v3)
    ensures DecodeQuanta(s[4..]).Some?
    ensures DecodeQuanta(s).value
         == [v0 * 4 + v1 / 16, v1 % 16 * 16 + v2 / 4, v2 % 4 * 64 + v3] + DecodeQuanta(s[4..]).value
  {
    AlphabetDecodes(s[0]);
    AlphabetDecodes(s[1]);
    AlphabetDecodes(s[2]);
    AlphabetDecodes(s[3]);
    v0, v1 := DecodeSextet(s[0]).value, DecodeSextet(s[1]).value;
    v2, v3 := DecodeSextet(s[2]).value, DecodeSextet(s[3]).value;
  }

  lemma FirstIsNoPad(s: string)
    requires DecodeQuanta(s).Some? && s != ""
    ensures |s| >= 4 && s[0] != '='
  {
    AlphabetDecodes(s[0]);
  }

  predicate DecodesBack(s: string) {
    var b := DecodeQuanta(s);
    b.Some? && SameCode(s, Encode(b.value))
  }

  lemma TwoPadsCase(s: string)
    requires |s| >= 4 && s[2] == '=' && DecodeQuanta(s).Some?
    ensures DecodesBack(s)
  {
    var v0, v1 := TwoPadSextets(s);
    TwoPadsBack(s, v0, v1);
  }

  lemma OnePadCase(s: string)
    requires |s| >= 4 && s[2] != '=' && s[3] == '=' && DecodeQuanta(s).Some?
    ensures DecodesBack(s)
  {
    var v0, v1, v2 := OnePadSextets(s);
    OnePadBack(s, v0, v1, v2);
  }

  lemma QuantumCase(s: string)
    requires |s| >= 4 && s[2] != '=' && s[3] != '=' && DecodeQuanta(s).Some? && DecodesBack(s[4..])
    ensures DecodesBack(s)
  {
    var v0, v1, v2, v3 := QuantumSextets(s);
    if |s| > 4 { FirstIsNoPad(s[4..]); }
    QuantumBack(s, v0, v1, v2, v3, DecodeQuanta(s[4..]).value);
  }

  /** What decodes is, up to those bits, the encoding of what it decodes to. */
  lemma {:induction false} DecodingEncodesBack(s: string)
    requires DecodeQuanta(s).Some?
    ensures DecodesBack(s)
    decreases |s|
  {
    if s == "" { return; }
    FirstIsNoPad(s);
    if s[2] == '=' {
      TwoPadsCase(s);
    } else if s[3] == '=' {
      OnePadCase(s);
    } else {
      var _, _, _, _ := QuantumSextets(s);
      DecodingEncodesBack(s[4..]);
      QuantumCase(s);
    }
  }

  /** Exactly such texts decode, line breaks set aside, and to the bytes whose encoding they are. */
  lemma DecodeExactly(s: string)
    ensures Decode(s).Some? <==> WellFormed(DropNewlines(s))
    ensures Decode(s).Some? ==> SameCode(DropNewlines(s), Encode(Decode(s).value))
  {
    DecodesExactly(DropNewlines(s));
    if Decode(s).Some? { DecodingEncodesBack(DropNewlines(s)); }
  }

  // Encodings of digits and ':'

  /** ASCII '0'..'9' and ':' are the bytes 48..58. */
  predicate Tagged(b: seq<Byte>) { forall i :: 0 <= i < |b| ==> 48 <= b[i] <= 58 }

  /** Letters, digits and padding: no '/', '+', '-' or space. */
  predicate Plain(c: char) { 'A' <= c <= 'Z' || 'a' <= c <= 'z' || '0' <= c <= '9' || c == '=' }

  /** Only the sextets 62 and 63 are written as signs. */
  lemma LowSextetIsPlain(v: Sextet)
    ensures v < 62 <==> Plain(EncodeSextet(v))
  {
  }

  lemma TaggedSextetsAreLow(x: Byte, y: Byte, z: Byte)
    requires 48 <= x <= 58 && 48 <= y <= 58 && 48 <= z <= 58
    ensures x / 4 < 62 && x % 4 * 16 < 62 && x % 4 * 16 + y / 16 < 62
    ensures y % 16 * 4 < 62 && y % 16 * 4 + z / 64 < 62 && z % 64 < 62
  {
    assert y / 16 == 3 && z / 64 == 0 && y % 16 <= 10;
  }

  predicate AllPlain(s: string) { forall i :: 0 <= i < |s| ==> Plain(s[i]) }

  lemma TaggedQuantum(x: Byte, y: Byte, z: Byte)
    requires 48 <= x <= 58 && 48 <= y <= 58 && 48 <= z <= 58
    ensures AllPlain(Quantum(x, y, z))
  {
    TaggedSextetsAreLow(x, y, z);
    LowSextetIsPlain(x / 4);
    LowSextetIsPlain(x % 4 * 16 + y / 16);
    LowSextetIsPlain(y % 16 * 4 + z / 64);
    LowSextetIsPlain(z % 64);
  }

  lemma TaggedTail(x: Byte, y: Byte)
    requires 48 <= x <= 58 && 48 <= y <= 58
    ensures AllPlain(Encode([x])) && AllPlain(Encode([x, y]))
  {
    TaggedSextetsAreLow(x, y, 48);
    LowSextetIsPlain(x / 4);
    LowSextetIsPlain(x % 4 * 16);
    LowSextetIsPlain(x % 4 * 16 + y / 16);
    LowSextetIsPlain(y % 16 * 4);
  }

  /** The sextets of such bytes stay away from 62 and 63. */
  lemma {:induction false} TaggedEncodesPlain(b: seq<Byte>)
    requires Tagged(b)
    ensures AllPlain(Encode(b)) && (b != [] ==> Encode(b) != "")
  {
    if |b| == 1 {
      TaggedTail(b[0], 48);
      assert b == [b[0]];
    } else if |b| == 2 {
      TaggedTail(b[0], b[1]);
      assert b == [b[0], b[1]];
    } else if |b| >= 3 {
      TaggedEncodesPlain(b[3..]);
      assert AllPlain(Quantum(b[0], b[1], b[2])) by { TaggedQuantum(b[0], b[1], b[2]); }
      PlainConcat(Quantum(b[0], b[1], b[2]), Encode(b[3..]));
      EncodeStep(b);
    }
  }

  lemma PlainConcat(s: string, t: string)
    requires AllPlain(s) && AllPlain(t)
    ensures AllPlain(s + t)
  {
  }
}
