/** Luggage codes: from scanned text back to the group and pilgrim ids that were printed. */
module LuggageTag {
  import opened Prelude
  import opened GoText
  import opened Base64

  const MARKER := "luggage-tag/"

  predicate SlashOrSpace(c: char) { c == '/' || c == ' ' }

  function NormalizeCode(code: string): string {
    var idx := LastIndex(code, MARKER);
    var tail := if idx >= 0 && idx + |MARKER| <= |code| then code[idx + |MARKER|..] else code;
    Trim(tail, SlashOrSpace)
  }

  function TextOf(b: seq<Byte>): string { seq(|b|, i requires 0 <= i < |b| => b[i] as char) }

  /** The ids a scanned text stands for; anything malformed is not found. */
  function ParseTag(code: string): Option<(Id, Id)> {
    var decoded := Decode(NormalizeCode(code));
    if decoded.None? then None
    else
      var parts := Split(TextOf(decoded.value), ':');
      if |parts| != 2 then None
      else
        var group, pilgrim := ParseUint(parts[0]), ParseUint(parts[1]);
        if group.None? || pilgrim.None? then None else Some((group.value, pilgrim.value))
  }

  // The printed side

  predicate ByteWide(s: string) { forall i :: 0 <= i < |s| ==> s[i] as int < 256 }

  function BytesOf(s: string): seq<Byte>
    requires ByteWide(s)
  {
    seq(|s|, i requires 0 <= i < |s| => s[i] as int)
  }

  function TagText(group: Id, pilgrim: Id): string { FormatUint(group) + ":" + FormatUint(pilgrim) }

  /** The code on the tag. */
  function PrintTag(group: Id, pilgrim: Id): string {
    TagTextShape(group, pilgrim);
    Encode(BytesOf(TagText(group, pilgrim)))
  }

  lemma TagTextShape(group: Id, pilgrim: Id)
    ensures ByteWide(TagText(group, pilgrim)) && Tagged(BytesOf(TagText(group, pilgrim)))
  {
    FormatUintDigits(group);
    FormatUintDigits(pilgrim);
    var s, n := TagText(group, pilgrim), |FormatUint(group)|;
    forall i | 0 <= i < |s| ensures 48 <= s[i] as int <= 58 {
      if i < n { assert s[i] == FormatUint(group)[i]; }
      else if i > n { assert s[i] == FormatUint(pilgrim)[i - n - 1]; }
    }
  }

  lemma PrintTagIsPlain(group: Id, pilgrim: Id)
    ensures PrintTag(group, pilgrim) != "" && All(PrintTag(group, pilgrim), Plain)
  {
    TagTextShape(group, pilgrim);
    TaggedEncodesPlain(BytesOf(TagText(group, pilgrim)));
  }

  // Finding the code in what was scanned

  /** A plain code between slashes and spaces contains no marker, whole or in part, past its start. */
  lemma NoMarkerInTail(code: string, pad: string, lead: string, j: nat)
    requires All(code, Plain) && All(pad, SlashOrSpace) && All(lead, SlashOrSpace)
    ensures !MatchesAt(lead + code + pad, MARKER, j)
  {
    var s := lead + code + pad;
    forall i | 0 <= i < |s| ensures s[i] != '-' {
      if i < |lead| {
        assert s[i] == lead[i];
      } else if i < |lead| + |code| {
        assert s[i] == code[i - |lead|];
      } else {
        assert s[i] == pad[i - |lead| - |code|];
      }
    }
    if MatchesAt(s, MARKER, j) { MarkerChars(s, j); }
  }

  lemma MarkerChars(s: string, j: nat)
    requires MatchesAt(s, MARKER, j)
    ensures j + 7 < |s| && s[j] == 'l' && s[j + 7] == '-'
  {
    assert s[j..j + |MARKER|][0] == 'l' && s[j..j + |MARKER|][7] == '-';
  }

  /** Inside or right after a marker no other one starts. */
  lemma MarkerIsLast(before: string, tail: string)
    requires forall j: nat :: !MatchesAt(tail, MARKER, j)
    ensures LastIndex(before + MARKER + tail, MARKER) == |before|
  {
    var s := before + MARKER + tail;
    assert s[|before|..|before| + |MARKER|] == MARKER;
    forall j | |before| < j <= |s| ensures !MatchesAt(s, MARKER, j) {
      if j < |before| + |MARKER| {
        assert s[j] == MARKER[j - |before|] != 'l';
        if MatchesAt(s, MARKER, j) { MarkerChars(s, j); }
      } else {
        var i := j - |before| - |MARKER|;
        assert !MatchesAt(tail, MARKER, i);
        assert j + |MARKER| <= |s| ==> s[j..j + |MARKER|] == tail[i..i + |MARKER|];
      }
    }
    LastMatchIs(s, MARKER, |before|, |s|);
  }

  /** A scanned text: the bare code, or a URL up to the marker, with slashes and spaces around the code. */
  datatype Scan = Bare(lead: string, trail: string) | Url(before: string, lead: string, trail: string)

  predicate SlashesAndSpaces(s: string) { forall i :: 0 <= i < |s| ==> s[i] == '/' || s[i] == ' ' }

  predicate ValidScan(scan: Scan) { SlashesAndSpaces(scan.lead) && SlashesAndSpaces(scan.trail) }

  /** A code without slashes and spaces at its ends. */
  predicate Bared(core: string) {
    core != "" ==> core[0] != '/' && core[0] != ' ' && core[|core| - 1] != '/' && core[|core| - 1] != ' '
  }

  function ScannedText(scan: Scan, code: string): string {
    match scan
    case Bare(lead, trail) => lead + code + trail
    case Url(before, lead, trail) => before + MARKER + (lead + code + trail)
  }

  lemma NormalizeFindsCode(scan: Scan, code: string)
    requires ValidScan(scan) && All(code, Plain) && code != ""
    ensures NormalizeCode(ScannedText(scan, code)) == code
  {
    var tail := TailOf(scan, code);
    forall j: nat ensures !MatchesAt(tail, MARKER, j) { NoMarkerInTail(code, scan.trail, scan.lead, j); }
    PartsNormalize(scan, code);
  }

  function TailOf(scan: Scan, core: string): string { scan.lead + core + scan.trail }

  /** What is left to trim: behind the last marker, or all of the text when it has none. */
  lemma TailAfterMarker(text: string) returns (tail: string)
    ensures NormalizeCode(text) == Trim(tail, SlashOrSpace)
    ensures var idx := LastIndex(text, MARKER);
            if idx >= 0 then idx <= |text| && text == text[..idx] + MARKER + tail else text == tail
    ensures forall j: nat :: !MatchesAt(tail, MARKER, j)
  {
    var idx := LastIndex(text, MARKER);
    LastMatchMatches(text, MARKER, |text|);
    tail := if idx >= 0 then text[idx + |MARKER|..] else text;
    forall j: nat ensures !MatchesAt(tail, MARKER, j) {
      if idx >= 0 { MatchInTail(text, MARKER, idx + |MARKER|, j); }
    }
    if idx >= 0 { assert text == text[..idx] + text[idx..idx + |MARKER|] + text[idx + |MARKER|..]; }
  }

  /** Whatever is scanned, the code is what stands behind the last marker, if any, without slashes and spaces around. */
  lemma NormalizeParts(text: string) returns (scan: Scan)
    ensures ValidScan(scan) && text == ScannedText(scan, NormalizeCode(text))
    ensures Bared(NormalizeCode(text))
    ensures forall j: nat :: !MatchesAt(TailOf(scan, NormalizeCode(text)), MARKER, j)
  {
    var tail := TailAfterMarker(text);
    var idx := LastIndex(text, MARKER);
    var lead, trail := TrimParts(tail, SlashOrSpace);
    scan := if idx >= 0 then Url(text[..idx], lead, trail) else Bare(lead, trail);
  }

  /** And nothing else is: a text of such parts is read as its core. */
  lemma PartsNormalize(scan: Scan, core: string)
    requires ValidScan(scan) && core != "" && Bared(core)
    requires forall j: nat :: !MatchesAt(TailOf(scan, core), MARKER, j)
    ensures NormalizeCode(ScannedText(scan, core)) == core
  {
    var tail := TailOf(scan, core);
    match scan {
      case Bare(_, _) =>
        LastMatchNone(tail, MARKER, |tail|);
      case Url(before, _, _) =>
        MarkerIsLast(before, tail);
        assert (before + MARKER + tail)[|before| + |MARKER|..] == tail;
    }
    TrimCore(scan.lead, core, scan.trail, SlashOrSpace);
  }

  lemma ParseTagText(group: Id, pilgrim: Id)
    requires group < UINT64_LIMIT && pilgrim < UINT64_LIMIT
    ensures var parts := Split(TagText(group, pilgrim), ':');
            |parts| == 2 && ParseUint(parts[0]) == Some(group) && ParseUint(parts[1]) == Some(pilgrim)
  {
    var g, p := FormatUint(group), FormatUint(pilgrim);
    FormatUintDigits(group);
    FormatUintDigits(pilgrim);
    DigitsAvoid(g, ':');
    DigitsAvoid(p, ':');
    SplitFirst(g, ':', p);
    SplitWhole(p, ':');
    ParseFormatUint(group);
    ParseFormatUint(pilgrim);
  }

  /** Every printed pair of 64-bit ids is read back, from any URL and any surrounding slashes and spaces. */
  lemma TagRoundTrip(group: Id, pilgrim: Id, scan: Scan)
    requires group < UINT64_LIMIT && pilgrim < UINT64_LIMIT && ValidScan(scan)
    ensures ParseTag(ScannedText(scan, PrintTag(group, pilgrim))) == Some((group, pilgrim))
  {
    TagTextShape(group, pilgrim);
    PrintTagIsPlain(group, pilgrim);
    NormalizeFindsCode(scan, PrintTag(group, pilgrim));
    var bytes := BytesOf(TagText(group, pilgrim));
    RoundTrip(bytes);
    assert TextOf(bytes) == TagText(group, pilgrim);
    ParseTagText(group, pilgrim);
  }

  /** Digits of two 64-bit ids with a colon in between. */
  predicate TagBytes(b: seq<Byte>, digits: string, digits': string, group: Id, pilgrim: Id) {
    && TextOf(b) == digits + ":" + digits'
    && group < UINT64_LIMIT && StandsFor(digits, group) && pilgrim < UINT64_LIMIT && StandsFor(digits', pilgrim)
  }

  /** A pair is found exactly when the code decodes to two decimal ids with a colon in between. */
  lemma ParseTagExactly(text: string, group: Id, pilgrim: Id)
    ensures ParseTag(text) == Some((group, pilgrim))
       <==> var decoded := Decode(NormalizeCode(text));
            decoded.Some? && exists digits, digits' :: TagBytes(decoded.value, digits, digits', group, pilgrim)
  {
    var decoded := Decode(NormalizeCode(text));
    if decoded.Some? {
      var parts := Split(TextOf(decoded.value), ':');
      SplitInTwo(TextOf(decoded.value), ':');
      if ParseTag(text) == Some((group, pilgrim)) {
        ParseUintExactly(parts[0], group);
        ParseUintExactly(parts[1], pilgrim);
        assert TagBytes(decoded.value, parts[0], parts[1], group, pilgrim);
      }
      if digits, digits' :| TagBytes(decoded.value, digits, digits', group, pilgrim) {
        TagBytesParse(decoded.value, digits, digits', group, pilgrim);
      }
    }
  }

  lemma TagBytesParse(b: seq<Byte>, digits: string, digits': string, group: Id, pilgrim: Id)
    requires TagBytes(b, digits, digits', group, pilgrim)
    ensures Split(TextOf(b), ':') == [digits, digits']
    ensures ParseUint(digits) == Some(group) && ParseUint(digits') == Some(pilgrim)
  {
    StandsForValue(digits, group);
    StandsForValue(digits', pilgrim);
    DigitsAvoid(digits, ':');
    DigitsAvoid(digits', ':');
    SplitFirst(digits, ':', digits');
    SplitWhole(digits', ':');
    ParseUintExactly(digits, group);
    ParseUintExactly(digits', pilgrim);
  }
}
