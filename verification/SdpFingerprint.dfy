/** The DTLS fingerprint of an SDP: a line scan and a forgiving hexadecimal decoder. */
module SdpFingerprint {
  import opened Prelude
  import opened Text

  const PREFIX := "a=fingerprint:"
  const LOWER := "0123456789abcdef"
  const UPPER := "0123456789ABCDEF"

  datatype SdpError = NotThirtyTwoBytes | MissingLine

  // ── Hexadecimal ──────────────────────────────────────────────────────────

  function HexDigit(c: char): (r: Option<nat>)
    ensures r.Some? ==> r.value < 16
  {
    if '0' <= c <= '9' then Some(c as int - '0' as int)
    else if 'a' <= c <= 'f' then Some(c as int - 'a' as int + 10)
    else if 'A' <= c <= 'F' then Some(c as int - 'A' as int + 10)
    else None
  }

  function OrZero(d: Option<nat>): nat {
    if d.None? then 0 else d.value
  }

  /** `parseInt` of two characters in base 16, stored in a byte: blanks and a sign may come first,
      a bad second digit is dropped, and no digits at all give 0. */
  function ParsePair(a: char, b: char): int {
    if IsSpace(a) || a == '+' then OrZero(HexDigit(b))
    else if a == '-' then (256 - OrZero(HexDigit(b))) % 256
    else if a == '0' && (b == 'x' || b == 'X') then 0
    else match HexDigit(a)
      case None => 0
      case Some(high) => if HexDigit(b).None? then high else 16 * high + HexDigit(b).value
  }

  /** `parseInt(s, 16)` of any string, with `None` for NaN: blanks, a sign and a 0x prefix are
      skipped, then the longest run of digits counts. */
  function ParseInt(s: string): Option<int> {
    var t := TrimStart(s);
    var negative := t != "" && t[0] == '-';
    var u := if negative || (t != "" && t[0] == '+') then t[1..] else t;
    var v := if |u| >= 2 && u[0] == '0' && (u[1] == 'x' || u[1] == 'X') then u[2..] else u;
    var ds := LeadingDigits(v);
    var n: int := Number(ds);
    if ds == [] then None else Some(if negative then -n else n)
  }

  function LeadingDigits(s: string): seq<nat> {
    if s == "" || HexDigit(s[0]).None? then [] else [HexDigit(s[0]).value] + LeadingDigits(s[1..])
  }

  function Number(ds: seq<nat>): nat {
    if ds == [] then 0 else 16 * Number(ds[..|ds| - 1]) + ds[|ds| - 1]
  }

  /** Two characters: what a byte keeps of `parseInt`, NaN being 0. */
  lemma ParsePairIs(a: char, b: char)
    ensures ParsePair(a, b) == match ParseInt([a, b]) case None => 0 case Some(v) => v % 256
  {
    assert [a, b][1..] == [b] && [b][1..] == [] && [a, b][2..] == [];
    TwoLeading(a, b);
    OneLeading(b);
    assert TrimStart([b]) == (if IsSpace(b) then [] else [b]);
    assert HexDigit('+').None? && HexDigit('-').None? && HexDigit('x').None? && HexDigit('X').None?;
    SpacesAreNoDigits(a);
    SpacesAreNoDigits(b);
    hide LeadingDigits, Number, IsSpace, HexDigit;
    assert LeadingDigits([]) == [] by {
      NoneLeading();
    }
  }

  lemma SpacesAreNoDigits(c: char)
    ensures IsSpace(c) ==> HexDigit(c).None? && c != '-' && c != '+' && c != '0'
  {
  }

  lemma NoneLeading()
    ensures LeadingDigits([]) == [] && Number([]) == 0
  {
  }

  lemma OneLeading(b: char)
    ensures LeadingDigits([b]) == if HexDigit(b).None? then [] else [HexDigit(b).value]
    ensures HexDigit(b).Some? ==> Number([HexDigit(b).value]) == HexDigit(b).value
  {
    assert [b][1..] == [];
    if HexDigit(b).Some? {
      assert [HexDigit(b).value][..0] == [];
    }
  }

  lemma TwoLeading(a: char, b: char)
    ensures LeadingDigits([a, b])
         == if HexDigit(a).None? then [] else if HexDigit(b).None? then [HexDigit(a).value] else [HexDigit(a).value, HexDigit(b).value]
    ensures HexDigit(a).Some? ==> Number([HexDigit(a).value]) == HexDigit(a).value
    ensures HexDigit(a).Some? && HexDigit(b).Some? ==>
              Number([HexDigit(a).value, HexDigit(b).value]) == 16 * HexDigit(a).value + HexDigit(b).value
  {
    assert [a, b][1..] == [b];
    OneLeading(a);
    OneLeading(b);
    if HexDigit(a).Some? && HexDigit(b).Some? {
      assert [HexDigit(a).value, HexDigit(b).value][..1] == [HexDigit(a).value];
    }
  }

  function ByteOf(a: char, b: char): byte {
    ParsePair(a, b) as byte
  }

  function ParseHex(hex: string): (bytes: seq<byte>)
    requires |hex| % 2 == 0
    ensures |bytes| == |hex| / 2
    ensures forall i :: 0 <= i < |bytes| ==> bytes[i] == ByteOf(hex[2 * i], hex[2 * i + 1])
  {
    seq(|hex| / 2, i requires 0 <= i < |hex| / 2 => ByteOf(hex[2 * i], hex[2 * i + 1]))
  }

  function High(b: byte, digits: string): char
    requires |digits| == 16
  {
    digits[b as int / 16]
  }

  function Low(b: byte, digits: string): char
    requires |digits| == 16
  {
    digits[b as int % 16]
  }

  /** Two digits a byte. With `LOWER` it is `Buffer.from(bytes).toString('hex')`. */
  function ToHex(bytes: seq<byte>, digits: string): (hex: string)
    requires |digits| == 16
    ensures |hex| == 2 * |bytes|
    ensures forall i :: 0 <= i < |bytes| ==> hex[2 * i] == High(bytes[i], digits) && hex[2 * i + 1] == Low(bytes[i], digits)
  {
    if bytes == [] then ""
    else [High(bytes[0], digits), Low(bytes[0], digits)] + ToHex(bytes[1..], digits)
  }

  /** `Buffer.from(hex, 'hex')`: stops at the first pair that is not two digits. */
  function FromHex(hex: string): seq<byte> {
    if |hex| < 2 || HexDigit(hex[0]).None? || HexDigit(hex[1]).None? then []
    else [ByteOf(hex[0], hex[1])] + FromHex(hex[2..])
  }

  lemma HexChar(d: nat, digits: string)
    requires d < 16 && digits in {LOWER, UPPER}
    ensures HexDigit(digits[d]) == Some(d) && !IsSpace(digits[d]) && digits[d] !in "+-xX:\n "
  {
  }

  lemma HexPair(b: byte, digits: string)
    requires digits in {LOWER, UPPER}
    ensures |digits| == 16 && ByteOf(High(b, digits), Low(b, digits)) == b
    ensures HexDigit(High(b, digits)).Some? && HexDigit(Low(b, digits)).Some?
    ensures !IsSpace(High(b, digits)) && !IsSpace(Low(b, digits))
    ensures High(b, digits) !in ":\n" && Low(b, digits) !in ":\n"
  {
    HexChar(b as int / 16, digits);
    HexChar(b as int % 16, digits);
  }

  lemma {:induction false} FromToHex(bytes: seq<byte>)
    ensures FromHex(ToHex(bytes, LOWER)) == bytes
  {
    if bytes == [] {
    } else {
      FromToHex(bytes[1..]);
      HexPair(bytes[0], LOWER);
      assert ToHex(bytes, LOWER)[2..] == ToHex(bytes[1..], LOWER);
    }
  }

  lemma ParseToHex(bytes: seq<byte>, digits: string)
    requires digits in {LOWER, UPPER}
    ensures ParseHex(ToHex(bytes, digits)) == bytes
  {
    hide ByteOf, High, Low, ParseHex, ToHex;
    var hex := ToHex(bytes, digits);
    forall i | 0 <= i < |bytes|
      ensures ParseHex(hex)[i] == bytes[i]
    {
      HexPair(bytes[i], digits);
      assert hex[2 * i] == High(bytes[i], digits) && hex[2 * i + 1] == Low(bytes[i], digits);
    }
  }

  // ── The scan ─────────────────────────────────────────────────────────────

  function Lower(s: string): (r: string)
    ensures |r| == |s|
    ensures forall i :: 0 <= i < |s| ==> r[i] == if 'A' <= s[i] <= 'Z' then (s[i] as int + 32) as char else s[i]
  {
    seq(|s|, i requires 0 <= i < |s| => if 'A' <= s[i] <= 'Z' then (s[i] as int + 32) as char else s[i])
  }

  /** `s.split(':').join('')`. */
  function WithoutColons(s: string): string {
    if s == [] then [] else (if s[0] == ':' then [] else [s[0]]) + WithoutColons(s[1..])
  }

  /** The digits of a sha-256 fingerprint line; `None` for any other line. */
  function Sha256Hex(line: string): Option<string> {
    var trimmed := Trim(line);
    if !(PREFIX <= trimmed) then None
    else
      var rest := trimmed[|PREFIX|..];
      match IndexOf(rest, ' ')
      case None => None
      case Some(i) => if Lower(rest[..i]) != "sha-256" then None else Some(WithoutColons(Trim(rest[i + 1..])))
  }

  function Decoded(hex: string): (r: Result<seq<byte>, SdpError>)
    ensures r.Ok? ==> |r.value| == 32
  {
    if |hex| != 64 then Err(NotThirtyTwoBytes) else Ok(ParseHex(hex))
  }

  function ScanLines(lines: seq<string>): (r: Result<seq<byte>, SdpError>)
    ensures r.Ok? ==> |r.value| == 32
  {
    if lines == [] then Err(MissingLine)
    else match Sha256Hex(lines[0])
      case None => ScanLines(lines[1..])
      case Some(hex) => Decoded(hex)
  }

  function Extract(sdp: string): (r: Result<seq<byte>, SdpError>)
    ensures r.Ok? ==> |r.value| == 32
  {
    ScanLines(Lines(sdp))
  }

  lemma ScanStep(lines: seq<string>, k: nat)
    requires k < |lines|
    ensures ScanLines(lines[k..]) == match Sha256Hex(lines[k])
                                     case None => ScanLines(lines[k + 1..])
                                     case Some(hex) => Decoded(hex)
  {
    assert lines[k..][1..] == lines[k + 1..];
  }

  method ExtractSDPFingerprint(sdp: string) returns (r: Result<seq<byte>, SdpError>)
    ensures r == Extract(sdp)
  {
    hide ScanLines, Trim, Lower, WithoutColons, IndexOf, Decoded;
    var lines := Lines(sdp);
    assert lines[0..] == lines;
    for k := 0 to |lines|
      invariant Extract(sdp) == ScanLines(lines[k..])
    {
      ScanStep(lines, k);
      var trimmed := Trim(lines[k]);
      if !(PREFIX <= trimmed) {
        continue;
      }
      var afterPrefix := trimmed[|PREFIX|..];
      var spaceIdx := IndexOf(afterPrefix, ' ');
      if spaceIdx.None? {
        continue;
      }
      if Lower(afterPrefix[..spaceIdx.value]) != "sha-256" {
        continue;
      }
      r := DecodePairs(WithoutColons(Trim(afterPrefix[spaceIdx.value + 1..])));
      return;
    }
    NothingLeft();
    assert lines[|lines|..] == [];
    r := Err(MissingLine);
  }

  lemma NothingLeft()
    ensures ScanLines([]) == Err(MissingLine)
  {
  }

  method DecodePairs(hex: string) returns (r: Result<seq<byte>, SdpError>)
    ensures r == Decoded(hex)
  {
    if |hex| != 64 {
      return Err(NotThirtyTwoBytes);
    }
    hide ByteOf;
    var bytes := new byte[32];
    for i := 0 to 32
      invariant forall j :: 0 <= j < i ==> bytes[j] == ByteOf(hex[2 * j], hex[2 * j + 1])
    {
      bytes[i] := ByteOf(hex[2 * i], hex[2 * i + 1]);
    }
    assert bytes[..] == ParseHex(hex);
    r := Ok(bytes[..]);
  }

  // ── What is extracted ────────────────────────────────────────────────────

  /** The first sha-256 line decides, whatever follows it. */
  lemma {:induction false} FirstLineDecides(before: seq<string>, line: string, rest: seq<string>)
    requires forall i :: 0 <= i < |before| ==> Sha256Hex(before[i]).None?
    requires Sha256Hex(line).Some?
    ensures ScanLines(before + [line] + rest) == Decoded(Sha256Hex(line).value)
  {
    if before == [] {
      assert ([] + [line] + rest)[0] == line;
    } else {
      assert (before + [line] + rest)[1..] == before[1..] + [line] + rest;
      FirstLineDecides(before[1..], line, rest);
    }
  }

  /** The two errors: no sha-256 line at all, or a first one whose digits are not 64. */
  lemma {:induction false} ExtractErrors(lines: seq<string>)
    ensures ScanLines(lines) == Err(MissingLine) <==> forall i :: 0 <= i < |lines| ==> Sha256Hex(lines[i]).None?
    ensures ScanLines(lines) == Err(NotThirtyTwoBytes)
       <==> exists k :: 0 <= k < |lines| && Sha256Hex(lines[k]).Some? && |Sha256Hex(lines[k]).value| != 64
                        && forall i :: 0 <= i < k ==> Sha256Hex(lines[i]).None?
  {
    hide Sha256Hex;
    if lines == [] {
    } else {
      var rest := lines[1..];
      ExtractErrors(rest);
      assert forall i :: 0 <= i < |rest| ==> rest[i] == lines[i + 1];
      assert forall i :: 1 <= i < |lines| ==> lines[i] == rest[i - 1];
      if Sha256Hex(lines[0]).None? && ScanLines(rest) == Err(NotThirtyTwoBytes) {
        var k :| 0 <= k < |rest| && Sha256Hex(rest[k]).Some? && |Sha256Hex(rest[k]).value| != 64
                 && forall i :: 0 <= i < k ==> Sha256Hex(rest[i]).None?;
        assert Sha256Hex(lines[k + 1]).Some?;
      }
      if k :| 0 < k < |lines| && Sha256Hex(lines[k]).Some? && |Sha256Hex(lines[k]).value| != 64
              && forall i :: 0 <= i < k ==> Sha256Hex(lines[i]).None? {
        assert Sha256Hex(rest[k - 1]).Some?;
      }
    }
  }

  /** Colon-separated pairs, as an SDP has them. */
  function ColonHex(bytes: seq<byte>, digits: string): (s: string)
    requires |digits| == 16
  {
    if bytes == [] then ""
    else
      [High(bytes[0], digits), Low(bytes[0], digits)]
      + (if |bytes| == 1 then "" else ":" + ColonHex(bytes[1..], digits))
  }

  lemma {:induction false} ColonsGone(bytes: seq<byte>, digits: string)
    requires digits in {LOWER, UPPER}
    ensures |digits| == 16 && WithoutColons(ColonHex(bytes, digits)) == ToHex(bytes, digits)
  {
    if bytes == [] {
    } else {
      HexPair(bytes[0], digits);
      ColonsGone(bytes[1..], digits);
      hide High, Low, HexDigit, ByteOf, ToHex;
      ColonsOfPair(High(bytes[0], digits), Low(bytes[0], digits), ColonHex(bytes[1..], digits));
      assert bytes[0] == bytes[0] && (|bytes| == 1 ==> bytes[1..] == []);
      ToHexCons(bytes, digits);
    }
  }

  lemma ToHexCons(bytes: seq<byte>, digits: string)
    requires |digits| == 16 && bytes != []
    ensures ToHex(bytes, digits) == [High(bytes[0], digits), Low(bytes[0], digits)] + ToHex(bytes[1..], digits)
  {
  }

  lemma ColonsOfPair(a: char, b: char, rest: string)
    requires a != ':' && b != ':'
    ensures WithoutColons([a, b]) == [a, b]
    ensures WithoutColons([a, b] + (":" + rest)) == [a, b] + WithoutColons(rest)
  {
    var tail := ":" + rest;
    assert ([a, b] + tail)[1..] == [b] + tail;
    assert ([b] + tail)[1..] == tail;
    assert tail[1..] == rest;
    assert [a, b][1..] == [b] && [b][1..] == [];
    assert WithoutColons([b]) == [b] + WithoutColons([]);
    assert WithoutColons(tail) == [] + WithoutColons(rest);
    assert WithoutColons([b] + tail) == [b] + WithoutColons(tail);
    assert [a] + ([b] + WithoutColons(rest)) == [a, b] + WithoutColons(rest);
  }

  lemma {:induction false} ColonHexEnds(bytes: seq<byte>, digits: string)
    requires digits in {LOWER, UPPER} && bytes != []
    ensures |digits| == 16
    ensures var s := ColonHex(bytes, digits);
      s != [] && !IsSpace(s[0]) && !IsSpace(s[|s| - 1]) && '\n' !in s
  {
    HexPair(bytes[0], digits);
    if |bytes| > 1 {
      ColonHexEnds(bytes[1..], digits);
    }
  }

  function FingerprintLine(bytes: seq<byte>, digits: string): string
    requires |digits| == 16
  {
    PREFIX + "sha-256 " + ColonHex(bytes, digits)
  }

  lemma LineHex(bytes: seq<byte>, digits: string)
    requires digits in {LOWER, UPPER} && bytes != []
    ensures |digits| == 16 && Sha256Hex(FingerprintLine(bytes, digits)) == Some(ToHex(bytes, digits))
  {
    var hex := ColonHex(bytes, digits);
    var line := FingerprintLine(bytes, digits);
    ColonHexEnds(bytes, digits);
    ColonsGone(bytes, digits);
    hide ColonHex, ToHex, WithoutColons, Trim, IsSpace, Sha256Hex;
    LineTrims(hex);
    HexOfLine(line, hex);
  }

  const ALGORITHM := "sha-256"

  lemma HexOfLine(line: string, hex: string)
    requires line == PREFIX + "sha-256 " + hex && Trim(line) == line && Trim(hex) == hex
    ensures Sha256Hex(line) == Some(WithoutColons(hex))
  {
    hide Trim, WithoutColons, IndexOf;
    var rest := line[|PREFIX|..];
    assert rest == ALGORITHM + [' '] + hex;
    IndexOfFirst(ALGORITHM, ' ', hex);
    assert rest[..7] == ALGORITHM && rest[8..] == hex;
    assert Lower(ALGORITHM) == "sha-256";
  }

  lemma LineTrims(hex: string)
    requires hex != [] && !IsSpace(hex[0]) && !IsSpace(hex[|hex| - 1])
    ensures Trim(PREFIX + "sha-256 " + hex) == PREFIX + "sha-256 " + hex && Trim(hex) == hex
  {
    var line := PREFIX + "sha-256 " + hex;
    assert line[0] == 'a' && line[|line| - 1] == hex[|hex| - 1];
    TrimNothing(line);
    TrimNothing(hex);
  }

  lemma ExtractFirst(before: seq<string>, line: string, rest: seq<string>)
    requires forall i :: 0 <= i < |before| ==> '\n' !in before[i] && Sha256Hex(before[i]).None?
    requires forall i :: 0 <= i < |rest| ==> '\n' !in rest[i]
    requires '\n' !in line && Sha256Hex(line).Some?
    ensures Extract(JoinLines(before + [line] + rest)) == Decoded(Sha256Hex(line).value)
  {
    hide Sha256Hex, ScanLines, Lines, JoinLines;
    LinesOfJoined(before + [line] + rest);
    FirstLineDecides(before, line, rest);
  }

  lemma LineIsOne(hex: string)
    requires '\n' !in hex
    ensures '\n' !in PREFIX + "sha-256 " + hex
  {
  }

  /** Round trip: an SDP whose first sha-256 line is the printed fingerprint, in either case of
      digits, between any other lines, gives the fingerprint back. */
  lemma {:induction false} RoundTrip(before: seq<string>, bytes: seq<byte>, digits: string, rest: seq<string>)
    requires |bytes| == 32 && digits in {LOWER, UPPER}
    requires forall i :: 0 <= i < |before| ==> '\n' !in before[i] && Sha256Hex(before[i]).None?
    requires forall i :: 0 <= i < |rest| ==> '\n' !in rest[i]
    ensures |digits| == 16
    ensures Extract(JoinLines(before + [FingerprintLine(bytes, digits)] + rest)) == Ok(bytes)
  {
    var line := FingerprintLine(bytes, digits);
    LineHex(bytes, digits);
    ColonHexEnds(bytes, digits);
    LineIsOne(ColonHex(bytes, digits));
    ParseToHex(bytes, digits);
    hide ColonHex, ToHex, Sha256Hex, Extract, JoinLines, FingerprintLine, ParseHex;
    ExtractFirst(before, line, rest);
  }

  // ── Lines as other programs write them ───────────────────────────────────

  predicate Blank(s: string) {
    forall i :: 0 <= i < |s| ==> IsSpace(s[i])
  }

  lemma {:induction false} TrimStartBlank(pad: string, s: string)
    requires Blank(pad) && (s != "" ==> !IsSpace(s[0]))
    ensures TrimStart(pad + s) == s
    decreases |pad|
  {
    if pad == "" {
      assert pad + s == s;
    } else {
      assert (pad + s)[1..] == pad[1..] + s;
      TrimStartBlank(pad[1..], s);
    }
  }

  lemma {:induction false} TrimEndBlank(s: string, pad: string)
    requires Blank(pad) && (s != "" ==> !IsSpace(s[|s| - 1]))
    ensures TrimEnd(s + pad) == s
    decreases |pad|
  {
    if pad == "" {
      assert s + pad == s;
    } else {
      assert (s + pad)[..|s + pad| - 1] == s + pad[..|pad| - 1];
      TrimEndBlank(s, pad[..|pad| - 1]);
    }
  }

  lemma TrimPadded(a: string, s: string, b: string)
    requires Blank(a) && Blank(b) && s != "" && !IsSpace(s[0]) && !IsSpace(s[|s| - 1])
    ensures Trim(a + s + b) == s
  {
    assert a + s + b == a + (s + b);
    assert (s + b)[0] == s[0];
    TrimStartBlank(a, s + b);
    TrimEndBlank(s, b);
  }

  lemma AlgorithmHasNoSpace(algorithm: string)
    requires Lower(algorithm) == ALGORITHM
    ensures ' ' !in algorithm && |algorithm| == 7
  {
    forall i | 0 <= i < |algorithm|
      ensures algorithm[i] != ' '
    {
      assert Lower(algorithm)[i] == ALGORITHM[i];
      assert Lower(algorithm)[i] == if 'A' <= algorithm[i] <= 'Z' then (algorithm[i] as int + 32) as char else algorithm[i];
    }
  }

  /** Blanks around the line, such as a carriage return, and before the digits do not matter, nor does
      the case of the algorithm's name. */
  lemma PaddedHex(a: string, algorithm: string, gap: string, hex: string, b: string)
    requires Blank(a) && Blank(gap) && Blank(b) && Lower(algorithm) == ALGORITHM
    requires hex != "" && !IsSpace(hex[0]) && !IsSpace(hex[|hex| - 1])
    ensures Sha256Hex(a + (PREFIX + algorithm + " " + (gap + hex)) + b) == Some(WithoutColons(hex))
  {
    hide Trim, WithoutColons, IndexOf, IsSpace, Lower, Blank, Sha256Hex;
    LineEnds(algorithm, gap, hex);
    TrimPadded(a, PREFIX + algorithm + " " + (gap + hex), b);
    AlgorithmHasNoSpace(algorithm);
    TrimGap(gap, hex);
    HexOfTrimmed(a + (PREFIX + algorithm + " " + (gap + hex)) + b, algorithm, gap + hex, hex);
  }

  lemma TrimGap(gap: string, hex: string)
    requires Blank(gap) && hex != "" && !IsSpace(hex[0]) && !IsSpace(hex[|hex| - 1])
    ensures Trim(gap + hex) == hex
  {
    TrimPadded(gap, hex, "");
    assert gap + hex + "" == gap + hex;
  }

  lemma LineEnds(algorithm: string, gap: string, hex: string)
    requires hex != "" && !IsSpace(hex[0]) && !IsSpace(hex[|hex| - 1])
    ensures var line := PREFIX + algorithm + " " + (gap + hex);
      line != "" && !IsSpace(line[0]) && !IsSpace(line[|line| - 1])
  {
    var line := PREFIX + algorithm + " " + (gap + hex);
    assert line[0] == 'a' && !IsSpace('a') && line[|line| - 1] == hex[|hex| - 1];
  }

  lemma HexOfTrimmed(whole: string, algorithm: string, tail: string, hex: string)
    requires Trim(whole) == PREFIX + algorithm + " " + tail && Trim(tail) == hex
    requires ' ' !in algorithm && |algorithm| == 7 && Lower(algorithm) == ALGORITHM
    ensures Sha256Hex(whole) == Some(WithoutColons(hex))
  {
    hide Trim, WithoutColons, IndexOf, Lower;
    var trimmed := PREFIX + algorithm + " " + tail;
    var rest := trimmed[|PREFIX|..];
    assert rest == algorithm + [' '] + tail;
    IndexOfFirst(algorithm, ' ', tail);
    assert rest[..7] == algorithm && rest[8..] == tail;
  }

  predicate OneLine(s: string) {
    '\n' !in s
  }

  predicate OneLines(lines: seq<string>) {
    forall i :: 0 <= i < |lines| ==> OneLine(lines[i])
  }

  /** Lines that do not give a sha-256 fingerprint. */
  predicate OtherLines(lines: seq<string>) {
    OneLines(lines) && forall i :: 0 <= i < |lines| ==> Sha256Hex(lines[i]).None?
  }

  /** Round trip for lines as other programs write them: upper-case names, trailing carriage returns. */
  lemma RoundTripPadded(before: seq<string>, a: string, algorithm: string, gap: string, bytes: seq<byte>, digits: string, b: string,
                        rest: seq<string>)
    requires |bytes| == 32 && digits in {LOWER, UPPER} && Lower(algorithm) == ALGORITHM
    requires Blank(a) && Blank(gap) && Blank(b) && OneLine(a) && OneLine(gap) && OneLine(b)
    requires OtherLines(before) && OneLines(rest)
    ensures |digits| == 16
    ensures var line := a + (PREFIX + algorithm + " " + (gap + ColonHex(bytes, digits))) + b;
      Extract(JoinLines(before + [line] + rest)) == Ok(bytes)
  {
    hide ColonHex, Sha256Hex, Extract, JoinLines, WithoutColons, Blank, Lower, IsSpace, Decoded, OneLine, OneLines, OtherLines;
    PrintedDecodes(bytes, digits);
    PaddedDecodes(before, a, algorithm, gap, ColonHex(bytes, digits), b, rest);
  }

  lemma PrintedDecodes(bytes: seq<byte>, digits: string)
    requires |bytes| == 32 && digits in {LOWER, UPPER}
    ensures |digits| == 16
    ensures var hex := ColonHex(bytes, digits);
      && hex != "" && !IsSpace(hex[0]) && !IsSpace(hex[|hex| - 1]) && OneLine(hex)
      && Decoded(WithoutColons(hex)) == Ok(bytes)
  {
    ColonHexEnds(bytes, digits);
    ColonsGone(bytes, digits);
    ParseToHex(bytes, digits);
    // Hidden in the goal only, here and below: the steps before need the definitions.
    hide ColonHex, ToHex, ParseHex, WithoutColons, IsSpace;
  }

  lemma PaddedDecodes(before: seq<string>, a: string, algorithm: string, gap: string, hex: string, b: string, rest: seq<string>)
    requires Blank(a) && Blank(gap) && Blank(b) && OneLine(a) && OneLine(gap) && OneLine(b) && Lower(algorithm) == ALGORITHM
    requires hex != "" && !IsSpace(hex[0]) && !IsSpace(hex[|hex| - 1]) && OneLine(hex)
    requires OtherLines(before) && OneLines(rest)
    ensures var line := a + (PREFIX + algorithm + " " + (gap + hex)) + b;
      Extract(JoinLines(before + [line] + rest)) == Decoded(WithoutColons(hex))
  {
    hide Sha256Hex, Extract, JoinLines, WithoutColons, Blank, Lower, IsSpace, Decoded;
    PaddedHex(a, algorithm, gap, hex, b);
    PaddedIsOne(a, algorithm, gap, hex, b);
    ExtractFirst(before, a + (PREFIX + algorithm + " " + (gap + hex)) + b, rest);
  }

  lemma PaddedIsOne(a: string, algorithm: string, gap: string, hex: string, b: string)
    requires Lower(algorithm) == ALGORITHM && OneLine(a) && OneLine(gap) && OneLine(hex) && OneLine(b)
    ensures OneLine(a + (PREFIX + algorithm + " " + (gap + hex)) + b)
  {
    forall i | 0 <= i < |algorithm|
      ensures algorithm[i] != '\n'
    {
      assert Lower(algorithm)[i] == ALGORITHM[i];
      assert Lower(algorithm)[i] == if 'A' <= algorithm[i] <= 'Z' then (algorithm[i] as int + 32) as char else algorithm[i];
    }
    hide Lower;
    assert '\n' !in PREFIX + algorithm;
    assert '\n' !in gap + hex;
    assert '\n' !in PREFIX + algorithm + " " + (gap + hex);
  }
}
