/** Peer ids: base32 of a 32-byte public key, a check character, dashes and a prefix. */
module PeerId {
  import opened Prelude
  import opened Shifts
  import opened Base32
  import LuhnMod32

  const PEER_ID_PREFIX: string := "PB-"
  const GROUP_SIZE := 6

  datatype PeerIdError =
    | WrongKeyLength(found: nat)
    | WrongLength(found: nat)
    | BadCharacter(c: char)
    | ChecksumMismatch

  // ── Reference form ───────────────────────────────────────────────────────

  predicate IsKey(key: seq<byte>) {
    |key| == 32
  }

  function KeyDigits(key: seq<byte>): (ds: seq<Digit>)
    requires IsKey(key)
    ensures |ds| == 52 && DigitsOfWidth(ds, 5)
  {
    assert Pow2(5) == 32;
    EncodeDigits(key)
  }

  /** The 53 significant digits of the id of `key`. */
  function IdDigits(key: seq<byte>): (ds: seq<Digit>)
    requires IsKey(key)
    ensures |ds| == 53
  {
    KeyDigits(key) + [LuhnMod32.CheckDigit(KeyDigits(key))]
  }

  /** `s` cut into groups of `GROUP_SIZE` with dashes between them; the last may be shorter. */
  function Grouped(s: string): string {
    if |s| <= GROUP_SIZE then s else s[..GROUP_SIZE] + "-" + Grouped(s[GROUP_SIZE..])
  }

  function Text(ds: seq<Digit>): (s: string)
    ensures |s| == |ds|
    ensures forall i :: 0 <= i < |s| ==> s[i] == ALPHABET[ds[i]]
  {
    seq(|ds|, i requires 0 <= i < |ds| => CharOf(ds[i]))
  }

  function EncodePeerIdSpec(key: seq<byte>): Result<string, PeerIdError> {
    if !IsKey(key) then Err(WrongKeyLength(|key|))
    else Ok(PEER_ID_PREFIX + Grouped(Text(IdDigits(key))))
  }

  function WithoutDashes(s: string): string {
    if s == [] then []
    else (if s[0] == '-' then [] else [s[0]]) + WithoutDashes(s[1..])
  }

  /** What `decodePeerId` keeps of its argument. */
  function Stripped(s: string): string {
    ToUpperAll(WithoutDashes(if PEER_ID_PREFIX <= s then s[3..] else s))
  }

  function DecodeStripped(s: string): Result<seq<byte>, PeerIdError> {
    if |s| != 53 then Err(WrongLength(|s|))
    else match LuhnMod32.Checksum(s[..52])
      case Err(c) => Err(BadCharacter(c))
      case Ok(c) =>
        if c != s[52] then Err(ChecksumMismatch)
        else match Decode(s[..52])
          case Err(bad) => Err(BadCharacter(bad))
          case Ok(key) => Ok(key)
  }

  function DecodePeerIdSpec(s: string): Result<seq<byte>, PeerIdError> {
    DecodeStripped(Stripped(s))
  }

  // ── The operations ───────────────────────────────────────────────────────

  function Join(parts: seq<string>, sep: string): string {
    if parts == [] then ""
    else if |parts| == 1 then parts[0]
    else Join(parts[..|parts| - 1], sep) + sep + parts[|parts| - 1]
  }

  method EncodePeerId(publicKey: seq<byte>) returns (r: Result<string, PeerIdError>)
    ensures r == EncodePeerIdSpec(publicKey)
  {
    if |publicKey| != 32 {
      return Err(WrongKeyLength(|publicKey|));
    }
    var base32 := EncodeBase32(publicKey);
    EncodedText(publicKey);
    hide Grouped, Encode, Text, LuhnMod32.Checksum, IdDigits;
    var checksum := LuhnMod32.LuhnMod32Checksum(base32);
    var full := base32 + [checksum.value];
    var text := JoinGroups(full);
    r := Ok(PEER_ID_PREFIX + text);
  }

  /** Eight groups of six and the rest. */
  method JoinGroups(full: string) returns (text: string)
    requires |full| == 53
    ensures text == Grouped(full)
  {
    hide Grouped, Join;
    var groups: seq<string> := [];
    assert full[0..] == full;
    for i := 0 to 8
      invariant |groups| == i
      invariant groups == [] ==> i == 0
      invariant groups != [] ==> Grouped(full) == Join(groups, "-") + "-" + Grouped(full[i * GROUP_SIZE..])
    {
      GroupedAt(full, i * GROUP_SIZE);
      JoinSnoc(groups, full[i * GROUP_SIZE..(i + 1) * GROUP_SIZE]);
      groups := groups + [full[i * GROUP_SIZE..(i + 1) * GROUP_SIZE]];
    }
    GroupedLast(full[8 * GROUP_SIZE..]);
    JoinSnoc(groups, full[8 * GROUP_SIZE..]);
    groups := groups + [full[8 * GROUP_SIZE..]];
    text := Join(groups, "-");
  }

  lemma GroupedAt(s: string, at: nat)
    requires at + GROUP_SIZE < |s|
    ensures Grouped(s[at..]) == s[at..at + GROUP_SIZE] + "-" + Grouped(s[at + GROUP_SIZE..])
  {
    var rest := s[at..];
    assert rest[..GROUP_SIZE] == s[at..at + GROUP_SIZE];
    assert rest[GROUP_SIZE..] == s[at + GROUP_SIZE..];
  }

  lemma GroupedLast(s: string)
    requires |s| <= GROUP_SIZE
    ensures Grouped(s) == s
  {
  }

  lemma JoinSnoc(parts: seq<string>, last: string)
    ensures Join(parts + [last], "-") == if parts == [] then last else Join(parts, "-") + "-" + last
  {
    assert (parts + [last])[..|parts|] == parts;
  }

  method DecodePeerId(peerId: string) returns (r: Result<seq<byte>, PeerIdError>)
    ensures r == DecodePeerIdSpec(peerId)
  {
    var stripped := peerId;
    if PEER_ID_PREFIX <= stripped {
      stripped := stripped[3..];
    }
    stripped := ToUpperAll(WithoutDashes(stripped));
    if |stripped| != 53 {
      return Err(WrongLength(|stripped|));
    }
    var checksum := LuhnMod32.LuhnMod32Checksum(stripped[..52]);
    match checksum {
      case Err(c) => return Err(BadCharacter(c));
      case Ok(c) =>
        if c != stripped[52] {
          return Err(ChecksumMismatch);
        }
    }
    var key := DecodeBase32(stripped[..52]);
    match key {
      case Err(c) => r := Err(BadCharacter(c));
      case Ok(bytes) => r := Ok(bytes);
    }
  }

  // ── What the format promises ─────────────────────────────────────────────

  lemma {:induction false} DigitsOfText(ds: seq<Digit>)
    ensures LuhnMod32.DigitsOf(Text(ds)) == Ok(ds)
  {
    if ds == [] {
    } else {
      var init := ds[..|ds| - 1];
      DigitsOfText(init);
      assert Text(ds)[..|ds| - 1] == Text(init);
      assert Text(ds)[|ds| - 1] == CharOf(ds[|ds| - 1]);
      assert ds == init + [ds[|ds| - 1]];
    }
  }

  lemma TextOfDigits(s: string)
    requires LuhnMod32.DigitsOf(s).Ok?
    ensures Text(LuhnMod32.DigitsOf(s).value) == s
  {
    var ds := LuhnMod32.DigitsOf(s).value;
    forall i | 0 <= i < |s|
      ensures Text(ds)[i] == s[i]
    {
      assert DigitOf(s[i]) == Some(ds[i]);
    }
    assert Text(ds) == s;
  }

  lemma EncodedText(key: seq<byte>)
    requires IsKey(key)
    ensures Encode(key) == Text(KeyDigits(key))
    ensures LuhnMod32.Checksum(Encode(key)) == Ok(ALPHABET[LuhnMod32.CheckDigit(KeyDigits(key))])
    ensures Encode(key) + [ALPHABET[LuhnMod32.CheckDigit(KeyDigits(key))]] == Text(IdDigits(key))
  {
    assert Encode(key) == Text(KeyDigits(key));
    DigitsOfText(KeyDigits(key));
  }

  /** Decoding a digit text gives the key whose bits the digits hold. */
  lemma DecodeText(ds: seq<Digit>)
    ensures DigitsOfWidth(ds, 5)
    ensures Decode(Text(ds)) == Ok(DecodeDigits(ds))
    ensures ToUpperAll(Text(ds)) == Text(ds)
    ensures forall i :: 0 <= i < |ds| ==> Text(ds)[i] != '-'
  {
    assert Pow2(5) == 32;
    assert Chars(ds) == Text(ds);
    ScanChars(ds);
    forall i | 0 <= i < |ds|
      ensures ToUpper(Text(ds)[i]) == Text(ds)[i] && Text(ds)[i] != '-'
    {
      assert Text(ds)[i] == CharOf(ds[i]);
      assert DigitOf(CharOf(ds[i])).Some?;
    }
    assert ToUpperAll(Text(ds)) == Text(ds);
  }

  /** A stripped string is accepted exactly when it is the text of 53 digits with a valid check
      digit, and then yields the key in the first 52. */
  lemma {:induction false} DecodeStrippedIff(s: string)
    ensures DecodeStripped(s).Ok? <==>
              |s| == 53 && LuhnMod32.DigitsOf(s).Ok? && LuhnMod32.Valid(LuhnMod32.DigitsOf(s).value)
    ensures DecodeStripped(s).Ok? ==>
              DigitsOfWidth(LuhnMod32.DigitsOf(s).value[..52], 5) &&
              DecodeStripped(s).value == DecodeDigits(LuhnMod32.DigitsOf(s).value[..52])
  {
    if |s| == 53 {
      DigitsOfInit(s);
      if LuhnMod32.DigitsOf(s[..52]).Ok? {
        var ds := LuhnMod32.DigitsOf(s[..52]).value;
        TextOfDigits(s[..52]);
        DecodeText(ds);
        CheckCharacter(s[52], LuhnMod32.CheckDigit(ds));
      }
    }
  }

  lemma DigitsOfInit(s: string)
    requires s != []
    ensures LuhnMod32.DigitsOf(s).Ok? <==>
              DigitOf(s[|s| - 1]).Some? && LuhnMod32.DigitsOf(s[..|s| - 1]).Ok?
    ensures LuhnMod32.DigitsOf(s).Ok? ==>
              LuhnMod32.DigitsOf(s).value[..|s| - 1] == LuhnMod32.DigitsOf(s[..|s| - 1]).value
  {
  }

  lemma CheckCharacter(c: char, d: Digit)
    ensures c == ALPHABET[d] <==> DigitOf(c) == Some(d)
  {
    assert DigitOf(CharOf(d)) == Some(d);
  }

  lemma {:induction false} WithoutDashesConcat(a: string, b: string)
    ensures WithoutDashes(a + b) == WithoutDashes(a) + WithoutDashes(b)
  {
    if a == [] {
      assert a + b == b;
    } else {
      assert (a + b)[1..] == a[1..] + b;
      WithoutDashesConcat(a[1..], b);
    }
  }

  lemma {:induction false} WithoutDashesNone(s: string)
    requires '-' !in s
    ensures WithoutDashes(s) == s
  {
    if s == [] {
    } else {
      WithoutDashesNone(s[1..]);
    }
  }

  lemma {:induction false} WithoutDashesGrouped(s: string)
    requires '-' !in s
    ensures WithoutDashes(Grouped(s)) == s
  {
    if |s| <= GROUP_SIZE {
      WithoutDashesNone(s);
    } else {
      var head, tail := s[..GROUP_SIZE], s[GROUP_SIZE..];
      WithoutDashesGrouped(tail);
      WithoutDashesNone(head);
      WithoutDashesConcat(head + "-", Grouped(tail));
      WithoutDashesConcat(head, "-");
      assert WithoutDashes("-") == [];
      assert s == head + tail;
    }
  }

  lemma StrippedId(key: seq<byte>)
    requires IsKey(key)
    ensures EncodePeerIdSpec(key).Ok? && Stripped(EncodePeerIdSpec(key).value) == Text(IdDigits(key))
  {
    var text := Text(IdDigits(key));
    DecodeText(IdDigits(key));
    WithoutDashesGrouped(text);
    assert (PEER_ID_PREFIX + Grouped(text))[3..] == Grouped(text);
  }

  /** `decodePeerId` undoes `encodePeerId` for every 32-byte key. */
  lemma RoundTrip(key: seq<byte>)
    requires IsKey(key)
    ensures EncodePeerIdSpec(key).Ok?
    ensures DecodePeerIdSpec(EncodePeerIdSpec(key).value) == Ok(key)
  {
    var ds := IdDigits(key);
    StrippedId(key);
    DigitsOfText(ds);
    LuhnMod32.CheckDigitUnique(KeyDigits(key), LuhnMod32.CheckDigit(KeyDigits(key)));
    DecodeStrippedIff(Text(ds));
    assert ds[..52] == KeyDigits(key);
    DecodeEncodeDigits(key);
  }

  lemma DecodedKey(s: string)
    requires DecodePeerIdSpec(s).Ok?
    ensures IsKey(DecodePeerIdSpec(s).value)
  {
    DecodeStrippedIff(Stripped(s));
  }

  /** Different keys have different ids. */
  lemma Injective(k1: seq<byte>, k2: seq<byte>)
    requires IsKey(k1) && IsKey(k2) && EncodePeerIdSpec(k1) == EncodePeerIdSpec(k2)
    ensures k1 == k2
  {
    RoundTrip(k1);
    RoundTrip(k2);
  }

  /** An accepted string denotes the same 53 characters as the id of the key it decodes to
      exactly when its 52nd digit ends in four zero bits. */
  lemma {:induction false} CanonicalIff(s: string)
    requires DecodePeerIdSpec(s).Ok?
    ensures IsKey(DecodePeerIdSpec(s).value)
    ensures LuhnMod32.DigitsOf(Stripped(s)).Ok? && |Stripped(s)| == 53
    ensures Stripped(s) == Text(IdDigits(DecodePeerIdSpec(s).value))
       <==> LuhnMod32.DigitsOf(Stripped(s)).value[51] % 16 == 0
  {
    var t := Stripped(s);
    DecodeStrippedIff(t);
    var ds := LuhnMod32.DigitsOf(t).value;
    var body := ds[..52];
    var key := DecodePeerIdSpec(s).value;
    TextOfDigits(t);
    EncodeDecodeDigits(body);
    LowFourBits(body);
    assert ds == body + [ds[52]];
    LuhnMod32.CheckDigitUnique(body, ds[52]);
    if KeyDigits(key) == body {
      assert IdDigits(key) == ds;
    }
    if Text(IdDigits(key)) == t {
      DigitsOfText(IdDigits(key));
      assert KeyDigits(key) == ds[..52];
    }
  }

  lemma LowFourBits(body: seq<Digit>)
    requires |body| == 52 && DigitsOfWidth(body, 5)
    ensures Mod2(Value(body, 5), 4) == body[51] % 16
  {
    var high, d := Value(body[..51], 5), body[51];
    assert Pow2(4) == 16;
    Mul2Mul2(high, 1, 4);
    Split(d, 4);
    assert d == Mul2(d / 16, 4) + d % 16;
    Mul2Sum(Mul2(high, 1), d / 16, 4);
    Shifts.Join(Mul2(high, 1) + d / 16, d % 16, 4);
  }

  /** Among the 53 characters left by stripping, another one in any place is rejected. */
  lemma {:induction false} TypoRejected(key: seq<byte>, i: nat, c: char)
    requires IsKey(key) && i < 53 && c != Text(IdDigits(key))[i]
    ensures DecodeStripped(Text(IdDigits(key))[i := c]).Err?
  {
    var ds := IdDigits(key);
    var typo := Text(ds)[i := c];
    DigitsOfText(ds);
    LuhnMod32.CheckDigitUnique(KeyDigits(key), ds[52]);
    DecodeStrippedIff(typo);
    if DecodeStripped(typo).Ok? {
      var found := LuhnMod32.DigitsOf(typo).value;
      forall j | 0 <= j < 53
        ensures found[j] == ds[i := found[i]][j]
      {
        assert DigitOf(typo[j]) == Some(found[j]);
        assert DigitOf(CharOf(ds[j])) == Some(ds[j]);
      }
      assert found == ds[i := found[i]];
      LuhnMod32.SingleErrorDetected(ds, i, found[i]);
    }
  }

  lemma WithoutDashesUpdate(s: string, j: nat, c: char)
    requires j < |s| && s[j] != '-'
    ensures var i, t := |WithoutDashes(s[..j])|, WithoutDashes(s);
      && i < |t| && t[i] == s[j]
      && WithoutDashes(s[j := c]) == if c == '-' then t[..i] + t[i + 1..] else t[i := c]
  {
    hide WithoutDashes;
    var a, b := s[..j], s[j + 1..];
    WithoutDashesAround(a, s[j], b);
    WithoutDashesAround(a, c, b);
    assert s == a + [s[j]] + b && s[j := c] == a + [c] + b;
  }

  lemma WithoutDashesAround(a: string, c: char, b: string)
    ensures WithoutDashes(a + [c] + b) == WithoutDashes(a) + (if c == '-' then [] else [c]) + WithoutDashes(b)
  {
    WithoutDashesConcat(a + [c], b);
    WithoutDashesConcat(a, [c]);
    assert WithoutDashes([c]) == if c == '-' then [] else [c];
  }

  lemma UpperUpdate(t: string, i: nat, c: char)
    requires i < |t| && ToUpperAll(t) == t
    ensures ToUpperAll(t[i := c]) == t[i := ToUpper(c)]
    ensures |ToUpperAll(t[..i] + t[i + 1..])| == |t| - 1
  {
    assert forall k :: 0 <= k < |t| ==> ToUpper(t[k]) == t[k];
  }

  /** The 53 significant characters after one of them, at position `j` of the id, is replaced. */
  lemma StrippedTypo(key: seq<byte>, j: nat, c: char)
    requires IsKey(key) && EncodePeerIdSpec(key).Ok?
    requires 3 <= j < |EncodePeerIdSpec(key).value| && EncodePeerIdSpec(key).value[j] != '-'
    ensures var id, text := EncodePeerIdSpec(key).value, Text(IdDigits(key));
      if c == '-' then |Stripped(id[j := c])| == 52
      else exists i: nat :: i < 53 && text[i] == id[j] && Stripped(id[j := c]) == text[i := ToUpper(c)]
  {
    var id, text := EncodePeerIdSpec(key).value, Text(IdDigits(key));
    var body := Grouped(text);
    DecodeText(IdDigits(key));
    WithoutDashesGrouped(text);
    hide Grouped, Text, IdDigits, ToUpperAll;
    assert id == PEER_ID_PREFIX + body;
    assert id[j := c][3..] == body[j - 3 := c] && PEER_ID_PREFIX <= id[j := c];
    WithoutDashesUpdate(body, j - 3, c);
    UpperUpdate(text, |WithoutDashes(body[..j - 3])|, c);
  }

  /** Replacing one of the significant characters of an id: accepted exactly when it is the same
      letter in the other case, or the character itself. */
  lemma TypoAcceptedIff(key: seq<byte>, j: nat, c: char)
    requires IsKey(key) && EncodePeerIdSpec(key).Ok?
    requires 3 <= j < |EncodePeerIdSpec(key).value| && EncodePeerIdSpec(key).value[j] != '-'
    ensures var id := EncodePeerIdSpec(key).value;
      DecodePeerIdSpec(id[j := c]).Ok? <==> ToUpper(c) == id[j]
  {
    var id, text := EncodePeerIdSpec(key).value, Text(IdDigits(key));
    StrippedTypo(key, j, c);
    RoundTrip(key);
    StrippedId(key);
    hide Text, IdDigits, EncodePeerIdSpec, Stripped;
    if c == '-' {
      assert ToUpper('-') != id[j];
    } else {
      var i: nat :| i < 53 && text[i] == id[j] && Stripped(id[j := c]) == text[i := ToUpper(c)];
      if ToUpper(c) == id[j] {
        assert text[i := ToUpper(c)] == text;
      } else {
        TypoRejected(key, i, ToUpper(c));
      }
    }
  }

  /** Which accepted strings re-encode to themselves: those in the printed form whose 52nd digit
      ends in four zero bits. */
  lemma ReencodesIff(s: string)
    requires DecodePeerIdSpec(s).Ok?
    ensures LuhnMod32.DigitsOf(Stripped(s)).Ok? && |Stripped(s)| == 53
    ensures EncodePeerIdSpec(DecodePeerIdSpec(s).value) == Ok(s)
       <==> s == PEER_ID_PREFIX + Grouped(Stripped(s)) && LuhnMod32.DigitsOf(Stripped(s)).value[51] % 16 == 0
  {
    CanonicalIff(s);
    StrippedId(DecodePeerIdSpec(s).value);
    // Hidden in the goal only, here and below: the steps before need the definitions.
    hide Grouped, Stripped, IdDigits, Text, DecodePeerIdSpec, LuhnMod32.DigitsOf;
  }

  /** The prefix, the dashes and the case do not matter: any such writing of the 53 characters of an
      id is accepted for the same key. */
  lemma WritingsAccepted(key: seq<byte>, s: string)
    requires IsKey(key) && ToUpperAll(WithoutDashes(s)) == Text(IdDigits(key)) && !(PEER_ID_PREFIX <= s)
    ensures DecodePeerIdSpec(s) == Ok(key) && DecodePeerIdSpec(PEER_ID_PREFIX + s) == Ok(key)
  {
    RoundTrip(key);
    StrippedId(key);
    assert (PEER_ID_PREFIX + s)[3..] == s;
    hide ToUpperAll, WithoutDashes, Text, IdDigits, DecodeStripped, EncodePeerIdSpec;
  }

  /** The three ways to be refused: the length after stripping, a character among the first 52 that is
      no digit, and a last one that is not the check character. */
  lemma RefusedFor(s: string)
    ensures var t := Stripped(s);
      && (DecodePeerIdSpec(s) == Err(WrongLength(|t|)) <==> |t| != 53)
      && (|t| == 53 ==>
            && (LuhnMod32.DigitsOf(t[..52]).Err? ==> DecodePeerIdSpec(s) == Err(BadCharacter(LuhnMod32.DigitsOf(t[..52]).error)))
            && (LuhnMod32.DigitsOf(t[..52]).Ok? ==>
                  (DecodePeerIdSpec(s) == Err(ChecksumMismatch)
                   <==> t[52] != ALPHABET[LuhnMod32.CheckDigit(LuhnMod32.DigitsOf(t[..52]).value)])
                  && (DecodePeerIdSpec(s).Ok? || DecodePeerIdSpec(s) == Err(ChecksumMismatch))))
  {
    var t := Stripped(s);
    if |t| == 53 {
      if LuhnMod32.DigitsOf(t[..52]).Ok? {
        CheckedDecodes(t);
      }
    }
    hide Stripped, LuhnMod32.CheckDigit, LuhnMod32.DigitsOf, Decode;
  }

  lemma CheckedDecodes(t: string)
    requires |t| == 53 && LuhnMod32.DigitsOf(t[..52]).Ok?
    ensures Decode(t[..52]).Ok?
  {
    TextOfDigits(t[..52]);
    DecodeText(LuhnMod32.DigitsOf(t[..52]).value);
  }
}
