/** Base32 of section 6 of RFC 4648, as `peer-id.ts` computes it: one 32-bit accumulator and a
    bit counter, without `=` padding.

    The reference definition reads a byte string and a digit string as two positional
    numerals; the loops are proved to convert between them. */
module Base32 {
  import opened Prelude
  import opened Shifts

  const ALPHABET: string := "ABCDEFGHIJKLMNOPQRSTUVWXYZ234567"

  type Digit = d: int | 0 <= d < 32

  // ── Positional numerals ──────────────────────────────────────────────────

  predicate DigitsOfWidth(ds: seq<int>, w: nat) {
    forall i :: 0 <= i < |ds| ==> 0 <= ds[i] < Pow2(w)
  }

  /** The number that `ds` denotes, most significant digit first, `w` bits a digit. */
  function Value(ds: seq<int>, w: nat): (v: nat)
    requires DigitsOfWidth(ds, w)
  {
    if ds == [] then 0 else Mul2(Value(ds[..|ds| - 1], w), w) + ds[|ds| - 1]
  }

  /** The `len` least significant `w`-bit digits of `v`, most significant first. */
  function Numeral(v: nat, w: nat, len: nat): (ds: seq<int>)
    ensures |ds| == len && DigitsOfWidth(ds, w)
    decreases len
  {
    if len == 0 then [] else Numeral(Div2(v, w), w, len - 1) + [Mod2(v, w)]
  }

  /** The number of bits in `len` digits. */
  function BitCount(w: nat, len: nat): nat {
    if len == 0 then 0 else BitCount(w, len - 1) + w
  }

  lemma {:induction false} BitCountOf(len: nat)
    ensures BitCount(5, len) == 5 * len && BitCount(8, len) == 8 * len
  {
    if len == 0 {
    } else {
      BitCountOf(len - 1);
    }
  }

  lemma {:induction false} ValueBound(ds: seq<int>, w: nat)
    requires DigitsOfWidth(ds, w)
    ensures Value(ds, w) < Pow2(BitCount(w, |ds|))
  {
    if ds == [] {
    } else {
      var init := ds[..|ds| - 1];
      ValueBound(init, w);
      JoinBelow(Value(init, w), ds[|ds| - 1], w, Pow2(BitCount(w, |init|)));
      Mul2Mul2(1, BitCount(w, |init|), w);
    }
  }

  lemma {:induction false} NumeralOfValue(ds: seq<int>, w: nat)
    requires DigitsOfWidth(ds, w)
    ensures Numeral(Value(ds, w), w, |ds|) == ds
  {
    if ds == [] {
    } else {
      var init := ds[..|ds| - 1];
      NumeralOfValue(init, w);
      Join(Value(init, w), ds[|ds| - 1], w);
      assert ds == init + [ds[|ds| - 1]];
    }
  }

  lemma {:induction false} ValueOfNumeral(v: nat, w: nat, len: nat)
    requires v < Pow2(BitCount(w, len))
    ensures Value(Numeral(v, w, len), w) == v
    decreases len
  {
    if len == 0 {
    } else {
      Mul2Mul2(1, BitCount(w, len - 1), w);
      Div2Below(v, w, Pow2(BitCount(w, len - 1)));
      ValueOfNumeral(Div2(v, w), w, len - 1);
      Split(v, w);
      ValueSnoc(Numeral(Div2(v, w), w, len - 1), Mod2(v, w), w);
    }
  }

  lemma ValueSnoc(ds: seq<int>, d: int, w: nat)
    requires DigitsOfWidth(ds, w) && 0 <= d < Pow2(w)
    ensures DigitsOfWidth(ds + [d], w)
    ensures Value(ds + [d], w) == Mul2(Value(ds, w), w) + d
  {
    assert (ds + [d])[..|ds|] == ds;
  }

  // ── Reference encoder and decoder ────────────────────────────────────────

  function Ints(bytes: seq<byte>): (r: seq<int>)
    ensures |r| == |bytes| && DigitsOfWidth(r, 8)
    ensures forall i :: 0 <= i < |r| ==> r[i] == bytes[i] as int
  {
    assert Pow2(8) == 256;
    seq(|bytes|, i requires 0 <= i < |bytes| => bytes[i] as int)
  }

  function Bytes(ds: seq<int>): (r: seq<byte>)
    requires DigitsOfWidth(ds, 8)
    ensures |r| == |ds|
    ensures forall i :: 0 <= i < |r| ==> r[i] as int == ds[i]
  {
    assert Pow2(8) == 256;
    seq(|ds|, i requires 0 <= i < |ds| => ds[i] as byte)
  }

  function EncodedLength(n: nat): nat {
    (8 * n + 4) / 5
  }

  /** Zero bits appended so that the bit count becomes a multiple of five. */
  function PadBits(n: nat): nat {
    5 * EncodedLength(n) - 8 * n
  }

  /** The base-32 numeral of the bytes read as one big-endian number, padded with zero bits. */
  function EncodeDigits(bytes: seq<byte>): (ds: seq<int>)
    ensures |ds| == EncodedLength(|bytes|) && DigitsOfWidth(ds, 5)
  {
    Numeral(Mul2(Value(Ints(bytes), 8), PadBits(|bytes|)), 5, EncodedLength(|bytes|))
  }

  /** The base-256 numeral of the whole bytes among the bits of `ds`; trailing bits are dropped. */
  function DecodeDigits(ds: seq<int>): (bytes: seq<byte>)
    requires DigitsOfWidth(ds, 5)
    ensures |bytes| == 5 * |ds| / 8
  {
    Bytes(Numeral(Div2(Value(ds, 5), 5 * |ds| % 8), 8, 5 * |ds| / 8))
  }

  lemma EncodeDigitsValue(bytes: seq<byte>)
    ensures Value(EncodeDigits(bytes), 5) == Mul2(Value(Ints(bytes), 8), PadBits(|bytes|))
  {
    var n, pad := |bytes|, PadBits(|bytes|);
    var v := Value(Ints(bytes), 8);
    ValueBound(Ints(bytes), 8);
    BitCountOf(n);
    BitCountOf(EncodedLength(n));
    JoinBelow(v, 0, pad, Pow2(8 * n));
    Mul2Mul2(1, 8 * n, pad);
    ValueOfNumeral(Mul2(v, pad), 5, EncodedLength(n));
  }

  /** Decoding undoes encoding, for byte strings of every length. */
  lemma DecodeEncodeDigits(bytes: seq<byte>)
    ensures DecodeDigits(EncodeDigits(bytes)) == bytes
  {
    var pad := PadBits(|bytes|);
    EncodeDigitsValue(bytes);
    Join(Value(Ints(bytes), 8), 0, pad);
    assert 5 * EncodedLength(|bytes|) == 8 * |bytes| + pad && pad < 5;
    NumeralOfValue(Ints(bytes), 8);
  }

  /** A digit string is the encoding of what it decodes to exactly when its length is one an
      encoder produces and the bits after the last whole byte are zero. */
  lemma {:induction false} EncodeDecodeDigits(ds: seq<int>)
    requires DigitsOfWidth(ds, 5)
    ensures EncodeDigits(DecodeDigits(ds)) == ds
       <==> 5 * |ds| % 8 < 5 && Mod2(Value(ds, 5), 5 * |ds| % 8) == 0
  {
    hide Value, Mul2, Div2, Mod2, Numeral, EncodeDigits, DecodeDigits;
    var r := 5 * |ds| % 8;
    var again := EncodeDigits(DecodeDigits(ds));
    WholeLength(|ds|);
    if r < 5 {
      DecodedValue(ds);
      EncodeDigitsValue(DecodeDigits(ds));
      Split(Value(ds, 5), r);
      assert Value(again, 5) == Value(ds, 5) - Mod2(Value(ds, 5), r);
      if Value(again, 5) == Value(ds, 5) {
        NumeralOfValue(ds, 5);
        NumeralOfValue(again, 5);
      }
    }
  }

  lemma WholeLength(len: nat)
    ensures EncodedLength(5 * len / 8) == len <==> 5 * len % 8 < 5
    ensures 5 * len % 8 < 5 ==> PadBits(5 * len / 8) == 5 * len % 8
  {
  }

  lemma DecodedValue(ds: seq<int>)
    requires DigitsOfWidth(ds, 5)
    ensures Value(Ints(DecodeDigits(ds)), 8) == Div2(Value(ds, 5), 5 * |ds| % 8)
  {
    hide Value, Mul2, Div2, Numeral, BitCount;
    var m, r := 5 * |ds| / 8, 5 * |ds| % 8;
    ValueBound(ds, 5);
    BitCountOf(|ds|);
    BitCountOf(m);
    assert 5 * |ds| == 8 * m + r;
    Mul2Mul2(1, 8 * m, r);
    Div2Below(Value(ds, 5), r, Pow2(8 * m));
    ValueOfNumeral(Div2(Value(ds, 5), r), 8, m);
    assert Ints(DecodeDigits(ds)) == Numeral(Div2(Value(ds, 5), r), 8, m);
  }

  // ── Characters ───────────────────────────────────────────────────────────

  function CharOf(d: Digit): (c: char)
    ensures DigitOf(c) == Some(d)
  {
    ALPHABET[d]
  }

  /** The `BASE32_DECODE` table: `None` stands for `undefined`. */
  function DigitOf(c: char): (r: Option<Digit>)
    ensures r.Some? ==> ALPHABET[r.value] == c
  {
    if 'A' <= c <= 'Z' then Some(c as int - 'A' as int)
    else if '2' <= c <= '7' then Some(c as int - '2' as int + 26)
    else None
  }

  /** `toUpperCase` on the ASCII range. */
  function ToUpper(c: char): char {
    if 'a' <= c <= 'z' then (c as int - 32) as char else c
  }

  function ToUpperAll(s: string): (r: string)
    ensures |r| == |s|
    ensures forall i :: 0 <= i < |s| ==> r[i] == ToUpper(s[i])
  {
    seq(|s|, i requires 0 <= i < |s| => ToUpper(s[i]))
  }

  function Chars(ds: seq<int>): (s: string)
    requires DigitsOfWidth(ds, 5)
    ensures |s| == |ds|
    ensures forall i :: 0 <= i < |s| ==> s[i] == ALPHABET[ds[i]]
  {
    assert Pow2(5) == 32;
    seq(|ds|, i requires 0 <= i < |ds| => CharOf(ds[i]))
  }

  /** The digits of a string after `=` and `-` are skipped, or the first other character. */
  function Scan(s: string): (r: Result<seq<int>, char>)
    ensures r.Ok? ==> DigitsOfWidth(r.value, 5)
  {
    assert Pow2(5) == 32;
    if s == [] then Ok([])
    else
      var init := Scan(s[..|s| - 1]);
      var c := s[|s| - 1];
      if init.Err? || c == '=' || c == '-' then init
      else match DigitOf(c)
        case None => Err(c)
        case Some(d) => Ok(init.value + [d])
  }

  lemma {:induction false} ScanChars(ds: seq<int>)
    requires DigitsOfWidth(ds, 5)
    ensures Scan(Chars(ds)) == Ok(ds)
  {
    if ds == [] {
    } else {
      var init := ds[..|ds| - 1];
      ScanChars(init);
      assert Chars(ds)[..|ds| - 1] == Chars(init);
      assert Pow2(5) == 32;
      assert Chars(ds)[|ds| - 1] == CharOf(ds[|ds| - 1]);
      assert ds == init + [ds[|ds| - 1]];
    }
  }

  /** Once a bad character was met, no later character changes the error. */
  lemma {:induction false} ScanPrefixError(s: string, i: nat)
    requires i <= |s| && Scan(s[..i]).Err?
    ensures Scan(s) == Scan(s[..i])
  {
    if i == |s| {
      assert s[..i] == s;
    } else {
      assert s[..|s| - 1][..i] == s[..i];
      ScanPrefixError(s[..|s| - 1], i);
    }
  }

  function Encode(bytes: seq<byte>): string {
    Chars(EncodeDigits(bytes))
  }

  function Decode(s: string): Result<seq<byte>, char> {
    match Scan(ToUpperAll(s))
    case Err(c) => Err(c)
    case Ok(ds) => Ok(DecodeDigits(ds))
  }

  /** The round trip that the format promises, and the length it promises: ceil(8n/5). */
  lemma RoundTrip(bytes: seq<byte>)
    ensures Decode(Encode(bytes)) == Ok(bytes)
    ensures 5 * (|Encode(bytes)| - 1) < 8 * |bytes| <= 5 * |Encode(bytes)|
  {
    var ds := EncodeDigits(bytes);
    ScanChars(ds);
    assert ToUpperAll(Chars(ds)) == Chars(ds) by {
      assert Pow2(5) == 32;
      forall i | 0 <= i < |ds| ensures ToUpper(Chars(ds)[i]) == Chars(ds)[i] {
        assert Chars(ds)[i] == CharOf(ds[i]);
        assert DigitOf(CharOf(ds[i])).Some?;
      }
    }
    DecodeEncodeDigits(bytes);
  }

  // ── The accumulator ──────────────────────────────────────────────────────

  /** `v << k` on a 32-bit word: bits shifted past bit 31 are lost. */
  function Shl32(v: nat, k: nat): nat {
    Mul2(v, k) % WORD
  }

  /** `done` whole digits followed by the `bits` low bits of the accumulator, as one number. */
  function Carried(done: nat, value: nat, bits: nat): nat {
    Mul2(done, bits) + Mod2(value, bits)
  }

  /** Shifting in `k` new low bits appends them to the carried number: what the 32-bit word
      drops was no longer pending. */
  lemma ShiftIn(done: nat, value: nat, bits: nat, d: nat, k: nat)
    requires bits + k <= 16 && d < Pow2(k)
    ensures Carried(done, Shl32(value, k) + d, bits + k) == Mul2(Carried(done, value, bits), k) + d
  {
    PendingShift(value, bits, d, k);
    Mul2Sum(Mul2(done, bits), Mod2(value, bits), k);
    Mul2Mul2(done, bits, k);
  }

  lemma PendingShift(value: nat, bits: nat, d: nat, k: nat)
    requires bits + k <= 16 && d < Pow2(k)
    ensures Mod2(Shl32(value, k) + d, bits + k) == Mul2(Mod2(value, bits), k) + d
  {
    var w := WordWidth();
    WordMask(Mul2(value, k), w);
    MaskedShift(value, bits, k, w);
    OrLowBits(Shl32(value, k), bits, d, k);
  }

  lemma MaskedShift(value: nat, bits: nat, k: nat, w: nat)
    requires bits + k <= w
    ensures Mod2(Mod2(Mul2(value, k), w), bits + k) == Mul2(Mod2(value, bits), k)
    ensures Mod2(Mod2(Mul2(value, k), w), k) == 0
  {
    Join(value, 0, k);
    ModSplit(Mul2(value, k), bits, k);
    ModMod(Mul2(value, k), bits + k, w);
    ModMod(Mul2(value, k), k, w);
  }

  /** Moving the top `k` pending bits to the finished digits leaves the carried number alone. */
  lemma ShiftOut(done: nat, value: nat, bits: nat, k: nat)
    requires k <= bits
    ensures Carried(Mul2(done, k) + Mod2(Div2(value, bits - k), k), value, bits - k)
         == Carried(done, value, bits)
  {
    ModSplit(value, k, bits - k);
    Mul2Sum(Mul2(done, k), Mod2(Div2(value, bits - k), k), bits - k);
    Mul2Mul2(done, k, bits - k);
  }

  // ── What decoding tolerates and what it refuses ──────────────────────────

  function WithoutSeparators(s: string): string {
    if s == [] then []
    else WithoutSeparators(s[..|s| - 1]) + if s[|s| - 1] in {'=', '-'} then [] else [s[|s| - 1]]
  }

  lemma {:induction false} ScanSkips(s: string)
    ensures Scan(WithoutSeparators(s)) == Scan(s)
  {
    if s == [] {
    } else {
      var init := s[..|s| - 1];
      ScanSkips(init);
      var bare := WithoutSeparators(init);
      assert (bare + [s[|s| - 1]])[..|bare|] == bare;
      assert bare + [] == bare;
    }
  }

  /** `=` and `-` count for nothing anywhere in the text. */
  lemma SeparatorsIgnored(s: string)
    ensures Decode(WithoutSeparators(ToUpperAll(s))) == Decode(s)
  {
    ScanSkips(ToUpperAll(s));
    BareIsUpper(ToUpperAll(s));
    UpperTwice(s);
    var bare := WithoutSeparators(ToUpperAll(s));
    UpperStays(bare);
    // Hidden in the goal only, here and below: the steps before need the definitions.
    hide Scan, WithoutSeparators, ToUpperAll;
  }

  lemma UpperTwice(s: string)
    ensures forall i :: 0 <= i < |s| ==> ToUpper(ToUpperAll(s)[i]) == ToUpperAll(s)[i]
  {
  }

  lemma UpperStays(s: string)
    ensures (forall i :: 0 <= i < |s| ==> ToUpper(s[i]) == s[i]) ==> ToUpperAll(s) == s
  {
  }

  lemma {:induction false} BareIsUpper(s: string)
    ensures (forall i :: 0 <= i < |s| ==> ToUpper(s[i]) == s[i]) ==>
              forall i :: 0 <= i < |WithoutSeparators(s)| ==> ToUpper(WithoutSeparators(s)[i]) == WithoutSeparators(s)[i]
  {
    if s == [] {
    } else {
      var init := s[..|s| - 1];
      BareIsUpper(init);
      assert forall i :: 0 <= i < |init| ==> init[i] == s[i];
    }
  }

  predicate Readable(c: char) {
    c in {'=', '-'} || DigitOf(c).Some?
  }

  /** Decoding fails exactly at the first character that is neither a digit nor a separator. */
  lemma {:induction false} ScanErrorIff(s: string, c: char)
    ensures Scan(s) == Err(c) <==> exists k :: 0 <= k < |s| && s[k] == c && !Readable(c) && forall i :: 0 <= i < k ==> Readable(s[i])
  {
    if s == [] {
    } else {
      var init, last := s[..|s| - 1], s[|s| - 1];
      ScanErrorIff(init, c);
      assert forall i :: 0 <= i < |init| ==> init[i] == s[i];
      if Scan(init).Err? {
        ScanErrorIff(init, Scan(init).error);
      } else {
        AllReadable(init);
      }
      if k :| 0 <= k < |init| && init[k] == c && !Readable(c) && forall i :: 0 <= i < k ==> Readable(init[i]) {
        assert s[k] == c;
      }
    }
  }

  lemma {:induction false} AllReadable(s: string)
    requires Scan(s).Ok?
    ensures forall i :: 0 <= i < |s| ==> Readable(s[i])
  {
    if s == [] {
    } else {
      AllReadable(s[..|s| - 1]);
      assert forall i :: 0 <= i < |s| - 1 ==> s[..|s| - 1][i] == s[i];
    }
  }

  // ── The loops ────────────────────────────────────────────────────────────

  /** `ds` and the pending bits together denote the same number as `bytes`, and as many bits. */
  ghost predicate Balanced(ds: seq<int>, dw: nat, value: nat, bits: nat, from: seq<int>, fw: nat) {
    && DigitsOfWidth(ds, dw) && DigitsOfWidth(from, fw)
    && BitCount(dw, |ds|) + bits == BitCount(fw, |from|)
    && Carried(Value(ds, dw), value, bits) == Value(from, fw)
  }

  lemma BalancedStart(dw: nat, fw: nat)
    ensures Balanced([], dw, 0, 0, [], fw)
  {
  }

  lemma BalancedPush(ds: seq<int>, dw: nat, value: nat, bits: nat, from: seq<int>, fw: nat, d: nat)
    requires Balanced(ds, dw, value, bits, from, fw) && d < Pow2(fw) && bits + fw <= 16
    ensures Balanced(ds, dw, Shl32(value, fw) + d, bits + fw, from + [d], fw)
  {
    ShiftIn(Value(ds, dw), value, bits, d, fw);
    ValueSnoc(from, d, fw);
  }

  lemma BalancedTake(ds: seq<int>, dw: nat, value: nat, bits: nat, from: seq<int>, fw: nat)
    requires Balanced(ds, dw, value, bits, from, fw) && dw <= bits
    ensures Balanced(ds + [Mod2(Div2(value, bits - dw), dw)], dw, value, bits - dw, from, fw)
  {
    ShiftOut(Value(ds, dw), value, bits, dw);
    ValueSnoc(ds, Mod2(Div2(value, bits - dw), dw), dw);
  }

  /** Five-bit groups: what is left at the end is padded with zero bits into one more digit. */
  lemma BalancedFlush(ds: seq<int>, value: nat, bits: nat, bytes: seq<byte>)
    requires Balanced(ds, 5, value, bits, Ints(bytes), 8) && bits < 5
    ensures DigitsOfWidth(ds, 5)
    ensures bits == 0 ==> ds == EncodeDigits(bytes)
    ensures bits > 0 ==> ds + [Mod2(Shl32(value, 5 - bits), 5)] == EncodeDigits(bytes)
  {
    hide Shl32, Div2, Value, Numeral;
    BitCountOf(|ds|);
    BitCountOf(|bytes|);
    if bits == 0 {
      NumeralOfValue(ds, 5);
    } else {
      FlushedDigit(ds, value, bits, Value(Ints(bytes), 8));
    }
  }

  lemma FlushedDigit(ds: seq<int>, value: nat, bits: nat, v: nat)
    requires DigitsOfWidth(ds, 5) && 0 < bits < 5 && Carried(Value(ds, 5), value, bits) == v
    ensures ds + [Mod2(Shl32(value, 5 - bits), 5)] == Numeral(Mul2(v, 5 - bits), 5, |ds| + 1)
  {
    hide Shl32, Div2, Mod2, Value, Numeral;
    var index := Mod2(Shl32(value, 5 - bits), 5);
    ShiftIn(Value(ds, 5), value, bits, 0, 5 - bits);
    ValueSnoc(ds, index, 5);
    NumeralOfValue(ds + [index], 5);
  }

  /** Eight-bit groups: what is left at the end is dropped. */
  lemma BalancedDrop(bytes: seq<byte>, value: nat, bits: nat, ds: seq<int>)
    requires Balanced(Ints(bytes), 8, value, bits, ds, 5) && bits < 8
    ensures bytes == DecodeDigits(ds)
  {
    hide Shl32, Div2, Mod2, Mul2, Value, Numeral;
    BitCountOf(|ds|);
    BitCountOf(|bytes|);
    Join(Value(Ints(bytes), 8), Mod2(value, bits), bits);
    NumeralOfValue(Ints(bytes), 8);
  }

  method EncodeBase32(bytes: seq<byte>) returns (result: string)
    ensures result == Encode(bytes)
  {
    hide Balanced, Shl32, Div2, Mod2, Mul2;
    result := "";
    var bits: nat, value: nat := 0, 0;
    ghost var ds: seq<int> := [];
    BalancedStart(5, 8);
    assert Ints(bytes[..0]) == [];
    for i := 0 to |bytes|
      invariant bits <= 4 && DigitsOfWidth(ds, 5)
      invariant Balanced(ds, 5, value, bits, Ints(bytes[..i]), 8)
      invariant result == Chars(ds)
    {
      ByteRange(bytes[i]);
      BalancedPush(ds, 5, value, bits, Ints(bytes[..i]), 8, bytes[i] as int);
      IntsSnoc(bytes[..i], bytes[i]);
      assert bytes[..i + 1] == bytes[..i] + [bytes[i]];
      value := Shl32(value, 8) + bytes[i] as int;
      bits := bits + 8;
      while bits >= 5
        invariant bits <= 12 && DigitsOfWidth(ds, 5)
        invariant Balanced(ds, 5, value, bits, Ints(bytes[..i + 1]), 8)
        invariant result == Chars(ds)
      {
        var index := Mod2(Div2(value, bits - 5), 5);
        BalancedTake(ds, 5, value, bits, Ints(bytes[..i + 1]), 8);
        CharsSnoc(ds, index);
        result := result + [ALPHABET[index]];
        ds := ds + [index];
        bits := bits - 5;
      }
    }
    assert bytes[..|bytes|] == bytes;
    BalancedFlush(ds, value, bits, bytes);
    if bits > 0 {
      var index := Mod2(Shl32(value, 5 - bits), 5);
      CharsSnoc(ds, index);
      result := result + [ALPHABET[index]];
    }
  }

  lemma CharsSnoc(ds: seq<int>, d: nat)
    requires DigitsOfWidth(ds, 5) && d < Pow2(5)
    ensures d < 32 && DigitsOfWidth(ds + [d], 5)
    ensures Chars(ds + [d]) == Chars(ds) + [ALPHABET[d]]
  {
    assert Pow2(5) == 32;
  }

  lemma IntsSnoc(bytes: seq<byte>, b: byte)
    ensures Ints(bytes + [b]) == Ints(bytes) + [b as int]
  {
  }

  lemma MaskRange(v: nat)
    ensures Mod2(v, 8) < 256 && Pow2(5) == 32
  {
    assert Pow2(8) == 256;
  }

  lemma ByteRange(b: byte)
    ensures b as int < Pow2(8)
  {
    assert Pow2(8) == 256;
  }

  method DecodeBase32(str: string) returns (r: Result<seq<byte>, char>)
    ensures r == Decode(str)
  {
    hide Balanced, Shl32, Div2, Mod2, Mul2;
    var upper := ToUpperAll(str);
    var bytes: seq<byte> := [];
    var bits: nat, value: nat := 0, 0;
    BalancedStart(8, 5);
    assert Ints(bytes) == [];
    for i := 0 to |upper|
      invariant bits <= 7
      invariant Scan(upper[..i]).Ok?
      invariant Balanced(Ints(bytes), 8, value, bits, Scan(upper[..i]).value, 5)
    {
      var c := upper[i];
      assert upper[..i + 1][..i] == upper[..i];
      if c == '=' || c == '-' {
        continue;
      }
      var v := DigitOf(c);
      if v.None? {
        ScanPrefixError(upper, i + 1);
        return Err(c);
      }
      MaskRange(0);
      BalancedPush(Ints(bytes), 8, value, bits, Scan(upper[..i]).value, 5, v.value);
      value := Shl32(value, 5) + v.value;
      bits := bits + 5;
      if bits >= 8 {
        var b := Mod2(Div2(value, bits - 8), 8);
        BalancedTake(Ints(bytes), 8, value, bits, Scan(upper[..i + 1]).value, 5);
        MaskRange(Div2(value, bits - 8));
        IntsSnoc(bytes, b as byte);
        bytes := bytes + [b as byte];
        bits := bits - 8;
      }
    }
    assert upper[..|upper|] == upper;
    BalancedDrop(bytes, value, bits, Scan(upper).value);
    r := Ok(bytes);
  }
}
