/** The Luhn mod 32 check character of a peer id: which typing errors it detects. */
module LuhnMod32 {
  import opened Prelude
  import opened Base32

  /** What one digit adds to the sum; a doubled value is folded back below 32. */
  function Addend(d: Digit, doubled: bool): nat {
    var product := (if doubled then 2 else 1) * d;
    product / 32 + product % 32
  }

  /** The sum over `ds`; the rightmost digit is doubled iff `doubled`, then they alternate. */
  function Sum(ds: seq<Digit>, doubled: bool): nat {
    if ds == [] then 0
    else Addend(ds[|ds| - 1], doubled) + Sum(ds[..|ds| - 1], !doubled)
  }

  function CheckDigit(ds: seq<Digit>): Digit {
    (32 - Sum(ds, true) % 32) % 32
  }

  /** `full` ends in the check digit of the digits before it. */
  predicate Valid(full: seq<Digit>) {
    full != [] && CheckDigit(full[..|full| - 1]) == full[|full| - 1]
  }

  /** Equivalent reading: the sum over the whole string, check digit included, is 0 modulo 32. */
  lemma ValidIsZeroSum(full: seq<Digit>)
    requires full != []
    ensures Valid(full) <==> Sum(full, false) % 32 == 0
  {
    var c, s := full[|full| - 1], Sum(full[..|full| - 1], true);
    assert Sum(full, false) == c + s;
    Complement(c, s);
  }

  lemma Complement(c: nat, s: nat)
    requires c < 32
    ensures (32 - s % 32) % 32 == c <==> (c + s) % 32 == 0
  {
    var q, r := s / 32, s % 32;
    assert c + s == 32 * q + (c + r);
    if c + r < 32 {
      assert (c + s) % 32 == c + r;
    } else {
      assert (c + s) % 32 == c + r - 32;
    }
  }

  /** There is exactly one check digit for every digit string. */
  lemma CheckDigitUnique(ds: seq<Digit>, c: Digit)
    ensures Valid(ds + [c]) <==> c == CheckDigit(ds)
  {
    assert (ds + [c])[..|ds|] == ds;
  }

  /** Whether position `i` of a string of length `n` is doubled, given the rightmost choice. */
  predicate DoubledAt(n: nat, i: nat, doubled: bool)
    requires i < n
  {
    doubled == ((n - 1 - i) % 2 == 0)
  }

  lemma {:induction false} SumUpdate(ds: seq<Digit>, i: nat, d: Digit, doubled: bool)
    requires i < |ds|
    ensures Sum(ds[i := d], doubled)
         == Sum(ds, doubled) - Addend(ds[i], DoubledAt(|ds|, i, doubled)) + Addend(d, DoubledAt(|ds|, i, doubled))
  {
    hide Addend;
    var n := |ds|;
    if i == n - 1 {
      assert ds[i := d][..n - 1] == ds[..n - 1];
    } else {
      assert ds[i := d][..n - 1] == ds[..n - 1][i := d];
      SumUpdate(ds[..n - 1], i, d, !doubled);
      assert DoubledAt(n, i, doubled) == DoubledAt(n - 1, i, !doubled);
    }
  }

  lemma AddendInjective(a: Digit, b: Digit, doubled: bool)
    ensures Addend(a, doubled) < 32
    ensures Addend(a, doubled) == Addend(b, doubled) ==> a == b
  {
    AddendIs(a, doubled);
    AddendIs(b, doubled);
    // Hidden in the goal only, here and below: the steps before need the definitions.
    hide Addend;
  }

  lemma AddendIs(d: Digit, doubled: bool)
    ensures Addend(d, doubled) == if !doubled then d else if d < 16 then 2 * d else 2 * d - 31
  {
  }

  /** Changing any one character of a valid string, the check character included, is detected. */
  lemma SingleErrorDetected(full: seq<Digit>, i: nat, d: Digit)
    requires Valid(full) && i < |full| && d != full[i]
    ensures !Valid(full[i := d])
  {
    ValidIsZeroSum(full);
    ValidIsZeroSum(full[i := d]);
    SumUpdate(full, i, d, false);
    var doubled := DoubledAt(|full|, i, false);
    AddendInjective(full[i], d, doubled);
    AddendInjective(d, full[i], doubled);
    ResidueDiffers(Sum(full, false), Addend(d, doubled), Addend(full[i], doubled));
  }

  lemma ResidueDiffers(s: int, x: int, y: int)
    requires s % 32 == 0 && 0 <= x < 32 && 0 <= y < 32
    ensures (s - y + x) % 32 == 0 <==> x == y
  {
  }

  function Swap(full: seq<Digit>, i: nat, j: nat): (r: seq<Digit>)
    requires i < j < |full|
    ensures |r| == |full|
  {
    full[i := full[j]][j := full[i]]
  }

  /** Exchanging any two characters of a valid string goes unnoticed exactly when they are equal,
      or an even distance apart, or the pair A and 7. For neighbours only the last remains. */
  lemma SwapUndetectedIff(full: seq<Digit>, i: nat, j: nat)
    requires Valid(full) && i < j < |full|
    ensures Valid(Swap(full, i, j))
       <==> full[i] == full[j] || (j - i) % 2 == 0 || {full[i], full[j]} == {0, 31}
  {
    ValidIsZeroSum(full);
    ValidIsZeroSum(Swap(full, i, j));
    SumOfSwap(full, i, j);
    Parity(|full|, i, j);
    SwapResidue(Sum(full, false), full[i], full[j], DoubledAt(|full|, i, false), DoubledAt(|full|, j, false));
    PairOf(full[i], full[j]);
  }

  lemma Parity(n: nat, i: nat, j: nat)
    requires i < j < n
    ensures DoubledAt(n, i, false) == DoubledAt(n, j, false) <==> (j - i) % 2 == 0
  {
    var x, y := n - 1 - i, n - 1 - j;
    assert x == y + (j - i);
  }

  lemma SumOfSwap(full: seq<Digit>, i: nat, j: nat)
    requires i < j < |full|
    ensures var di, dj := DoubledAt(|full|, i, false), DoubledAt(|full|, j, false);
      Sum(Swap(full, i, j), false) == Sum(full, false) - Addend(full[i], di) + Addend(full[j], di)
                                         - Addend(full[j], dj) + Addend(full[i], dj)
  {
    SumUpdate(full, i, full[j], false);
    SumUpdate(full[i := full[j]], j, full[i], false);
  }

  lemma PairOf(a: Digit, b: Digit)
    ensures {a, b} == {0, 31} <==> (a == 0 && b == 31) || (a == 31 && b == 0)
  {
    if {a, b} == {0, 31} {
      assert a in {0, 31} && b in {0, 31} && 0 in {a, b} && 31 in {a, b};
    }
  }

  lemma SwapResidue(s: int, a: Digit, b: Digit, di: bool, dj: bool)
    requires s % 32 == 0
    ensures (s - Addend(a, di) + Addend(b, di) - Addend(b, dj) + Addend(a, dj)) % 32 == 0
       <==> a == b || di == dj || (a == 0 && b == 31) || (a == 31 && b == 0)
  {
    FoldShift(a);
    FoldShift(b);
    SmallResidue(s, Fold(b) - Fold(a));
    SmallResidue(s, Fold(a) - Fold(b));
  }

  lemma SmallResidue(s: int, x: int)
    requires s % 32 == 0 && -32 < x < 32
    ensures (s + x) % 32 == 0 <==> x == 0
  {
  }

  /** How far doubling moves a digit. */
  function Fold(d: Digit): int {
    if d < 16 then d else d - 31
  }

  lemma FoldShift(d: Digit)
    ensures Addend(d, false) == d
    ensures Addend(d, true) - d == Fold(d)
  {
  }

  // ── Characters ───────────────────────────────────────────────────────────

  /** The digits of a base32 string, or the rightmost character that is none. */
  function DigitsOf(s: string): (r: Result<seq<Digit>, char>)
    ensures r.Ok? ==> |r.value| == |s|
    ensures r.Ok? ==> forall i :: 0 <= i < |s| ==> DigitOf(s[i]) == Some(r.value[i])
    ensures r.Err? ==> exists i :: 0 <= i < |s| && s[i] == r.error && DigitOf(s[i]).None?
  {
    if s == [] then Ok([])
    else match DigitOf(s[|s| - 1])
      case None => Err(s[|s| - 1])
      case Some(d) =>
        var init := DigitsOf(s[..|s| - 1]);
        if init.Err? then init else Ok(init.value + [d])
  }

  function Checksum(s: string): Result<char, char> {
    match DigitsOf(s)
    case Err(c) => Err(c)
    case Ok(ds) => Ok(ALPHABET[CheckDigit(ds)])
  }

  lemma SumStep(s: string, i: nat, doubled: bool)
    requires i < |s| && DigitOf(s[i]).Some?
    ensures match DigitsOf(s[..i])
      case Err(c) => DigitsOf(s[..i + 1]) == Err(c)
      case Ok(ds) =>
        DigitsOf(s[..i + 1]).Ok?
        && Sum(DigitsOf(s[..i + 1]).value, doubled) == Addend(DigitOf(s[i]).value, doubled) + Sum(ds, !doubled)
  {
    assert s[..i + 1][..i] == s[..i];
    if DigitsOf(s[..i]).Ok? {
      assert DigitsOf(s[..i + 1]).value[..i] == DigitsOf(s[..i]).value;
    }
  }

  method LuhnMod32Checksum(base32: string) returns (r: Result<char, char>)
    ensures r == Checksum(base32)
  {
    var factor := 2;
    var sum: nat := 0;
    var i := |base32| - 1;
    assert base32[..|base32|] == base32;
    while i >= 0
      invariant -1 <= i < |base32|
      invariant factor == 1 || factor == 2
      invariant DigitsOf(base32).Ok? <==> DigitsOf(base32[..i + 1]).Ok?
      invariant DigitsOf(base32).Err? ==> DigitsOf(base32) == DigitsOf(base32[..i + 1])
      invariant DigitsOf(base32).Ok? ==>
                  Sum(DigitsOf(base32).value, true) == sum + Sum(DigitsOf(base32[..i + 1]).value, factor == 2)
    {
      assert base32[..i + 1][..i] == base32[..i];
      var codePoint := DigitOf(base32[i]);
      if codePoint.None? {
        return Err(base32[i]);
      }
      var digit: nat := codePoint.value;
      var addend: nat := factor * digit;
      assert addend == if factor == 2 then 2 * digit else digit;
      factor := if factor == 2 then 1 else 2;
      addend := addend / 32 + addend % 32;
      SumStep(base32, i, factor == 1);
      sum := sum + addend;
      i := i - 1;
    }
    var remainder: nat := sum % 32;
    var checksumValue: nat := (32 - remainder) % 32;
    r := Ok(ALPHABET[checksumValue]);
  }
}
