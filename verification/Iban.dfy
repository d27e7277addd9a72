/**
 IBAN validation: the country table, the chunked MOD 97-10 remainder of ISO/IEC 7064 and the
 error-detection guarantee that ISO 13616 check digits exist for.
 */
module Iban {
  import opened Wrappers
  import opened UpperCase
  import opened Decimal
  import opened Residues

  // ---- the remainder, computed seven digits at a time ----------------------------------------

  const CHUNK: nat := 7

  function Min(a: nat, b: nat): nat {
    if a < b then a else b
  }

  /**
   The text glued together in one round, the decimal remainder followed by the next chunk, denotes a
   number below 970000000, and that number has the residue of everything read so far.
   */
  lemma ChunkStep(read: string, remainder: nat, chunk: string)
    requires AllDigits(read) && AllDigits(chunk) && |chunk| <= CHUNK
    requires remainder == Value(read) % 97
    ensures AllDigits(ToDecimal(remainder) + chunk)
    ensures Value(ToDecimal(remainder) + chunk) < 970000000
    ensures AllDigits(read + chunk)
    ensures Value(ToDecimal(remainder) + chunk) % 97 == Value(read + chunk) % 97
  {
    hide Value, ToDecimal, Pow10;
    ToDecimalValue(remainder);
    ValueConcat(ToDecimal(remainder), chunk);
    ValueConcat(read, chunk);
    ShiftResidue(Value(read), Pow10(|chunk|), Value(chunk));
    ChunkSize(remainder, chunk);
  }

  lemma ChunkSize(remainder: nat, chunk: string)
    requires AllDigits(chunk) && |chunk| <= CHUNK && remainder <= 96
    ensures remainder * Pow10(|chunk|) + Value(chunk) < 970000000
  {
    ValueBound(chunk);
    Pow10UpToChunk(|chunk|);
    GlueBound(remainder, Pow10(|chunk|), Value(chunk));
  }

  lemma Pow10UpToChunk(n: nat)
    requires n <= CHUNK
    ensures Pow10(n) <= 10000000
    decreases CHUNK - n
  {
    if n == CHUNK {
      assert Pow10(3) == 1000 && Pow10(5) == 100000;
    } else {
      Pow10UpToChunk(n + 1);
      assert Pow10(n + 1) == 10 * Pow10(n);
    }
  }

  /** The chunked loop returns the residue of the whole decimal value, for any number of digits. */
  method Mod97(value: string) returns (remainder: nat)
    requires AllDigits(value)
    ensures remainder == Value(value) % 97
  {
    remainder := 0;
    var i := 0;
    while i < |value|
      invariant 0 <= i
      invariant remainder == Value(value[..Min(i, |value|)]) % 97
    {
      var end := Min(i + CHUNK, |value|);
      var chunk := value[i..end];
      ChunkStep(value[..i], remainder, chunk);
      assert value[..i] + chunk == value[..end];
      remainder := Value(ToDecimal(remainder) + chunk) % 97;
      i := i + CHUNK;
    }
    assert value[..Min(i, |value|)] == value;
  }

  // ---- what an accepted IBAN is ---------------------------------------------------------------

  predicate IsUpper(c: char) {
    'A' <= c <= 'Z'
  }

  predicate IsAlnum(c: char) {
    IsUpper(c) || IsDigit(c)
  }

  predicate AllAlnum(s: string) {
    forall i :: 0 <= i < |s| ==> IsAlnum(s[i])
  }

  /** Two letters, two digits, then one to thirty letters or digits. */
  predicate HasShape(iban: string) {
    && 5 <= |iban| <= 34
    && IsUpper(iban[0]) && IsUpper(iban[1])
    && IsDigit(iban[2]) && IsDigit(iban[3])
    && AllAlnum(iban)
  }

  /** Lengths per country; a country outside the table has no length of its own. */
  function ExpectedLength(country: string): Option<nat> {
    if country in {"NO"} then Some(15)
    else if country in {"BE"} then Some(16)
    else if country in {"DK", "FI", "FO", "GL", "NL"} then Some(18)
    else if country in {"MK", "SI"} then Some(19)
    else if country in {"AT", "BA", "EE", "KZ", "LT", "LU", "XK"} then Some(20)
    else if country in {"CH", "HR", "LI", "LV"} then Some(21)
    else if country in {"BG", "BH", "CR", "DE", "GB", "GE", "IE", "ME", "RS", "VA"} then Some(22)
    else if country in {"AE", "GI", "IL", "IQ", "TL"} then Some(23)
    else if country in {"AD", "CZ", "ES", "MD", "PK", "RO", "SA", "SE", "SK", "TN", "VG"} then Some(24)
    else if country in {"PT", "ST"} then Some(25)
    else if country in {"IS", "TR"} then Some(26)
    else if country in {"FR", "GR", "IT", "MC", "MR", "SM"} then Some(27)
    else if country in {"AL", "AZ", "BY", "CY", "DO", "GT", "HU", "LB", "PL", "SV"} then Some(28)
    else if country in {"BR", "PS", "QA", "UA"} then Some(29)
    else if country in {"JO", "KW", "MU"} then Some(30)
    else if country in {"MT", "SC"} then Some(31)
    else None
  }

  /** A digit stands for itself, a letter for its two-digit number from A = 10 to Z = 35. */
  function CharText(c: char): (t: string)
    requires IsAlnum(c)
    ensures AllDigits(t)
  {
    if IsDigit(c) then [c] else ToDecimal(c as int - 55)
  }

  function CharNumber(c: char): nat
    requires IsAlnum(c)
  {
    if IsDigit(c) then DigitValue(c) else c as int - 55
  }

  function Numeric(s: string): (t: string)
    requires AllAlnum(s)
    ensures AllDigits(t)
  {
    if s == "" then "" else Numeric(s[..|s| - 1]) + CharText(s[|s| - 1])
  }

  function Rearranged(iban: string): string
    requires |iban| >= 4
  {
    iban[4..] + iban[..4]
  }

  function Residue(s: string): nat
    requires AllAlnum(s)
  {
    Value(Numeric(s)) % 97
  }

  predicate LengthFits(iban: string)
    requires |iban| >= 2
  {
    && (ExpectedLength(iban[..2]).Some? ==> |iban| == ExpectedLength(iban[..2]).value)
    && 15 <= |iban| <= 34
  }

  predicate Accepted(iban: string) {
    HasShape(iban) && LengthFits(iban) && Residue(Rearranged(iban)) == 1
  }

  predicate IsWhitespace(c: char) {
    || '\U{0009}' <= c <= '\U{000D}' || c == ' ' || c == '\U{00A0}' || c == '\U{1680}'
    || '\U{2000}' <= c <= '\U{200A}' || c in {'\U{2028}', '\U{2029}', '\U{202F}', '\U{205F}', '\U{3000}', '\U{FEFF}'}
  }

  function Normalise(value: string): string {
    if value == "" then ""
    else
      var c := value[0];
      (if IsWhitespace(c) then "" else UpperOf(c)) + Normalise(value[1..])
  }

  method IsValidIban(value: string) returns (valid: bool)
    ensures valid == Accepted(Normalise(value))
  {
    hide ExpectedLength, Value, Normalise, CharText;
    var iban := Normalise(value);
    if !HasShape(iban) { return false; }
    var expected := ExpectedLength(iban[..2]);
    if expected.Some? && |iban| != expected.value { return false; }
    if |iban| < 15 || |iban| > 34 { return false; }

    var rearranged := iban[4..] + iban[..4];
    var numeric := "";
    for i := 0 to |rearranged|
      invariant numeric == Numeric(rearranged[..i])
    {
      numeric := numeric + CharText(rearranged[i]);
      assert rearranged[..i + 1][..i] == rearranged[..i];
    }
    assert rearranged[..|rearranged|] == rearranged;
    var remainder := Mod97(numeric);
    valid := remainder == 1;
  }

  // ---- number theory: which changes keep the residue -------------------------------------------

  /** A power of ten divides out of a multiple of 97. */
  lemma {:induction false} CancelPow10(x: int, n: nat)
    requires (x * Pow10(n)) % 97 == 0
    ensures x % 97 == 0
  {
    if n > 0 {
      assert x * Pow10(n) == 10 * (x * Pow10(n - 1));
      CancelTen(x * Pow10(n - 1));
      CancelPow10(x, n - 1);
    }
  }

  lemma {:induction false} NumericConcat(a: string, b: string)
    requires AllAlnum(a) && AllAlnum(b)
    ensures AllAlnum(a + b)
    ensures Numeric(a + b) == Numeric(a) + Numeric(b)
  {
    hide CharText;
    if b == "" {
      assert a + b == a;
    } else {
      var b', c := b[..|b| - 1], b[|b| - 1];
      NumericConcat(a, b');
      assert (a + b)[..|a + b| - 1] == a + b';
      assert (a + b)[|a + b| - 1] == c;
      assert Numeric(a + b) == Numeric(a + b') + CharText(c);
      Associative(Numeric(a), Numeric(b'), CharText(c));
    }
  }

  lemma Split(pre: string, mid: string, post: string)
    requires AllAlnum(pre) && AllAlnum(mid) && AllAlnum(post)
    ensures AllAlnum(pre + mid + post)
    ensures Numeric(pre + mid + post) == Numeric(pre) + Numeric(mid) + Numeric(post)
  {
    NumericConcat(pre, mid);
    NumericConcat(pre + mid, post);
  }

  /** The decimal value of a text in three parts. */
  lemma ValueOfParts(a: string, m: string, z: string)
    requires AllDigits(a) && AllDigits(m) && AllDigits(z)
    ensures AllDigits(a + m + z)
    ensures Value(a + m + z) == Value(a) * Pow10(|m| + |z|) + Value(m) * Pow10(|z|) + Value(z)
  {
    ValueConcat(a, m);
    ValueConcat(a + m, z);
    Pow10Add(|m|, |z|);
    RegroupSum(Value(a), Pow10(|m|), Pow10(|z|), Value(m));
  }

  lemma TextMiddle(a: string, m: string, other: string, z: string)
    requires AllDigits(a) && AllDigits(m) && AllDigits(other) && AllDigits(z)
    requires |m| == |other|
    ensures AllDigits(a + m + z) && AllDigits(a + other + z)
    ensures SameMod97(Value(a + m + z), Value(a + other + z)) <==> SameMod97(Value(m), Value(other))
  {
    ValueOfParts(a, m, z);
    ValueOfParts(a, other, z);
    Scaled(Value(a) * Pow10(|m| + |z|), Value(m), Value(other), |z|, Value(z), Value(a + m + z), Value(a + other + z));
  }

  /** Exchanging a middle part for one of the same printed width keeps the residue exactly when both
      parts have the same residue. */
  lemma MiddleDecides(pre: string, mid: string, other: string, post: string)
    requires AllAlnum(pre) && AllAlnum(mid) && AllAlnum(other) && AllAlnum(post)
    requires |Numeric(mid)| == |Numeric(other)|
    ensures AllAlnum(pre + mid + post) && AllAlnum(pre + other + post)
    ensures SameMod97(Value(Numeric(pre + mid + post)), Value(Numeric(pre + other + post)))
       <==> SameMod97(Value(Numeric(mid)), Value(Numeric(other)))
  {
    var a, m, n, z := Numeric(pre), Numeric(mid), Numeric(other), Numeric(post);
    assert AllAlnum(pre + mid + post) && Numeric(pre + mid + post) == a + m + z by { Split(pre, mid, post); }
    assert AllAlnum(pre + other + post) && Numeric(pre + other + post) == a + n + z by { Split(pre, other, post); }
    TextMiddle(a, m, n, z);
  }

  lemma Scaled(h: nat, v: nat, w: nat, n: nat, t: nat, x: nat, y: nat)
    requires x == h + v * Pow10(n) + t && y == h + w * Pow10(n) + t
    ensures SameMod97(x, y) <==> SameMod97(v, w)
  {
    hide Pow10, SameMod97;
    var p := Pow10(n);
    Difference(h, v, w, p, t, x, y);
    SameResidue(x, y);
    SameResidue(v, w);
    if SameMod97(v, w) {
      MultipleOf(v - w, p);
    } else if SameMod97(x, y) {
      CancelPow10(v - w, n);
    }
  }

  lemma OneChar(c: char)
    requires IsAlnum(c)
    ensures Numeric([c]) == CharText(c)
    ensures |Numeric([c])| == if IsDigit(c) then 1 else 2
    ensures Value(Numeric([c])) == CharNumber(c)
  {
    assert Numeric([c][..0]) == "";
    if IsDigit(c) {
      assert [c][..0] == "";
    } else {
      ToDecimalValue(c as int - 55);
    }
  }

  function PairNumber(c: char, d: char): nat
    requires IsAlnum(c) && IsAlnum(d)
  {
    CharNumber(c) * (if IsDigit(d) then 10 else 100) + CharNumber(d)
  }

  lemma TwoChars(c: char, d: char)
    requires IsAlnum(c) && IsAlnum(d)
    ensures |Numeric([c, d])| == (if IsDigit(c) then 1 else 2) + (if IsDigit(d) then 1 else 2)
    ensures Value(Numeric([c, d])) == PairNumber(c, d)
  {
    OneChar(c);
    OneChar(d);
    assert [c, d] == [c] + [d];
    NumericConcat([c], [d]);
    ValueConcat(Numeric([c]), Numeric([d]));
  }

  // ---- error detection --------------------------------------------------------------------------

  predicate SameClass(c: char, d: char) {
    (IsDigit(c) && IsDigit(d)) || (IsUpper(c) && IsUpper(d))
  }

  function Swapped(s: string, i: nat): string
    requires i + 1 < |s|
  {
    s[i := s[i + 1]][i + 1 := s[i]]
  }

  lemma DifferentNumbers(c: char, d: char)
    requires c != d && SameClass(c, d)
    ensures !SameMod97(CharNumber(c), CharNumber(d))
  {
  }

  lemma CharDecides(pre: string, c: char, d: char, post: string)
    requires AllAlnum(pre) && AllAlnum(post) && c != d && SameClass(c, d)
    ensures AllAlnum(pre + [c] + post) && AllAlnum(pre + [d] + post)
    ensures !SameMod97(Value(Numeric(pre + [c] + post)), Value(Numeric(pre + [d] + post)))
  {
    OneChar(c);
    OneChar(d);
    DifferentNumbers(c, d);
    MiddleDecides(pre, [c], [d], post);
  }

  /** No accepted IBAN stays accepted when one digit is mistyped as another digit or one letter as
      another letter. */
  lemma SubstitutionDetected(iban: string, i: nat, c: char)
    requires Accepted(iban)
    requires i < |iban| && c != iban[i] && SameClass(iban[i], c)
    ensures !Accepted(iban[i := c])
  {
    hide ExpectedLength, Numeric, Value;
    var r := Rearranged(iban);
    var j := if i < 4 then |iban| - 4 + i else i - 4;
    assert r[j] == iban[i];
    assert r == r[..j] + [iban[i]] + r[j + 1..];
    assert Rearranged(iban[i := c]) == r[..j] + [c] + r[j + 1..];
    CharDecides(r[..j], iban[i], c, r[j + 1..]);
  }

  /** A digit and a letter whose exchange the remainder cannot see: 1 and B, 2 and M, 3 and X. */
  predicate BlindPair(c: char, d: char) {
    || (c == '1' && d == 'B') || (c == '2' && d == 'M') || (c == '3' && d == 'X')
    || (d == '1' && c == 'B') || (d == '2' && c == 'M') || (d == '3' && c == 'X')
  }

  lemma SwapDecides(pre: string, c: char, d: char, post: string)
    requires AllAlnum(pre) && AllAlnum(post) && IsAlnum(c) && IsAlnum(d) && c != d
    ensures AllAlnum(pre + [c, d] + post) && AllAlnum(pre + [d, c] + post)
    ensures SameMod97(Value(Numeric(pre + [c, d] + post)), Value(Numeric(pre + [d, c] + post))) <==> BlindPair(c, d)
  {
    TwoChars(c, d);
    TwoChars(d, c);
    SwapArithmetic(c, d);
    MiddleDecides(pre, [c, d], [d, c], post);
  }

  lemma SwapInRearranged(iban: string, i: nat)
    requires HasShape(iban) && i + 1 < |iban| && i != 3
    ensures var r, j := Rearranged(iban), if i < 4 then |iban| - 4 + i else i - 4;
      && j + 1 < |r|
      && r == r[..j] + [iban[i], iban[i + 1]] + r[j + 2..]
      && Rearranged(Swapped(iban, i)) == r[..j] + [iban[i + 1], iban[i]] + r[j + 2..]
  {
    var r, j := Rearranged(iban), if i < 4 then |iban| - 4 + i else i - 4;
    assert r[j] == iban[i] && r[j + 1] == iban[i + 1];
  }

  /** In the account part, exchanging two different neighbours is missed for the three blind pairs
      and for nothing else. */
  lemma AccountSwapExact(iban: string, i: nat)
    requires Accepted(iban)
    requires 4 <= i && i + 1 < |iban| && iban[i] != iban[i + 1]
    ensures Accepted(Swapped(iban, i)) <==> BlindPair(iban[i], iban[i + 1])
  {
    hide ExpectedLength, Numeric, Value;
    var r, j := Rearranged(iban), i - 4;
    SwapInRearranged(iban, i);
    SwapDecides(r[..j], iban[i], iban[i + 1], r[j + 2..]);
    assert Swapped(iban, i)[..2] == iban[..2];
  }

  lemma SwapArithmetic(c: char, d: char)
    requires IsAlnum(c) && IsAlnum(d) && c != d
    ensures SameMod97(PairNumber(c, d), PairNumber(d, c)) <==> BlindPair(c, d)
  {
    SameResidue(PairNumber(c, d), PairNumber(d, c));
    var x: int, y: int := CharNumber(c), CharNumber(d);
    if IsDigit(c) && IsDigit(d) {
      SmallMultiple(9 * (x - y));
    } else if IsDigit(c) {
      CancelNine(11 * x - y);
      SmallMultiple(11 * x - y);
    } else if IsDigit(d) {
      CancelNine(x - 11 * y);
      SmallMultiple(x - 11 * y);
    } else {
      AddMultiple(2 * (x - y), x - y);
      SmallMultiple(2 * (x - y));
    }
  }

  /** Among the country code and the check digits, exchanging two different neighbours is always
      caught; together with AccountSwapExact this covers every exchange on one side of index 4. */
  lemma HeaderSwapDetected(iban: string, i: nat)
    requires Accepted(iban)
    requires i < 3 && iban[i] != iban[i + 1]
    ensures !Accepted(Swapped(iban, i))
  {
    hide ExpectedLength, Numeric, Value;
    if i != 1 {
      var r, j := Rearranged(iban), |iban| - 4 + i;
      SwapInRearranged(iban, i);
      SwapDecides(r[..j], iban[i], iban[i + 1], r[j + 2..]);
    }
  }

  // ---- check digits ---------------------------------------------------------------------------------

  lemma {:induction false} DigitsStay(k: string)
    requires AllDigits(k)
    ensures AllAlnum(k) && Numeric(k) == k
  {
    hide ToDecimal;
    if k != "" {
      DigitsStay(k[..|k| - 1]);
      assert k == k[..|k| - 1] + [k[|k| - 1]];
    }
  }

  /** The number behind the rearranged text, with any two digits for the check digits. */
  lemma NumberBehind(a: string, cc: string, k: string)
    requires AllAlnum(a) && AllAlnum(cc) && |k| == 2 && AllDigits(k)
    ensures AllAlnum(a + cc + k)
    ensures Value(Numeric(a + cc + k)) == Value(Numeric(a + cc)) * 100 + Value(k)
  {
    hide Numeric, Value;
    NumericConcat(a, cc);
    DigitsStay(k);
    NumericConcat(a + cc, k);
    ValueConcat(Numeric(a + cc), k);
    assert Pow10(2) == 100;
  }

  lemma TwoZeros()
    ensures AllDigits("00") && Value("00") == 0
  {
    assert "00"[..1] == "0" && "0"[..0] == "";
  }

  lemma ComplementTo98(v: nat, k: nat)
    ensures (v * 100 + k) % 97 == 1 <==> SameMod97(k, 98 - v * 100 % 97)
  {
    SameResidue(v * 100 + k, 1);
    SameResidue(k, 98 - v * 100 % 97);
    var q := v * 100 / 97;
    AddMultiple(v * 100 % 97 + k - 98, q + 1);
  }

  /** A text of country, check digits and account that meets the shape and the length of its country. */
  predicate IsWritten(cc: string, k: string, a: string) {
    && |cc| == 2 && 'A' <= cc[0] <= 'Z' && 'A' <= cc[1] <= 'Z' && |k| == 2 && AllDigits(k)
    && AllAlnum(a) && 11 <= |a| <= 30
    && (ExpectedLength(cc).Some? ==> |a| + 4 == ExpectedLength(cc).value)
  }

  lemma WrittenParts(cc: string, k: string, a: string)
    requires IsWritten(cc, k, a)
    ensures var iban := cc + k + a;
      HasShape(iban) && LengthFits(iban) && Rearranged(iban) == a + cc + k && AllAlnum(cc)
  {
    hide ExpectedLength;
    var iban := cc + k + a;
    assert iban[..2] == cc && iban[2] == k[0] && iban[3] == k[1];
    assert iban[4..] == a && iban[..4] == cc + k;
    assert a + (cc + k) == a + cc + k;
  }

  /**
   The generation law of ISO 13616: the check digits accepted are exactly those equal, modulo 97, to 98 less
   the remainder of the account, the country and two zeros.
   */
  lemma CheckDigitsExact(cc: string, k: string, a: string)
    requires IsWritten(cc, k, a)
    ensures AllAlnum(a + cc + "00")
    ensures Accepted(cc + k + a) <==> SameMod97(Value(k), 98 - Value(Numeric(a + cc + "00")) % 97)
  {
    hide HasShape, LengthFits, Rearranged, Numeric, Value, ExpectedLength;
    WrittenParts(cc, k, a);
    NumberBehind(a, cc, k);
    TwoZeros();
    NumberBehind(a, cc, "00");
    ComplementTo98(Value(Numeric(a + cc)), Value(k));
  }

  /** The two-digit text of that number is accepted, and any other two digits exactly if they are equal modulo 97. */
  lemma GeneratedAccepted(cc: string, k: string, other: string, a: string)
    requires IsWritten(cc, k, a) && IsWritten(cc, other, a) && AllAlnum(a + cc + "00")
    requires Value(k) == 98 - Value(Numeric(a + cc + "00")) % 97
    ensures Accepted(cc + k + a)
    ensures Accepted(cc + other + a) <==> SameMod97(Value(other), Value(k))
  {
    hide Accepted, IsWritten, Numeric, Value;
    CheckDigitsExact(cc, k, a);
    CheckDigitsExact(cc, other, a);
  }

  /** Every number that can come up has its two digits. */
  lemma CheckDigitsExist(n: nat) returns (k: string)
    requires n < 100
    ensures |k| == 2 && AllDigits(k) && Value(k) == n
  {
    k := [DigitChar(n / 10), DigitChar(n % 10)];
    TwoDigitText(k[0], k[1]);
  }

  /** What is accepted has the shape and a length between 15 and 34, that of its country if listed. */
  lemma AcceptedShape(iban: string)
    requires Accepted(iban)
    ensures 15 <= |iban| <= 34
    ensures 'A' <= iban[0] <= 'Z' && 'A' <= iban[1] <= 'Z' && '0' <= iban[2] <= '9' && '0' <= iban[3] <= '9'
    ensures forall i :: 0 <= i < |iban| ==> 'A' <= iban[i] <= 'Z' || '0' <= iban[i] <= '9'
    ensures ExpectedLength(iban[..2]).Some? ==> |iban| == ExpectedLength(iban[..2]).value
  {
  }

  lemma TwoDigitText(c: char, d: char)
    requires IsDigit(c) && IsDigit(d)
    ensures Value([c, d]) == DigitValue(c) * 10 + DigitValue(d)
  {
    OneMoreDigit("", c);
    OneMoreDigit([c], d);
    assert "" + [c] == [c] && [c] + [d] == [c, d];
  }

  lemma OneMoreDigit(s: string, c: char)
    requires AllDigits(s) && IsDigit(c)
    ensures AllDigits(s + [c]) && Value(s + [c]) == Value(s) * 10 + DigitValue(c)
  {
    assert (s + [c])[..|s|] == s;
  }

  lemma SixDigits()
    ensures AllDigits("860111") && Value("860111") == 860111
  {
    hide Value;
    TwoDigitText('8', '6');
    OneMoreDigit(['8', '6'], '0');
    OneMoreDigit(['8', '6'] + ['0'], '1');
    OneMoreDigit(['8', '6'] + ['0'] + ['1'], '1');
    OneMoreDigit(['8', '6'] + ['0'] + ['1'] + ['1'], '1');
    assert ['8', '6'] + ['0'] + ['1'] + ['1'] + ['1'] == "860111";
  }

  lemma FiveDigits()
    ensures AllDigits("17947") && Value("17947") == 17947
  {
    hide Value;
    TwoDigitText('1', '7');
    OneMoreDigit(['1', '7'], '9');
    OneMoreDigit(['1', '7'] + ['9'], '4');
    OneMoreDigit(['1', '7'] + ['9'] + ['4'], '7');
    assert ['1', '7'] + ['9'] + ['4'] + ['7'] == "17947";
  }

  lemma NorwegianAccount()
    ensures AllDigits("86011117947") && Value("86011117947") == 86011117947
  {
    hide Value;
    SixDigits();
    FiveDigits();
    ValueConcat("860111", "17947");
    assert "860111" + "17947" == "86011117947";
    assert Pow10(5) == 100000;
  }

  lemma NorwegianNumber()
    ensures AllAlnum("86011117947" + "NO" + "00")
    ensures Value(Numeric("86011117947" + "NO" + "00")) == 86011117947232400
  {
    hide Numeric, Value;
    TwoZeros();
    NorwegianAccount();
    DigitsStay("86011117947");
    TwoChars('N', 'O');
    NumericConcat("86011117947", "NO");
    NumberBehind("86011117947", "NO", "00");
    ValueConcat("86011117947", Numeric("NO"));
    assert Pow10(4) == 10000;
  }

  lemma NorwegianWritten(k: string)
    requires |k| == 2 && AllDigits(k)
    ensures IsWritten("NO", k, "86011117947")
  {
    NorwegianAccount();
    assert ExpectedLength("NO") == Some(15);
  }

  /** A Norwegian account, the shortest there is, with its check digits and with others. */
  lemma NorwegianExample()
    ensures Accepted("NO9386011117947") && !Accepted("NO9286011117947")
  {
    hide Accepted, IsWritten, Numeric, Value;
    NorwegianNumber();
    NorwegianWritten("93");
    NorwegianWritten("92");
    TwoDigitText('9', '3');
    TwoDigitText('9', '2');
    CheckDigitsExact("NO", "93", "86011117947");
    CheckDigitsExact("NO", "92", "86011117947");
    assert "NO" + "93" + "86011117947" == "NO9386011117947" && "NO" + "92" + "86011117947" == "NO9286011117947";
  }

  /** The lengths in the order of the countries' codes. */
  lemma LengthsA()
    ensures ExpectedLength("AD") == Some(24) && ExpectedLength("AE") == Some(23) && ExpectedLength("AL") == Some(28) && ExpectedLength("AT") == Some(20)
    ensures ExpectedLength("AZ") == Some(28)
  {
  }

  lemma LengthsB()
    ensures ExpectedLength("BA") == Some(20) && ExpectedLength("BE") == Some(16) && ExpectedLength("BG") == Some(22) && ExpectedLength("BH") == Some(22)
    ensures ExpectedLength("BR") == Some(29) && ExpectedLength("BY") == Some(28)
  {
  }

  lemma LengthsCToE()
    ensures ExpectedLength("CH") == Some(21) && ExpectedLength("CR") == Some(22) && ExpectedLength("CY") == Some(28) && ExpectedLength("CZ") == Some(24)
    ensures ExpectedLength("DE") == Some(22) && ExpectedLength("DK") == Some(18) && ExpectedLength("DO") == Some(28) && ExpectedLength("EE") == Some(20)
    ensures ExpectedLength("ES") == Some(24)
  {
  }

  lemma LengthsFToG()
    ensures ExpectedLength("FI") == Some(18) && ExpectedLength("FO") == Some(18) && ExpectedLength("FR") == Some(27) && ExpectedLength("GB") == Some(22)
    ensures ExpectedLength("GE") == Some(22) && ExpectedLength("GI") == Some(23) && ExpectedLength("GL") == Some(18) && ExpectedLength("GR") == Some(27)
    ensures ExpectedLength("GT") == Some(28)
  {
  }

  lemma LengthsHToI()
    ensures ExpectedLength("HR") == Some(21) && ExpectedLength("HU") == Some(28) && ExpectedLength("IE") == Some(22) && ExpectedLength("IL") == Some(23)
    ensures ExpectedLength("IQ") == Some(23) && ExpectedLength("IS") == Some(26) && ExpectedLength("IT") == Some(27)
  {
  }

  lemma LengthsJToL()
    ensures ExpectedLength("JO") == Some(30) && ExpectedLength("KW") == Some(30) && ExpectedLength("KZ") == Some(20) && ExpectedLength("LB") == Some(28)
    ensures ExpectedLength("LI") == Some(21) && ExpectedLength("LT") == Some(20) && ExpectedLength("LU") == Some(20) && ExpectedLength("LV") == Some(21)
  {
  }

  lemma LengthsM()
    ensures ExpectedLength("MC") == Some(27) && ExpectedLength("MD") == Some(24) && ExpectedLength("ME") == Some(22) && ExpectedLength("MK") == Some(19)
    ensures ExpectedLength("MR") == Some(27) && ExpectedLength("MT") == Some(31) && ExpectedLength("MU") == Some(30)
  {
  }

  lemma LengthsNToP()
    ensures ExpectedLength("NL") == Some(18) && ExpectedLength("NO") == Some(15) && ExpectedLength("PK") == Some(24) && ExpectedLength("PL") == Some(28)
    ensures ExpectedLength("PS") == Some(29) && ExpectedLength("PT") == Some(25)
  {
  }

  lemma LengthsQToR()
    ensures ExpectedLength("QA") == Some(29) && ExpectedLength("RO") == Some(24) && ExpectedLength("RS") == Some(22)
  {
  }

  lemma LengthsS()
    ensures ExpectedLength("SA") == Some(24) && ExpectedLength("SC") == Some(31) && ExpectedLength("SE") == Some(24) && ExpectedLength("SI") == Some(19)
    ensures ExpectedLength("SK") == Some(24) && ExpectedLength("SM") == Some(27) && ExpectedLength("ST") == Some(25) && ExpectedLength("SV") == Some(28)
  {
  }

  lemma LengthsTToX()
    ensures ExpectedLength("TL") == Some(23) && ExpectedLength("TN") == Some(24) && ExpectedLength("TR") == Some(26) && ExpectedLength("UA") == Some(29)
    ensures ExpectedLength("VA") == Some(22) && ExpectedLength("VG") == Some(24) && ExpectedLength("XK") == Some(20)
  {
  }

  // ---- reading the text -----------------------------------------------------------------------------

  lemma {:induction false} NormaliseConcat(a: string, b: string)
    ensures Normalise(a + b) == Normalise(a) + Normalise(b)
  {
    hide UpperOf, IsWhitespace;
    if a == "" {
      assert a + b == b;
    } else {
      NormaliseConcat(a[1..], b);
      assert (a + b)[0] == a[0] && (a + b)[1..] == a[1..] + b;
      var head := if IsWhitespace(a[0]) then "" else UpperOf(a[0]);
      Associative(head, Normalise(a[1..]), Normalise(b));
    }
  }

  /** The characters that `\s` matches. */
  lemma WhitespaceIs(c: char)
    ensures IsWhitespace(c) <==>
      || 9 <= c as int <= 13 || c as int in {32, 160, 5760, 8232, 8233, 8239, 8287, 12288, 65279} || 8192 <= c as int <= 8202
  {
  }

  /** Blanks anywhere do not matter, nor does the case of a letter. */
  lemma BlanksAndCaseIgnored(a: string, c: char, b: string)
    ensures IsWhitespace(c) ==> Normalise(a + [c] + b) == Normalise(a + b)
    ensures 'a' <= c <= 'z' ==> Normalise(a + [c] + b) == Normalise(a + [(c as int - 'a' as int + 'A' as int) as char] + b)
  {
    hide Normalise, IsWhitespace;
    NormaliseConcat(a, b);
    NormaliseConcat(a + [c], b);
    NormaliseConcat(a, [c]);
    OneNormalised(c);
    if 'a' <= c <= 'z' {
      var d := (c as int - 'a' as int + 'A' as int) as char;
      NormaliseConcat(a + [d], b);
      NormaliseConcat(a, [d]);
      OneNormalised(d);
    }
  }

  lemma OneNormalised(c: char)
    ensures IsWhitespace(c) ==> Normalise([c]) == ""
    ensures 'a' <= c <= 'z' ==> Normalise([c]) == [(c as int - 'a' as int + 'A' as int) as char]
    ensures IsAlnum(c) ==> Normalise([c]) == [c]
  {
    assert [c][1..] == "";
  }

  /** What is accepted is its own normal form, so accepting depends on the normal form alone. */
  lemma {:induction false} NormalFormStays(s: string)
    requires AllAlnum(s)
    ensures Normalise(s) == s
  {
    hide Normalise;
    if s == "" {
      NothingNormalised();
    } else {
      NormalFormStays(s[1..]);
      OneNormalised(s[0]);
      NormaliseConcat([s[0]], s[1..]);
      assert [s[0]] + s[1..] == s;
    }
  }

  lemma NothingNormalised()
    ensures Normalise("") == ""
  {
  }
}
