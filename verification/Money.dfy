/**
 Sending money: decimal amount text to and from stroops (ten-millionths), and the fee that the prepared
 payment carries.
 */
module Money {
  import opened Wrappers
  import opened Decimal

  const DECIMALS: nat := 7
  const STROOPS_PER_UNIT: nat := 10000000

  // ---- amount text ---------------------------------------------------------------------------

  /** The position of the first dot, or the length of a text without one. */
  function DotIndex(s: string): (i: nat)
    ensures i <= |s|
    ensures i < |s| ==> s[i] == '.'
    ensures '.' !in s[..i]
  {
    if s == "" || s[0] == '.' then 0
    else
      var i := 1 + DotIndex(s[1..]);
      assert s[..i] == [s[0]] + s[1..][..i - 1];
      i
  }

  function IntPart(s: string): string {
    s[..DotIndex(s)]
  }

  function DecPart(s: string): string {
    if DotIndex(s) == |s| then "" else s[DotIndex(s) + 1..]
  }

  /** One or more digits, then optionally a dot and one to seven digits. */
  predicate MatchesAmount(s: string) {
    && |IntPart(s)| >= 1 && AllDigits(IntPart(s))
    && AllDigits(DecPart(s)) && |DecPart(s)| <= DECIMALS
    && (DotIndex(s) < |s| ==> |DecPart(s)| >= 1)
  }

  function PadEnd(s: string): (t: string)
    requires AllDigits(s) && |s| <= DECIMALS
    ensures AllDigits(t)
  {
    s + Zeros(DECIMALS - |s|)
  }

  function PadStart(s: string): string
    requires |s| <= DECIMALS
  {
    Zeros(DECIMALS - |s|) + s
  }

  function TrimZeros(s: string): string {
    if s != "" && s[|s| - 1] == '0' then TrimZeros(s[..|s| - 1]) else s
  }

  function Combine(units: nat, tenMillionths: nat): nat {
    units * STROOPS_PER_UNIT + tenMillionths
  }

  function ToStroops(amount: string): Result<nat, SendError> {
    if !MatchesAmount(amount) then Err(InvalidAmount)
    else Ok(Combine(Value(IntPart(amount)), Value(PadEnd(DecPart(amount)))))
  }

  function FromStroops(stroops: nat): string {
    var intPart := stroops / STROOPS_PER_UNIT;
    var decPart := stroops % STROOPS_PER_UNIT;
    if decPart == 0 then ToDecimal(intPart)
    else
      assert |ToDecimal(decPart)| <= DECIMALS by { FitsSeven(decPart); }
      ToDecimal(intPart) + "." + TrimZeros(PadStart(ToDecimal(decPart)))
  }

  /** The number an amount text denotes, read as decimal notation is: an independent reference. */
  ghost function Amount(s: string): real
    requires MatchesAmount(s)
  {
    Value(IntPart(s)) as real + Value(DecPart(s)) as real / Pow10(|DecPart(s)|) as real
  }

  /** The texts that match, and the number each denotes. */
  lemma MatchesExactly(s: string)
    ensures MatchesAmount(s) <==>
      || (s != "" && AllDigits(s))
      || exists i :: 0 < i < |s| && s[i] == '.' && AllDigits(s[..i]) && AllDigits(s[i + 1..]) && 1 <= |s| - i - 1 <= 7
  {
    var n := DotIndex(s);
    if i :| 0 < i < |s| && s[i] == '.' && AllDigits(s[..i]) && AllDigits(s[i + 1..]) && 1 <= |s| - i - 1 <= 7 {
      DotAt(s, i);
    }
    if MatchesAmount(s) && n < |s| {
      assert 0 < n < |s| && s[n] == '.' && AllDigits(s[..n]) && AllDigits(s[n + 1..]) && 1 <= |s| - n - 1 <= 7;
    }
    if AllDigits(s) && s != "" {
      assert n == |s| && s[..n] == s;
    }
  }

  lemma DotAt(s: string, i: nat)
    requires i < |s| && s[i] == '.' && AllDigits(s[..i])
    ensures DotIndex(s) == i
  {
    assert s[..i + 1][i] == '.';
  }

  lemma DenotesExactly(i: string, d: string)
    requires AllDigits(i) && i != "" && AllDigits(d) && 1 <= |d| <= 7
    ensures MatchesAmount(i) && Amount(i) == Value(i) as real
    ensures MatchesAmount(i + "." + d)
    ensures Amount(i + "." + d) == Value(i) as real + Value(d) as real / Pow10(|d|) as real
  {
    JoinedParts(i, d);
    assert Value("") == 0 && Pow10(0) == 1;
  }

  // ---- lemmas about the parts ----------------------------------------------------------------

  lemma Pow10OfSeven()
    ensures Pow10(DECIMALS) == STROOPS_PER_UNIT
  {
    assert Pow10(3) == 1000 && Pow10(5) == 100000;
  }

  lemma FitsSeven(n: nat)
    requires n < STROOPS_PER_UNIT
    ensures |ToDecimal(n)| <= DECIMALS
  {
    hide Pow10, ToDecimal, Value;
    ToDecimalValue(n);
    Pow10OfSeven();
    if |ToDecimal(n)| > DECIMALS {
      Pow10Monotone(DECIMALS, |ToDecimal(n)| - 1);
    }
  }

  lemma {:induction false} TrimmedAgain(s: string)
    ensures |TrimZeros(s)| <= |s|
    ensures s == TrimZeros(s) + Zeros(|s| - |TrimZeros(s)|)
    ensures TrimZeros(s) == "" || TrimZeros(s)[|TrimZeros(s)| - 1] != '0'
    ensures AllDigits(s) ==> AllDigits(TrimZeros(s))
  {
    if s != "" && s[|s| - 1] == '0' {
      var s' := s[..|s| - 1];
      TrimmedAgain(s');
      assert s == s' + "0";
      assert Zeros(|s'| - |TrimZeros(s')|) + "0" == Zeros(|s| - |TrimZeros(s)|);
      assert s == TrimZeros(s') + (Zeros(|s'| - |TrimZeros(s')|) + "0");
    } else {
      assert Zeros(0) == "";
    }
  }

  lemma PaddedValue(s: string)
    requires AllDigits(s) && |s| <= DECIMALS
    ensures Value(PadEnd(s)) == Value(s) * Pow10(DECIMALS - |s|)
    ensures Value(PadEnd(s)) < STROOPS_PER_UNIT
  {
    hide Value, Pow10, Zeros;
    ValueConcat(s, Zeros(DECIMALS - |s|));
    ValueOfZeros(DECIMALS - |s|);
    ValueBound(PadEnd(s));
    Pow10OfSeven();
  }

  lemma {:induction false} NoDotInDigits(s: string, t: string)
    requires AllDigits(s)
    ensures DotIndex(s) == |s|
    ensures DotIndex(s + "." + t) == |s|
  {
    if s != "" {
      NoDotInDigits(s[1..], t);
      assert (s + "." + t)[1..] == s[1..] + "." + t;
    }
  }

  lemma JoinedParts(i: string, d: string)
    requires AllDigits(i) && |i| >= 1 && AllDigits(d) && 1 <= |d| <= DECIMALS
    ensures IntPart(i) == i && DecPart(i) == "" && MatchesAmount(i)
    ensures IntPart(i + "." + d) == i && DecPart(i + "." + d) == d && MatchesAmount(i + "." + d)
  {
    NoDotInDigits(i, d);
  }

  lemma SplitAgain(s: string)
    requires MatchesAmount(s)
    ensures s == if DecPart(s) == "" then IntPart(s) else IntPart(s) + "." + DecPart(s)
  {
  }

  /** The seven digits that the printer trims, and what the parser pads them back to. */
  lemma PrintedDecimals(n: nat)
    requires 0 < n < STROOPS_PER_UNIT
    ensures |ToDecimal(n)| <= DECIMALS
    ensures var t := TrimZeros(PadStart(ToDecimal(n)));
      AllDigits(t) && 1 <= |t| <= DECIMALS && t[|t| - 1] != '0' && Value(PadEnd(t)) == n
  {
    hide Value, Pow10, TrimZeros, ToDecimal, Zeros;
    FitsSeven(n);
    ToDecimalValue(n);
    var p := PadStart(ToDecimal(n));
    var t := TrimZeros(p);
    ValueConcat(Zeros(DECIMALS - |ToDecimal(n)|), ToDecimal(n));
    ValueOfZeros(DECIMALS - |ToDecimal(n)|);
    TrimmedAgain(p);
    assert PadEnd(t) == p;
    assert Value(p) == n;
    if t == "" {
      assert p == Zeros(DECIMALS);
      assert false by { ValueOfZeros(DECIMALS); }
    }
  }

  // ---- round trip and normal form --------------------------------------------------------------

  lemma ReadPlain(i: string)
    requires AllDigits(i) && |i| >= 1
    ensures MatchesAmount(i) && ToStroops(i) == Ok(Combine(Value(i), 0))
  {
    hide DotIndex, IntPart, DecPart, MatchesAmount, Value, PadEnd, Combine;
    JoinedParts(i, "0");
    NoDecimals();
  }

  lemma NoDecimals()
    ensures Value(PadEnd("")) == 0
  {
    hide Value;
    assert PadEnd("") == Zeros(DECIMALS);
    ValueOfZeros(DECIMALS);
  }

  lemma ReadJoined(i: string, d: string)
    requires AllDigits(i) && |i| >= 1 && AllDigits(d) && 1 <= |d| <= DECIMALS
    ensures MatchesAmount(i + "." + d)
    ensures ToStroops(i + "." + d) == Ok(Combine(Value(i), Value(PadEnd(d))))
  {
    hide DotIndex, IntPart, DecPart, MatchesAmount, Value, PadEnd, Combine;
    JoinedParts(i, d);
  }

  /** Printing any number of stroops gives an accepted text, and reading it gives the number back. */
  lemma RoundTrip(stroops: nat)
    ensures MatchesAmount(FromStroops(stroops))
    ensures ToStroops(FromStroops(stroops)) == Ok(stroops)
  {
    hide ToStroops, MatchesAmount, Value, ToDecimal, TrimZeros, PadStart, PadEnd;
    var i, d := stroops / STROOPS_PER_UNIT, stroops % STROOPS_PER_UNIT;
    ToDecimalValue(i);
    if d == 0 {
      ReadPlain(ToDecimal(i));
    } else {
      PrintedDecimals(d);
      ReadJoined(ToDecimal(i), TrimZeros(PadStart(ToDecimal(d))));
    }
  }

  lemma ScaleUp(v: int, p: int, q: int)
    requires p > 0 && p * q == STROOPS_PER_UNIT
    ensures (v as real / p as real) * STROOPS_PER_UNIT as real == (v * q) as real
  {
    var x := v as real / p as real;
    assert x * p as real == v as real;
    assert STROOPS_PER_UNIT as real == p as real * q as real;
    assert x * (p as real * q as real) == (x * p as real) * q as real;
  }

  /** Reading loses nothing: the stroops are the denoted number times ten million, exactly. */
  lemma ReadsExactly(amount: string)
    requires MatchesAmount(amount)
    ensures ToStroops(amount).Ok?
    ensures ToStroops(amount).value as real == Amount(amount) * 10000000.0
  {
    var d := DecPart(amount);
    PaddedValue(d);
    Pow10Add(|d|, DECIMALS - |d|);
    Pow10OfSeven();
    ScaleUp(Value(d), Pow10(|d|), Pow10(DECIMALS - |d|));
  }

  lemma Rescaled(x: nat, y: nat, p: real, q: real)
    requires x as real == p * STROOPS_PER_UNIT as real && y as real == q * STROOPS_PER_UNIT as real
    ensures x == y <==> p == q
  {
  }

  /** Two accepted texts are printed alike exactly when they denote the same amount. */
  lemma SameTextIffSameAmount(a: string, b: string)
    requires MatchesAmount(a) && MatchesAmount(b)
    ensures FromStroops(ToStroops(a).value) == FromStroops(ToStroops(b).value) <==> Amount(a) == Amount(b)
  {
    hide FromStroops, MatchesAmount, Amount, ToStroops;
    ReadsExactly(a);
    ReadsExactly(b);
    RoundTrip(ToStroops(a).value);
    RoundTrip(ToStroops(b).value);
    Rescaled(ToStroops(a).value, ToStroops(b).value, Amount(a), Amount(b));
  }

  /** A text is its own normal form exactly when it carries no redundant zero at either end. */
  lemma NormalFormExact(a: string)
    requires MatchesAmount(a)
    ensures FromStroops(ToStroops(a).value) == a
       <==> (|IntPart(a)| == 1 || a[0] != '0') && (DecPart(a) != "" ==> a[|a| - 1] != '0')
  {
    hide Value, ToDecimal, TrimZeros, PadStart, PadEnd, Zeros, Combine;
    var i, d := IntPart(a), DecPart(a);
    SplitAgain(a);
    ToDecimalOfValue(i);
    if d == "" {
      ReadPlain(i);
      Quotients(Value(i), 0);
    } else {
      PaddedBack(d);
      DecimalsExact(d);
      var n, v, w := ToStroops(a).value, Value(i), Value(PadEnd(d));
      Quotients(v, w);
      if w == 0 {
        DigitsOnly(ToDecimal(v), a);
      } else {
        PrintedDecimals(w);
        SameParts(ToDecimal(v), TrimZeros(PadEnd(d)), i, d);
      }
    }
  }

  lemma Quotients(v: nat, w: nat)
    requires w < STROOPS_PER_UNIT
    ensures Combine(v, w) / STROOPS_PER_UNIT == v && Combine(v, w) % STROOPS_PER_UNIT == w
  {
  }

  lemma SameParts(i: string, d: string, i': string, d': string)
    requires AllDigits(i) && AllDigits(i')
    ensures i + "." + d == i' + "." + d' <==> i == i' && d == d'
  {
    if i + "." + d == i' + "." + d' {
      NoDotInDigits(i, d);
      NoDotInDigits(i', d');
      assert (i + "." + d)[..|i|] == i && (i' + "." + d')[..|i|] == i';
      assert (i + "." + d)[|i| + 1..] == d && (i' + "." + d')[|i| + 1..] == d';
    }
  }

  lemma DigitsOnly(t: string, a: string)
    requires AllDigits(t) && DotIndex(a) < |a|
    ensures t != a
  {
  }

  lemma PaddedBack(d: string)
    requires AllDigits(d) && 1 <= |d| <= DECIMALS
    ensures Value(PadEnd(d)) < STROOPS_PER_UNIT
    ensures |ToDecimal(Value(PadEnd(d)))| <= DECIMALS
    ensures PadStart(ToDecimal(Value(PadEnd(d)))) == PadEnd(d)
  {
    PaddedValue(d);
    var n := Value(PadEnd(d));
    FitsSeven(n);
    ToDecimalValue(n);
    var k := DECIMALS - |ToDecimal(n)|;
    ValueConcat(Zeros(k), ToDecimal(n));
    ValueOfZeros(k);
    ValueInjective(Zeros(k) + ToDecimal(n), PadEnd(d));
  }

  lemma DecimalsExact(d: string)
    requires AllDigits(d) && 1 <= |d| <= DECIMALS
    ensures Value(PadEnd(d)) == 0 ==> d[|d| - 1] == '0'
    ensures TrimZeros(PadEnd(d)) == d <==> d[|d| - 1] != '0'
  {
    TrimmedAgain(PadEnd(d));
    if d[|d| - 1] != '0' {
      TrimOfPadded(d, DECIMALS - |d|);
    }
    if Value(PadEnd(d)) == 0 {
      ValueZeroIff(PadEnd(d));
      assert PadEnd(d)[|d| - 1] == d[|d| - 1];
    }
  }

  lemma {:induction false} TrimOfPadded(d: string, n: nat)
    requires d != "" && d[|d| - 1] != '0'
    ensures TrimZeros(d + Zeros(n)) == d
  {
    if n > 0 {
      assert (d + Zeros(n))[..|d| + n - 1] == d + Zeros(n - 1);
      TrimOfPadded(d, n - 1);
    } else {
      assert d + Zeros(0) == d;
    }
  }

  // ---- the fee -----------------------------------------------------------------------------------

  datatype SendError =
    | InvalidRecipient
    | SelfSend
    | InvalidAmount
    | AmountNotPositive
    | FeeTooSmall
    | MissingFeeCollector
    | InvalidStellarAddress

  datatype PreparedSend = PreparedSend(address: string, amount: string, fee: string, total: string)

  const BPS: nat := 10000

  function Fee(stroops: nat, bps: nat): nat {
    stroops * bps / BPS
  }

  predicate IsPublicKey(key: string) {
    |key| >= 50 && key[0] == 'G'
  }

  /** The check the transaction builder makes on each amount text. */
  ghost predicate PassesBuilder(amount: string) {
    MatchesAmount(amount) && Amount(amount) > 0.0
  }

  /** The checks of the transaction builder, in its order; None when it builds. */
  ghost function BuilderError(source: string, destination: string, amount: string, feeAddress: string,
                              feeAmount: string): Option<SendError>
  {
    if !IsPublicKey(source) || !IsPublicKey(destination) || !IsPublicKey(feeAddress) then Some(InvalidStellarAddress)
    else if !PassesBuilder(amount) || !PassesBuilder(feeAmount) then Some(InvalidAmount)
    else None
  }

  /**
   Preparing a payment. The resolved recipient and the configured fee collector are inputs; so is the
   fee rate in basis points.
   */
  ghost function Prepare(source: string, recipient: Option<string>, amount: string, bps: nat,
                         collector: Option<string>): Result<PreparedSend, SendError>
  {
    if recipient.None? then Err(InvalidRecipient)
    else if recipient.value == source then Err(SelfSend)
    else
      var stroops := ToStroops(amount);
      if stroops.Err? then Err(stroops.error)
      else if stroops.value <= 0 then Err(AmountNotPositive)
      else
        var fee := Fee(stroops.value, bps);
        if fee <= 0 then Err(FeeTooSmall)
        else if collector.None? || collector.value == "" then Err(MissingFeeCollector)
        else Assemble(source, recipient.value, collector.value,
                      FromStroops(stroops.value), FromStroops(fee), FromStroops(stroops.value + fee))
  }

  ghost function Assemble(source: string, recipient: string, collector: string,
                          amount: string, feeAmount: string, total: string): Result<PreparedSend, SendError>
  {
    var error := BuilderError(source, recipient, amount, collector, feeAmount);
    if error.Some? then Err(error.value) else Ok(PreparedSend(recipient, amount, feeAmount, total))
  }

  lemma PositivePasses(stroops: nat)
    requires stroops > 0
    ensures PassesBuilder(FromStroops(stroops))
  {
    RoundTrip(stroops);
    ReadsExactly(FromStroops(stroops));
  }

  /** A text that reads back to n stroops and that the transaction builder takes. */
  ghost predicate Pays(text: string, n: nat) {
    ToStroops(text) == Ok(n) && PassesBuilder(text)
  }

  lemma PrintedPays(n: nat)
    requires n > 0
    ensures Pays(FromStroops(n), n)
  {
    RoundTrip(n);
    PositivePasses(n);
  }

  /** What a prepared payment says in text about an amount of n stroops and its fee. */
  ghost predicate Describes(p: PreparedSend, n: nat, fee: nat) {
    Pays(p.amount, n) && Pays(p.fee, fee) && Pays(p.total, n + fee)
  }

  lemma GoodTexts(source: string, recipient: string, collector: string,
                  amount: string, feeAmount: string, total: string, n: nat, fee: nat)
    requires IsPublicKey(source) && IsPublicKey(recipient) && IsPublicKey(collector)
    requires Pays(amount, n) && Pays(feeAmount, fee) && Pays(total, n + fee)
    ensures var r := Assemble(source, recipient, collector, amount, feeAmount, total);
      r.Ok? && r.value.address == recipient && Describes(r.value, n, fee)
  {
  }

  /** A payment of n stroops with a positive fee passes every check and is described by its texts. */
  lemma PrepareGood(source: string, recipient: string, amount: string, bps: nat, collector: string, n: nat, fee: nat)
    requires IsPublicKey(source) && IsPublicKey(recipient) && IsPublicKey(collector) && recipient != source
    requires ToStroops(amount) == Ok(n) && n > 0 && fee == Fee(n, bps) && fee > 0
    ensures var r := Prepare(source, Some(recipient), amount, bps, Some(collector));
      r.Ok? && r.value.address == recipient && Describes(r.value, n, fee)
  {
    hide FromStroops, ToStroops, MatchesAmount, Amount;
    var a, f, t := FromStroops(n), FromStroops(fee), FromStroops(n + fee);
    assert Pays(a, n) && Pays(f, fee) && Pays(t, n + fee) by {
      PrintedPays(n);
      PrintedPays(fee);
      PrintedPays(n + fee);
    }
    GoodTexts(source, recipient, collector, a, f, t, n, fee);
  }

  /**
   With valid accounts, a payment is prepared exactly for well-formed amounts whose fee is at least one
   stroop; the printed amount, fee and total then read back to the amount, its fee and their sum, and
   the builder takes all three. Otherwise the error tells an amount of zero from a fee of zero.
   */
  lemma PrepareExact(source: string, recipient: string, amount: string, bps: nat, collector: string)
    requires IsPublicKey(source) && IsPublicKey(recipient) && IsPublicKey(collector) && recipient != source
    ensures var r := Prepare(source, Some(recipient), amount, bps, Some(collector));
      && (r.Ok? <==> MatchesAmount(amount) && ToStroops(amount).value * bps >= 10000)
      && (r.Ok? ==> r.value.address == recipient
                    && Describes(r.value, ToStroops(amount).value, Fee(ToStroops(amount).value, bps)))
      && (r == Err(InvalidAmount) <==> !MatchesAmount(amount))
      && (r == Err(AmountNotPositive) <==> MatchesAmount(amount) && Amount(amount) == 0.0)
  {
    if MatchesAmount(amount) {
      var n := ToStroops(amount).value;
      assert n == 0 <==> Amount(amount) == 0.0 by { ReadsExactly(amount); }
      FeeReachesOne(n, bps);
      if n > 0 && Fee(n, bps) > 0 {
        PrepareGood(source, recipient, amount, bps, collector, n, Fee(n, bps));
      }
    }
  }

  /** Every refusal exactly, in the order of the checks, for all senders, recipients, amounts and collectors. */
  lemma PrepareRefusals(source: string, recipient: Option<string>, amount: string, bps: nat, collector: Option<string>)
    ensures var r := Prepare(source, recipient, amount, bps, collector);
      var open := recipient !in {None, Some(source)};
      var paid := open && MatchesAmount(amount) && ToStroops(amount).value * bps >= 10000;
      var collected := paid && collector !in {None, Some("")};
      var known := collected && forall k :: k in [source, recipient.value, collector.value] ==> 50 <= |k| && k[0] == 'G';
      && (r == Err(InvalidRecipient) <==> recipient == None)
      && (r == Err(SelfSend) <==> recipient == Some(source))
      && (r == Err(InvalidAmount) <==> open && !MatchesAmount(amount))
      && (r == Err(AmountNotPositive) <==> open && MatchesAmount(amount) && Amount(amount) == 0.0)
      && (r == Err(FeeTooSmall) <==> open && MatchesAmount(amount) && Amount(amount) > 0.0 && !paid)
      && (r == Err(MissingFeeCollector) <==> paid && !collected)
      && (r == Err(InvalidStellarAddress) <==> collected && !known)
      && (r.Ok? <==> known)
  {
    hide ToStroops, FromStroops, Amount, Fee, PassesBuilder;
    if MatchesAmount(amount) {
      ReadsExactly(amount);
      var n := ToStroops(amount).value;
      FeeReachesOne(n, bps);
      if n > 0 && Fee(n, bps) > 0 {
        PositivePasses(n);
        PositivePasses(Fee(n, bps));
      }
    } else {
      NoMatchIsInvalid(amount);
    }
  }

  lemma NoMatchIsInvalid(amount: string)
    requires !MatchesAmount(amount)
    ensures ToStroops(amount) == Err(InvalidAmount)
  {
  }

  lemma FeeReachesOne(stroops: nat, bps: nat)
    ensures Fee(stroops, bps) > 0 <==> stroops * bps >= 10000
    ensures Fee(stroops, bps) * 10000 <= stroops * bps < (Fee(stroops, bps) + 1) * 10000
    ensures stroops * bps >= 10000 ==> stroops > 0
  {
  }

  /** Splitting a payment in two saves at most one stroop of fee and never costs more. */
  lemma FeeOfSplit(a: nat, b: nat, bps: nat)
    ensures Fee(a, bps) + Fee(b, bps) <= Fee(a + b, bps) <= Fee(a, bps) + Fee(b, bps) + 1
  {
    assert (a + b) * bps == a * bps + b * bps;
    FloorOfSum(a * bps, b * bps);
  }

  lemma FloorOfSum(x: nat, y: nat)
    ensures x / BPS + y / BPS <= (x + y) / BPS <= x / BPS + y / BPS + 1
  {
  }
}
