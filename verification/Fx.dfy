/** Exchange rates and conversion to euro (domains/fx/service.py), in exact arithmetic with
    round-to-nearest where the service calls round(). */
module Fx {
  import opened Prelude
  import opened Tables

  // ---- products of reals ----

  lemma ProductNonneg(x: real, y: real)
    requires x >= 0.0 && y >= 0.0
    ensures x * y >= 0.0
  {}

  lemma Distribute(a: real, x: real, y: real)
    ensures a * (x - y) == a * x - a * y
  {}

  lemma MultiplyMonotone(a: real, x: real, y: real)
    requires a >= 0.0 && x <= y
    ensures a * x <= a * y
    ensures x * a <= y * a
  {
    ProductNonneg(a, y - x);
    Distribute(a, y, x);
  }

  lemma ScaleError(a: real, exact: real, approx: real, e: real)
    requires a >= 0.0 && -e <= exact - approx <= e
    ensures -(a * e) <= a * exact - a * approx <= a * e
  {
    MultiplyMonotone(a, exact - approx, e);
    MultiplyMonotone(a, approx - exact, e);
    Distribute(a, exact, approx);
    Distribute(a, approx, exact);
  }

  lemma Quotient(a: real, q: real)
    requires q > 0.0
    ensures a / q == a * (1.0 / q)
  {}

  // ---- rounding ----

  // The rounding rule is a parameter: the results hold whichever way ties go.
  type Rounding = real -> int

  ghost predicate RoundsToNearest(nearest: Rounding) {
    forall x: real :: -0.5 <= x - nearest(x) as real <= 0.5
  }

  // round(x, 2) and round(x, 6)
  function Round2(nearest: Rounding, x: real): real { nearest(x * 100.0) as real / 100.0 }

  function Round6(nearest: Rounding, x: real): real { nearest(x * 1000000.0) as real / 1000000.0 }

  function HalfEven(): Rounding {
    (x: real) => var f, d := x.Floor, x - x.Floor as real;
                 if d < 0.5 || (d == 0.5 && f % 2 == 0) then f else f + 1
  }

  lemma HalfEvenRoundsToNearest()
    ensures RoundsToNearest(HalfEven())
  {}

  predicate Within(exact: real, approx: real, bound: real) {
    -bound <= exact - approx <= bound
  }

  lemma NearestMonotone(nearest: Rounding, x: real, y: real)
    requires RoundsToNearest(nearest) && x <= y
    ensures nearest(x) <= nearest(y)
  {
    assert -0.5 <= x - nearest(x) as real && y - nearest(y) as real <= 0.5;
  }

  lemma Round2Error(nearest: Rounding, x: real)
    requires RoundsToNearest(nearest)
    ensures Within(x, Round2(nearest, x), 0.005)
  {
    var n := nearest(x * 100.0) as real;
    assert -0.5 <= x * 100.0 - n <= 0.5;
    assert n / 100.0 * 100.0 == n;
  }

  lemma Round6Error(nearest: Rounding, x: real)
    requires RoundsToNearest(nearest)
    ensures Within(x, Round6(nearest, x), 0.0000005)
  {
    var n := nearest(x * 1000000.0) as real;
    assert -0.5 <= x * 1000000.0 - n <= 0.5;
    assert n / 1000000.0 * 1000000.0 == n;
  }

  lemma Round2Monotone(nearest: Rounding, x: real, y: real)
    requires RoundsToNearest(nearest) && x <= y
    ensures Round2(nearest, x) <= Round2(nearest, y)
  {
    NearestMonotone(nearest, x * 100.0, y * 100.0);
  }

  // ---- currencies ----

  function UpperChar(c: char): char {
    if 'a' <= c <= 'z' then c - 'a' + 'A' else c
  }

  function Upper(s: string): string { MapSeq(s, UpperChar) }

  const EUR := "EUR"

  predicate SameLetter(c: char, d: char) {
    || c == d
    || ('a' <= c <= 'z' && d as int == c as int - 32)
    || ('a' <= d <= 'z' && c as int == d as int - 32)
  }

  // Currencies are told apart by their letters, whatever the case, and only capitals stay as they are.
  lemma UpperIgnoresCase(s: string, t: string)
    ensures Upper(s) == Upper(t) <==> |s| == |t| && forall i | 0 <= i < |s| :: SameLetter(s[i], t[i])
    ensures Upper(s) == s <==> forall i | 0 <= i < |s| :: !('a' <= s[i] <= 'z')
  {
    if Upper(s) == Upper(t) {
      assert |s| == |Upper(s)| == |t|;
      forall i | 0 <= i < |s| ensures SameLetter(s[i], t[i]) {
        assert Upper(s)[i] == UpperChar(s[i]) && Upper(t)[i] == UpperChar(t[i]);
      }
    }
    if Upper(s) == s {
      forall i | 0 <= i < |s| ensures !('a' <= s[i] <= 'z') {
        assert Upper(s)[i] == UpperChar(s[i]);
      }
    }
  }

  // ---- rates ----

  function RateFor(currency: string, at: Option<int>): FxRate -> bool {
    (r: FxRate) => r.currency == currency && (at.Some? ==> r.validAt <= at.value)
  }

  function NewestFirst(): (FxRate, FxRate) -> bool {
    (a: FxRate, b: FxRate) => a.validAt >= b.validAt
  }

  function LatestRate(rates: seq<FxRate>, currency: string, at: Option<int>): Option<FxRate> {
    var c := Upper(currency);
    if c == EUR then None
    else
      var rows := Sort(Filter(rates, RateFor(c, at)), NewestFirst());
      if rows == [] then None else Some(rows[0])
  }

  // The row used is a newest one of its currency among those valid at the asked time,
  // and there is one unless the table holds no such row.
  lemma LatestRateIsLatest(rates: seq<FxRate>, currency: string, at: Option<int>)
    requires Upper(currency) != EUR
    ensures LatestRate(rates, currency, at).Some? <==>
              exists r :: r in rates && r.currency == Upper(currency) && (at.Some? ==> r.validAt <= at.value)
    ensures var l := LatestRate(rates, currency, at);
            l.Some? ==>
              && l.value in rates && l.value.currency == Upper(currency) && (at.Some? ==> l.value.validAt <= at.value)
              && forall r | r in rates && r.currency == Upper(currency) && (at.Some? ==> r.validAt <= at.value) ::
                   r.validAt <= l.value.validAt
  {
    var rows := Filter(rates, RateFor(Upper(currency), at));
    var sorted := Sort(rows, NewestFirst());
    SortContents(rows, NewestFirst());
    SortSorted(rows, NewestFirst());
    if sorted != [] {
      assert sorted[0] in rows;
      forall r | r in rows
        ensures r.validAt <= sorted[0].validAt
      {
        assert r in sorted;
        var i :| 0 <= i < |sorted| && sorted[i] == r;
        if i != 0 { assert NewestFirst()(sorted[0], sorted[i]); }
      }
    } else {
      assert rows == [];
    }
  }

  function Price(nearest: Rounding, amount: real, rateToEur: real): real {
    Round2(nearest, amount * rateToEur)
  }

  function Convert(nearest: Rounding, rates: seq<FxRate>, amount: Option<real>, currency: string,
                   at: Option<int>)
    : Result<(Option<real>, Option<real>), SyncError>
  {
    if amount.None? then Ok((None, None))
    else if Upper(currency) == EUR then Ok((amount, Some(1.0)))
    else match LatestRate(rates, Upper(currency), at)
      case None => Err(NoFxRate)
      case Some(r) => Ok((Some(Price(nearest, amount.value, r.rateToEur)), Some(r.rateToEur)))
  }

  datatype FxUpdateError = QuoteNotPositive | InvalidRate

  // A quote is units of the currency per euro; the stored rate is euro per unit.
  function RateFromQuote(nearest: Rounding, quote: real): Result<real, FxUpdateError> {
    if quote <= 0.0 then Err(QuoteNotPositive) else Ok(Round6(nearest, 1.0 / quote))
  }

  lemma UpperTwice(s: string)
    ensures Upper(Upper(s)) == Upper(s)
  {
    forall i | 0 <= i < |s| ensures UpperChar(UpperChar(s[i])) == UpperChar(s[i]) {}
  }

  lemma ConvertsTo(nearest: Rounding, rates: seq<FxRate>, a: real, currency: string, at: Option<int>)
    requires Upper(currency) != EUR && LatestRate(rates, currency, at).Some?
    ensures var r := LatestRate(rates, currency, at).value.rateToEur;
            Convert(nearest, rates, Some(a), currency, at) == Ok((Some(Price(nearest, a, r)), Some(r)))
  {
    UpperTwice(currency);
  }

  // Both roundings together: a price converted with the rate stored for quote q is within half
  // a cent plus half a millionth per unit of the exact value a/q.
  lemma ConversionErrorBound(nearest: Rounding, rates: seq<FxRate>, a: real, q: real,
                             currency: string, at: Option<int>)
    requires RoundsToNearest(nearest)
    requires a >= 0.0 && q > 0.0
    requires Upper(currency) != EUR && LatestRate(rates, currency, at).Some?
    requires LatestRate(rates, currency, at).value.rateToEur == RateFromQuote(nearest, q).value
    ensures var c := Convert(nearest, rates, Some(a), currency, at);
            && c.Ok? && c.value.0.Some?
            && Within(a / q, c.value.0.value, 0.005 + a * 0.0000005)
  {
    ConvertsTo(nearest, rates, a, currency, at);
    PriceBound(nearest, a, q, RateFromQuote(nearest, q).value);
  }

  lemma PriceBound(nearest: Rounding, a: real, q: real, rate: real)
    requires RoundsToNearest(nearest)
    requires a >= 0.0 && q > 0.0 && rate == RateFromQuote(nearest, q).value
    ensures Within(a / q, Price(nearest, a, rate), 0.005 + a * 0.0000005)
  {
    Round6Error(nearest, 1.0 / q);
    Round2Error(nearest, a * rate);
    CombinedBound(a, q, rate, Price(nearest, a, rate));
  }

  lemma CombinedBound(a: real, q: real, rate: real, price: real)
    requires a >= 0.0 && q > 0.0
    requires Within(1.0 / q, rate, 0.0000005)
    requires Within(a * rate, price, 0.005)
    ensures Within(a / q, price, 0.005 + a * 0.0000005)
  {
    RateError(a, q, rate);
    ErrorsAdd(a / q, a * rate, price, a * 0.0000005, 0.005);
  }

  lemma RateError(a: real, q: real, rate: real)
    requires a >= 0.0 && q > 0.0
    requires -0.0000005 <= 1.0 / q - rate <= 0.0000005
    ensures -(a * 0.0000005) <= a / q - a * rate <= a * 0.0000005
  {
    Quotient(a, q);
    ScaleError(a, 1.0 / q, rate, 0.0000005);
  }

  lemma ErrorsAdd(x: real, y: real, z: real, d: real, e: real)
    requires -d <= x - y <= d && Within(y, z, e)
    ensures Within(x, z, e + d)
  {}

  // A rate must be positive and its currency a three-letter code to be stored.
  predicate ValidRate(currency: string, rateToEur: real) { |currency| == 3 && rateToEur > 0.0 }

  function StorableRate(nearest: Rounding, currency: string, quote: real): Result<real, FxUpdateError> {
    match RateFromQuote(nearest, quote)
    case Err(e) => Err(e)
    case Ok(rate) => if ValidRate(currency, rate) then Ok(rate) else Err(InvalidRate)
  }

  // A positive quote below two million gives a positive rate; from two million on, half-even
  // rounding takes its inverse to zero, and such a rate is not stored.
  lemma StorableIff(currency: string, q: real)
    ensures StorableRate(HalfEven(), currency, q).Ok? <==> |currency| == 3 && 0.0 < q < 2000000.0
    ensures StorableRate(HalfEven(), currency, q).Err? ==>
              StorableRate(HalfEven(), currency, q).error == if q <= 0.0 then QuoteNotPositive else InvalidRate
  {
    if q > 0.0 {
      PositiveRateIff(q);
    }
  }

  lemma PositiveRateIff(q: real)
    requires q > 0.0
    ensures RateFromQuote(HalfEven(), q).value > 0.0 <==> q < 2000000.0
  {
    if q < 2000000.0 {
      InverseAbove(q);
    } else {
      InverseBelow(q);
    }
    SmallRounds(1.0 / q * 1000000.0);
  }

  lemma SmallRounds(x: real)
    requires x > 0.0
    ensures HalfEven()(x) >= 1 <==> x > 0.5
    ensures HalfEven()(x) >= 0
  {}

  lemma InverseAbove(q: real)
    requires 0.0 < q < 2000000.0
    ensures 1.0 / q > 0.0000005
  {
    var inverse := 1.0 / q;
    if inverse <= 0.0000005 {
      MultiplyMonotone(q, inverse, 0.0000005);
    }
  }

  lemma InverseBelow(q: real)
    requires q >= 2000000.0
    ensures 0.0 < 1.0 / q <= 0.0000005
  {
    var inverse := 1.0 / q;
    if inverse > 0.0000005 {
      MultiplyMonotone(inverse, 2000000.0, q);
    }
  }

  // Order of amounts survives conversion, so an old price stays an old price.
  lemma ConversionMonotone(nearest: Rounding, rates: seq<FxRate>, a: real, b: real,
                           currency: string, at: Option<int>)
    requires RoundsToNearest(nearest)
    requires a <= b
    requires forall r | r in rates :: r.rateToEur > 0.0
    ensures var ca := Convert(nearest, rates, Some(a), currency, at);
            var cb := Convert(nearest, rates, Some(b), currency, at);
            && (ca.Ok? <==> cb.Ok?)
            && (ca.Ok? ==> ca.value.1 == cb.value.1
                           && ca.value.0.Some? && cb.value.0.Some?
                           && ca.value.0.value <= cb.value.0.value)
  {
    if Upper(currency) != EUR {
      UpperTwice(currency);
      LatestRateIsLatest(rates, Upper(currency), at);
      match LatestRate(rates, Upper(currency), at)
      case None =>
      case Some(r) => PriceMonotone(nearest, a, b, r.rateToEur);
    }
  }

  lemma PriceMonotone(nearest: Rounding, a: real, b: real, r: real)
    requires RoundsToNearest(nearest) && a <= b && r > 0.0
    ensures Price(nearest, a, r) <= Price(nearest, b, r)
  {
    MultiplyMonotone(r, a, b);
    var x, y := a * r, b * r;
    Round2Monotone(nearest, x, y);
  }

  // ---- storing rates ----

  function SameSlot(currency: string, validAt: int): FxRate -> bool {
    (r: FxRate) => r.currency == currency && r.validAt == validAt
  }

  function Slot(): FxRate -> (string, int) { (r: FxRate) => (r.currency, r.validAt) }

  function Revalued(rate: FxRate): FxRate -> FxRate {
    (r: FxRate) => if Slot()(r) == Slot()(rate)
                   then r.(rateToEur := rate.rateToEur, source := rate.source) else r
  }

  lemma {:induction false} RevaluedIsPut(rates: seq<FxRate>, rate: FxRate)
    requires Distinct(rates, Slot()) && exists r :: r in rates && Slot()(r) == Slot()(rate)
    ensures MapSeq(rates, Revalued(rate)) == Put(rates, rate, Slot())
  {
    var head, tail := rates[0], rates[1..];
    forall i | 0 <= i < |tail| ensures Slot()(tail[i]) != Slot()(head) {
      assert tail[i] == rates[i + 1];
    }
    assert MapSeq(rates, Revalued(rate)) == [Revalued(rate)(head)] + MapSeq(tail, Revalued(rate));
    if Slot()(head) == Slot()(rate) {
      assert MapSeq(tail, Revalued(rate)) == tail;
    } else {
      RevaluedIsPut(tail, rate);
    }
  }

  lemma {:induction false} AddedIsPut(rates: seq<FxRate>, rate: FxRate)
    requires forall r | r in rates :: Slot()(r) != Slot()(rate)
    ensures rates + [rate] == Put(rates, rate, Slot())
  {
    if rates != [] {
      AddedIsPut(rates[1..], rate);
      assert rates == [rates[0]] + rates[1..];
    }
  }

  // The table holds one row per currency and date: the row of this slot is revalued, or added.
  method UpsertFxRate(session: Session, currency: string, rateToEur: real, source: string, validAt: int)
    returns (rate: FxRate)
    requires Distinct(session.rates, Slot())
    modifies session`rates
    ensures rate == FxRate(Upper(currency), rateToEur, source, validAt)
    ensures session.rates == Put(old(session.rates), rate, Slot())
    ensures Distinct(session.rates, Slot())
    ensures forall x :: x in session.rates <==>
                          x == rate || (x in old(session.rates) && Slot()(x) != Slot()(rate))
  {
    rate := FxRate(Upper(currency), rateToEur, source, validAt);
    PutContents(session.rates, rate, Slot());
    match Find(session.rates, SameSlot(Upper(currency), validAt))
    case None =>
      forall r | r in session.rates ensures Slot()(r) != Slot()(rate) {
        assert !SameSlot(Upper(currency), validAt)(r);
      }
      AddedIsPut(session.rates, rate);
      session.rates := session.rates + [rate];
    case Some(row) =>
      RevaluedIsPut(session.rates, rate);
      session.rates := MapSeq(session.rates, Revalued(rate));
  }

  // ---- importing quotes ----

  datatype Import = Import(rates: seq<FxRate>, updated: nat, skipped: nat)

  datatype FxUpdateStats = FxUpdateStats(updated: nat, skipped: nat)

  predicate Wanted(quotes: map<string, real>, currency: string) { currency != EUR && currency in quotes }

  // The currencies in turn: the euro and those without a quote are skipped, an unusable quote
  // ends the import.
  function Imported(nearest: Rounding, rates: seq<FxRate>, quotes: map<string, real>, currencies: seq<string>,
                    source: string, validAt: int): Result<Import, FxUpdateError>
  {
    if currencies == [] then Ok(Import(rates, 0, 0))
    else
      var n := |currencies| - 1;
      match Imported(nearest, rates, quotes, currencies[..n], source, validAt)
      case Err(e) => Err(e)
      case Ok(i) => OneImported(nearest, i, quotes, currencies[n], source, validAt)
  }

  function OneImported(nearest: Rounding, i: Import, quotes: map<string, real>, currency: string,
                       source: string, validAt: int): Result<Import, FxUpdateError>
  {
    if !Wanted(quotes, currency) then Ok(i.(skipped := i.skipped + 1))
    else match StorableRate(nearest, currency, quotes[currency])
      case Err(e) => Err(e)
      case Ok(r) => Ok(Import(Put(i.rates, FxRate(Upper(currency), r, source, validAt), Slot()), i.updated + 1, i.skipped))
  }

  lemma {:induction false} ImportStaysFailed(nearest: Rounding, rates: seq<FxRate>, quotes: map<string, real>,
                                             currencies: seq<string>, k: nat, source: string, validAt: int)
    requires k <= |currencies|
    requires Imported(nearest, rates, quotes, currencies[..k], source, validAt).Err?
    ensures Imported(nearest, rates, quotes, currencies, source, validAt) ==
              Imported(nearest, rates, quotes, currencies[..k], source, validAt)
  {
    if k < |currencies| {
      var n := |currencies| - 1;
      assert currencies[..n][..k] == currencies[..k];
      ImportStaysFailed(nearest, rates, quotes, currencies[..n], k, source, validAt);
    } else {
      assert currencies[..k] == currencies;
    }
  }

  function NonEmpty(): string -> bool { (c: string) => c != "" }

  function Normalized(currencies: seq<string>): seq<string> { MapSeq(Filter(currencies, NonEmpty()), Upper) }

  // A failed import is not committed.
  method UpdateFxRates(session: Session, nearest: Rounding, quotes: map<string, real>, currencies: seq<string>,
                       source: string, validAt: int)
    returns (r: Result<FxUpdateStats, FxUpdateError>)
    requires Distinct(session.rates, Slot())
    modifies session`rates
    ensures match Imported(nearest, old(session.rates), quotes, Normalized(currencies), source, validAt)
            case Err(e) => r == Err(e) && session.rates == old(session.rates)
            case Ok(i) => r == Ok(FxUpdateStats(i.updated, i.skipped)) && session.rates == i.rates
  {
    var before, wanted := session.rates, Normalized(currencies);
    var updated, skipped := 0, 0;
    for k := 0 to |wanted|
      invariant Distinct(session.rates, Slot())
      invariant Imported(nearest, before, quotes, wanted[..k], source, validAt) == Ok(Import(session.rates, updated, skipped))
    {
      assert wanted[..k + 1][..k] == wanted[..k];
      if !Wanted(quotes, wanted[k]) {
        skipped := skipped + 1;
        continue;
      }
      var rate := StorableRate(nearest, wanted[k], quotes[wanted[k]]);
      if rate.Err? {
        ImportStaysFailed(nearest, before, quotes, wanted, k + 1, source, validAt);
        session.rates := before;
        return Err(rate.error);
      }
      var _ := UpsertFxRate(session, wanted[k], rate.value, source, validAt);
      updated := updated + 1;
    }
    assert wanted[..|wanted|] == wanted;
    r := Ok(FxUpdateStats(updated, skipped));
  }

  ghost predicate RatesValid(rates: seq<FxRate>) { forall r | r in rates :: ValidRate(r.currency, r.rateToEur) }

  // Whatever is imported, the table stays one of unique positive rates.
  lemma {:induction false} ImportKeepsValid(nearest: Rounding, rates: seq<FxRate>, quotes: map<string, real>,
                                            currencies: seq<string>, source: string, validAt: int)
    requires Distinct(rates, Slot()) && RatesValid(rates)
    ensures var r := Imported(nearest, rates, quotes, currencies, source, validAt);
            r.Ok? ==> Distinct(r.value.rates, Slot()) && RatesValid(r.value.rates)
  {
    if currencies != [] {
      var n := |currencies| - 1;
      ImportKeepsValid(nearest, rates, quotes, currencies[..n], source, validAt);
      var before, c := Imported(nearest, rates, quotes, currencies[..n], source, validAt), currencies[n];
      if before.Ok? && Wanted(quotes, c) && StorableRate(nearest, c, quotes[c]).Ok? {
        PutContents(before.value.rates, FxRate(Upper(c), StorableRate(nearest, c, quotes[c]).value, source, validAt), Slot());
      }
    }
  }

  // The quotes an import has to store can all be stored.
  predicate Usable(quotes: map<string, real>, c: string) {
    c != "EUR" && c in quotes ==> |c| == 3 && 0.0 < quotes[c] < 2000000.0
  }

  ghost predicate QuotesUsable(quotes: map<string, real>, currencies: seq<string>) {
    forall c | c in currencies :: Usable(quotes, c)
  }

  lemma OneMoreUsable(quotes: map<string, real>, currencies: seq<string>, c: string)
    ensures QuotesUsable(quotes, currencies + [c]) <==> QuotesUsable(quotes, currencies) && Usable(quotes, c)
  {
    if QuotesUsable(quotes, currencies + [c]) {
      assert c in currencies + [c];
    }
  }

  lemma OneImportIff(i: Import, quotes: map<string, real>, c: string, source: string, validAt: int)
    ensures OneImported(HalfEven(), i, quotes, c, source, validAt).Ok? <==> Usable(quotes, c)
  {
    if Wanted(quotes, c) {
      StorableIff(c, quotes[c]);
    }
  }

  // An import goes through exactly if each wanted quote is positive and below two million. Then
  // each currency is counted once, the table stays one of unique positive rates, and the rate of
  // every wanted quote stands in it.
  lemma {:induction false} ImportSucceedsIff(rates: seq<FxRate>, quotes: map<string, real>, currencies: seq<string>,
                                             source: string, validAt: int)
    requires Distinct(rates, Slot()) && RatesValid(rates)
    requires forall c | c in currencies :: Upper(c) == c
    ensures var r := Imported(HalfEven(), rates, quotes, currencies, source, validAt);
            && (r.Ok? <==> QuotesUsable(quotes, currencies))
            && (r.Ok? ==> ImportIsGood(r.value, quotes, currencies, source, validAt))
  {
    if currencies != [] {
      var n := |currencies| - 1;
      var init, c := currencies[..n], currencies[n];
      assert currencies == init + [c];
      ImportSucceedsIff(rates, quotes, init, source, validAt);
      OneMoreUsable(quotes, init, c);
      var before := Imported(HalfEven(), rates, quotes, init, source, validAt);
      if before.Ok? {
        OneImportIff(before.value, quotes, c, source, validAt);
      }
      if before.Ok? && OneImported(HalfEven(), before.value, quotes, c, source, validAt).Ok? {
        OneMoreGood(before.value, quotes, init, c, source, validAt);
      }
    }
  }

  // The currencies to store are counted as updated, the euro and those without a quote as skipped.
  ghost predicate ImportIsGood(i: Import, quotes: map<string, real>, currencies: seq<string>, source: string, validAt: int) {
    && i.updated == |set k: nat | k < |currencies| && currencies[k] != "EUR" && currencies[k] in quotes|
    && i.updated + i.skipped == |currencies|
    && Distinct(i.rates, Slot()) && RatesValid(i.rates)
    && forall c | c in currencies && c != "EUR" && c in quotes ::
         QuotedRate(c, quotes[c], source, validAt) in i.rates
  }

  lemma OneMoreQuoted(quotes: map<string, real>, currencies: seq<string>, c: string)
    ensures var before := set k: nat | k < |currencies| && currencies[k] != "EUR" && currencies[k] in quotes;
            var more := currencies + [c];
            |set k: nat | k < |more| && more[k] != "EUR" && more[k] in quotes| ==
              |before| + if c != "EUR" && c in quotes then 1 else 0
  {
    var n, more := |currencies|, currencies + [c];
    var before := set k: nat | k < n && currencies[k] != "EUR" && currencies[k] in quotes;
    assert (set k: nat | k < |more| && more[k] != "EUR" && more[k] in quotes) ==
             before + if c != "EUR" && c in quotes then {n} else {};
  }

  function QuotedRate(currency: string, quote: real, source: string, validAt: int): FxRate {
    FxRate(currency, if quote <= 0.0 then 0.0 else Round6(HalfEven(), 1.0 / quote), source, validAt)
  }

  lemma OneMoreGood(i: Import, quotes: map<string, real>, currencies: seq<string>, c: string, source: string, validAt: int)
    requires ImportIsGood(i, quotes, currencies, source, validAt) && Upper(c) == c
    requires OneImported(HalfEven(), i, quotes, c, source, validAt).Ok?
    ensures ImportIsGood(OneImported(HalfEven(), i, quotes, c, source, validAt).value, quotes, currencies + [c], source, validAt)
  {
    OneMoreQuoted(quotes, currencies, c);
    if Wanted(quotes, c) {
      var rate := QuotedRate(c, quotes[c], source, validAt);
      PutContents(i.rates, rate, Slot());
    }
  }

  // A rate stored for a later date than any other of its currency is the one used from then on.
  lemma NewestRateIsUsed(rates: seq<FxRate>, rate: FxRate)
    requires rate in rates && Upper(rate.currency) == rate.currency && rate.currency != EUR
    requires forall r | r in rates && r != rate && r.currency == rate.currency :: r.validAt < rate.validAt
    ensures LatestRate(rates, rate.currency, None) == Some(rate)
  {
    LatestRateIsLatest(rates, rate.currency, None);
    assert RateFor(rate.currency, None)(rate);
  }
}
