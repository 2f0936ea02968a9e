/** Exact minor-unit money of packages/money/__init__.py. */
module Money {
  import opened Outcomes
  import opened Decimal
  import Text

  datatype Error =
    | NotAnInteger | Negative | QuantityBelowOne | DeductionTooLarge
    | UnsupportedCurrency | NotADecimal | TooManyFractionDigits

  // ----- Totals -------------------------------------------------------------

  function MultiplyMinorUnits(unitAmount: int, quantity: int): Result<nat, Error> {
    if unitAmount < 0 || quantity < 0 then Err(Negative)
    else if quantity < 1 then Err(QuantityBelowOne)
    else Ok(unitAmount * quantity)
  }

  function SubtractMinorUnits(amount: int, deduction: int): Result<nat, Error> {
    if amount < 0 || deduction < 0 then Err(Negative)
    else if deduction > amount then Err(DeductionTooLarge)
    else Ok(amount - deduction)
  }

  function CalculateTotalMinor(unitPrice: int, quantity: int,
                               shipping: int, tax: int, discount: int): Result<nat, Error> {
    match MultiplyMinorUnits(unitPrice, quantity)
    case Err(e) => Err(e)
    case Ok(subtotal) =>
      if shipping < 0 || tax < 0 then Err(Negative)
      else SubtractMinorUnits(subtotal + shipping + tax, discount)
  }

  // ----- Currencies ---------------------------------------------------------

  datatype Currency = INR | USD

  /** Both configured currencies have two minor-unit digits, as has the default. */
  const EXPONENT: nat := 2
  const FACTOR: nat := 100

  function CurrencyOf(currency: string): Option<Currency> {
    var code := Text.Upper(Text.Strip(currency));
    if code == "INR" then Some(INR) else if code == "USD" then Some(USD) else None
  }

  function CodeOf(c: Currency): string {
    match c case INR => "INR" case USD => "USD"
  }

  function SymbolOf(c: Currency): char {
    match c case INR => '\U{20B9}' case USD => '$'
  }

  /** No currency at all, or one of the configured ones in any casing or padding. */
  predicate Supported(currency: Option<string>) {
    currency.Some? ==> CurrencyOf(currency.value).Some?
  }

  // ----- Printing -----------------------------------------------------------

  function NumberText(amount: nat, grouping: bool): string {
    var whole := NatText(amount / FACTOR);
    (if grouping then Grouped(whole) else whole) + "." + ZeroPad(NatText(amount % FACTOR), EXPONENT)
  }

  function FormatMinorUnits(amount: int, currency: Option<string>, grouping: bool)
    : Result<string, Error>
  {
    if amount < 0 then Err(Negative)
    else
      match currency
      case None => Ok(NumberText(amount, grouping))
      case Some(c) =>
        match CurrencyOf(c)
        case None => Err(UnsupportedCurrency)
        case Some(known) => Ok(CodeOf(known) + " " + NumberText(amount, grouping))
  }

  // ----- Parsing ------------------------------------------------------------

  /** What a caller may hand in: text, a whole number, or a value that is refused. */
  datatype Input = Words(text: string) | Whole(units: int) | FloatOrBool

  function DigitRun(s: string): string {
    if s == [] || !IsDigit(s[0]) then [] else [s[0]] + DigitRun(s[1..])
  }

  /** The whole and fraction groups of the decimal pattern, on a full match. */
  function MatchDecimal(s: string): Option<(string, string)> {
    var w := DigitRun(s);
    DigitRunIsPrefix(s);
    var rest := s[|w|..];
    if w == "" || (|w| > 1 && w[0] == '0') then None
    else if rest == "" then Some((w, ""))
    else if rest[0] == '.' && |rest| > 1 && AllDigits(rest[1..]) then Some((w, rest[1..]))
    else None
  }

  /** The text left once padding, one currency mark and the commas are removed. */
  function Cleaned(text: string, currency: Option<Currency>): string {
    var t := Text.Strip(text);
    var unmarked :=
      match currency
      case None => t
      case Some(c) =>
        if CodeOf(c) <= Text.Upper(t) then Text.Strip(t[3..])
        else if t != [] && t[0] == SymbolOf(c) then Text.Strip(t[1..])
        else t;
    WithoutCommas(unmarked)
  }

  function ParseDecimal(s: string): Result<nat, Error> {
    match MatchDecimal(s)
    case None => Err(NotADecimal)
    case Some((whole, fraction)) =>
      MatchedDigits(s);
      if |fraction| > EXPONENT then Err(TooManyFractionDigits)
      else
        assert AllDigits(LeftAdjust(fraction));
        Ok(TextNat(whole) * FACTOR + TextNat(LeftAdjust(fraction)))
  }

  /** fraction.ljust(exponent, "0") */
  function LeftAdjust(fraction: string): string {
    if |fraction| >= EXPONENT then fraction
    else fraction + seq(EXPONENT - |fraction|, i => '0')
  }

  function ParseMajorUnits(value: Input, currency: Option<string>): Result<nat, Error> {
    if !Supported(currency) then Err(UnsupportedCurrency)
    else
      match value
      case FloatOrBool => Err(NotADecimal)
      case Whole(units) => if units < 0 then Err(Negative) else Ok(units * FACTOR)
      case Words(text) =>
        ParseDecimal(Cleaned(text, if currency.None? then None else CurrencyOf(currency.value)))
  }

  // ----- The decimal grammar ------------------------------------------------

  /** A non-negative base-10 decimal: no leading zero, and digits after any point. */
  ghost predicate IsDecimal(s: string, whole: string, fraction: string) {
    && AllDigits(whole) && AllDigits(fraction)
    && whole != "" && (whole[0] == '0' ==> whole == "0")
    && s == (if fraction == "" then whole else whole + "." + fraction)
  }

  lemma {:induction false} DigitRunIsPrefix(s: string)
    ensures DigitRun(s) <= s && AllDigits(DigitRun(s))
    ensures |DigitRun(s)| < |s| ==> !IsDigit(s[|DigitRun(s)|])
  {
    if s != [] && IsDigit(s[0]) {
      DigitRunIsPrefix(s[1..]);
    }
  }

  lemma {:induction false} DigitRunOf(w: string, rest: string)
    requires AllDigits(w) && (rest == [] || !IsDigit(rest[0]))
    ensures DigitRun(w + rest) == w
  {
    if w == [] {
      assert w + rest == rest;
    } else {
      DigitRunOf(w[1..], rest);
      assert (w + rest)[1..] == w[1..] + rest;
      assert w == [w[0]] + w[1..];
    }
  }

  lemma MatchedDigits(s: string)
    ensures MatchDecimal(s).Some? ==>
              AllDigits(MatchDecimal(s).value.0) && AllDigits(MatchDecimal(s).value.1)
  {
    DigitRunIsPrefix(s);
  }

  lemma GrammarMatches(s: string, whole: string, fraction: string)
    requires IsDecimal(s, whole, fraction)
    ensures MatchDecimal(s) == Some((whole, fraction))
  {
    if fraction == "" {
      DigitRunOf(whole, "");
      assert whole + "" == s;
    } else {
      var tail := "." + fraction;
      assert s == whole + tail;
      DigitRunOf(whole, tail);
      assert s[|whole|..] == tail && tail[1..] == fraction;
    }
  }

  lemma MatchesAreGrammar(s: string, whole: string, fraction: string)
    requires MatchDecimal(s) == Some((whole, fraction))
    ensures IsDecimal(s, whole, fraction)
  {
    DigitRunIsPrefix(s);
    assert s == whole + s[|whole|..];
    if fraction != "" {
      assert s[|whole|..] == "." + fraction;
      assert whole + "." + fraction == whole + ("." + fraction);
    }
  }

  /** The matcher accepts exactly the grammar, and splits it the only way there is. */
  lemma MatchIsGrammar(s: string, whole: string, fraction: string)
    ensures MatchDecimal(s) == Some((whole, fraction)) <==> IsDecimal(s, whole, fraction)
  {
    hide MatchDecimal, IsDecimal;
    if IsDecimal(s, whole, fraction) {
      GrammarMatches(s, whole, fraction);
    }
    if MatchDecimal(s) == Some((whole, fraction)) {
      MatchesAreGrammar(s, whole, fraction);
    }
  }

  /** Left-adjusting a fraction scales it to minor units without rounding. */
  lemma AdjustedFraction(fraction: string)
    requires AllDigits(fraction) && |fraction| <= EXPONENT
    ensures AllDigits(LeftAdjust(fraction))
    ensures TextNat(LeftAdjust(fraction)) == TextNat(fraction) * Pow10(EXPONENT - |fraction|)
  {
    var n := EXPONENT - |fraction|;
    ZerosRead(n);
    TextNatConcat(fraction, seq(n, i => '0'));
    if n == 0 {
      assert Pow10(0) == 1;
    }
  }

  lemma SmallPowers()
    ensures Pow10(0) == 1 && Pow10(1) == 10 && Pow10(2) == 100
  {}

  /** The exact worth of the digits `w.f`, scaled by 10^|f| so that it stays an integer. */
  ghost predicate Denotes(whole: string, fraction: string, minor: nat)
    requires AllDigits(whole) && AllDigits(fraction)
  {
    minor * Pow10(|fraction|) == TextNat(whole + fraction) * 100
  }

  lemma ParsedDenotes(whole: string, fraction: string, minor: nat)
    requires AllDigits(whole) && AllDigits(fraction) && |fraction| <= 2
    ensures AllDigits(LeftAdjust(fraction))
    ensures minor == TextNat(whole) * 100 + TextNat(LeftAdjust(fraction))
       <==> Denotes(whole, fraction, minor)
  {
    hide TextNat, Pow10, LeftAdjust;
    AdjustedFraction(fraction);
    TextNatConcat(whole, fraction);
    SmallPowers();
    if |fraction| == 0 {
    } else if |fraction| == 1 {
    } else {
      assert |fraction| == 2;
    }
  }

  lemma ParseDecimalIsExact(s: string, minor: nat)
    ensures ParseDecimal(s) == Ok(minor)
       <==> exists whole, fraction :: IsDecimal(s, whole, fraction) && |fraction| <= 2
                                      && Denotes(whole, fraction, minor)
  {
    MatchedDigits(s);
    if MatchDecimal(s).Some? {
      var (whole, fraction) := MatchDecimal(s).value;
      MatchIsGrammar(s, whole, fraction);
      if |fraction| <= 2 {
        ParsedDenotes(whole, fraction, minor);
      }
    }
    hide MatchDecimal;
    forall whole, fraction | IsDecimal(s, whole, fraction)
      ensures MatchDecimal(s) == Some((whole, fraction))
    {
      MatchIsGrammar(s, whole, fraction);
    }
  }

  /** Parsing accepts exactly the decimals of at most two places, at their exact worth. */
  lemma ParseIsExact(text: string, currency: Option<string>, minor: nat)
    ensures ParseMajorUnits(Words(text), currency) == Ok(minor)
       <==> (Supported(currency)
             && exists whole, fraction ::
                  && IsDecimal(Cleaned(text, if currency.None? then None
                                             else CurrencyOf(currency.value)), whole, fraction)
                  && |fraction| <= 2
                  && Denotes(whole, fraction, minor))
  {
    hide ParseDecimal, IsDecimal, Cleaned, CurrencyOf;
    if Supported(currency) {
      ParseDecimalIsExact(Cleaned(text, if currency.None? then None
                                        else CurrencyOf(currency.value)), minor);
    }
  }

  // ----- Round trip ---------------------------------------------------------

  lemma NumberTextIsDecimal(amount: nat, grouping: bool)
    ensures var whole, fraction := NatText(amount / FACTOR), ZeroPad(NatText(amount % FACTOR), EXPONENT);
            && WithoutCommas(NumberText(amount, grouping)) == whole + "." + fraction
            && IsDecimal(whole + "." + fraction, whole, fraction)
            && |fraction| == EXPONENT
  {
    var whole, fraction := NatText(amount / FACTOR), ZeroPad(NatText(amount % FACTOR), EXPONENT);
    NatTextReads(amount / FACTOR);
    ZeroPadReads(amount % FACTOR, EXPONENT);
    TwoPlaces(amount % FACTOR);
    NoLeadingZero(amount / FACTOR);
    UngroupNumber(whole, fraction, grouping);
  }

  lemma UngroupNumber(whole: string, fraction: string, grouping: bool)
    requires AllDigits(whole) && AllDigits(fraction)
    ensures WithoutCommas((if grouping then Grouped(whole) else whole) + "." + fraction)
         == whole + "." + fraction
  {
    hide WithoutCommas, Grouped;
    var shown := if grouping then Grouped(whole) else whole;
    UngroupGrouped(whole);
    WithoutCommasKeeps(whole);
    WithoutCommasKeeps("." + fraction);
    WithoutCommasConcat(shown, "." + fraction);
    Reassociate(shown, ".", fraction);
    Reassociate(whole, ".", fraction);
  }

  lemma NoLeadingZero(n: nat)
    ensures NatText(n) != [] && (NatText(n)[0] == '0' ==> NatText(n) == "0")
  {
    NatTextReads(n);
  }

  lemma NumberTextIsTrimmed(amount: nat, grouping: bool)
    ensures Text.Trimmed(NumberText(amount, grouping))
    ensures NumberText(amount, grouping) != [] && IsDigit(NumberText(amount, grouping)[0])
  {
    var whole, fraction := NatText(amount / FACTOR), ZeroPad(NatText(amount % FACTOR), EXPONENT);
    NatTextReads(amount / FACTOR);
    ZeroPadReads(amount % FACTOR, EXPONENT);
    TwoPlaces(amount % FACTOR);
    GroupedEnds(whole);
    var t := NumberText(amount, grouping);
    assert t[|t| - 1] == fraction[1];
  }

  lemma MarkedIsTrimmed(c: Currency, number: string)
    requires Text.Trimmed(number) && number != []
    ensures Text.Trimmed(CodeOf(c) + " " + number)
    ensures CodeOf(c) <= Text.Upper(CodeOf(c) + " " + number)
  {}

  lemma StripMarked(c: Currency, number: string)
    requires Text.Trimmed(number) && number != []
    ensures Text.Strip((CodeOf(c) + " " + number)[3..]) == number
  {
    var rest := (CodeOf(c) + " " + number)[3..];
    assert rest == " " + number;
    assert rest[1..] == number;
    assert Text.StripLeft(rest) == Text.StripLeft(number) == number;
    Text.StripTrims(number);
  }

  lemma CleanedNumber(amount: nat, grouping: bool, currency: Option<Currency>)
    ensures var number := NumberText(amount, grouping);
            Cleaned(match currency case None => number case Some(c) => CodeOf(c) + " " + number,
                    currency) == WithoutCommas(number)
  {
    var number := NumberText(amount, grouping);
    NumberTextIsTrimmed(amount, grouping);
    hide NumberText, CodeOf, Text.Strip, Text.Trimmed, WithoutCommas, Text.Upper;
    Text.StripTrims(number);
    if currency.Some? {
      MarkedIsTrimmed(currency.value, number);
      Text.StripTrims(CodeOf(currency.value) + " " + number);
      StripMarked(currency.value, number);
    }
  }

  lemma ParseNumber(amount: nat, grouping: bool)
    ensures ParseDecimal(WithoutCommas(NumberText(amount, grouping))) == Ok(amount)
  {
    NumberTextIsDecimal(amount, grouping);
    hide NumberText, WithoutCommas, MatchDecimal, IsDecimal;
    var whole, fraction := NatText(amount / FACTOR), ZeroPad(NatText(amount % FACTOR), EXPONENT);
    MatchIsGrammar(whole + "." + fraction, whole, fraction);
    NatTextReads(amount / FACTOR);
    ZeroPadReads(amount % FACTOR, EXPONENT);
  }

  /** Every amount survives printing and parsing, in any supported currency and grouping. */
  lemma FormatThenParse(amount: nat, currency: Option<string>, grouping: bool)
    requires Supported(currency)
    ensures FormatMinorUnits(amount, currency, grouping).Ok?
    ensures ParseMajorUnits(Words(FormatMinorUnits(amount, currency, grouping).value), currency)
         == Ok(amount)
  {
    hide NumberText, Cleaned, CurrencyOf, ParseDecimal;
    CleanedNumber(amount, grouping, if currency.None? then None else CurrencyOf(currency.value));
    ParseNumber(amount, grouping);
  }

  // ----- What is printed and what is read, literally ------------------------------

  /** A currency is one of two codes, in any casing and padding. */
  lemma SupportedIff(currency: string)
    ensures Supported(Some(currency)) <==> Text.Upper(Text.Strip(currency)) in {"INR", "USD"}
    ensures CurrencyOf(currency) == Some(INR) <==> Text.Upper(Text.Strip(currency)) == "INR"
    ensures CurrencyOf(currency) == Some(USD) <==> Text.Upper(Text.Strip(currency)) == "USD"
  {}

  /** Printing fails for a negative amount and an unknown currency; a currency is printed as its code and a space. */
  lemma FormatIs(amount: int, currency: Option<string>, grouping: bool)
    ensures var printed := FormatMinorUnits(amount, currency, grouping);
            if amount < 0 then printed == Err(Negative)
            else
              match currency
              case None => printed == Ok(NumberText(amount, grouping))
              case Some(c) =>
                var code := Text.Upper(Text.Strip(c));
                if code == "INR" || code == "USD" then printed == Ok(code + " " + NumberText(amount, grouping))
                else printed == Err(UnsupportedCurrency)
  {
    hide NumberText, Text.Upper, Text.Strip;
  }

  /** The number is the amount in hundredths: a whole part without leading zeros, a point and two digits. */
  lemma NumberIs(amount: nat, grouping: bool) returns (whole: string, fraction: string)
    ensures IsDecimal(whole + "." + fraction, whole, fraction) && |fraction| == 2
    ensures NumberText(amount, grouping) == (if grouping then Grouped(whole) else whole) + "." + fraction
    ensures TextNat(whole) * 100 + TextNat(fraction) == amount
    ensures ',' !in whole
  {
    whole, fraction := NatText(amount / 100), ZeroPad(NatText(amount % 100), 2);
    NumberTextIsDecimal(amount, grouping);
    NatTextReads(amount / 100);
    ZeroPadReads(amount % 100, 2);
  }

  /** A whole number counts major units; floats and booleans are refused. */
  lemma WholeUnitsAre(units: int, currency: Option<string>)
    requires Supported(currency)
    ensures ParseMajorUnits(Whole(units), currency) == if units < 0 then Err(Negative) else Ok(units * 100)
    ensures ParseMajorUnits(FloatOrBool, currency) == Err(NotADecimal)
  {}

  lemma StripKeeps(number: string)
    requires Text.Trimmed(number)
    ensures Text.Strip(number) == number
    ensures number != [] ==> Text.Strip(" " + number) == number
  {
    Text.StripTrims(number);
    assert (" " + number)[1..] == number;
    assert number != [] ==> Text.StripLeft(" " + number) == Text.StripLeft(number) == number;
  }

  lemma UpperOfFront(mark: string, rest: string)
    requires |mark| == 3
    ensures Text.Upper(mark + rest)[..3] == Text.Upper(mark)
  {}

  predicate IsNumber(number: string) {
    Text.Trimmed(number) && number != [] && IsDigit(number[0])
  }

  lemma MarkedStaysTrimmed(mark: string, rest: string)
    requires mark != [] && !Text.IsSpace(mark[0]) && rest != [] && !Text.IsSpace(rest[|rest| - 1])
    ensures Text.Strip(mark + rest) == mark + rest
  {
    Text.StripTrims(mark + rest);
  }

  /** The code of the currency, in any casing, may stand before the number, with or without a space. */
  lemma CodeIsDropped(c: Currency, mark: string, number: string)
    requires |mark| == 3 && Text.Upper(mark) == (if c == INR then "INR" else "USD") && IsNumber(number)
    ensures Cleaned(mark + number, Some(c)) == WithoutCommas(number)
    ensures Cleaned(mark + (" " + number), Some(c)) == WithoutCommas(number)
  {
    MarkIsNoSpace(c, mark);
    MarkedStaysTrimmed(mark, number);
    MarkedStaysTrimmed(mark, " " + number);
    UpperOfFront(mark, number);
    UpperOfFront(mark, " " + number);
    StripKeeps(number);
    hide Text.Strip, WithoutCommas, Text.Upper;
    assert (mark + number)[3..] == number && (mark + (" " + number))[3..] == " " + number;
  }

  lemma MarkIsNoSpace(c: Currency, mark: string)
    requires |mark| == 3 && Text.Upper(mark) == (if c == INR then "INR" else "USD")
    ensures !Text.IsSpace(mark[0])
  {
    assert Text.UpperChar(mark[0]) == Text.Upper(mark)[0];
  }

  /** So may its symbol, the rupee sign or the dollar sign. */
  lemma SymbolIsDropped(c: Currency, number: string)
    requires IsNumber(number)
    ensures Cleaned([if c == INR then '\U{20B9}' else '$'] + number, Some(c)) == WithoutCommas(number)
  {
    var symbol := if c == INR then '\U{20B9}' else '$';
    MarkedStaysTrimmed([symbol], number);
    StripKeeps(number);
    assert Text.Upper([symbol] + number)[0] == symbol;
    hide Text.Strip, WithoutCommas, Text.Upper;
    assert ([symbol] + number)[1..] == number;
  }

  /** A number needs no mark. */
  lemma PlainNumberIsKept(currency: Option<Currency>, number: string)
    requires IsNumber(number)
    ensures Cleaned(number, currency) == WithoutCommas(number)
  {
    StripKeeps(number);
    assert Text.Upper(number)[0] == number[0];
    hide Text.Strip, WithoutCommas, Text.Upper;
  }

  /** The mark of another currency is refused. */
  lemma OtherSymbolIsRefused(c: Currency, number: string)
    requires IsNumber(number)
    ensures ParseDecimal(Cleaned([if c == INR then '$' else '\U{20B9}'] + number, Some(c))) == Err(NotADecimal)
  {
    var symbol := if c == INR then '$' else '\U{20B9}';
    MarkedStaysTrimmed([symbol], number);
    assert Text.Upper([symbol] + number)[0] == symbol;
    hide Text.Strip, Text.Upper;
    assert DigitRun(WithoutCommas([symbol] + number)) == "";
  }

  // ----- Totals computed -----------------------------------------------------------

  /** A total is the price of at least one unit, plus shipping and tax, less a discount it covers. */
  lemma TotalIff(unitPrice: int, quantity: int, shipping: int, tax: int, discount: int, total: nat)
    ensures CalculateTotalMinor(unitPrice, quantity, shipping, tax, discount) == Ok(total) <==>
            && unitPrice >= 0 && quantity >= 1 && shipping >= 0 && tax >= 0 && discount >= 0
            && total == unitPrice * quantity + shipping + tax - discount
    ensures var answer := CalculateTotalMinor(unitPrice, quantity, shipping, tax, discount);
            && (answer == Err(QuantityBelowOne) <==> unitPrice >= 0 && quantity == 0)
            && (answer == Err(DeductionTooLarge) <==>
                  && unitPrice >= 0 && quantity >= 1 && shipping >= 0 && tax >= 0 && discount >= 0
                  && discount > unitPrice * quantity + shipping + tax)
  {}
}
