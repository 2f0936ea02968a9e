/** The part of json.dumps the price hash uses: scalars, with ASCII-only strings. */
module JsonText {
  import opened Decimal

  datatype Scalar = Num(n: int) | Str(s: string)

  function HexDigit(d: nat): char
    requires d < 16
  {
    if d < 10 then ('0' as int + d) as char else ('a' as int + d - 10) as char
  }

  /** Four lower-case hexadecimal digits. */
  function Hex4(n: nat): string
    requires n < 0x10000
  {
    [HexDigit(n / 0x1000), HexDigit(n / 0x100 % 16), HexDigit(n / 0x10 % 16), HexDigit(n % 16)]
  }

  function Unicode(n: nat): string
    requires n < 0x10000
  {
    "\\u" + Hex4(n)
  }

  function HighSurrogate(n: nat): nat
    requires 0x10000 <= n < 0x110000
  {
    0xD800 + (n - 0x10000) / 0x400
  }

  function LowSurrogate(n: nat): nat
    requires 0x10000 <= n < 0x110000
  {
    0xDC00 + (n - 0x10000) % 0x400
  }

  /** The one-letter escapes of JSON; None for any other character. */
  function ShortEscape(c: char): string {
    if c == '"' then "\\\""
    else if c == '\\' then "\\\\"
    else if c == '\n' then "\\n"
    else if c == '\r' then "\\r"
    else if c == '\t' then "\\t"
    else if c as int == 0x08 then "\\b"
    else if c as int == 0x0C then "\\f"
    else ""
  }

  /** One character as json.dumps writes it with ensure_ascii. */
  function Escape(c: char): string {
    var n := c as int;
    if ShortEscape(c) != "" then ShortEscape(c)
    else if 0x20 <= n < 0x7F then [c]
    else if n < 0x10000 then Unicode(n)
    else Unicode(HighSurrogate(n)) + Unicode(LowSurrogate(n))
  }

  function EscapeAll(s: string): string {
    if s == [] then [] else Escape(s[0]) + EscapeAll(s[1..])
  }

  function Quote(s: string): string {
    "\"" + EscapeAll(s) + "\""
  }

  function IntText(n: int): string {
    if n < 0 then "-" + NatText(-n) else NatText(n)
  }

  function ScalarText(v: Scalar): string {
    match v
    case Num(n) => IntText(n)
    case Str(s) => Quote(s)
  }

  predicate IsPlain(s: string) {
    forall i :: 0 <= i < |s| ==> ' ' <= s[i] <= '~' && s[i] != '"' && s[i] != '\\'
  }

  /** Printable ASCII is kept as it is, but for the quote and the backslash. */
  lemma {:induction false} PlainTextIsKept(s: string)
    requires IsPlain(s)
    ensures EscapeAll(s) == s
  {
    if s != [] {
      PlainTextIsKept(s[1..]);
      assert [s[0]] + s[1..] == s;
    }
  }

  /** The hexadecimal digits of a number below 0x10000, as they read. */
  function HexValue(s: string): int
    requires |s| == 4
  {
    Digit(s[0]) * 0x1000 + Digit(s[1]) * 0x100 + Digit(s[2]) * 0x10 + Digit(s[3])
  }

  function Digit(c: char): int {
    if '0' <= c <= '9' then c as int - '0' as int
    else if 'a' <= c <= 'f' then c as int - 'a' as int + 10
    else -1
  }

  lemma Hex4Reads(n: nat)
    requires n < 0x10000
    ensures HexValue(Hex4(n)) == n
  {
    hide HexDigit, Digit;
    DigitReads(n / 0x1000);
    DigitReads(n / 0x100 % 16);
    DigitReads(n / 0x10 % 16);
    DigitReads(n % 16);
    Hex4Value(n);
  }

  lemma DigitReads(d: nat)
    requires d < 16
    ensures Digit(HexDigit(d)) == d
  {}

  /** The escapes of one letter. */
  lemma ShortEscapes()
    ensures Escape('"') == "\\\"" && Escape('\\') == "\\\\"
    ensures Escape('\n') == "\\n" && Escape('\r') == "\\r" && Escape('\t') == "\\t"
    ensures Escape(8 as char) == "\\b" && Escape(12 as char) == "\\f"
  {}

  lemma UnicodeReads(n: nat)
    requires n < 0x10000
    ensures |Unicode(n)| == 6 && Unicode(n)[..2] == "\\u" && HexValue(Unicode(n)[2..]) == n
  {
    Hex4Reads(n);
    hide HexValue;
    assert Unicode(n)[2..] == Hex4(n);
  }

  /** Any other control or non-ASCII character is written as its number. */
  lemma NumberEscapes(c: char)
    requires (c as int < 0x20 || 0x7F <= c as int < 0x10000) && c as int !in {8, 9, 10, 12, 13}
    ensures |Escape(c)| == 6 && Escape(c)[..2] == "\\u" && HexValue(Escape(c)[2..]) == c as int
  {
    hide HexValue, Unicode;
    UnicodeReads(c as int);
  }

  /** One beyond the basic plane is written as its two UTF-16 code units. */
  lemma PairEscapes(c: char)
    requires c as int >= 0x10000
    ensures |Escape(c)| == 12 && Escape(c)[..2] == Escape(c)[6..8] == "\\u"
    ensures var high, low := HexValue(Escape(c)[2..6]), HexValue(Escape(c)[8..]);
            && 0xD800 <= high < 0xDC00 <= low < 0xE000
            && c as int == 0x10000 + (high - 0xD800) * 0x400 + (low - 0xDC00)
  {
    hide HexValue, Unicode;
    var n := c as int;
    var high, low := Unicode(HighSurrogate(n)), Unicode(LowSurrogate(n));
    UnicodeReads(HighSurrogate(n));
    UnicodeReads(LowSurrogate(n));
    assert Escape(c) == high + low;
    hide Escape;
    assert (high + low)[2..6] == high[2..] && (high + low)[8..] == low[2..];
    assert (high + low)[..2] == high[..2] && (high + low)[6..8] == low[..2];
  }

  // ----- Unique readability -------------------------------------------------

  lemma HexDigitInjective(a: nat, b: nat)
    requires a < 16 && b < 16 && HexDigit(a) == HexDigit(b)
    ensures a == b
  {}

  lemma Hex4Value(n: nat)
    requires n < 0x10000
    ensures n == (n / 0x1000) * 0x1000 + (n / 0x100 % 16) * 0x100 + (n / 0x10 % 16) * 0x10 + n % 16
  {
    var q := n / 0x10;
    var r := q / 0x10;
    assert n == q * 0x10 + n % 16 && q == r * 0x10 + q % 16;
    assert n / 0x100 == r && n / 0x1000 == r / 0x10;
    assert r == (r / 0x10) * 0x10 + r % 16;
  }

  lemma Hex4Injective(a: nat, b: nat)
    requires a < 0x10000 && b < 0x10000 && Hex4(a) == Hex4(b)
    ensures a == b
  {
    var x, y := Hex4(a), Hex4(b);
    assert x[0] == y[0] && x[1] == y[1] && x[2] == y[2] && x[3] == y[3];
    hide HexDigit;
    HexDigitInjective(a / 0x1000, b / 0x1000);
    HexDigitInjective(a / 0x100 % 16, b / 0x100 % 16);
    HexDigitInjective(a / 0x10 % 16, b / 0x10 % 16);
    HexDigitInjective(a % 16, b % 16);
    Hex4Value(a);
    Hex4Value(b);
  }

  lemma UnicodeInjective(a: nat, b: nat)
    requires a < 0x10000 && b < 0x10000 && Unicode(a) == Unicode(b)
    ensures a == b
  {
    assert Unicode(a)[2..] == Hex4(a) && Unicode(b)[2..] == Hex4(b);
    Hex4Injective(a, b);
  }

  lemma SurrogatesInjective(a: nat, b: nat)
    requires 0x10000 <= a < 0x110000 && 0x10000 <= b < 0x110000
    requires HighSurrogate(a) == HighSurrogate(b) && LowSurrogate(a) == LowSurrogate(b)
    ensures a == b
  {}

  /** How the escape of a character starts, which fixes how long it is. */
  datatype Shape = Plain | Short | Four | Pair

  function ShapeOf(c: char): Shape {
    if ShortEscape(c) != "" then Short
    else if 0x20 <= c as int < 0x7F then Plain
    else if c as int < 0x10000 then Four
    else Pair
  }

  lemma EscapeForm(c: char)
    ensures ShapeOf(c) == Plain ==> Escape(c) == [c] && c != '\\' && c != '"'
    ensures ShapeOf(c) == Short ==> |Escape(c)| == 2 && Escape(c)[0] == '\\' && Escape(c)[1] != 'u'
    ensures ShapeOf(c) == Four ==> Escape(c) == Unicode(c as int)
    ensures ShapeOf(c) == Pair ==>
              && 0x10000 <= c as int < 0x110000
              && Escape(c) == Unicode(HighSurrogate(c as int)) + Unicode(LowSurrogate(c as int))
    ensures Escape(c) != [] && Escape(c)[0] != '"'
  {}

  lemma ShortEscapeInjective(a: char, b: char)
    requires ShapeOf(a) == Short && ShapeOf(b) == Short && Escape(a)[1] == Escape(b)[1]
    ensures a == b
  {}

  /** A code unit outside the surrogates never reads as the first half of a pair. */
  lemma FourIsNotHigh(c: char, d: char)
    requires ShapeOf(c) == Four && ShapeOf(d) == Pair
    ensures c as int != HighSurrogate(d as int)
  {}

  lemma PrefixOf(a: string, x: string, b: string, y: string)
    requires a + x == b + y && |a| <= |b|
    ensures a == b[..|a|] && x == b[|a|..] + y
  {
    assert (a + x)[..|a|] == a;
    assert (b + y)[..|a|] == b[..|a|];
    assert (a + x)[|a|..] == x;
    assert (b + y)[|a|..] == b[|a|..] + y;
  }

  lemma UnicodeHead(a: nat, b: nat, x: string, y: string)
    requires a < 0x10000 && b < 0x10000
    ensures Unicode(a) + x == Unicode(b) + y <==> a == b && x == y
  {
    if Unicode(a) + x == Unicode(b) + y {
      PrefixOf(Unicode(a), x, Unicode(b), y);
      assert Unicode(b)[..6] == Unicode(b) && Unicode(b)[6..] == "";
      assert "" + y == y;
      UnicodeInjective(a, b);
    }
  }

  /** The escapes of single characters form a prefix code. */
  lemma EscapeIsPrefixCode(a: char, b: char, x: string, y: string)
    requires Escape(a) + x == Escape(b) + y
    ensures a == b && x == y
  {
    EscapeForm(a);
    EscapeForm(b);
    if ShapeOf(a) == ShapeOf(b) {
      SameShape(a, b, x, y);
    } else {
      DifferentShape(a, b, x, y);
    }
  }

  lemma SameShape(a: char, b: char, x: string, y: string)
    requires Escape(a) + x == Escape(b) + y && ShapeOf(a) == ShapeOf(b)
    ensures a == b && x == y
  {
    EscapeForm(a);
    EscapeForm(b);
    match ShapeOf(a) {
      case Plain =>
        PrefixOf(Escape(a), x, Escape(b), y);
        assert Escape(a)[0] == Escape(b)[0];
      case Short =>
        PrefixOf(Escape(a), x, Escape(b), y);
        assert Escape(a)[1] == Escape(b)[1];
        ShortEscapeInjective(a, b);
      case Four =>
        UnicodeHead(a as int, b as int, x, y);
      case Pair =>
        PairHead(a as int, b as int, x, y);
    }
  }

  lemma PairHead(a: nat, b: nat, x: string, y: string)
    requires 0x10000 <= a < 0x110000 && 0x10000 <= b < 0x110000
    requires Unicode(HighSurrogate(a)) + Unicode(LowSurrogate(a)) + x
          == Unicode(HighSurrogate(b)) + Unicode(LowSurrogate(b)) + y
    ensures a == b && x == y
  {
    Reassociate(Unicode(HighSurrogate(a)), Unicode(LowSurrogate(a)), x);
    Reassociate(Unicode(HighSurrogate(b)), Unicode(LowSurrogate(b)), y);
    UnicodeHead(HighSurrogate(a), HighSurrogate(b),
                Unicode(LowSurrogate(a)) + x, Unicode(LowSurrogate(b)) + y);
    UnicodeHead(LowSurrogate(a), LowSurrogate(b), x, y);
    SurrogatesInjective(a, b);
  }

  lemma DifferentShape(a: char, b: char, x: string, y: string)
    requires ShapeOf(a) != ShapeOf(b)
    ensures Escape(a) + x != Escape(b) + y
  {
    EscapeForm(a);
    EscapeForm(b);
    var ea, eb := Escape(a), Escape(b);
    assert (ea + x)[0] == ea[0] && (eb + y)[0] == eb[0];
    if ShapeOf(a) != Plain && ShapeOf(b) != Plain {
      assert (ea + x)[1] == ea[1] && (eb + y)[1] == eb[1];
      if ShapeOf(a) == Four && ShapeOf(b) == Pair {
        FourMeetsPair(a, b, x, y);
      } else if ShapeOf(a) == Pair && ShapeOf(b) == Four {
        FourMeetsPair(b, a, y, x);
      }
    }
  }

  lemma FourMeetsPair(a: char, b: char, x: string, y: string)
    requires ShapeOf(a) == Four && ShapeOf(b) == Pair
    ensures Escape(a) + x != Escape(b) + y
  {
    EscapeForm(a);
    EscapeForm(b);
    var hi, lo := Unicode(HighSurrogate(b as int)), Unicode(LowSurrogate(b as int));
    Reassociate(hi, lo, y);
    UnicodeHead(a as int, HighSurrogate(b as int), x, lo + y);
    FourIsNotHigh(a, b);
  }

  /** A quoted string, whatever follows it, can be read back in one way only. */
  lemma {:induction false} EscapedTextReads(s: string, t: string, x: string, y: string)
    requires EscapeAll(s) + "\"" + x == EscapeAll(t) + "\"" + y
    ensures s == t && x == y
    decreases |s|
  {
    if s == [] && t == [] {
      assert EscapeAll(s) + "\"" + x == "\"" + x;
      assert EscapeAll(t) + "\"" + y == "\"" + y;
      assert ("\"" + x)[1..] == x && ("\"" + y)[1..] == y;
    } else if s == [] {
      EmptyMeetsText(t, x, y);
    } else if t == [] {
      EmptyMeetsText(s, y, x);
    } else {
      SplitHead(s, x);
      SplitHead(t, y);
      EscapeIsPrefixCode(s[0], t[0], EscapeAll(s[1..]) + "\"" + x, EscapeAll(t[1..]) + "\"" + y);
      EscapedTextReads(s[1..], t[1..], x, y);
      assert s == [s[0]] + s[1..] && t == [t[0]] + t[1..];
    }
  }

  lemma SplitHead(s: string, x: string)
    requires s != []
    ensures EscapeAll(s) + "\"" + x == Escape(s[0]) + (EscapeAll(s[1..]) + "\"" + x)
  {}

  lemma EmptyMeetsText(t: string, x: string, y: string)
    requires t != []
    ensures EscapeAll([]) + "\"" + x != EscapeAll(t) + "\"" + y
  {
    EscapeForm(t[0]);
    SplitHead(t, y);
    var left := EscapeAll([]) + "\"" + x;
    assert left[0] == '"';
    assert (Escape(t[0]) + (EscapeAll(t[1..]) + "\"" + y))[0] == Escape(t[0])[0];
  }

  /** Text that cannot continue a number. */
  predicate EndsNumber(r: string) {
    r != [] ==> !IsDigit(r[0])
  }

  lemma ShorterRunDiffers(a: string, b: string, x: string, y: string)
    requires |a| < |b| && AllDigits(b) && EndsNumber(x)
    ensures a + x != b + y
  {
    assert (b + y)[|a|] == b[|a|];
    if x != [] {
      assert (a + x)[|a|] == x[0];
    }
  }

  lemma DigitsRead(a: string, b: string, x: string, y: string)
    requires AllDigits(a) && AllDigits(b) && EndsNumber(x) && EndsNumber(y)
    requires a + x == b + y
    ensures a == b && x == y
  {
    if |a| < |b| {
      ShorterRunDiffers(a, b, x, y);
    } else if |b| < |a| {
      ShorterRunDiffers(b, a, y, x);
    } else {
      PrefixOf(a, x, b, y);
      assert b[..|a|] == b && b[|a|..] == "";
      assert "" + y == y;
    }
  }

  lemma IntReads(m: int, n: int, x: string, y: string)
    requires EndsNumber(x) && EndsNumber(y) && IntText(m) + x == IntText(n) + y
    ensures m == n && x == y
  {
    hide NatText, EndsNumber;
    var p, q := if m < 0 then -m else m, if n < 0 then -n else n;
    NatTextReads(p);
    NatTextReads(q);
    assert (IntText(m) + x)[0] == IntText(m)[0] && (IntText(n) + y)[0] == IntText(n)[0];
    if m < 0 {
      MinusSign(NatText(p), x);
      MinusSign(NatText(q), y);
    }
    DigitsRead(NatText(p), NatText(q), x, y);
    NatTextInjective(p, q);
  }

  lemma MinusSign(digits: string, x: string)
    ensures ("-" + digits + x)[1..] == digits + x
  {}

  lemma QuoteReads(s: string, t: string, x: string, y: string)
    requires Quote(s) + x == Quote(t) + y
    ensures s == t && x == y
  {
    var p, q := EscapeAll(s) + "\"" + x, EscapeAll(t) + "\"" + y;
    assert Quote(s) + x == "\"" + p && Quote(t) + y == "\"" + q;
    assert ("\"" + p)[1..] == p && ("\"" + q)[1..] == q;
    EscapedTextReads(s, t, x, y);
  }

  /** A scalar followed by text that cannot continue a number is read in one way only. */
  lemma ScalarReads(v: Scalar, w: Scalar, x: string, y: string)
    requires EndsNumber(x) && EndsNumber(y) && ScalarText(v) + x == ScalarText(w) + y
    ensures v == w && x == y
  {
    FirstChar(v, x);
    FirstChar(w, y);
    match (v, w) {
      case (Num(m), Num(n)) => IntReads(m, n, x, y);
      case (Str(s), Str(t)) => QuoteReads(s, t, x, y);
      case _ =>
    }
  }

  lemma FirstChar(v: Scalar, x: string)
    ensures ScalarText(v) + x != [] && ((ScalarText(v) + x)[0] == '"' <==> v.Str?)
  {
    match v {
      case Num(n) =>
        NatTextReads(if n < 0 then -n else n);
        assert (ScalarText(v) + x)[0] == IntText(n)[0];
      case Str(s) =>
        assert (ScalarText(v) + x)[0] == Quote(s)[0];
    }
  }
}
