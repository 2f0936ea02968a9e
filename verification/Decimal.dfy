/** Decimal numerals: Python's str(int), zero padding and digit grouping. */
module Decimal {

  predicate IsDigit(c: char) {
    '0' <= c <= '9'
  }

  predicate AllDigits(s: string) {
    forall i :: 0 <= i < |s| ==> IsDigit(s[i])
  }

  function DigitChar(d: nat): char
    requires d < 10
  {
    ('0' as int + d) as char
  }

  function DigitValue(c: char): nat
    requires IsDigit(c)
  {
    c as int - '0' as int
  }

  /** str(n) */
  function NatText(n: nat): string {
    if n < 10 then [DigitChar(n)] else NatText(n / 10) + [DigitChar(n % 10)]
  }

  /** int(s), with the empty text read as zero. */
  function TextNat(s: string): nat
    requires AllDigits(s)
  {
    if s == [] then 0 else TextNat(s[..|s| - 1]) * 10 + DigitValue(s[|s| - 1])
  }

  function Pow10(n: nat): nat {
    if n == 0 then 1 else 10 * Pow10(n - 1)
  }

  /** s.rjust(width, "0") */
  function ZeroPad(s: string, width: nat): string {
    if |s| >= width then s else seq(width - |s|, i => '0') + s
  }

  /** Reading back a printed number gives the number; there is no leading zero. */
  lemma {:induction false} NatTextReads(n: nat)
    ensures NatText(n) != [] && AllDigits(NatText(n))
    ensures TextNat(NatText(n)) == n
    ensures NatText(n)[0] == '0' ==> n == 0
  {
    if n >= 10 {
      NatTextReads(n / 10);
      var s := NatText(n);
      assert s[..|s| - 1] == NatText(n / 10);
    }
  }

  lemma NatTextInjective(a: nat, b: nat)
    requires NatText(a) == NatText(b)
    ensures a == b
  {
    NatTextReads(a);
    NatTextReads(b);
  }

  /** Reading a concatenation shifts the left part by the length of the right part. */
  lemma {:induction false} TextNatConcat(a: string, b: string)
    requires AllDigits(a) && AllDigits(b)
    ensures AllDigits(a + b)
    ensures TextNat(a + b) == TextNat(a) * Pow10(|b|) + TextNat(b)
    decreases |b|
  {
    if b == [] {
      assert a + b == a;
    } else {
      var b' := b[..|b| - 1];
      TextNatConcat(a, b');
      assert (a + b)[..|a + b| - 1] == a + b';
      assert Pow10(|b|) == 10 * Pow10(|b'|);
      ShiftDigits(TextNat(a), Pow10(|b'|), TextNat(b'), DigitValue(b[|b| - 1]));
    }
  }

  lemma ShiftDigits(a: nat, p: nat, b: nat, d: nat)
    ensures (a * p + b) * 10 + d == a * (10 * p) + (b * 10 + d)
  {}

  lemma {:induction false} ZerosRead(n: nat)
    ensures AllDigits(seq(n, i => '0')) && TextNat(seq(n, i => '0')) == 0
  {
    var z := seq(n, i => '0');
    if n > 0 {
      ZerosRead(n - 1);
      assert z[..n - 1] == seq(n - 1, i => '0');
    }
  }

  /** A number of at most `width` digits padded to `width` still reads as itself. */
  lemma ZeroPadReads(n: nat, width: nat)
    ensures AllDigits(ZeroPad(NatText(n), width))
    ensures TextNat(ZeroPad(NatText(n), width)) == n
  {
    NatTextReads(n);
    if |NatText(n)| < width {
      ZerosRead(width - |NatText(n)|);
      TextNatConcat(seq(width - |NatText(n)|, i => '0'), NatText(n));
    }
  }

  /** Below 100, two places are enough and are always filled. */
  lemma TwoPlaces(n: nat)
    requires n < 100
    ensures |ZeroPad(NatText(n), 2)| == 2
  {}

  // ----- Digit grouping -----------------------------------------------------

  /** f"{n:,}": a comma before every full group of three digits. */
  function Grouped(s: string): string {
    if |s| <= 3 then s else Grouped(s[..|s| - 3]) + "," + s[|s| - 3..]
  }

  /** s.replace(",", "") */
  function WithoutCommas(s: string): string {
    if s == [] then []
    else if s[0] == ',' then WithoutCommas(s[1..])
    else [s[0]] + WithoutCommas(s[1..])
  }

  lemma Reassociate(a: string, b: string, c: string)
    ensures a + (b + c) == (a + b) + c
  {}

  lemma ConcatHead(a: string, b: string)
    requires a != []
    ensures a + b != [] && (a + b)[0] == a[0] && (a + b)[1..] == a[1..] + b
  {}

  lemma {:induction false} WithoutCommasConcat(a: string, b: string)
    ensures WithoutCommas(a + b) == WithoutCommas(a) + WithoutCommas(b)
  {
    if a == [] {
      assert a + b == b;
    } else {
      ConcatHead(a, b);
      WithoutCommasConcat(a[1..], b);
      Reassociate([a[0]], WithoutCommas(a[1..]), WithoutCommas(b));
    }
  }

  lemma {:induction false} WithoutCommasKeeps(s: string)
    requires ',' !in s
    ensures WithoutCommas(s) == s
  {
    if s != [] {
      WithoutCommasKeeps(s[1..]);
    }
  }

  /** Ungrouping undoes grouping. */
  lemma {:induction false} UngroupGrouped(s: string)
    requires ',' !in s
    ensures WithoutCommas(Grouped(s)) == s
  {
    WithoutCommasKeeps(s);
    if |s| > 3 {
      var front, back := s[..|s| - 3], s[|s| - 3..];
      UngroupGrouped(front);
      WithoutCommasKeeps(back);
      WithoutCommasConcat(Grouped(front) + ",", back);
      WithoutCommasConcat(Grouped(front), ",");
      assert s == front + back;
    }
  }

  lemma {:induction false} GroupedEnds(s: string)
    requires s != []
    ensures Grouped(s) != [] && Grouped(s)[0] == s[0]
    ensures Grouped(s)[|Grouped(s)| - 1] == s[|s| - 1]
  {
    if |s| > 3 {
      GroupedEnds(s[..|s| - 3]);
    }
  }

  /** Commas stand before every third digit from the end, and nowhere else. */
  lemma {:induction false} GroupedByThrees(s: string, i: nat)
    requires ',' !in s && i < |Grouped(s)|
    ensures Grouped(s)[i] == ',' <==> (|Grouped(s)| - i) % 4 == 0
  {
    if |s| > 3 {
      var front, back := Grouped(s[..|s| - 3]), s[|s| - 3..];
      assert ',' !in back && |Grouped(s)| == |front| + 4;
      if i < |front| {
        GroupedByThrees(s[..|s| - 3], i);
        assert Grouped(s)[i] == front[i];
        FourMore(|front| - i);
      } else if i > |front| {
        assert Grouped(s)[i] == back[i - |front| - 1];
      }
    }
  }

  lemma FourMore(n: int)
    ensures (n + 4) % 4 == n % 4
  {}
}
