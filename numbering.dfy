/** Sequential document numbers `<PREFIX><YY><MM><NNNN>` (invoice numbers
    start with "INV", purchase numbers with "PO"). The number is derived from
    the current date and from the most recently created document whose number
    starts with the same prefix and period: its last four characters are read
    back with `parseInt` and incremented, or the sequence starts at 1.

    The JavaScript string operations are modelled as written: `slice(-2)` of
    the year, `padStart(2, '0')` of the month, `padStart(4, '0')` of the
    sequence (which never truncates) and `parseInt` of `slice(-4)` (which
    therefore reads only the last four digits of a five-digit sequence). */
module Numbering {
  import opened Common

  predicate IsDigit(c: char)
  {
    '0' <= c <= '9'
  }

  function DigitChar(d: nat): (c: char)
    requires d < 10
    ensures IsDigit(c)
  {
    ('0' as int + d) as char
  }

  function DigitValue(c: char): (d: nat)
    requires IsDigit(c)
    ensures d < 10
  {
    c as int - '0' as int
  }

  function Pow10(k: nat): (p: nat)
    ensures p >= 1
  {
    if k == 0 then 1 else 10 * Pow10(k - 1)
  }

  function Repeat(c: char, k: nat): (r: string)
    ensures |r| == k
  {
    seq(k, _ => c)
  }

  /** `String(n)`: the decimal text of a non-negative integer. */
  function Decimal(n: nat): (r: string)
    ensures |r| >= 1
    decreases n
  {
    if n < 10 then [DigitChar(n)] else Decimal(n / 10) + [DigitChar(n % 10)]
  }

  /** `s.padStart(width, c)`: left-pads, never truncates. */
  function PadStart(s: string, width: nat, c: char): (r: string)
    ensures |r| == if |s| >= width then |s| else width
  {
    if |s| >= width then s else Repeat(c, width - |s|) + s
  }

  /** `s.slice(-k)` for k >= 1: the last k characters, or all of s. */
  function SliceLast(s: string, k: nat): (r: string)
    ensures |r| == if |s| <= k then |s| else k
  {
    if |s| <= k then s else seq(k, j requires 0 <= j < k => s[|s| - k + j])
  }

  /** Length of the leading run of decimal digits. */
  function LeadingDigits(s: string): (n: nat)
    ensures n <= |s|
    ensures forall j :: 0 <= j < n ==> IsDigit(s[j])
    ensures n < |s| ==> !IsDigit(s[n])
  {
    DigitsFrom(s, 0)
  }

  /** End of the run of decimal digits that starts at index i. */
  function DigitsFrom(s: string, i: nat): (n: nat)
    requires i <= |s|
    ensures i <= n <= |s|
    ensures forall j :: i <= j < n ==> IsDigit(s[j])
    ensures n < |s| ==> !IsDigit(s[n])
    decreases |s| - i
  {
    if i == |s| || !IsDigit(s[i]) then i else DigitsFrom(s, i + 1)
  }

  function DigitsValue(s: string): nat
    requires forall j :: 0 <= j < |s| ==> IsDigit(s[j])
  {
    if s == [] then 0 else DigitsValue(s[..|s| - 1]) * 10 + DigitValue(s[|s| - 1])
  }

  /** `parseInt(s)` on text without leading blanks or sign: the value of the
      leading run of digits, or None for NaN when there is none. */
  function ParseInt(s: string): Option<nat>
  {
    var k := LeadingDigits(s);
    if k == 0 then None else Some(DigitsValue(s[..k]))
  }

  predicate StartsWith(s: string, prefix: string)
  {
    |prefix| <= |s| && s[..|prefix|] == prefix
  }

  /** The `YY` + `MM` part of a number issued on `now`. */
  function Period(now: Date): string
  {
    SliceLast(Decimal(now.year), 2) + PadStart(Decimal(now.month), 2, '0')
  }

  /** `String(sequence).padStart(4, '0')`; NaN prints as "NaN". */
  function SequenceText(sequence: Option<nat>): string
  {
    match sequence
    case Some(n) => PadStart(Decimal(n), 4, '0')
    case None => PadStart("NaN", 4, '0')
  }

  /** `parseInt(number.slice(-4))`. */
  function SequenceOf(number: string): Option<nat>
  {
    ParseInt(SliceLast(number, 4))
  }

  /** The most recently created number matching `^prefix`, scanning the
      numbers in creation order from the newest. */
  function LastWithPrefix(issued: seq<string>, prefix: string): (r: Option<string>)
    ensures r.Some? ==> r.value in issued && StartsWith(r.value, prefix)
    ensures r.None? <==> forall k :: 0 <= k < |issued| ==> !StartsWith(issued[k], prefix)
  {
    if issued == [] then None
    else if StartsWith(issued[|issued| - 1], prefix) then Some(issued[|issued| - 1])
    else LastWithPrefix(issued[..|issued| - 1], prefix)
  }

  /** The number found is the newest match: it sits at index k and no
      number issued after it starts with the prefix. */
  lemma {:induction false} LastWithPrefixNewest(issued: seq<string>, prefix: string) returns (k: nat)
    requires LastWithPrefix(issued, prefix).Some?
    ensures k < |issued| && issued[k] == LastWithPrefix(issued, prefix).value
    ensures forall m :: k < m < |issued| ==> !StartsWith(issued[m], prefix)
  {
    var last := |issued| - 1;
    if StartsWith(issued[last], prefix) {
      k := last;
    } else {
      var init := issued[..last];
      assert LastWithPrefix(issued, prefix) == LastWithPrefix(init, prefix);
      k := LastWithPrefixNewest(init, prefix);
      assert forall m :: k < m < last ==> issued[m] == init[m];
    }
  }

  /** 1 when the period has no number yet, else the last one's sequence + 1
      (NaN stays NaN). */
  function NextSequence(last: Option<string>): Option<nat>
  {
    match last
    case None => Some(1)
    case Some(number) =>
      match SequenceOf(number)
      case Some(n) => Some(n + 1)
      case None => None
  }

  /** The number issued with a given prefix and period and sequence. */
  function Issue(prefix: string, sequence: Option<nat>): string
  {
    prefix + SequenceText(sequence)
  }

  /** `generateInvoiceNumber` / `generatePurchaseNumber`. */
  function NextNumber(docPrefix: string, now: Date, issued: seq<string>): string
  {
    NumberIn(docPrefix + Period(now), issued)
  }

  /** The next number under a full prefix (document prefix and period),
      given the numbers issued so far. */
  function NumberIn(prefix: string, issued: seq<string>): string
  {
    Issue(prefix, NextSequence(LastWithPrefix(issued, prefix)))
  }

  // ---------------------------------------------------------------------
  // Fixed-width digit strings and their properties

  /** The k-digit text of n modulo 10^k. */
  function FixedDigits(n: nat, k: nat): (r: string)
    ensures |r| == k
    ensures forall j :: 0 <= j < k ==> IsDigit(r[j])
  {
    if k == 0 then [] else FixedDigits(n / 10, k - 1) + [DigitChar(n % 10)]
  }

  lemma DivModUnique(n: int, d: int, a: int, m: int)
    requires d > 0 && n == d * a + m && 0 <= m < d
    ensures n / d == a && n % d == m
  {
    var q, r := n / d, n % d;
    assert d * q + r == n;
    assert d * (q - a) == m - r;
    if q - a >= 1 {
      MulAtLeast(d, q - a);
    } else if a - q >= 1 {
      MulAtLeast(d, a - q);
    }
  }

  lemma MulAtLeast(d: int, x: int)
    requires d > 0 && x >= 1
    ensures d * x >= d
  {
  }

  lemma ModStep(n: nat, p: nat)
    requires p >= 1
    ensures (n / 10 % p) * 10 + n % 10 == n % (10 * p)
  {
    var q, r := n / 10, n % 10;
    var a, b := q / p, q % p;
    assert q == p * a + b;
    assert n == 10 * q + r;
    assert n == (10 * p) * a + (10 * b + r);
    DivModUnique(n, 10 * p, a, 10 * b + r);
  }

  lemma {:induction false} FixedValue(n: nat, k: nat)
    ensures DigitsValue(FixedDigits(n, k)) == n % Pow10(k)
  {
    if k > 0 {
      var a := FixedDigits(n / 10, k - 1);
      assert (a + [DigitChar(n % 10)])[..k - 1] == a;
      FixedValue(n / 10, k - 1);
      ModStep(n, Pow10(k - 1));
    }
  }

  lemma {:induction false} FixedOfZero(k: nat)
    ensures FixedDigits(0, k) == Repeat('0', k)
  {
    if k > 0 {
      FixedOfZero(k - 1);
    }
  }

  /** Widening a fixed-width text of a small number adds leading zeros. */
  lemma {:induction false} FixedWiden(n: nat, l: nat, k: nat)
    requires n < Pow10(l) && l <= k
    ensures FixedDigits(n, k) == Repeat('0', k - l) + FixedDigits(n, l)
  {
    if l == 0 {
      FixedOfZero(k);
    } else {
      assert n / 10 < Pow10(l - 1);
      FixedWiden(n / 10, l - 1, k - 1);
      assert Repeat('0', k - l) + FixedDigits(n / 10, l - 1) + [DigitChar(n % 10)]
          == Repeat('0', k - l) + (FixedDigits(n / 10, l - 1) + [DigitChar(n % 10)]);
    }
  }

  /** The last k characters of `String(n)` are the k-digit text of n. */
  lemma {:induction false} DecimalSuffix(n: nat, k: nat)
    requires k <= |Decimal(n)|
    ensures Decimal(n)[|Decimal(n)| - k..] == FixedDigits(n, k)
    decreases n
  {
    if k == 0 {
    } else if n < 10 {
      assert FixedDigits(n, 1) == FixedDigits(0, 0) + [DigitChar(n)];
    } else {
      var a, c := Decimal(n / 10), DigitChar(n % 10);
      assert Decimal(n) == a + [c];
      DecimalSuffix(n / 10, k - 1);
      assert (a + [c])[|a| + 1 - k..] == a[|a| - (k - 1)..] + [c];
    }
  }

  lemma {:induction false} DecimalBound(n: nat)
    ensures n < Pow10(|Decimal(n)|)
    decreases n
  {
    if n >= 10 {
      DecimalBound(n / 10);
      assert Decimal(n) == Decimal(n / 10) + [DigitChar(n % 10)];
    }
  }

  /** `String(n).padStart(k, '0')` is the k-digit text of n when n has at
      most k digits. */
  lemma PadDecimal(n: nat, k: nat)
    requires |Decimal(n)| <= k
    ensures PadStart(Decimal(n), k, '0') == FixedDigits(n, k)
  {
    var l := |Decimal(n)|;
    DecimalSuffix(n, l);
    DecimalBound(n);
    FixedWiden(n, l, k);
  }

  lemma {:induction false} AllDigitsFrom(s: string, i: nat)
    requires i <= |s|
    requires forall j :: i <= j < |s| ==> IsDigit(s[j])
    ensures DigitsFrom(s, i) == |s|
    decreases |s| - i
  {
    if i < |s| {
      AllDigitsFrom(s, i + 1);
    }
  }

  /** The last four characters of a sequence text are the sequence modulo
      10000, as four digits. */
  lemma SequenceSuffix(n: nat)
    ensures SliceLast(SequenceText(Some(n)), 4) == FixedDigits(n, 4)
  {
    var d := Decimal(n);
    if |d| <= 4 {
      PadDecimal(n, 4);
    } else {
      DecimalSuffix(n, 4);
    }
  }

  lemma ParseFixed(n: nat)
    ensures ParseInt(FixedDigits(n, 4)) == Some(n % 10000)
  {
    var f := FixedDigits(n, 4);
    AllDigitsFrom(f, 0);
    assert f[..4] == f;
    FixedValue(n, 4);
    assert Pow10(4) == 10000;
  }

  lemma SliceLastAppend(prefix: string, t: string)
    requires |t| >= 4
    ensures SliceLast(prefix + t, 4) == SliceLast(t, 4)
  {
    assert (prefix + t)[|prefix + t| - 4..] == t[|t| - 4..];
  }

  // ---------------------------------------------------------------------
  // Properties of the numbering scheme

  /** Reading the sequence back from a number gives the sequence modulo
      10000: exact for 1..9999, wrapped from 10000 on. */
  lemma SequenceRoundTrip(prefix: string, n: nat)
    ensures SequenceOf(prefix + SequenceText(Some(n))) == Some(n % 10000)
    ensures 1 <= n <= 9999 ==> SequenceOf(prefix + SequenceText(Some(n))) == Some(n)
  {
    SliceLastAppend(prefix, SequenceText(Some(n)));
    SequenceSuffix(n);
    ParseFixed(n);
    if 1 <= n <= 9999 {
      DivModUnique(n, 10000, 0, n);
    }
  }

  /** The period is the two last digits of the year and the zero-padded
      month. */
  lemma PeriodDigits(now: Date)
    ensures Period(now) == FixedDigits(now.year, 2) + FixedDigits(now.month, 2)
    ensures |Period(now)| == 4
  {
    assert Decimal(now.year) == Decimal(now.year / 10) + [DigitChar(now.year % 10)];
    DecimalSuffix(now.year, 2);
    assert |Decimal(now.month)| <= 2 by {
      if now.month >= 10 {
        assert Decimal(now.month) == Decimal(now.month / 10) + [DigitChar(now.month % 10)];
      }
    }
    PadDecimal(now.month, 2);
  }

  /** A number whose sequence is below 10000 is the prefix, the four-digit
      period and the four-digit sequence. */
  lemma NumberFormat(docPrefix: string, now: Date, issued: seq<string>, n: nat)
    requires NextSequence(LastWithPrefix(issued, docPrefix + Period(now))) == Some(n)
    requires n <= 9999
    ensures NextNumber(docPrefix, now, issued)
         == docPrefix + FixedDigits(now.year, 2) + FixedDigits(now.month, 2) + FixedDigits(n, 4)
    ensures |NextNumber(docPrefix, now, issued)| == |docPrefix| + 8
  {
    PeriodDigits(now);
    DecimalBound(n);
    assert |Decimal(n)| <= 4 by {
      if |Decimal(n)| > 4 {
        PowMonotone(5, |Decimal(n)|);
        DecimalAtLeast(n);
      }
    }
    PadDecimal(n, 4);
  }

  lemma {:induction false} PowMonotone(a: nat, b: nat)
    requires a <= b
    ensures Pow10(a) <= Pow10(b)
    decreases b
  {
    if a < b {
      PowMonotone(a, b - 1);
    }
  }

  /** A number with l digits is at least 10^(l-1). */
  lemma {:induction false} DecimalAtLeast(n: nat)
    ensures n >= Pow10(|Decimal(n)| - 1) || n == 0
    decreases n
  {
    if n >= 10 {
      DecimalAtLeast(n / 10);
      assert Decimal(n) == Decimal(n / 10) + [DigitChar(n % 10)];
    }
  }

  /** The first number of a period has sequence 1. */
  lemma FirstOfPeriod(prefix: string, issued: seq<string>)
    requires forall k :: 0 <= k < |issued| ==> !StartsWith(issued[k], prefix)
    ensures NumberIn(prefix, issued) == prefix + "0001"
  {
    FirstSequenceText();
  }

  /** Sequence 1 prints as "0001". */
  lemma FirstSequenceText()
    ensures SequenceText(Some(1)) == "0001"
  {
    assert Decimal(1) == "1";
  }

  /** The sequence a number was issued with, as read back by the next call:
      modulo 10000, and 0 for the "0NaN" text of a NaN sequence. */
  function Issued(sequence: Option<nat>): nat
  {
    match sequence
    case Some(n) => n % 10000
    case None => 0
  }

  lemma LastAfterIssue(issued: seq<string>, prefix: string, number: string)
    requires StartsWith(number, prefix)
    ensures LastWithPrefix(issued + [number], prefix) == Some(number)
  {
    assert (issued + [number])[..|issued|] == issued;
  }

  /** Whatever sequence a number was issued with, the next call reads back
      its value modulo 10000, or 0 from the text "0NaN". */
  lemma ReadBack(prefix: string, current: Option<nat>)
    ensures StartsWith(Issue(prefix, current), prefix)
    ensures SequenceOf(Issue(prefix, current)) == Some(Issued(current))
  {
    PrefixStarts(prefix, current);
    var text := SequenceText(current);
    SliceLastAppend(prefix, text);
    match current {
      case Some(n) =>
        SequenceSuffix(n);
        ParseFixed(n);
      case None =>
        assert text == "0NaN";
        assert IsDigit(text[0]) && !IsDigit(text[1]);
        assert DigitsFrom(text, 1) == 1;
        assert LeadingDigits(text) == 1;
        assert text[..1] == "0";
        assert DigitsValue(text[..1]) == DigitsValue([]) * 10 + DigitValue('0');
    }
  }

  /** Issuing a number and then asking for the next one in the same period
      gives the issued sequence plus one. */
  lemma NextAfterIssue(prefix: string, issued: seq<string>)
    ensures NextSequence(LastWithPrefix(issued + [NumberIn(prefix, issued)], prefix))
         == Some(Issued(NextSequence(LastWithPrefix(issued, prefix))) + 1)
  {
    var current := NextSequence(LastWithPrefix(issued, prefix));
    ReadBack(prefix, current);
    NextOfRead(issued, prefix, Issue(prefix, current), Issued(current));
  }

  lemma PrefixStarts(prefix: string, current: Option<nat>)
    ensures StartsWith(Issue(prefix, current), prefix)
  {
    assert (prefix + SequenceText(current))[..|prefix|] == prefix;
  }

  /** The next call after `number` was stored reads `number` back. */
  lemma NextOfRead(issued: seq<string>, prefix: string, number: string, n: nat)
    requires StartsWith(number, prefix) && SequenceOf(number) == Some(n)
    ensures NextSequence(LastWithPrefix(issued + [number], prefix)) == Some(n + 1)
  {
    LastAfterIssue(issued, prefix, number);
  }

  /** Under serialised creation, numbers within a period are consecutive:
      sequence n is followed by sequence n + 1 while n < 10000. */
  lemma Consecutive(prefix: string, issued: seq<string>, n: nat)
    requires NextSequence(LastWithPrefix(issued, prefix)) == Some(n)
    requires n < 10000
    ensures NextSequence(LastWithPrefix(issued + [NumberIn(prefix, issued)], prefix)) == Some(n + 1)
  {
    NextAfterIssue(prefix, issued);
    DivModUnique(n, 10000, 0, n);
  }

  /** Past 9999 the sequence text grows to five digits, only its last four
      are read back, and the number after sequence 10000 repeats the
      period's first number. */
  lemma WrapsAfter9999(prefix: string, issued: seq<string>)
    requires NextSequence(LastWithPrefix(issued, prefix)) == Some(10000)
    ensures NumberIn(prefix, issued + [NumberIn(prefix, issued)]) == prefix + "0001"
  {
    NextAfterIssue(prefix, issued);
    FirstSequenceText();
  }
}
