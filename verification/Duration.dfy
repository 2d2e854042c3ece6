/** Decimal text: `strconv.Itoa`, `strconv.Atoi` and zero padding. */
module Decimal {
  import opened Wrappers

  const MAX_INT64 := 0x7fff_ffff_ffff_ffff

  predicate IsInt64(n: int) {
    -MAX_INT64 - 1 <= n <= MAX_INT64
  }

  predicate IsDigit(c: char) {
    '0' <= c <= '9'
  }

  predicate AllDigits(s: string) {
    forall i :: 0 <= i < |s| ==> IsDigit(s[i])
  }

  function Digit(n: nat): (c: char)
    requires n < 10
    ensures IsDigit(c) && (c as int) - ('0' as int) == n
  {
    '0' + (n as char)
  }

  /** Digits, most significant first. */
  function Digits(n: nat): (s: string)
    ensures s != "" && AllDigits(s)
  {
    if n < 10 then [Digit(n)] else Digits(n / 10) + [Digit(n % 10)]
  }

  function Value(s: string): nat
    requires AllDigits(s)
  {
    if s == "" then 0 else Value(s[..|s| - 1]) * 10 + ((s[|s| - 1] as int) - ('0' as int))
  }

  lemma {:induction false} ValueOfDigits(n: nat)
    ensures Value(Digits(n)) == n
  {
    if n >= 10 {
      ValueOfDigits(n / 10);
      assert Digits(n)[..|Digits(n)| - 1] == Digits(n / 10);
    }
  }

  lemma {:induction false} LeadingZero(s: string)
    requires AllDigits(s)
    ensures AllDigits("0" + s) && Value("0" + s) == Value(s)
  {
    if s == "" {
      assert ("0" + s)[..0] == "";
    } else {
      var front := s[..|s| - 1];
      LeadingZero(front);
      assert ("0" + s)[..|s|] == "0" + front;
    }
  }

  /** `strconv.Itoa`. */
  function Itoa(n: int): string {
    if n < 0 then "-" + Digits(-n) else Digits(n)
  }

  /** `strconv.Atoi` on a 64-bit platform. */
  function Atoi(s: string): Option<int> {
    var signed := s != "" && (s[0] == '-' || s[0] == '+');
    var digits := if signed then s[1..] else s;
    if digits == "" || !AllDigits(digits) then None
    else
      var v: int := Value(digits);
      var v := if signed && s[0] == '-' then -v else v;
      if IsInt64(v) then Some(v) else None
  }

  lemma AtoiItoa(n: int)
    requires IsInt64(n)
    ensures Atoi(Itoa(n)) == Some(n)
  {
    ValueOfDigits(if n < 0 then -n else n);
    if n < 0 { AtoiSigned(Digits(-n)); } else { AtoiUnsigned(Digits(n)); }
  }

  lemma AtoiUnsigned(p: string)
    requires p != "" && AllDigits(p) && IsInt64(Value(p))
    ensures Atoi(p) == Some(Value(p))
  {
    assert IsDigit(p[0]);
  }

  lemma AtoiSigned(p: string)
    requires p != "" && AllDigits(p) && IsInt64(-(Value(p) as int))
    ensures Atoi("-" + p) == Some(-(Value(p) as int))
  {
    assert ("-" + p)[1..] == p;
  }

  /** Different numbers have different texts, whatever their size. */
  lemma DigitsInjective(m: nat, n: nat)
    requires Digits(m) == Digits(n)
    ensures m == n
  {
    ValueOfDigits(m);
    ValueOfDigits(n);
  }

  lemma {:induction false} DigitsLength(n: nat)
    ensures n < 10 ==> |Digits(n)| == 1
    ensures 10 <= n < 100 ==> |Digits(n)| == 2
    ensures 100 <= n < 1000 ==> |Digits(n)| == 3
  {
    if 10 <= n < 1000 { DigitsLength(n / 10); }
  }

  /** Zeros in front, up to a width. */
  function Padded(s: string, width: nat): (p: string)
    decreases width - |s|
  {
    if |s| < width then Padded("0" + s, width) else s
  }

  lemma {:induction false} PaddedValue(s: string, width: nat)
    requires AllDigits(s)
    ensures AllDigits(Padded(s, width)) && Value(Padded(s, width)) == Value(s)
    ensures |Padded(s, width)| == if |s| < width then width else |s|
    decreases width - |s|
  {
    if |s| < width {
      LeadingZero(s);
      PaddedValue("0" + s, width);
    }
  }

  /** The verb `%0<width>d`: the sign counts towards the width. */
  function Format(n: int, width: nat): string {
    if n < 0 then "-" + Padded(Digits(-n), if width > 0 then width - 1 else 0) else Padded(Digits(n), width)
  }

  /** The formatted text is a sign, if negative, and digits of the value. */
  lemma FormatParts(n: int, width: nat) returns (p: string)
    ensures p != "" && AllDigits(p) && Value(p) == (if n < 0 then -n else n)
    ensures Format(n, width) == (if n < 0 then "-" + p else p) && |Format(n, width)| >= width
  {
    var m := if n < 0 then -n else n;
    var w := if n < 0 then (if width > 0 then width - 1 else 0) else width;
    ValueOfDigits(m);
    PaddedValue(Digits(m), w);
    p := Padded(Digits(m), w);
  }

  lemma AtoiFormat(n: int, width: nat)
    requires IsInt64(n)
    ensures Atoi(Format(n, width)) == Some(n) && |Format(n, width)| >= width
    ensures forall i :: 0 <= i < |Format(n, width)| ==> IsDigit(Format(n, width)[i]) || Format(n, width)[i] == '-'
  {
    var p := FormatParts(n, width);
    if n < 0 { AtoiSigned(p); } else { AtoiUnsigned(p); }
  }
}

/** The text form of a duration: `[days.]hh:mm:ss[.mmm0000]` between quotes. */
module Durations {
  import opened Wrappers
  import opened Decimal
  import opened Arithmetic

  const MILLISECOND := 1_000_000
  const SECOND := 1_000 * MILLISECOND
  const MINUTE := 60 * SECOND
  const HOUR := 60 * MINUTE
  const DAY := 24 * HOUR

  /** Go's division truncates toward zero. */
  function Quotient(a: int, b: int): int
    requires b > 0
  {
    if a < 0 then -((-a) / b) else a / b
  }

  function Remainder(a: int, b: int): int
    requires b > 0
  {
    a - Quotient(a, b) * b
  }

  /** Two's complement wrap-around to 64 bits. */
  function Wrap64(n: int): int {
    (n + MAX_INT64 + 1) % (2 * (MAX_INT64 + 1)) - (MAX_INT64 + 1)
  }

  datatype Parts = Parts(days: int, hours: int, minutes: int, seconds: int, millis: int)

  function Nanoseconds(p: Parts): int {
    p.days * DAY + p.hours * HOUR + p.minutes * MINUTE + p.seconds * SECOND + p.millis * MILLISECOND
  }

  function PartsOf(d: int): Parts {
    var r1 := Remainder(d, DAY);
    var r2 := Remainder(r1, HOUR);
    var r3 := Remainder(r2, MINUTE);
    Parts(Quotient(d, DAY), Quotient(r1, HOUR), Quotient(r2, MINUTE), Quotient(r3, SECOND), Quotient(Remainder(r3, SECOND), MILLISECOND))
  }

  /** The parts that are written: days and milliseconds only when positive. */
  function Written(p: Parts): Parts {
    p.(days := if p.days > 0 then p.days else 0, millis := if p.millis > 0 then p.millis else 0)
  }

  function FirstText(p: Parts): string {
    (if p.days > 0 then Itoa(p.days) + "." else "") + Format(p.hours, 2)
  }

  function ThirdText(p: Parts): string {
    Format(p.seconds, 2) + (if p.millis > 0 then "." + Format(p.millis, 3) + "0000" else "")
  }

  function Body(p: Parts): string {
    FirstText(p) + ":" + (Format(p.minutes, 2) + ":" + ThirdText(p))
  }

  function Text(p: Parts): string {
    "\"" + Body(p) + "\""
  }

  /** `strings.Split` on one character. */
  function Split(s: string, sep: char): (parts: seq<string>)
    ensures |parts| >= 1
  {
    if s == "" then [""]
    else
      var rest := Split(s[1..], sep);
      if s[0] == sep then [""] + rest else [[s[0]] + rest[0]] + rest[1..]
  }

  /** ".1" is really ".100", and only three digits count. */
  function ThreeDigits(s: string): string {
    if |s| > 3 then s[..3] else RightPadded(s)
  }

  function RightPadded(s: string): string
    decreases 3 - |s|
  {
    if |s| < 3 then RightPadded(s + "0") else s
  }

  function ParseFirst(s: string): Option<(int, int)> {
    var parts := Split(s, '.');
    if |parts| > 2 then None
    else
      var days := if |parts| == 2 then Atoi(parts[0]) else Some(0);
      var hours := Atoi(parts[|parts| - 1]);
      if days.None? || hours.None? then None else Some((days.value, hours.value))
  }

  function ParseThird(s: string): Option<(int, int)> {
    var parts := Split(s, '.');
    if |parts| > 2 then None
    else
      var millis := if |parts| == 2 then Atoi(ThreeDigits(parts[1])) else Some(0);
      var seconds := Atoi(parts[0]);
      if millis.None? || seconds.None? then None else Some((seconds.value, millis.value))
  }

  function Parse(s: string): Option<Parts> {
    if |s| < 10 || s[0] != '"' || s[|s| - 1] != '"' then None
    else
      var parts := Split(s[1..|s| - 1], ':');
      if |parts| != 3 then None
      else
        var first, minutes, third := ParseFirst(parts[0]), Atoi(parts[1]), ParseThird(parts[2]);
        if first.None? || minutes.None? || third.None? then None
        else Some(Parts(first.value.0, first.value.1, minutes.value, third.value.0, third.value.1))
  }

  // ---- the code -------------------------------------------------------------------

  /** `Duration.MarshalJSON`: the steps on the shrinking remainder. */
  method MarshalJSON(d: int) returns (s: string)
    requires IsInt64(d)
    ensures s == Text(PartsOf(d))
  {
    var dur := d;
    var days := Quotient(dur, DAY);
    dur := dur - days * DAY;
    var hours := Quotient(dur, HOUR);
    dur := dur - hours * HOUR;
    var minutes := Quotient(dur, MINUTE);
    dur := dur - minutes * MINUTE;
    var seconds := Quotient(dur, SECOND);
    dur := dur - seconds * SECOND;
    var millis := Quotient(dur, MILLISECOND);
    s := WriteParts(days, hours, minutes, seconds, millis);
    assert PartsOf(d) == Parts(days, hours, minutes, seconds, millis);
  }

  method WriteParts(days: int, hours: int, minutes: int, seconds: int, millis: int) returns (s: string)
    ensures s == Text(Parts(days, hours, minutes, seconds, millis))
  {
    s := "";
    if days > 0 { s := Itoa(days) + "."; }
    s := s + (Format(hours, 2) + ":" + Format(minutes, 2) + ":" + Format(seconds, 2));
    ghost var before := s;
    if millis > 0 { s := s + ("." + Format(millis, 3) + "0000"); }
    s := "\"" + s + "\"";
    Reassociate(if days > 0 then Itoa(days) + "." else "", Format(hours, 2), Format(minutes, 2), Format(seconds, 2),
                if millis > 0 then "." + Format(millis, 3) + "0000" else "");
    assert millis <= 0 ==> before + "" == before;
  }

  lemma Reassociate(d: string, h: string, m: string, s: string, t: string)
    ensures d + (h + ":" + m + ":" + s) + t == (d + h) + ":" + (m + ":" + (s + t))
  {
  }

  /** `Duration.UnmarshalJSON`. */
  method UnmarshalJSON(s: string) returns (r: Option<int>)
    ensures r == Unmarshal(s)
  {
    if |s| < 8 + 2 || s[0] != '"' || s[|s| - 1] != '"' { return None; }
    var parts := Split(s[1..|s| - 1], ':');
    if |parts| != 3 { return None; }
    var first := ReadFirst(parts[0]);
    if first.None? { return None; }
    var minutes := Atoi(parts[1]);
    if minutes.None? { return None; }
    var third := ReadThird(parts[2]);
    if third.None? { return None; }
    var dur := Total(Parts(first.value.0, first.value.1, minutes.value, third.value.0, third.value.1));
    r := Some(dur);
  }

  /** `${hour}` or `${day}.${hour}`. */
  method ReadFirst(text: string) returns (r: Option<(int, int)>)
    ensures r == ParseFirst(text)
  {
    var days, hoursText := 0, text;
    var parts := Split(text, '.');
    if |parts| > 2 { return None; }
    if |parts| == 2 {
      var n := Atoi(parts[0]);
      if n.None? { return None; }
      days, hoursText := n.value, parts[1];
    }
    SplitOne(text, '.');
    var hours := Atoi(hoursText);
    if hours.None? { return None; }
    r := Some((days, hours.value));
  }

  /** `${second}` or `${second}.${fraction}`. */
  method ReadThird(text: string) returns (r: Option<(int, int)>)
    ensures r == ParseThird(text)
  {
    var secondsText, millis := text, 0;
    var parts := Split(text, '.');
    if |parts| > 2 { return None; }
    if |parts| == 2 {
      secondsText := parts[0];
      var fraction := PadMillis(parts[1]);
      var n := Atoi(fraction);
      if n.None? { return None; }
      millis := n.value;
    }
    SplitOne(text, '.');
    var seconds := Atoi(secondsText);
    if seconds.None? { return None; }
    r := Some((seconds.value, millis));
  }

  /** The five products and sums, each of which wraps. */
  method Total(p: Parts) returns (dur: int)
    ensures dur == Wrap64(Nanoseconds(p))
  {
    dur := Wrap64(p.days * DAY);
    dur := AddWrapped(dur, p.hours * HOUR, p.days * DAY);
    dur := AddWrapped(dur, p.minutes * MINUTE, p.days * DAY + p.hours * HOUR);
    dur := AddWrapped(dur, p.seconds * SECOND, p.days * DAY + p.hours * HOUR + p.minutes * MINUTE);
    dur := AddWrapped(dur, p.millis * MILLISECOND, p.days * DAY + p.hours * HOUR + p.minutes * MINUTE + p.seconds * SECOND);
  }

  /** `dur += x` in 64 bits; `total` is what was added so far. */
  method AddWrapped(dur: int, x: int, ghost total: int) returns (r: int)
    requires dur == Wrap64(total)
    ensures r == Wrap64(total + x)
  {
    WrapSum(total, x);
    r := Wrap64(dur + Wrap64(x));
  }

  method PadMillis(s: string) returns (t: string)
    ensures t == ThreeDigits(s)
  {
    t := s;
    if |t| > 3 { t := t[..3]; }
    while |t| < 3
      invariant RightPadded(t) == ThreeDigits(s)
      decreases 3 - |t|
    {
      t := t + "0";
    }
  }

  /** What `UnmarshalJSON` computes: additions wrap, which the sum wraps once. */
  function Unmarshal(s: string): Option<int> {
    var p := Parse(s);
    if p.None? then None else Some(Wrap64(Nanoseconds(p.value)))
  }

  lemma WrapSum(a: int, b: int)
    ensures Wrap64(Wrap64(a) + Wrap64(b)) == Wrap64(a + b)
  {
  }

  // ---- splitting ------------------------------------------------------------------

  lemma {:induction false} SplitOne(s: string, sep: char)
    ensures |Split(s, sep)| == 1 ==> Split(s, sep) == [s]
    ensures sep !in s ==> Split(s, sep) == [s]
  {
    if s != "" {
      SplitOne(s[1..], sep);
      assert s == [s[0]] + s[1..];
    }
  }

  lemma {:induction false} SplitAt(a: string, sep: char, b: string)
    requires sep !in a
    ensures Split(a + [sep] + b, sep) == [a] + Split(b, sep)
  {
    if a == "" {
      assert (a + [sep] + b)[1..] == b;
    } else {
      assert (a + [sep] + b)[1..] == a[1..] + [sep] + b;
      SplitAt(a[1..], sep, b);
      assert a == [a[0]] + a[1..];
    }
  }

  lemma FormatPlain(n: int, width: nat, c: char)
    requires IsInt64(n) && !IsDigit(c) && c != '-'
    ensures c !in Format(n, width) && c !in Itoa(n)
  {
    AtoiFormat(n, width);
    var digits := Digits(if n < 0 then -n else n);
    assert forall x :: x in digits ==> IsDigit(x);
  }

  // ---- the round trip -------------------------------------------------------------

  /** Parts whose text can be read back. */
  predicate Printable(p: Parts) {
    IsInt64(p.days) && IsInt64(p.hours) && IsInt64(p.minutes) && IsInt64(p.seconds) && p.millis < 1000
  }

  lemma FirstSplits(p: Parts)
    requires Printable(p)
    ensures Split(FirstText(p), '.') == if p.days > 0 then [Itoa(p.days), Format(p.hours, 2)] else [Format(p.hours, 2)]
  {
    FormatPlain(p.hours, 2, '.');
    SplitOne(Format(p.hours, 2), '.');
    if p.days > 0 {
      FormatPlain(p.days, 0, '.');
      SplitAt(Itoa(p.days), '.', Format(p.hours, 2));
      assert FirstText(p) == Itoa(p.days) + ['.'] + Format(p.hours, 2);
    } else {
      assert FirstText(p) == Format(p.hours, 2);
    }
  }

  lemma ParseFirstText(p: Parts)
    requires Printable(p)
    ensures ParseFirst(FirstText(p)) == Some((Written(p).days, p.hours)) && ':' !in FirstText(p) && |FirstText(p)| >= 2
  {
    FirstSplits(p);
    AtoiFormat(p.hours, 2);
    FirstPlain(p);
    if p.days > 0 { AtoiItoa(p.days); }
  }

  lemma FirstPlain(p: Parts)
    requires Printable(p)
    ensures ':' !in FirstText(p) && |FirstText(p)| >= 2
  {
    AtoiFormat(p.hours, 2);
    FormatPlain(p.hours, 2, ':');
    if p.days > 0 { FormatPlain(p.days, 0, ':'); }
  }

  lemma ThirdSplits(p: Parts)
    requires Printable(p)
    ensures Split(ThirdText(p), '.') == if p.millis > 0 then [Format(p.seconds, 2), Format(p.millis, 3) + "0000"] else [Format(p.seconds, 2)]
  {
    var s := Format(p.seconds, 2);
    FormatPlain(p.seconds, 2, '.');
    SplitOne(s, '.');
    if p.millis > 0 {
      var t := Format(p.millis, 3) + "0000";
      MillisText(p.millis);
      SplitAt(s, '.', t);
      SplitOne(t, '.');
      assert "." + Format(p.millis, 3) + "0000" == "." + t;
      Associate(s, ".", t);
    } else {
      assert ThirdText(p) == s;
    }
  }

  lemma ParseThirdText(p: Parts)
    requires Printable(p)
    ensures ParseThird(ThirdText(p)) == Some((p.seconds, Written(p).millis)) && ':' !in ThirdText(p) && |ThirdText(p)| >= 2
  {
    AtoiFormat(p.seconds, 2);
    FormatPlain(p.seconds, 2, ':');
    ThirdSplits(p);
    if p.millis > 0 { MillisText(p.millis); }
  }

  lemma MillisText(n: nat)
    requires n < 1000
    ensures var t := Format(n, 3) + "0000";
            Atoi(ThreeDigits(t)) == Some(n) && '.' !in t && ':' !in t
  {
    AtoiFormat(n, 3);
    FormatPlain(n, 3, '.');
    FormatPlain(n, 3, ':');
    DigitsLength(n);
    PaddedValue(Digits(n), 3);
    assert (Format(n, 3) + "0000")[..3] == Format(n, 3);
  }

  /** Reading what was written gives the written parts. */
  lemma ParseText(p: Parts)
    requires Printable(p)
    ensures Parse(Text(p)) == Some(Written(p))
  {
    ParseFirstText(p);
    ParseThirdText(p);
    AtoiFormat(p.minutes, 2);
    FormatPlain(p.minutes, 2, ':');
    SplitThree(FirstText(p), Format(p.minutes, 2), ThirdText(p));
    BodyInside(p);
  }

  lemma BodyInside(p: Parts)
    ensures Text(p)[1..|Text(p)| - 1] == Body(p) && Text(p)[0] == '"' && Text(p)[|Text(p)| - 1] == '"'
    ensures |Text(p)| == |FirstText(p)| + |Format(p.minutes, 2)| + |ThirdText(p)| + 4
  {
  }

  lemma SplitThree(a: string, b: string, c: string)
    requires ':' !in a && ':' !in b && ':' !in c
    ensures Split(a + ":" + (b + ":" + c), ':') == [a, b, c]
  {
    SplitOne(c, ':');
    SplitAt(b, ':', c);
    SplitAt(a, ':', b + [':'] + c);
  }

  /** A duration cut to whole milliseconds, toward zero. */
  function Truncated(d: int): int {
    Quotient(d, MILLISECOND) * MILLISECOND
  }

  /** What survives the two conversions: of a negative duration neither whole days nor milliseconds do. */
  function Survives(d: int): int {
    if d >= 0 then Truncated(d) else Quotient(Remainder(d, DAY), SECOND) * SECOND
  }

  lemma NaturalQuotient(n: nat, b: nat)
    requires b > 0
    ensures 0 <= n / b <= n && 0 <= n - n / b * b < b
  {
    var q, r := n / b, n % b;
    assert n == q * b + r;
    Multiple(q, b);
    if q > 0 { Multiple(b, q); }
  }

  lemma QuotientBounds(a: int, b: int)
    requires b > 0
    ensures a >= 0 ==> 0 <= Remainder(a, b) < b && 0 <= Quotient(a, b) <= a
    ensures a < 0 ==> -b < Remainder(a, b) <= 0 && a <= Quotient(a, b) <= 0
  {
    if a >= 0 {
      NaturalQuotient(a, b);
    } else {
      NaturalQuotient(-a, b);
      assert Remainder(a, b) == -(-a - (-a) / b * b);
    }
  }

  lemma PartsSum(d: int)
    requires IsInt64(d)
    ensures Printable(PartsOf(d))
    ensures d >= 0 ==> PartsOf(d).millis >= 0 && PartsOf(d).days >= 0 && Nanoseconds(PartsOf(d)) <= d < Nanoseconds(PartsOf(d)) + MILLISECOND
    ensures d < 0 ==> PartsOf(d).millis <= 0 && PartsOf(d).days <= 0 && Nanoseconds(PartsOf(d)) - MILLISECOND < d <= Nanoseconds(PartsOf(d))
  {
    var r1 := Remainder(d, DAY);
    var r2 := Remainder(r1, HOUR);
    var r3 := Remainder(r2, MINUTE);
    var r4 := Remainder(r3, SECOND);
    QuotientBounds(d, DAY);
    QuotientBounds(r1, HOUR);
    QuotientBounds(r2, MINUTE);
    QuotientBounds(r3, SECOND);
    QuotientBounds(r4, MILLISECOND);
  }

  lemma WrapIdentity(n: int)
    requires IsInt64(n)
    ensures Wrap64(n) == n
  {
  }

  lemma TruncatedIs(d: nat, k: int)
    requires k * MILLISECOND <= d < k * MILLISECOND + MILLISECOND
    ensures Truncated(d) == k * MILLISECOND
  {
  }

  lemma PositiveSurvives(d: nat)
    requires IsInt64(d)
    ensures Nanoseconds(Written(PartsOf(d))) == Survives(d)
    ensures 0 <= Survives(d) <= d
  {
    PartsSum(d);
    var p := PartsOf(d);
    MillisOf(p);
    TruncatedIs(d, Millis(p));
    QuotientBounds(d, MILLISECOND);
  }

  function Millis(p: Parts): int {
    p.days * 86_400_000 + p.hours * 3_600_000 + p.minutes * 60_000 + p.seconds * 1_000 + p.millis
  }

  lemma MillisOf(p: Parts)
    ensures Nanoseconds(p) == Millis(p) * MILLISECOND
  {
  }

  lemma WholeSeconds(d: int)
    requires d < 0
    ensures var p := PartsOf(d); p.hours * HOUR + p.minutes * MINUTE + p.seconds * SECOND == Quotient(Remainder(d, DAY), SECOND) * SECOND
  {
    var p := PartsOf(d);
    var r1 := Remainder(d, DAY);
    var r2 := Remainder(r1, HOUR);
    var r3 := Remainder(r2, MINUTE);
    var r4 := Remainder(r3, SECOND);
    QuotientBounds(d, DAY);
    QuotientBounds(r1, HOUR);
    QuotientBounds(r2, MINUTE);
    QuotientBounds(r3, SECOND);
    SecondsOf(r1, p.hours, p.minutes, p.seconds, r4);
  }

  lemma SecondsOf(r: int, h: int, m: int, s: int, rest: int)
    requires r <= 0 && -SECOND < rest <= 0 && r == h * HOUR + m * MINUTE + s * SECOND + rest
    ensures Quotient(r, SECOND) * SECOND == h * HOUR + m * MINUTE + s * SECOND
  {
    DivisionUnique(-r, SECOND, -(h * 3_600 + m * 60 + s), -rest);
  }

  lemma NegativeSurvives(d: int)
    requires IsInt64(d) && d < 0
    ensures Nanoseconds(Written(PartsOf(d))) == Survives(d)
    ensures d <= Survives(d) <= 0
  {
    PartsSum(d);
    WholeSeconds(d);
    QuotientBounds(d, DAY);
    QuotientBounds(Remainder(d, DAY), SECOND);
  }

  /** For every 64-bit duration the two conversions succeed, and this is what they give. */
  lemma RoundTrip(d: int)
    requires IsInt64(d)
    ensures Unmarshal(Text(PartsOf(d))) == Some(Survives(d))
  {
    PartsSum(d);
    ParseText(PartsOf(d));
    if d >= 0 { PositiveSurvives(d); } else { NegativeSurvives(d); }
    WrapIdentity(Survives(d));
  }

  /** The round trip is exact to the millisecond for non-negative durations, and for those negative ones
      that are shorter than a day and have no odd milliseconds. */
  lemma RoundTripExact(d: int)
    requires IsInt64(d)
    ensures Unmarshal(Text(PartsOf(d))) == Some(Truncated(d))
            <==> d >= 0 || (d > -DAY && (-d) / MILLISECOND % 1000 == 0)
  {
    RoundTrip(d);
    SurvivesWhole(d);
  }

  lemma QuotientIs(a: int, b: int, q: int, r: int)
    requires b > 0 && a == q * b + r && if a < 0 then -b < r <= 0 else 0 <= r < b
    ensures Quotient(a, b) == q && Remainder(a, b) == r
  {
    if a < 0 { DivisionUnique(-a, b, -q, -r); } else { DivisionUnique(a, b, q, r); }
  }

  lemma SurvivesWhole(d: int)
    ensures Survives(d) == Truncated(d) <==> d >= 0 || (d > -DAY && (-d) / MILLISECOND % 1000 == 0)
  {
    if d < 0 {
      QuotientBounds(d, DAY);
      if d > -DAY {
        QuotientIs(d, DAY, 0, d);
        WholeMillis(-d);
      } else {
        QuotientBounds(Remainder(d, DAY), SECOND);
        TruncatedDays(-d);
      }
    }
  }

  /** Whole seconds are whole milliseconds whose count 1000 divides. */
  lemma WholeMillis(a: nat)
    ensures a / SECOND * SECOND == a / MILLISECOND * MILLISECOND <==> a / MILLISECOND % 1000 == 0
  {
    var k, r := a / MILLISECOND, a % MILLISECOND;
    DivisionUnique(a, SECOND, k / 1000, k % 1000 * MILLISECOND + r);
  }

  lemma TruncatedDays(a: nat)
    requires a >= DAY
    ensures a / MILLISECOND * MILLISECOND >= DAY
  {
  }

  /** Parts as the division steps leave them for a negative duration. */
  predicate NegativeParts(p: Parts) {
    p.days <= 0 && -24 < p.hours <= 0 && -60 < p.minutes <= 0 && -60 < p.seconds <= 0 && -1000 < p.millis <= 0 && IsInt64(p.days)
  }

  lemma NegativePartsOf(p: Parts)
    requires NegativeParts(p) && Nanoseconds(p) < 0
    ensures PartsOf(Nanoseconds(p)) == p
  {
    var d := Nanoseconds(p);
    var r3 := p.seconds * SECOND + p.millis * MILLISECOND;
    var r2 := p.minutes * MINUTE + r3;
    var r1 := p.hours * HOUR + r2;
    QuotientIs(d, DAY, p.days, r1);
    QuotientIs(r1, HOUR, p.hours, r2);
    QuotientIs(r2, MINUTE, p.minutes, r3);
    QuotientIs(r3, SECOND, p.seconds, p.millis * MILLISECOND);
    QuotientIs(p.millis * MILLISECOND, MILLISECOND, p.millis, 0);
  }

  /** Negative parts come back without the days and the milliseconds. */
  lemma NegativeLoses(p: Parts)
    requires NegativeParts(p)
    ensures Unmarshal(Text(p)) == Some(Nanoseconds(p.(days := 0, millis := 0)))
  {
    UnmarshalText(p);
    NegativeBounds(p);
    WrapIdentity(Nanoseconds(Written(p)));
  }

  lemma UnmarshalText(p: Parts)
    requires Printable(p)
    ensures Unmarshal(Text(p)) == Some(Wrap64(Nanoseconds(Written(p))))
  {
    ParseText(p);
  }

  lemma NegativeBounds(p: Parts)
    requires NegativeParts(p)
    ensures Written(p) == p.(days := 0, millis := 0) && -DAY < Nanoseconds(Written(p)) <= 0
  {
  }

  /** Minus 25 hours comes back as minus one hour ... */
  lemma NegativeDayLost(p: Parts)
    requires p == Parts(-1, -1, 0, 0, 0)
    ensures Nanoseconds(p) == -25 * HOUR && PartsOf(Nanoseconds(p)) == p && Unmarshal(Text(p)) == Some(-HOUR)
  {
    NegativePartsOf(p);
    NegativeLoses(p);
  }

  /** ... and minus 1.5 seconds as minus one second. */
  lemma NegativeMillisLost(p: Parts)
    requires p == Parts(0, 0, 0, -1, -500)
    ensures Nanoseconds(p) == -1500 * MILLISECOND && PartsOf(Nanoseconds(p)) == p && Unmarshal(Text(p)) == Some(-SECOND)
  {
    NegativePartsOf(p);
    NegativeLoses(p);
  }

  // ---- the text, character by character --------------------------------------------

  function TwoDigits(n: nat): string
    requires n < 100
  {
    [Digit(n / 10), Digit(n % 10)]
  }

  function MilliDigits(n: nat): string
    requires n < 1000
  {
    [Digit(n / 100), Digit(n / 10 % 10), Digit(n % 10)]
  }

  lemma DigitsOne(n: nat)
    requires n < 10
    ensures Digits(n) == [Digit(n)]
  {
  }

  lemma DigitsTwo(n: nat)
    requires 10 <= n < 100
    ensures Digits(n) == TwoDigits(n)
  {
    DigitsOne(n / 10);
  }

  lemma DigitsThree(n: nat)
    requires 100 <= n < 1000
    ensures Digits(n) == MilliDigits(n)
  {
    DigitsTwo(n / 10);
  }

  lemma FormatTwo(n: nat)
    requires n < 100
    ensures Format(n, 2) == TwoDigits(n)
  {
    if n < 10 {
      DigitsOne(n);
      assert Padded(Digits(n), 2) == Padded("0" + Digits(n), 2) == "0" + Digits(n);
    } else {
      DigitsTwo(n);
    }
  }

  lemma FormatThree(n: nat)
    requires n < 1000
    ensures Format(n, 3) == MilliDigits(n)
  {
    if n < 10 {
      DigitsOne(n);
      assert Padded(Digits(n), 3) == Padded("0" + Digits(n), 3) == Padded("0" + ("0" + Digits(n)), 3) == "0" + ("0" + Digits(n));
    } else if n < 100 {
      DigitsTwo(n);
      assert Padded(Digits(n), 3) == Padded("0" + Digits(n), 3) == "0" + Digits(n);
    } else {
      DigitsThree(n);
    }
  }

  /** The text of a duration that is not negative: days and a dot if there are any, two digits each for hours, minutes and
      seconds, and seven digits of a fraction if there are milliseconds. */
  lemma TextExactly(p: Parts)
    requires 0 <= p.days && 0 <= p.hours < 24 && 0 <= p.minutes < 60 && 0 <= p.seconds < 60 && 0 <= p.millis < 1000
    ensures Text(p) == "\"" + ((if p.days > 0 then Itoa(p.days) + "." else "") + TwoDigits(p.hours))
                       + ":" + (TwoDigits(p.minutes) + ":" + (TwoDigits(p.seconds) + (if p.millis > 0 then "." + MilliDigits(p.millis) + "0000" else ""))) + "\""
  {
    FormatTwo(p.hours);
    FormatTwo(p.minutes);
    FormatTwo(p.seconds);
    FormatThree(p.millis);
    Associate("\"", FirstText(p), ":" + (Format(p.minutes, 2) + ":" + ThirdText(p)));
    Associate("\"" + FirstText(p), ":", Format(p.minutes, 2) + ":" + ThirdText(p));
    Associate(FirstText(p), ":", Format(p.minutes, 2) + ":" + ThirdText(p));
  }

  /** Five days and two hours, and five milliseconds. */
  lemma ExampleTexts(p: Parts, q: Parts)
    requires p == Parts(5, 2, 0, 0, 0) && q == Parts(0, 0, 0, 0, 5)
    ensures Text(p) == "\"5.02:00:00\"" && Text(q) == "\"00:00:00.0050000\""
  {
    TextExactly(p);
    TextExactly(q);
    DigitsOne(5);
  }

  // ---- reading other texts ---------------------------------------------------------

  /** A fraction of one or two digits stands for tenths or hundredths; of more digits the first three count. */
  lemma FractionRead(seconds: nat, f: string)
    requires seconds < 60 && f != "" && AllDigits(f)
    ensures ParseThird(TwoDigits(seconds) + ['.'] + f)
            == Some((seconds, if |f| == 1 then Value(f) * 100 else if |f| == 2 then Value(f) * 10 else Value(f[..3])))
  {
    FormatTwo(seconds);
    AtoiFormat(seconds, 2);
    FormatPlain(seconds, 2, '.');
    assert '.' !in f by { assert forall i :: 0 <= i < |f| ==> IsDigit(f[i]); }
    SplitOne(f, '.');
    SplitAt(TwoDigits(seconds), '.', f);
    FractionValue(f);
  }

  lemma TrailingZero(s: string)
    requires AllDigits(s)
    ensures AllDigits(s + "0") && Value(s + "0") == Value(s) * 10
  {
    assert (s + "0")[..|s|] == s;
  }

  lemma FractionValue(f: string)
    requires f != "" && AllDigits(f)
    ensures Atoi(ThreeDigits(f)) == Some(if |f| == 1 then Value(f) * 100 else if |f| == 2 then Value(f) * 10 else Value(f[..3]))
  {
    if |f| == 1 { OneMore(f); } else if |f| == 2 { TwoMore(f); } else { FirstThree(f); }
  }

  lemma OneMore(f: string)
    requires |f| == 1 && AllDigits(f)
    ensures Atoi(ThreeDigits(f)) == Some(Value(f) * 100)
  {
    TrailingZero(f);
    TwoMore(f + "0");
    assert ThreeDigits(f) == RightPadded(f + "0");
  }

  lemma FirstThree(f: string)
    requires |f| >= 3 && AllDigits(f)
    ensures Atoi(ThreeDigits(f)) == Some(Value(f[..3]))
  {
    if |f| == 3 { assert f[..3] == f; }
    SmallValue(f[..3]);
  }

  lemma TwoMore(f: string)
    requires |f| == 2 && AllDigits(f)
    ensures Atoi(RightPadded(f)) == Some(Value(f) * 10)
  {
    TrailingZero(f);
    assert RightPadded(f) == RightPadded(f + "0") == f + "0";
    SmallValue(f + "0");
  }

  lemma SmallValue(s: string)
    requires |s| == 3 && AllDigits(s)
    ensures Atoi(s) == Some(Value(s))
  {
    ValueBound(s);
    AtoiUnsigned(s);
  }

  lemma {:induction false} ValueBound(s: string)
    requires |s| <= 3 && AllDigits(s)
    ensures Value(s) <= 999 && (|s| <= 2 ==> Value(s) <= 99) && (|s| <= 1 ==> Value(s) <= 9) && (|s| == 0 ==> Value(s) == 0)
  {
    if s != "" { ValueBound(s[..|s| - 1]); }
  }

  function Occurrences(s: string, c: char): nat {
    if s == "" then 0 else Occurrences(s[1..], c) + if s[0] == c then 1 else 0
  }

  lemma {:induction false} SplitCounts(s: string, sep: char)
    ensures |Split(s, sep)| == Occurrences(s, sep) + 1
  {
    if s != "" { SplitCounts(s[1..], sep); }
  }

  /** Only a quoted text of at least ten characters with two colons is read, with at most one dot before the first and at
      most one after the second. */
  lemma RefusedTexts(s: string)
    requires Unmarshal(s).Some?
    ensures |s| >= 10 && s[0] == '"' && s[|s| - 1] == '"' && Occurrences(s[1..|s| - 1], ':') == 2
    ensures var parts := Split(s[1..|s| - 1], ':'); |parts| == 3 && Occurrences(parts[0], '.') <= 1 && Occurrences(parts[2], '.') <= 1
  {
    SplitCounts(s[1..|s| - 1], ':');
    var parts := Split(s[1..|s| - 1], ':');
    SplitCounts(parts[0], '.');
    SplitCounts(parts[2], '.');
  }

  /** A number is an optional sign and digits. */
  lemma NumbersAreDigits(s: string)
    requires Atoi(s).Some?
    ensures s != "" && (IsDigit(s[0]) || ((s[0] == '-' || s[0] == '+') && |s| > 1)) && forall i :: 1 <= i < |s| ==> IsDigit(s[i])
    ensures s[0] == '-' ==> Atoi(s).value <= 0
    ensures s[0] != '-' ==> Atoi(s).value >= 0
  {
    var signed := s[0] == '-' || s[0] == '+';
    if signed {
      forall i | 1 <= i < |s| ensures IsDigit(s[i]) { assert s[1..][i - 1] == s[i]; }
    }
  }
}
