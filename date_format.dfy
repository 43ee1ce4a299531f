/** Python `datetime` values, the three `strftime` formats the system writes,
    and `datetime.strptime(s, "%Y%m%dT%H:%M:%S.%f")` after the way CPython's
    `_strptime` performs it: a regular expression built from one sub-pattern
    per directive, matched from the start of the string with backtracking
    (first alternative first, greedy counted repetition), `IGNORECASE` on
    literal letters, a failure when characters are left over ("unconverted
    data remains"), and the range checks of the `datetime` constructor.
    Digits are the ASCII ones only: the other Unicode decimal digits that
    `\d` also matches are outside this model. */
module DateFormat {
  import opened Wrappers

  /** A Python datetime. `tz` is its tzinfo: None for a naive datetime, an
      abstract zone otherwise. */
  datatype DateTime = DateTime(year: nat, month: nat, day: nat, hour: nat, minute: nat,
                               second: nat, microsecond: nat, tz: Option<int>)

  predicate IsLeapYear(y: nat) {
    y % 4 == 0 && (y % 100 != 0 || y % 400 == 0)
  }

  function DaysInMonth(y: nat, m: nat): nat
    requires 1 <= m <= 12
  {
    if m == 2 then (if IsLeapYear(y) then 29 else 28)
    else if m == 4 || m == 6 || m == 9 || m == 11 then 30
    else 31
  }

  /** The checks the `datetime` constructor makes (MINYEAR 1, MAXYEAR 9999). */
  predicate ValidDateTime(dt: DateTime) {
    && 1 <= dt.year <= 9999
    && 1 <= dt.month <= 12
    && 1 <= dt.day <= DaysInMonth(dt.year, dt.month)
    && dt.hour < 24 && dt.minute < 60 && dt.second < 60
    && dt.microsecond < 1000000
  }

  /** The same wall-clock value without a tzinfo. */
  function Naive(dt: DateTime): DateTime {
    dt.(tz := None)
  }

  function Pow10(n: nat): (r: nat)
    ensures r >= 1
  {
    if n == 0 then 1 else 10 * Pow10(n - 1)
  }

  predicate IsDigit(c: char) {
    '0' <= c <= '9'
  }

  predicate AllDigits(s: string) {
    forall i :: 0 <= i < |s| ==> IsDigit(s[i])
  }

  function DigitChar(d: nat): (c: char)
    requires d < 10
    ensures IsDigit(c)
  {
    (48 + d) as char
  }

  /** The last `width` decimal digits of `n`, zero-padded; for `n < 10^width`
      this is `'%0{width}d' % n`. */
  function Digits(n: nat, width: nat): (r: string)
    ensures |r| == width && AllDigits(r)
  {
    if width == 0 then "" else Digits(n / 10, width - 1) + [DigitChar(n % 10)]
  }

  /** `int(s)` on the texts the date regex captures: ASCII digits, optionally
      after one leading space (the `' [1-9]'` day alternative). A space
      counts as a leading zero, which is what `int` makes of it. */
  function DecimalValue(s: string): nat {
    if s == [] then 0
    else
      var last := s[|s| - 1];
      DecimalValue(s[..|s| - 1]) * 10 + (if IsDigit(last) then last as int - 48 else 0)
  }

  lemma {:induction false} DecimalValueOfDigits(n: nat, width: nat)
    requires n < Pow10(width)
    ensures DecimalValue(Digits(n, width)) == n
  {
    if width > 0 {
      assert n / 10 < Pow10(width - 1);
      DecimalValueOfDigits(n / 10, width - 1);
      var d := Digits(n, width);
      assert d[..|d| - 1] == Digits(n / 10, width - 1);
      assert d[|d| - 1] == DigitChar(n % 10);
    }
  }

  lemma TwoDigits(n: nat)
    requires n < 100
    ensures Digits(n, 2) == [DigitChar(n / 10), DigitChar(n % 10)]
  {
    var t := n / 10;
    assert t < 10;
    assert Digits(t, 1) == Digits(t / 10, 0) + [DigitChar(t % 10)];
    assert t % 10 == t;
    assert Digits(n, 2) == Digits(t, 1) + [DigitChar(n % 10)];
  }

  function Concat(parts: seq<string>): string {
    if parts == [] then "" else parts[0] + Concat(parts[1..])
  }

  // ---- strftime ------------------------------------------------------------

  /** The pieces of `dt.strftime("%Y%m%dT%H:%M:%S.%f")`, one per directive or
      literal of the format. */
  function CompactTokens(dt: DateTime): seq<string> {
    [Digits(dt.year, 4), Digits(dt.month, 2), Digits(dt.day, 2), "T",
     Digits(dt.hour, 2), ":", Digits(dt.minute, 2), ":", Digits(dt.second, 2), ".",
     Digits(dt.microsecond, 6)]
  }

  /** `dt.strftime("%Y%m%dT%H:%M:%S.%f")` */
  function CompactStamp(dt: DateTime): string {
    Concat(CompactTokens(dt))
  }

  /** `dt.strftime('%Y-%m-%d %H:%M:%S')` */
  function SecondsStamp(dt: DateTime): string {
    Digits(dt.year, 4) + "-" + Digits(dt.month, 2) + "-" + Digits(dt.day, 2) + " "
    + Digits(dt.hour, 2) + ":" + Digits(dt.minute, 2) + ":" + Digits(dt.second, 2)
  }

  /** `dt.strftime('%Y-%m-%d')` */
  function DayStamp(dt: DateTime): string {
    Digits(dt.year, 4) + "-" + Digits(dt.month, 2) + "-" + Digits(dt.day, 2)
  }

  lemma {:induction false} ConcatAscii(parts: seq<string>)
    requires forall k :: 0 <= k < |parts| ==> forall i :: 0 <= i < |parts[k]| ==> parts[k][i] as int < 0x80
    ensures forall i :: 0 <= i < |Concat(parts)| ==> Concat(parts)[i] as int < 0x80
  {
    if parts != [] {
      ConcatAscii(parts[1..]);
      assert Concat(parts) == parts[0] + Concat(parts[1..]);
    }
  }

  /** The compact stamp is ASCII, so its `.encode()` bytes are its code points. */
  lemma CompactStampIsAscii(dt: DateTime)
    ensures forall i :: 0 <= i < |CompactStamp(dt)| ==> CompactStamp(dt)[i] as int < 0x80
  {
    var toks := CompactTokens(dt);
    forall k | 0 <= k < |toks|
      ensures forall i :: 0 <= i < |toks[k]| ==> toks[k][i] as int < 0x80
    {
      assert AllDigits(toks[k]) || toks[k] in {"T", ":", "."};
    }
    ConcatAscii(toks);
  }

  // ---- strptime --------------------------------------------------------------

  datatype CharClass = Between(lo: char, hi: char) | OneOf(chars: string)

  predicate InClass(k: CharClass, c: char) {
    match k
    case Between(lo, hi) => lo <= c <= hi
    case OneOf(cs) => c in cs
  }

  /** One alternative of a directive's regular expression: a fixed run of
      character classes. */
  type Pattern = seq<CharClass>

  predicate Fits(p: Pattern, s: string) {
    |p| <= |s| && forall i :: 0 <= i < |p| ==> InClass(p[i], s[i])
  }

  datatype Directive = Year | Month | Day | Hour | Minute | Second | Fraction | Literal(c: char)

  /** `\d`, restricted to the ASCII digits. */
  const AnyDigit := Between('0', '9')

  /** A literal of the format matched under `re.IGNORECASE`. */
  function LiteralClass(c: char): CharClass {
    if 'A' <= c <= 'Z' then OneOf([c, (c as int + 32) as char])
    else if 'a' <= c <= 'z' then OneOf([c, (c as int - 32) as char])
    else OneOf([c])
  }

  /** `_strptime`'s sub-pattern of each directive, alternatives in the order
      the regex engine tries them; `%f` is `[0-9]{1,6}`, which tries the
      longest run first. */
  function Alternatives(d: Directive): seq<Pattern> {
    match d
    case Year => [[AnyDigit, AnyDigit, AnyDigit, AnyDigit]]
    case Month => [[OneOf("1"), Between('0', '2')], [OneOf("0"), Between('1', '9')], [Between('1', '9')]]
    case Day => [[OneOf("3"), Between('0', '1')], [Between('1', '2'), AnyDigit],
                 [OneOf("0"), Between('1', '9')], [Between('1', '9')], [OneOf(" "), Between('1', '9')]]
    case Hour => [[OneOf("2"), Between('0', '3')], [Between('0', '1'), AnyDigit], [AnyDigit]]
    case Minute => [[Between('0', '5'), AnyDigit], [AnyDigit]]
    case Second => [[OneOf("6"), Between('0', '1')], [Between('0', '5'), AnyDigit], [AnyDigit]]
    case Fraction => [[AnyDigit, AnyDigit, AnyDigit, AnyDigit, AnyDigit, AnyDigit],
                      [AnyDigit, AnyDigit, AnyDigit, AnyDigit, AnyDigit],
                      [AnyDigit, AnyDigit, AnyDigit, AnyDigit], [AnyDigit, AnyDigit, AnyDigit],
                      [AnyDigit, AnyDigit], [AnyDigit]]
    case Literal(c) => [[LiteralClass(c)]]
  }

  /** The first match of the directives `fmt` at the start of `s`, in the
      regex engine's order: the text each directive captured and what is
      left unconsumed. */
  function MatchFrom(fmt: seq<Directive>, s: string): (r: Option<(seq<string>, string)>)
    ensures r.Some? ==> |r.value.0| == |fmt|
    decreases |fmt|, 1
  {
    if fmt == [] then Some(([], s)) else TryAlternatives(fmt, s, Alternatives(fmt[0]))
  }

  /** Tries the alternatives `alts` of `fmt[0]` in order, backtracking into
      the next one when the rest of the format cannot match after it. */
  function TryAlternatives(fmt: seq<Directive>, s: string, alts: seq<Pattern>): (r: Option<(seq<string>, string)>)
    requires fmt != []
    ensures r.Some? ==> |r.value.0| == |fmt|
    decreases |fmt|, 0, |alts|
  {
    if alts == [] then None
    else if Fits(alts[0], s) then
      match MatchFrom(fmt[1..], s[|alts[0]|..])
      case Some((groups, rest)) => Some(([s[..|alts[0]|]] + groups, rest))
      case None => TryAlternatives(fmt, s, alts[1..])
    else TryAlternatives(fmt, s, alts[1..])
  }

  const CompactFormat: seq<Directive> :=
    [Year, Month, Day, Literal('T'), Hour, Literal(':'), Minute, Literal(':'), Second, Literal('.'), Fraction]

  /** `%f`: the captured digits padded on the right with zeros to six. */
  function MicrosecondValue(s: string): nat {
    DecimalValue(s) * Pow10(if |s| <= 6 then 6 - |s| else 0)
  }

  /** `datetime.strptime(s, "%Y%m%dT%H:%M:%S.%f")`; None stands for the
      ValueError it raises. The result is always naive. */
  function Strptime(s: string): Option<DateTime> {
    match MatchFrom(CompactFormat, s)
    case None => None
    case Some((g, rest)) =>
      if rest != "" then None
      else
        var dt := DateTime(DecimalValue(g[0]), DecimalValue(g[1]), DecimalValue(g[2]),
                           DecimalValue(g[4]), DecimalValue(g[6]), DecimalValue(g[8]),
                           MicrosecondValue(g[10]), None);
        if ValidDateTime(dt) then Some(dt) else None
  }

  // ---- strptime reads back what strftime wrote ---------------------------------

  /** Alternative `k` is the first alternative of `d` that fits at the start
      of `tok`, and it consumes exactly `tok`. */
  predicate DecisiveAt(d: Directive, tok: string, k: nat) {
    var alts := Alternatives(d);
    && k < |alts| && |alts[k]| == |tok| && Fits(alts[k], tok)
    && forall j :: 0 <= j < k ==> |alts[j]| <= |tok| && !Fits(alts[j], tok)
  }

  lemma FitsPrefix(p: Pattern, a: string, b: string)
    requires |p| <= |a|
    ensures Fits(p, a + b) == Fits(p, a)
  {
    assert forall i :: 0 <= i < |p| ==> (a + b)[i] == a[i];
  }

  lemma {:induction false} TryDecisive(fmt: seq<Directive>, tok: string, tail: string, alts: seq<Pattern>,
                                       k: nat, after: (seq<string>, string))
    requires fmt != []
    requires k < |alts| && |alts[k]| == |tok| && Fits(alts[k], tok)
    requires forall j :: 0 <= j < k ==> |alts[j]| <= |tok| && !Fits(alts[j], tok)
    requires MatchFrom(fmt[1..], tail) == Some(after)
    ensures TryAlternatives(fmt, tok + tail, alts) == Some(([tok] + after.0, after.1))
    decreases k
  {
    FitsPrefix(alts[0], tok, tail);
    if k == 0 {
      assert (tok + tail)[|tok|..] == tail;
      assert (tok + tail)[..|tok|] == tok;
    } else {
      TryDecisive(fmt, tok, tail, alts[1..], k - 1, after);
    }
  }

  lemma {:induction false} MatchTokens(fmt: seq<Directive>, toks: seq<string>, ks: seq<nat>)
    requires |fmt| == |toks| == |ks|
    requires forall i :: 0 <= i < |fmt| ==> DecisiveAt(fmt[i], toks[i], ks[i])
    ensures MatchFrom(fmt, Concat(toks)) == Some((toks, ""))
  {
    if fmt != [] {
      MatchTokens(fmt[1..], toks[1..], ks[1..]);
      assert DecisiveAt(fmt[0], toks[0], ks[0]);
      TryDecisive(fmt, toks[0], Concat(toks[1..]), Alternatives(fmt[0]), ks[0], (toks[1..], ""));
      assert [toks[0]] + toks[1..] == toks;
    }
  }

  lemma YearDecisive(n: nat)
    requires n < 10000
    ensures DecisiveAt(Year, Digits(n, 4), 0)
  {
  }

  lemma MonthDecisive(n: nat) returns (k: nat)
    requires 1 <= n <= 12
    ensures DecisiveAt(Month, Digits(n, 2), k)
  {
    TwoDigits(n);
    var alts, tok := Alternatives(Month), Digits(n, 2);
    if n >= 10 {
      k := 0;
    } else {
      assert !InClass(alts[0][0], tok[0]);
      k := 1;
    }
  }

  lemma DayDecisive(n: nat) returns (k: nat)
    requires 1 <= n <= 31
    ensures DecisiveAt(Day, Digits(n, 2), k)
  {
    TwoDigits(n);
    var alts, tok := Alternatives(Day), Digits(n, 2);
    if n >= 30 {
      k := 0;
    } else if n >= 10 {
      assert !InClass(alts[0][0], tok[0]);
      k := 1;
    } else {
      assert !InClass(alts[0][0], tok[0]);
      assert !InClass(alts[1][0], tok[0]);
      k := 2;
    }
  }

  lemma HourDecisive(n: nat) returns (k: nat)
    requires n < 24
    ensures DecisiveAt(Hour, Digits(n, 2), k)
  {
    TwoDigits(n);
    var alts, tok := Alternatives(Hour), Digits(n, 2);
    if n >= 20 {
      k := 0;
    } else {
      assert !InClass(alts[0][0], tok[0]);
      k := 1;
    }
  }

  lemma MinuteDecisive(n: nat)
    requires n < 60
    ensures DecisiveAt(Minute, Digits(n, 2), 0)
  {
    TwoDigits(n);
  }

  lemma SecondDecisive(n: nat)
    requires n < 60
    ensures DecisiveAt(Second, Digits(n, 2), 1)
  {
    TwoDigits(n);
    var alts, tok := Alternatives(Second), Digits(n, 2);
    assert !InClass(alts[0][0], tok[0]);
  }

  lemma FractionDecisive(n: nat)
    ensures DecisiveAt(Fraction, Digits(n, 6), 0)
  {
  }

  lemma LiteralDecisive(c: char)
    requires c in {'T', ':', '.'}
    ensures DecisiveAt(Literal(c), [c], 0)
  {
  }

  lemma CompactStampMatches(dt: DateTime)
    requires ValidDateTime(dt)
    ensures MatchFrom(CompactFormat, CompactStamp(dt)) == Some((CompactTokens(dt), ""))
  {
    var toks := CompactTokens(dt);
    YearDecisive(dt.year);
    var km := MonthDecisive(dt.month);
    var kd := DayDecisive(dt.day);
    LiteralDecisive('T');
    var kh := HourDecisive(dt.hour);
    LiteralDecisive(':');
    MinuteDecisive(dt.minute);
    SecondDecisive(dt.second);
    LiteralDecisive('.');
    FractionDecisive(dt.microsecond);
    var ks: seq<nat> := [0, km, kd, 0, kh, 0, 0, 0, 1, 0, 0];
    assert forall i :: 0 <= i < |CompactFormat| ==> DecisiveAt(CompactFormat[i], toks[i], ks[i]);
    MatchTokens(CompactFormat, toks, ks);
  }

  /** Round trip of the compact stamp: `strptime(dt.strftime(fmt), fmt)`
      gives back every field down to the microsecond, without the tzinfo. */
  lemma StrptimeOfCompactStamp(dt: DateTime)
    requires ValidDateTime(dt)
    ensures Strptime(CompactStamp(dt)) == Some(Naive(dt))
  {
    CompactStampMatches(dt);
    var g := CompactTokens(dt);
    assert Pow10(2) == 100;
    assert Pow10(4) == 10000 by { assert Pow10(3) == 1000; }
    assert Pow10(6) == 1000000 by { assert Pow10(5) == 100000 by { assert Pow10(3) == 1000; } }
    DecimalValueOfDigits(dt.year, 4);
    DecimalValueOfDigits(dt.month, 2);
    DecimalValueOfDigits(dt.day, 2);
    DecimalValueOfDigits(dt.hour, 2);
    DecimalValueOfDigits(dt.minute, 2);
    DecimalValueOfDigits(dt.second, 2);
    DecimalValueOfDigits(dt.microsecond, 6);
    assert MicrosecondValue(g[10]) == dt.microsecond;
    var parsed := DateTime(DecimalValue(g[0]), DecimalValue(g[1]), DecimalValue(g[2]),
                           DecimalValue(g[4]), DecimalValue(g[6]), DecimalValue(g[8]),
                           MicrosecondValue(g[10]), None);
    assert parsed == Naive(dt);
  }
}
