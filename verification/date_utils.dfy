/** The token-lifetime parser of the front-end: it finds the leftmost
    `digits + unit` occurrence in a lifetime string such as "10m", "1h" or
    "1d" (the regular expression `(\d+)([smhd])`, unanchored) and turns it
    into a number of days. Days are exact reals here. */
module DateUtils {
  import opened Wrappers

  predicate IsDigit(c: char) {
    '0' <= c <= '9'
  }

  /** The characters of the unit class `[smhd]`. */
  predicate IsUnit(c: char) {
    c == 's' || c == 'm' || c == 'h' || c == 'd'
  }

  predicate AllDigits(d: string) {
    forall k :: 0 <= k < |d| ==> IsDigit(d[k])
  }

  /** The end of the longest run of digits that starts at `i`. */
  function DigitRunEnd(s: string, i: nat): (j: nat)
    requires i <= |s|
    ensures i <= j <= |s|
    ensures forall k :: i <= k < j ==> IsDigit(s[k])
    ensures j == |s| || !IsDigit(s[j])
    decreases |s| - i
  {
    if i < |s| && IsDigit(s[i]) then DigitRunEnd(s, i + 1) else i
  }

  /** The pattern `(\d+)([smhd])` matches starting at `i`: the greedy digit
      run from `i` is non-empty and the character right after it is a unit.
      Backtracking to a shorter run cannot help, because the character after
      a shorter run is a digit. */
  predicate MatchAt(s: string, i: nat) {
    i < |s| && IsDigit(s[i]) && DigitRunEnd(s, i) < |s| && IsUnit(s[DigitRunEnd(s, i)])
  }

  /** The leftmost start position at or after `from` where the pattern matches. */
  function FirstMatch(s: string, from: nat): (m: Option<nat>)
    requires from <= |s|
    ensures m.Some? ==> from <= m.value && MatchAt(s, m.value)
    ensures m.Some? ==> forall k :: from <= k < m.value ==> !MatchAt(s, k)
    ensures m.None? ==> forall k :: from <= k < |s| ==> !MatchAt(s, k)
    decreases |s| - from
  {
    if from == |s| then None
    else if MatchAt(s, from) then Some(from)
    else FirstMatch(s, from + 1)
  }

  function DigitValue(c: char): nat
    requires IsDigit(c)
  {
    c as int - '0' as int
  }

  /** `parseInt(d, 10)` of a string made only of digits. */
  function DigitsValue(d: string): nat
    requires AllDigits(d)
  {
    if |d| == 0 then 0 else DigitsValue(d[..|d| - 1]) * 10 + DigitValue(d[|d| - 1])
  }

  /** The unit switch: minutes, hours and days are converted; every other
      unit, including the matched `s`, falls to the default case, 0. */
  function UnitInDays(unit: char, value: nat): real {
    match unit
    case 'm' => value as real / 1440.0
    case 'h' => value as real / 24.0
    case 'd' => value as real
    case _ => 0.0
  }

  /** `parseExpirationInDays`: no match gives 0, otherwise the digits of the
      leftmost match in the unit of that match. */
  function ParseExpirationInDays(expiration: string): (days: real)
    ensures days >= 0.0
  {
    match FirstMatch(expiration, 0)
    case None => 0.0
    case Some(i) =>
      var j := DigitRunEnd(expiration, i);
      UnitInDays(expiration[j], DigitsValue(expiration[i..j]))
  }

  // ---------------------------------------------------------------------
  // Decimal notation, the partner of DigitsValue

  function DigitChar(n: nat): (c: char)
    requires n < 10
    ensures IsDigit(c) && DigitValue(c) == n
  {
    ('0' as int + n) as char
  }

  /** The decimal notation of `n`, without leading zeros. */
  function Decimal(n: nat): (d: string)
    ensures |d| > 0 && AllDigits(d)
    ensures n > 0 ==> d[0] != '0'
  {
    if n < 10 then [DigitChar(n)] else Decimal(n / 10) + [DigitChar(n % 10)]
  }

  /** Reading back the decimal notation of `n` gives `n`. */
  lemma {:induction false} DecimalRoundTrip(n: nat)
    ensures DigitsValue(Decimal(n)) == n
  {
    if n >= 10 {
      var d := Decimal(n);
      assert d[..|d| - 1] == Decimal(n / 10);
      DecimalRoundTrip(n / 10);
    }
  }

  /** Leading zeros do not change the value read. */
  lemma {:induction false} LeadingZeroIgnored(d: string)
    requires AllDigits(d)
    ensures DigitsValue("0" + d) == DigitsValue(d)
    decreases |d|
  {
    if |d| > 0 {
      assert ("0" + d)[..|"0" + d| - 1] == "0" + d[..|d| - 1];
      LeadingZeroIgnored(d[..|d| - 1]);
    }
  }

  // ---------------------------------------------------------------------
  // Where the leftmost match sits

  /** Every position inside a digit run ends at the same place. */
  lemma {:induction false} DigitRunEndInside(s: string, i: nat, k: nat)
    requires i <= |s| && i <= k <= DigitRunEnd(s, i)
    ensures DigitRunEnd(s, k) == DigitRunEnd(s, i)
    decreases k - i
  {
    if i < k {
      DigitRunEndInside(s, i + 1, k);
    }
  }

  /** The leftmost match starts where its digit run starts: the digits read
      are the whole maximal run just before the unit. */
  lemma LeftmostMatchIsWholeRun(s: string)
    requires FirstMatch(s, 0).Some?
    ensures var i := FirstMatch(s, 0).value;
            i == 0 || !IsDigit(s[i - 1])
  {
    var i := FirstMatch(s, 0).value;
    if i > 0 && IsDigit(s[i - 1]) {
      DigitRunEndInside(s, i - 1, i);
      assert MatchAt(s, i - 1);
    }
  }

  /** A digit run that ends inside `a` ends at the same place in `a + b`. */
  lemma {:induction false} DigitRunEndPrefix(a: string, b: string, i: nat)
    requires i <= |a| && DigitRunEnd(a, i) < |a|
    ensures DigitRunEnd(a + b, i) == DigitRunEnd(a, i)
    decreases |a| - i
  {
    if IsDigit(a[i]) {
      DigitRunEndPrefix(a, b, i + 1);
    }
  }

  /** A digit run that starts at the start of `d + b`, where `d` is all
      digits and `b` starts with a non-digit, ends at `|d|`. */
  lemma {:induction false} DigitRunEndOfDigits(a: string, d: string, b: string, i: nat)
    requires AllDigits(d) && |b| > 0 && !IsDigit(b[0])
    requires |a| <= i <= |a| + |d|
    ensures DigitRunEnd(a + d + b, i) == |a| + |d|
    decreases |a| + |d| - i
  {
    var s := a + d + b;
    if i < |a| + |d| {
      assert s[i] == d[i - |a|];
      DigitRunEndOfDigits(a, d, b, i + 1);
    } else {
      assert s[i] == b[0];
    }
  }

  /** Text without a match of its own, that does not end in a digit, keeps
      having no match once anything is appended to it. */
  lemma {:induction false} NoMatchInPrefix(prefix: string, rest: string)
    requires forall k :: 0 <= k < |prefix| ==> !MatchAt(prefix, k)
    requires |prefix| == 0 || !IsDigit(prefix[|prefix| - 1])
    ensures forall k :: 0 <= k < |prefix| ==> !MatchAt(prefix + rest, k)
  {
    var s := prefix + rest;
    var p := |prefix|;
    forall k | 0 <= k < p
      ensures !MatchAt(s, k)
    {
      assert s[k] == prefix[k];
      if IsDigit(s[k]) {
        var j := DigitRunEnd(prefix, k);
        assert !MatchAt(prefix, k);
        DigitRunEndPrefix(prefix, rest, k);
        assert s[j] == prefix[j];
      }
    }
  }

  /** A non-empty digit run followed by a unit matches where it starts, and
      its run ends right before the unit. */
  lemma RunMatches(prefix: string, d: string, tail: string)
    requires AllDigits(d) && |d| > 0
    requires |tail| > 0 && IsUnit(tail[0])
    ensures MatchAt(prefix + (d + tail), |prefix|)
    ensures DigitRunEnd(prefix + (d + tail), |prefix|) == |prefix| + |d|
  {
    var s := prefix + d + tail;
    assert prefix + (d + tail) == s;
    DigitRunEndOfDigits(prefix, d, tail, |prefix|);
    assert s[|prefix|] == d[0];
    assert s[|prefix| + |d|] == tail[0];
  }

  /** After text with no match of its own that does not end in a digit, a
      non-empty digit run followed by a unit is the leftmost match, and its
      run ends right before the unit. */
  lemma MatchAfterPrefix(prefix: string, d: string, tail: string)
    requires forall k :: 0 <= k < |prefix| ==> !MatchAt(prefix, k)
    requires |prefix| == 0 || !IsDigit(prefix[|prefix| - 1])
    requires AllDigits(d) && |d| > 0
    requires |tail| > 0 && IsUnit(tail[0])
    ensures FirstMatch(prefix + (d + tail), 0) == Some(|prefix|)
    ensures DigitRunEnd(prefix + (d + tail), |prefix|) == |prefix| + |d|
  {
    RunMatches(prefix, d, tail);
    NoMatchInPrefix(prefix, d + tail);
    FirstMatchAt(prefix + (d + tail), 0, |prefix|);
  }

  /** A match with no match before it, from `from` on, is the one found. */
  lemma {:induction false} FirstMatchAt(s: string, from: nat, p: nat)
    requires from <= p < |s| && MatchAt(s, p)
    requires forall k :: from <= k < p ==> !MatchAt(s, k)
    ensures FirstMatch(s, from) == Some(p)
    decreases p - from
  {
    if from < p {
      FirstMatchAt(s, from + 1, p);
    }
  }

  /** Any non-empty digit run followed by a unit, after text that has no
      match of its own and does not end in a digit, is read whole, leading
      zeros included, in that unit; anything after the unit is ignored. */
  lemma ParseDigitRun(prefix: string, d: string, unit: char, suffix: string)
    requires forall k :: 0 <= k < |prefix| ==> !MatchAt(prefix, k)
    requires |prefix| == 0 || !IsDigit(prefix[|prefix| - 1])
    requires AllDigits(d) && |d| > 0
    requires IsUnit(unit)
    ensures ParseExpirationInDays(prefix + d + [unit] + suffix) == UnitInDays(unit, DigitsValue(d))
  {
    var tail := [unit] + suffix;
    Regroup(prefix, d, unit, suffix);
    MatchAfterPrefix(prefix, d, tail);
    Pieces(prefix, d, unit, suffix);
    ParseAtMatch(prefix + (d + tail), |prefix|, d);
  }

  lemma Regroup(prefix: string, d: string, unit: char, suffix: string)
    ensures prefix + (d + ([unit] + suffix)) == prefix + d + [unit] + suffix
  {
    assert prefix + (d + ([unit] + suffix)) == prefix + d + ([unit] + suffix);
  }

  lemma Pieces(prefix: string, d: string, unit: char, suffix: string)
    ensures var s := prefix + (d + ([unit] + suffix));
            s[|prefix|..|prefix| + |d|] == d && s[|prefix| + |d|] == unit
  {
  }

  /** The parser reads the digits `d` of a match found at `p`, in the unit
      right after them. */
  lemma ParseAtMatch(s: string, p: nat, d: string)
    requires AllDigits(d)
    requires FirstMatch(s, 0) == Some(p)
    requires DigitRunEnd(s, p) == p + |d| < |s|
    requires s[p..p + |d|] == d
    ensures ParseExpirationInDays(s) == UnitInDays(s[p + |d|], DigitsValue(d))
  {
  }

  /** Text before the first `digits + unit` occurrence, that has no match of
      its own and does not end in a digit, does not affect the result; nor
      does anything after the unit. */
  lemma ParseInContext(prefix: string, n: nat, unit: char, suffix: string)
    requires forall k :: 0 <= k < |prefix| ==> !MatchAt(prefix, k)
    requires |prefix| == 0 || !IsDigit(prefix[|prefix| - 1])
    requires IsUnit(unit)
    ensures ParseExpirationInDays(prefix + Decimal(n) + [unit] + suffix) == UnitInDays(unit, n)
  {
    ParseDigitRun(prefix, Decimal(n), unit, suffix);
    DecimalRoundTrip(n);
  }

  /** A lifetime written with a leading zero reads as without it:
      "010m" is ten minutes. */
  lemma LeadingZeroLifetime(n: nat, unit: char)
    requires IsUnit(unit)
    ensures ParseExpirationInDays("0" + Decimal(n) + [unit]) == ParseExpirationInDays(Decimal(n) + [unit])
  {
    var d := "0" + Decimal(n);
    assert AllDigits(d) by {
      forall k | 0 <= k < |d| ensures IsDigit(d[k]) {
        if k > 0 { assert d[k] == Decimal(n)[k - 1]; }
      }
    }
    ParseDigitRun("", d, unit, "");
    assert "" + d + [unit] + "" == "0" + Decimal(n) + [unit];
    LeadingZeroIgnored(Decimal(n));
    ParseNumberUnit(n, unit);
    DecimalRoundTrip(n);
  }

  // ---------------------------------------------------------------------
  // The properties the parser promises

  /** Without any digit run followed by a unit the result is 0. */
  lemma NoMatchGivesZero(s: string)
    requires forall i :: 0 <= i < |s| ==> !MatchAt(s, i)
    ensures ParseExpirationInDays(s) == 0.0
  {
  }

  /** A non-zero result comes from a match. */
  lemma NonZeroHasMatch(s: string)
    requires ParseExpirationInDays(s) != 0.0
    ensures exists i :: 0 <= i < |s| && MatchAt(s, i)
  {
  }

  /** The unit table: `nm` is n/1440 days, `nh` is n/24 days, `nd` is n days,
      and `ns` is 0 days because the seconds unit has no case of its own. */
  lemma UnitTable(n: nat)
    ensures ParseExpirationInDays(Decimal(n) + "m") == n as real / 1440.0
    ensures ParseExpirationInDays(Decimal(n) + "h") == n as real / 24.0
    ensures ParseExpirationInDays(Decimal(n) + "d") == n as real
    ensures ParseExpirationInDays(Decimal(n) + "s") == 0.0
  {
    ParseNumberUnit(n, 'm');
    ParseNumberUnit(n, 'h');
    ParseNumberUnit(n, 'd');
    ParseNumberUnit(n, 's');
  }

  /** A lone `digits + unit` string reads as that number in that unit. */
  lemma ParseNumberUnit(n: nat, unit: char)
    requires IsUnit(unit)
    ensures ParseExpirationInDays(Decimal(n) + [unit]) == UnitInDays(unit, n)
  {
    ParseInContext("", n, unit, "");
    assert "" + Decimal(n) + [unit] + "" == Decimal(n) + [unit];
  }

  /** Units agree with each other: 60 minutes are an hour, 24 hours a day. */
  lemma UnitConsistency(n: nat)
    ensures ParseExpirationInDays(Decimal(60 * n) + "m") == ParseExpirationInDays(Decimal(n) + "h")
    ensures ParseExpirationInDays(Decimal(24 * n) + "h") == ParseExpirationInDays(Decimal(n) + "d")
  {
    UnitTable(60 * n);
    UnitTable(24 * n);
    UnitTable(n);
  }

  /** The match is unanchored and leftmost: "x2h3d" is two hours. */
  lemma LeftmostExample()
    ensures ParseExpirationInDays("x2h3d") == 2.0 / 24.0
  {
    assert forall k :: 0 <= k < 1 ==> !MatchAt("x", k);
    ParseInContext("x", 2, 'h', "3d");
    assert "x" + Decimal(2) + ['h'] + "3d" == "x2h3d";
  }

  /** The lifetime the auth operations use, "10m", is a 144th of a day. */
  lemma TenMinutes()
    ensures ParseExpirationInDays("10m") == 1.0 / 144.0
  {
    UnitTable(10);
    assert Decimal(10) + "m" == "10m";
  }

  // ---------------------------------------------------------------------
  // The scan as a loop

  /** The same parser written as the left-to-right scan a regular-expression
      engine performs, skipping over a digit run that is not followed by a
      unit in one step. */
  method ScanExpiration(s: string) returns (days: real)
    ensures days == ParseExpirationInDays(s)
  {
    var i := 0;
    while i < |s|
      invariant 0 <= i <= |s|
      invariant forall k :: 0 <= k < i ==> !MatchAt(s, k)
      decreases |s| - i
    {
      if IsDigit(s[i]) {
        var j := i;
        var value := 0;
        while j < |s| && IsDigit(s[j])
          invariant i <= j <= |s|
          invariant AllDigits(s[i..j])
          invariant value == DigitsValue(s[i..j])
          invariant DigitRunEnd(s, j) == DigitRunEnd(s, i)
          decreases |s| - j
        {
          assert s[i..j + 1][..j - i] == s[i..j];
          value := value * 10 + DigitValue(s[j]);
          j := j + 1;
        }
        if j < |s| && IsUnit(s[j]) {
          assert MatchAt(s, i);
          assert FirstMatch(s, 0) == Some(i);
          return UnitInDays(s[j], value);
        }
        forall k | i <= k < j
          ensures !MatchAt(s, k)
        {
          DigitRunEndInside(s, i, k);
        }
        i := j;
      } else {
        i := i + 1;
      }
    }
    return 0.0;
  }
}
