/**
 * School-year arithmetic on member emails of the form `h<YY><L>...`: the
 * two digits after the first character are the join year, the next digit
 * the level joined at. The year a member is in is computed in Python and,
 * for queries, by an SQL expression; the graduation cut-offs depend on the
 * month.
 */
module Members {
  import opened Wrappers

  predicate IsDigit(c: char) {
    '0' <= c <= '9'
  }

  predicate AllDigits(s: string) {
    forall i :: 0 <= i < |s| ==> IsDigit(s[i])
  }

  /** The decimal value of a string of digits. */
  function DigitsValue(s: string): (n: nat)
    requires AllDigits(s)
    ensures |s| == 1 ==> n == (s[0] as int - '0' as int)
    ensures n < Power10(|s|)
  {
    if s == [] then 0
    else DigitsValue(s[..|s| - 1]) * 10 + (s[|s| - 1] as int - '0' as int)
  }

  function Power10(k: nat): (p: nat)
    ensures p >= 1
  {
    if k == 0 then 1 else 10 * Power10(k - 1)
  }

  /** Python's `int(s)` on the strings an email slice can be: `ValueError` unless non-empty digits. */
  function ParseInt(s: string): (r: Result<int>)
    ensures r.Ok? <==> s != "" && AllDigits(s)
    ensures r.Ok? ==> 0 <= r.value < Power10(|s|)
  {
    if s != "" && AllDigits(s) then Ok(DigitsValue(s)) else Err("ValueError")
  }

  /** Python's slice `s[lo:hi]`, clamped to the string. */
  function Slice(s: string, lo: nat, hi: nat): (r: string)
    ensures hi <= |s| && lo <= hi ==> r == s[lo..hi]
    ensures |r| <= |s|
  {
    var a := if lo < |s| then lo else |s|;
    var b := if hi < |s| then hi else |s|;
    if a <= b then s[a..b] else ""
  }

  /**
   * `Member.year`: `(today.year - int(email[1:3])) % 100 + int(email[3])`,
   * with Python's floor `%` (Dafny's `%` agrees for a positive modulus).
   * The join year is parsed before `email[3]` is read.
   */
  function Year(email: string, todayYear: int): (r: Result<int>)
    ensures r.Ok? <==> |email| >= 4 && AllDigits(email[1..3]) && IsDigit(email[3])
    ensures |email| < 4 && Slice(email, 1, 3) != "" && AllDigits(Slice(email, 1, 3)) ==> r == Err("IndexError")
  {
    match ParseInt(Slice(email, 1, 3))
    case Err(e) => Err(e)
    case Ok(joinYear) =>
      if |email| < 4 then Err("IndexError")
      else match ParseInt([email[3]])
        case Err(e) => Err(e)
        case Ok(joinLevel) => Ok((todayYear - joinYear) % 100 + joinLevel)
  }

  /** The level joined at, when the email has one. */
  function JoinLevel(email: string): int
    requires |email| >= 4 && IsDigit(email[3])
  {
    email[3] as int - '0' as int
  }

  /**
   * The year is between the level joined at and 99 levels above it, so
   * between 0 and 108, and it is exactly the level joined at in the join
   * year itself.
   */
  lemma YearBounds(email: string, todayYear: int)
    requires Year(email, todayYear).Ok?
    ensures |email| >= 4 && IsDigit(email[3])
    ensures JoinLevel(email) <= Year(email, todayYear).value <= JoinLevel(email) + 99
    ensures 0 <= Year(email, todayYear).value <= 108
    ensures todayYear % 100 == ParseInt(email[1..3]).value ==> Year(email, todayYear).value == JoinLevel(email)
  {
    assert [email[3]][0] == email[3];
    assert AllDigits([email[3]]);
  }

  /** A year later a member is one year further on, until the two-digit year wraps after 99 years. */
  lemma {:induction false} YearAdvances(email: string, todayYear: int)
    requires Year(email, todayYear).Ok?
    requires (todayYear - ParseInt(Slice(email, 1, 3)).value) % 100 != 99
    ensures Year(email, todayYear + 1).Ok?
    ensures Year(email, todayYear + 1).value == Year(email, todayYear).value + 1
  {
    var joinYear := ParseInt(Slice(email, 1, 3)).value;
    var d := todayYear - joinYear;
    assert (d + 1) % 100 == d % 100 + 1 by {
      var q := d / 100;
      assert d == 100 * q + d % 100;
      assert d + 1 == 100 * q + (d % 100 + 1);
      assert 0 <= d % 100 + 1 < 100;
    }
  }

  // ---------------------------------------------------------------------
  // The SQL expression
  // ---------------------------------------------------------------------

  /** SQL `SUBSTR(s, start, len)`: 1-indexed, clamped to the string. */
  function SqlSubstr(s: string, start: nat, len: nat): (r: string)
    requires start >= 1
  {
    Slice(s, start - 1, start - 1 + len)
  }

  /** SQL `MOD(a, b)`: the remainder takes the sign of the dividend. */
  function TruncMod(a: int, b: int): (r: int)
    requires b > 0
    ensures a >= 0 ==> r == a % b
    ensures a < 0 ==> -b < r <= 0
  {
    if a >= 0 then a % b else -((-a) % b)
  }

  /** `CAST(... AS INT)` of a substring of digits; other strings are a query error. */
  function SqlCastInt(s: string): Result<int> {
    ParseInt(s)
  }

  /**
   * The query form of `year`:
   * `MOD(curr_year - CAST(SUBSTR(email, 2, 2) AS INT), 100) + CAST(SUBSTR(email, 4, 1) AS INT)`.
   */
  function SqlYear(email: string, currYear: int): (r: Result<int>)
    ensures r.Ok? <==> |email| >= 4 && AllDigits(email[1..3]) && IsDigit(email[3])
  {
    match (SqlCastInt(SqlSubstr(email, 2, 2)), SqlCastInt(SqlSubstr(email, 4, 1)))
    case (Ok(joinYear), Ok(joinLevel)) => Ok(TruncMod(currYear - joinYear, 100) + joinLevel)
    case (Err(e), _) => Err(e)
    case (_, Err(e)) => Err(e)
  }

  /** 1-indexed `SUBSTR(email, 2, 2)` and `SUBSTR(email, 4, 1)` are the slices `email[1:3]` and `email[3]`. */
  lemma SubstrIsSlice(email: string)
    ensures SqlSubstr(email, 2, 2) == Slice(email, 1, 3)
    ensures |email| >= 4 ==> SqlSubstr(email, 4, 1) == [email[3]]
    ensures |email| < 4 ==> SqlSubstr(email, 4, 1) == ""
  {
  }

  /**
   * The query and the property agree, in success and in value, whenever
   * the current year is at least the two-digit join year; a four-digit
   * current year always is.
   */
  lemma SqlYearAgrees(email: string, currYear: int)
    requires currYear >= 99
    ensures SqlYear(email, currYear).Ok? <==> Year(email, currYear).Ok?
    ensures SqlYear(email, currYear).Ok? ==> SqlYear(email, currYear).value == Year(email, currYear).value
  {
    SubstrIsSlice(email);
    var y := ParseInt(Slice(email, 1, 3));
    if y.Ok? {
      assert |Slice(email, 1, 3)| <= 2;
      assert y.value < Power10(2) by {
        assert Power10(|Slice(email, 1, 3)|) <= Power10(2);
      }
    }
  }

  /** Before year 99 of the calendar the two forms part: the query's remainder goes negative. */
  lemma SqlYearDisagreesBeforeJoinYear()
    ensures Year("h1810000", 10) == Ok(92 + 1)
    ensures SqlYear("h1810000", 10) == Ok(-8 + 1)
  {
    assert Slice("h1810000", 1, 3) == "18";
    assert SqlSubstr("h1810000", 2, 2) == "18";
    assert SqlSubstr("h1810000", 4, 1) == "1";
    assert ["h1810000"[3]] == "1";
    assert DigitsValue("18") == 18 by {
      assert "18"[..1] == "1";
    }
  }

  // ---------------------------------------------------------------------
  // Graduation cut-offs
  // ---------------------------------------------------------------------

  /**
   * `get_graduated` as written: 7, or 6 from November, is assigned and then
   * overwritten by 4, so the cut-off never depends on the month.
   */
  function GraduatedThreshold(month: int): (t: int)
    ensures t == 4
  {
    var t0 := 7;
    var t1 := if month >= 11 then 6 else t0;
    4
  }

  /** `get_graduated` as evidently meant: year 7 and up, or 6 and up from November on. */
  function IntendedGraduatedThreshold(month: int): (t: int)
    ensures t == 6 <==> month >= 11
    ensures t == 7 <==> month < 11
  {
    if month >= 11 then 6 else 7
  }

  /** `get_non_graduated`: below 7, or below 6 from November when `strict`. */
  function NonGraduatedThreshold(strict: bool, month: int): (t: int)
    ensures t == 6 <==> strict && month >= 11
    ensures t == 7 <==> !(strict && month >= 11)
  {
    if strict && month >= 11 then 6 else 7
  }

  predicate Graduated(year: int, month: int) {
    year >= GraduatedThreshold(month)
  }

  predicate IntendedGraduated(year: int, month: int) {
    year >= IntendedGraduatedThreshold(month)
  }

  predicate NonGraduated(year: int, strict: bool, month: int) {
    year < NonGraduatedThreshold(strict, month)
  }

  /**
   * As written, the two selections overlap on years 4 to 6 all year round
   * (to 5 from November when `strict`), not just in November and December.
   */
  lemma OverlapAsWritten(year: int, strict: bool, month: int)
    ensures Graduated(year, month) && NonGraduated(year, strict, month) <==>
              4 <= year < NonGraduatedThreshold(strict, month)
  {
  }

  /** A year-5 member in March is listed both as graduated and as not graduated, even with `strict`. */
  lemma OverlapInMarch()
    ensures Graduated(5, 3) && NonGraduated(5, true, 3)
  {
  }

  /**
   * With the intended cut-off every member is in at least one selection,
   * and in both only when not `strict`, in November or December, in year 6:
   * the overlap the code's own comment describes.
   */
  lemma IntendedSplit(year: int, strict: bool, month: int)
    ensures IntendedGraduated(year, month) || NonGraduated(year, strict, month)
    ensures IntendedGraduated(year, month) && NonGraduated(year, strict, month) <==>
              !strict && month >= 11 && year == 6
  {
  }

  // ---------------------------------------------------------------------
  // Bulk creation
  // ---------------------------------------------------------------------

  /** `num_existing_updated = update_existing * (len(emails) - num_new)`, a `bool` counting as 0 or 1. */
  function NumExistingUpdated(updateExisting: bool, numEmails: int, numNew: int): (n: int)
    ensures !updateExisting ==> n == 0
    ensures updateExisting ==> n == numEmails - numNew
  {
    (if updateExisting then 1 else 0) * (numEmails - numNew)
  }

  lemma {:induction false} DistinctCard(s: seq<string>)
    requires Distinct(s)
    ensures |Elems(s)| == |s|
    decreases |s|
  {
    if s != [] {
      var last := s[|s| - 1];
      var init := s[..|s| - 1];
      assert Distinct(init);
      DistinctCard(init);
      assert Elems(s) == Elems(init) + {last} by {
        assert s == init + [last];
      }
      assert last !in Elems(init) by {
        forall i | 0 <= i < |init|
          ensures init[i] != last
        {
          assert s[i] == init[i];
        }
      }
    }
  }

  /**
   * When the emails of an upload are distinct, the insert that ignores
   * conflicts adds exactly those not yet stored, and the count reported as
   * updated is exactly the number of uploaded emails already stored.
   */
  lemma UpdatedCountsExisting(emails: seq<string>, stored: set<string>)
    requires Distinct(emails)
    ensures var numNew := |Elems(emails) - stored|;
            NumExistingUpdated(true, |emails|, numNew) == |Elems(emails) * stored|
  {
    DistinctCard(emails);
    var a := Elems(emails);
    assert a == (a - stored) + (a * stored);
    assert (a - stored) * (a * stored) == {};
  }
}
