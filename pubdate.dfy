/**
 * The hand-written parser for RSS `pubDate` values of the shape
 * "Wed, 15 Sep 2021 00:00:00 -0400" (the date-time format of section 5 of RFC 822).
 * The string is cut at single spaces and the time field at colons; the weekday and the
 * zone offset are never read and the result is always in UTC.
 */
module PubDate {
  import opened Wrappers
  import opened GoStrings
  import opened Strconv
  import opened Times

  const Months: map<string, int> := map[
    "Jan" := 1, "Feb" := 2, "Mar" := 3, "Apr" := 4, "May" := 5, "Jun" := 6,
    "Jul" := 7, "Aug" := 8, "Sep" := 9, "Oct" := 10, "Nov" := 11, "Dec" := 12]

  /** The month abbreviations in calendar order, the reference the lookup is checked against. */
  const MonthAbbreviations: seq<string> :=
    ["Jan", "Feb", "Mar", "Apr", "May", "Jun", "Jul", "Aug", "Sep", "Oct", "Nov", "Dec"]

  /** The month table lookup; a token missing from the table gives Go's zero value, 0. */
  function MonthNumber(token: string): (m: int)
    ensures 0 <= m <= 12
  {
    if token in Months then Months[token] else 0
  }

  /** The lookup gives k exactly for the k-th abbreviation and 0 for every other token. */
  lemma MonthNumberIff(token: string)
    ensures 0 <= MonthNumber(token) <= 12
    ensures MonthNumber(token) != 0 <==> token in MonthAbbreviations
    ensures MonthNumber(token) != 0 ==> MonthAbbreviations[MonthNumber(token) - 1] == token
  {
  }

  /** The inputs the parser does not panic on: at least five space-separated fields, and a
      fifth field with at least three colon-separated parts. */
  predicate WellShaped(pubDate: string)
  {
    var comp := Split(pubDate, ' ');
    |comp| >= 5 && |Split(comp[4], ':')| >= 3
  }

  /** The five fields converted with Atoi: year, day, hour, minute, second. */
  function NumericFields(pubDate: string): (f: seq<string>)
    requires WellShaped(pubDate)
    ensures |f| == 5
    ensures var comp := Split(pubDate, ' ');
      f[0] == comp[3] && f[1] == comp[1] && f[2..] == Split(comp[4], ':')[..3]
  {
    var comp := Split(pubDate, ' ');
    var tim := Split(comp[4], ':');
    [comp[3], comp[1], tim[0], tim[1], tim[2]]
  }

  /**
   * `parsePubDate`. It fails exactly when one of the five numeric fields fails Atoi; the
   * month comes from the table (0 when unknown), the nanosecond is 0, the zone is UTC.
   * Go visits the fields in random map order, so which field's error is returned is not
   * determined there; here the first failing field in the order above is reported.
   */
  function ParsePubDate(pubDate: string): (r: Result<DateTime, NumError>)
    requires WellShaped(pubDate)
    ensures r.Err? <==> exists i | 0 <= i < 5 :: Atoi(NumericFields(pubDate)[i]).Err?
    ensures r.Err? ==> exists i | 0 <= i < 5 ::
      Atoi(NumericFields(pubDate)[i]).Err? && r.error == Atoi(NumericFields(pubDate)[i]).error
    ensures r.Ok? ==>
      var f := NumericFields(pubDate);
      r.value == DateTime(Atoi(f[0]).value, MonthNumber(Split(pubDate, ' ')[2]), Atoi(f[1]).value,
                          Atoi(f[2]).value, Atoi(f[3]).value, Atoi(f[4]).value, 0)
  {
    var month := MonthNumber(Split(pubDate, ' ')[2]);
    var f := NumericFields(pubDate);
    var year :- Atoi(f[0]);
    var day :- Atoi(f[1]);
    var hour :- Atoi(f[2]);
    var min :- Atoi(f[3]);
    var sec :- Atoi(f[4]);
    Ok(DateTime(year, month, day, hour, min, sec, 0))
  }

  /**
   * For a date written as weekday, day, month, year, h:m:s and zone, the parser reads
   * exactly the day, month, year and time tokens: the weekday and zone tokens can be
   * anything without a space.
   */
  lemma {:induction false} FieldsOfWrittenDate(weekday: string, day: string, month: string, year: string,
                                              h: string, m: string, s: string, zone: string)
    requires ' ' !in weekday && ' ' !in day && ' ' !in month && ' ' !in year && ' ' !in zone
    requires ' ' !in h && ' ' !in m && ' ' !in s && ':' !in h && ':' !in m && ':' !in s
    ensures var d := Join([weekday, day, month, year, Join([h, m, s], ':'), zone], ' ');
      WellShaped(d) && NumericFields(d) == [year, day, h, m, s] && Split(d, ' ')[2] == month
  {
    var time := Join([h, m, s], ':');
    SplitJoin([h, m, s], ':');
    JoinThree(h, m, s, ':');
    assert ' ' !in time;
    var fields := [weekday, day, month, year, time, zone];
    forall i | 0 <= i < |fields| ensures ' ' !in fields[i] {
    }
    SplitJoin(fields, ' ');
  }

  /** A written date whose numeric tokens all convert parses to those numbers, with the
      month looked up by its abbreviation. */
  lemma ParsesWrittenDate(weekday: string, day: string, month: string, year: string,
                          h: string, m: string, s: string, zone: string)
    requires ' ' !in weekday && ' ' !in day && ' ' !in month && ' ' !in year && ' ' !in zone
    requires ' ' !in h && ' ' !in m && ' ' !in s && ':' !in h && ':' !in m && ':' !in s
    requires Atoi(year).Ok? && Atoi(day).Ok? && Atoi(h).Ok? && Atoi(m).Ok? && Atoi(s).Ok?
    ensures var d := Join([weekday, day, month, year, Join([h, m, s], ':'), zone], ' ');
      WellShaped(d) && ParsePubDate(d) ==
        Ok(DateTime(Atoi(year).value, MonthNumber(month), Atoi(day).value,
                    Atoi(h).value, Atoi(m).value, Atoi(s).value, 0))
  {
    FieldsOfWrittenDate(weekday, day, month, year, h, m, s, zone);
  }

  /** The example from the source comment: weekday and offset are ignored, the result is UTC. */
  lemma ParsesCommentExample(pubDate: string)
    requires pubDate == "Wed, 15 Sep 2021 00:00:00 -0400"
    ensures WellShaped(pubDate)
    ensures ParsePubDate(pubDate) == Ok(DateTime(2021, 9, 15, 0, 0, 0, 0))
  {
    CommentExampleIsWrittenDate(pubDate);
    AtoiOfExampleFields();
    ExampleTokensAreSeparatorFree();
    ParsesWrittenDate("Wed,", "15", "Sep", "2021", "00", "00", "00", "-0400");
    SeptemberIsNine();
  }

  lemma SeptemberIsNine()
    ensures MonthNumber("Sep") == 9
  {
    assert "Sep" in Months;
  }

  lemma ExampleTokensAreSeparatorFree()
    ensures ' ' !in "Wed," && ' ' !in "15" && ' ' !in "Sep" && ' ' !in "2021" && ' ' !in "-0400"
    ensures ' ' !in "00" && ':' !in "00"
  {
    assert "Wed,"[0] != ' ' && "Wed,"[1] != ' ' && "Wed,"[2] != ' ' && "Wed,"[3] != ' ';
  }

  lemma ExampleClock()
    ensures Join(["00", "00", "00"], ':') == "00:00:00"
  {
    JoinThree("00", "00", "00", ':');
  }

  lemma ExampleFromYear()
    ensures Join(["2021", "00:00:00", "-0400"], ' ') == "2021 00:00:00 -0400"
  {
    JoinThree("2021", "00:00:00", "-0400", ' ');
  }

  lemma ExampleFromMonth()
    ensures Join(["Sep", "2021", "00:00:00", "-0400"], ' ') == "Sep 2021 00:00:00 -0400"
  {
    ExampleFromYear();
    JoinCons("Sep", ["2021", "00:00:00", "-0400"], ' ');
    assert ["Sep"] + ["2021", "00:00:00", "-0400"] == ["Sep", "2021", "00:00:00", "-0400"];
  }

  lemma ExampleFromDay()
    ensures Join(["15", "Sep", "2021", "00:00:00", "-0400"], ' ') == "15 Sep 2021 00:00:00 -0400"
  {
    ExampleFromMonth();
    JoinCons("15", ["Sep", "2021", "00:00:00", "-0400"], ' ');
    assert ["15"] + ["Sep", "2021", "00:00:00", "-0400"] == ["15", "Sep", "2021", "00:00:00", "-0400"];
  }

  /** The comment's date is the join of its tokens. */
  lemma CommentExampleIsWrittenDate(pubDate: string)
    requires pubDate == "Wed, 15 Sep 2021 00:00:00 -0400"
    ensures pubDate == Join(["Wed,", "15", "Sep", "2021", Join(["00", "00", "00"], ':'), "-0400"], ' ')
  {
    var clock := Join(["00", "00", "00"], ':');
    assert clock == "00:00:00" by {
      ExampleClock();
    }
    var rest := ["15", "Sep", "2021", "00:00:00", "-0400"];
    assert ["Wed,", "15", "Sep", "2021", clock, "-0400"] == ["Wed,"] + rest;
    assert Join(["Wed,"] + rest, ' ') == "Wed," + " " + "15 Sep 2021 00:00:00 -0400" by {
      JoinCons("Wed,", rest, ' ');
      ExampleFromDay();
    }
    ExampleWithWeekday(pubDate);
  }

  lemma ExampleWithWeekday(pubDate: string)
    requires pubDate == "Wed, 15 Sep 2021 00:00:00 -0400"
    ensures "Wed," + " " + "15 Sep 2021 00:00:00 -0400" == pubDate
  {
    var t := "Wed," + " " + "15 Sep 2021 00:00:00 -0400";
    forall i | 0 <= i < |pubDate| ensures t[i] == pubDate[i] {
    }
  }

  lemma AtoiOfExampleFields()
    ensures Atoi("2021") == Ok(2021) && Atoi("15") == Ok(15) && Atoi("00") == Ok(0)
  {
    assert "2021"[..3] == "202" && "202"[..2] == "20" && "20"[..1] == "2" && "2"[..0] == "";
    assert "15"[..1] == "1" && "1"[..0] == "";
    assert "00"[..1] == "0" && "0"[..0] == "";
  }

  /** An unknown month token is not an error: the parse succeeds with month 0. */
  lemma UnknownMonthGivesZero(pubDate: string)
    requires WellShaped(pubDate)
    requires Split(pubDate, ' ')[2] !in MonthAbbreviations
    requires forall i | 0 <= i < 5 :: Atoi(NumericFields(pubDate)[i]).Ok?
    ensures ParsePubDate(pubDate).Ok? && ParsePubDate(pubDate).value.month == 0
  {
    MonthNumberIff(Split(pubDate, ' ')[2]);
  }
}
