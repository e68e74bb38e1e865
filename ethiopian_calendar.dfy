/**
 * The web dashboard's Ethiopian date label: an approximate conversion that
 * keeps the Gregorian day, names the Gregorian month with the Ethiopian month
 * of the same position and subtracts seven from the year. It is not the real
 * Ethiopian calendar.
 */
module EthiopianCalendar {
  import opened Util
  import opened Text

  /** The thirteen Ethiopian month names, Meskerem to Pagume. */
  const MonthNames: seq<string> := [
    "መስከረም", "ጥቅምት", "ህዳር", "ታህሳስ", "ጥር", "የካቲት",
    "መጋቢት", "ሚያዝያ", "ግንቦት", "ሰኔ", "ሐምሌ", "ነሐሴ", "ጳጉሜን"
  ]

  /** The offset the label subtracts from the Gregorian year. */
  const YearOffset := 7

  /** `Date.getMonth()`: a zero-based Gregorian month. */
  type MonthIndex = m: int | 0 <= m < 12

  /** The fields `Date` reads from a parsed date: full year, zero-based month, day of the month. */
  datatype GregorianDate = GregorianDate(year: int, month: MonthIndex, day: int)

  /**
   * `convertToEthiopian`: `None` stands for a string that `new Date` cannot
   * parse, whose year and day are `NaN` and whose month name is `undefined`.
   */
  function ConvertToEthiopian(date: Option<GregorianDate>): (text: string)
    ensures date.None? ==> text == "NaN undefined NaN"
    ensures date.Some? ==> ' ' in text
  {
    match date
    case None => "NaN undefined NaN"
    case Some(d) => Join([IntToString(d.day), MonthNames[d.month], IntToString(d.year - YearOffset)], ' ')
  }

  /** No month name holds a space. */
  lemma NamesHaveNoSpace(names: seq<string>)
    requires names == MonthNames
    ensures forall k :: 0 <= k < |names| ==> ' ' !in names[k]
  {
  }

  /** The last name, Pagume, differs from each of the twelve names a Gregorian month can select. */
  lemma PagumeIsThirteenth(names: seq<string>)
    requires names == MonthNames
    ensures |names| == 13
    ensures forall k :: 0 <= k < 12 ==> names[k] != names[12]
  {
  }

  /** A number's text holds no space. */
  lemma NoSpaceInNumber(n: int)
    ensures ' ' !in IntToString(n)
  {
  }

  /**
   * The label reads back: split at single spaces it gives the day, the month
   * name of the Gregorian month's position and the year less seven, and the
   * two numbers parse back to those values.
   */
  lemma LabelReadsBack(d: GregorianDate)
    ensures var parts := Split(ConvertToEthiopian(Some(d)), ' ');
      && parts == [IntToString(d.day), MonthNames[d.month], IntToString(d.year - YearOffset)]
      && ParseInt(parts[0]) == Some(d.day)
      && ParseInt(parts[2]) == Some(d.year - 7)
  {
    NamesHaveNoSpace(MonthNames);
    NoSpaceInNumber(d.day);
    NoSpaceInNumber(d.year - YearOffset);
    SplitJoin([IntToString(d.day), MonthNames[d.month], IntToString(d.year - YearOffset)], ' ');
    IntRoundTrip(d.day);
    IntRoundTrip(d.year - YearOffset);
  }

  /** Pagume, the thirteenth month, is never the month of a label. */
  lemma PagumeNeverShown(d: GregorianDate)
    ensures var parts := Split(ConvertToEthiopian(Some(d)), ' ');
      |parts| == 3 && parts[1] != MonthNames[12] && parts[1] in MonthNames[..12]
  {
    LabelReadsBack(d);
    PagumeIsThirteenth(MonthNames);
  }

  /** Two dates give the same label exactly when they agree in day, month and year. */
  lemma LabelInjective(d1: GregorianDate, d2: GregorianDate)
    ensures ConvertToEthiopian(Some(d1)) == ConvertToEthiopian(Some(d2)) <==> d1 == d2
  {
    if ConvertToEthiopian(Some(d1)) == ConvertToEthiopian(Some(d2)) {
      LabelReadsBack(d1);
      LabelReadsBack(d2);
      DistinctNames(MonthNames, d1.month, d2.month);
    }
  }

  /** The twelve names a Gregorian month selects are pairwise different. */
  lemma DistinctNames(names: seq<string>, i: MonthIndex, j: MonthIndex)
    requires names == MonthNames
    ensures names[i] == names[j] ==> i == j
  {
  }
}
