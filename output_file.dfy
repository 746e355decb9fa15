/**
 * The output file of `save_to_csv`: its name `{site}-{dd}-{mm}-{yyyy}.csv`, built from the
 * site fragment of the URL and the current date (given here as a parameter), and the rows
 * handed to the CSV writer.
 */
module OutputFile {
  import opened Wrappers
  import opened Text
  import SiteName
  import Extraction

  /** A calendar date as `datetime.now()` would give it. */
  datatype Date = Date(day: nat, month: nat, year: nat)

  predicate ValidDate(d: Date) {
    1 <= d.day <= 31 && 1 <= d.month <= 12 && 1 <= d.year <= 9999
  }

  /** `-dd-mm-yyyy.csv`: the part of the name after the site fragment, for a valid date. */
  const DateSuffixLength: nat := 15

  /** `f'{fragment}-{day}-{month}-{year}.csv'` with the `%d`, `%m`, `%Y` fields. */
  function NameFor(fragment: string, d: Date): string {
    fragment + "-" + Pad(d.day, 2) + "-" + Pad(d.month, 2) + "-" + Pad(d.year, 4) + ".csv"
  }

  /**
   * The name `save_to_csv` writes to, or None when the URL has no site fragment (indexing the
   * empty `findall` result raises, the handler catches it and nothing is written).
   */
  function FileName(website: string, d: Date): (r: Option<string>)
    ensures r.None? <==> forall p: nat, e: nat :: !SiteName.MatchAt(website, p, e)
    ensures r.Some? && ValidDate(d) ==> ParseFileName(r.value) == Some((SiteName.FirstMatch(website).value, d))
  {
    match SiteName.FirstMatch(website)
    case None => None
    case Some(fragment) =>
      assert ValidDate(d) ==> ParseFileName(NameFor(fragment, d)) == Some((fragment, d)) by {
        if ValidDate(d) { NameRoundTrip(fragment, d); }
      }
      Some(NameFor(fragment, d))
  }

  /** Reads fragment and date back out of a name of the form `{fragment}-dd-mm-yyyy.csv`. */
  function ParseFileName(name: string): Option<(string, Date)> {
    var n := |name|;
    if n < DateSuffixLength then None
    else
      var f := n - DateSuffixLength;
      var dd, mm, yyyy := name[f + 1..f + 3], name[f + 4..f + 6], name[f + 7..f + 11];
      if name[f] == '-' && name[f + 3] == '-' && name[f + 6] == '-' && name[f + 11..] == ".csv"
         && IsNumeric(dd) && IsNumeric(mm) && IsNumeric(yyyy)
      then Some((name[..f], Date(DigitsValue(dd), DigitsValue(mm), DigitsValue(yyyy))))
      else None
  }

  /** The name determines the fragment and the date it was built from. */
  lemma NameRoundTrip(fragment: string, d: Date)
    requires ValidDate(d)
    ensures ParseFileName(NameFor(fragment, d)) == Some((fragment, d))
  {
    var dd, mm, yyyy := Pad(d.day, 2), Pad(d.month, 2), Pad(d.year, 4);
    assert Pow10(2) == 100 && Pow10(4) == 10000;
    PadLength(d.day, 2);
    PadLength(d.month, 2);
    PadLength(d.year, 4);
    PadRoundTrip(d.day, 2);
    PadRoundTrip(d.month, 2);
    PadRoundTrip(d.year, 4);
    var name := NameFor(fragment, d);
    var f := |fragment|;
    assert name == fragment + "-" + dd + "-" + mm + "-" + yyyy + ".csv";
    assert |name| == f + DateSuffixLength;
    assert name[..f] == fragment;
    assert name[f + 1..f + 3] == dd;
    assert name[f + 4..f + 6] == mm;
    assert name[f + 7..f + 11] == yyyy;
    assert name[f + 11..] == ".csv";
  }

  /** What `save_to_csv` does: write the records to the named file, or write nothing. */
  datatype SaveOutcome = Written(fileName: string, rows: seq<Extraction.Job>) | NoFileName

  function SaveToCsv(website: string, d: Date, jobs: seq<Extraction.Job>): (r: SaveOutcome)
    ensures r.Written? <==> exists p: nat, e: nat :: SiteName.MatchAt(website, p, e)
    ensures r.Written? ==> r.rows == jobs
    ensures r.Written? && ValidDate(d) ==> ParseFileName(r.fileName) == Some((SiteName.FirstMatch(website).value, d))
  {
    match FileName(website, d)
    case None => NoFileName
    case Some(name) => Written(name, jobs)
  }

  /** The Indeed URL on 1 May 2024 gives `indeed-01-05-2024.csv`. */
  lemma IndeedFileName()
    ensures FileName("https://de.indeed.com/Jobs?q=werkstudent", Date(1, 5, 2024)) == Some("indeed-01-05-2024.csv")
  {
    SiteName.IndeedFragment();
    FirstOfMay2024();
  }

  lemma FirstOfMay2024()
    ensures NameFor("indeed", Date(1, 5, 2024)) == "indeed-01-05-2024.csv"
  {
    PaddedFields();
    assert "indeed" + "-" + "01" + "-" + "05" + "-" + "2024" + ".csv" == "indeed-01-05-2024.csv";
  }

  lemma PaddedFields()
    ensures Pad(1, 2) == "01" && Pad(5, 2) == "05" && Pad(2024, 4) == "2024"
  {
    assert Pad(1, 2) == "01";
    assert Pad(5, 2) == "05";
    assert Decimal(2024) == "2024";
  }
}
