/**
 * The page loop of `run`: count the pages, then for each iteration i either skip a page that
 * shows the error marker or click the pagination link labelled i + 1 and append the records
 * `get_job` collects; finally save when `csv_save` is set.
 */
module Session {
  import opened Wrappers
  import opened Pagination
  import opened Extraction
  import opened OutputFile

  /** The parts of the scraper's configuration that the decisions depend on. */
  datatype ScraperConfig = ScraperConfig(website: string, csvSave: bool)

  /**
   * The DOM as iteration i of the loop sees it: whether the `//main[@class='error']` marker
   * is present, and what the k-th container lookup of `get_job` answers.
   */
  datatype PageView = PageView(errorShown: bool, lookup: nat -> Lookup)

  /**
   * The loop's state after some iterations: the accumulated records, the labels passed to
   * `next_page` so far, and whether an exception escaped `get_job`.
   */
  datatype Progress = Progress(jobs: seq<Job>, clicked: seq<nat>, aborted: bool)

  /** One iteration, with index i, of the loop body. */
  function Iterate(p: Progress, i: nat, view: PageView): Progress {
    if view.errorShown then p
    else match Collected(view.lookup)
      case Raised => Progress(p.jobs, p.clicked + [i + 1], true)
      case Ok(found) => Progress(p.jobs + found, p.clicked + [i + 1], false)
  }

  /** The state after the first m iterations; an exception ends the loop. */
  function Loop(pages: nat -> PageView, m: nat): Progress {
    if m == 0 then Progress([], [], false)
    else
      var p := Loop(pages, m - 1);
      if p.aborted then p else Iterate(p, m - 1, pages(m - 1))
  }

  /** What a run leaves behind: either it raised, or it finished with its records and save. */
  datatype RunOutcome =
    | Aborted(clicked: seq<nat>)
    | Finished(jobs: seq<Job>, clicked: seq<nat>, save: Option<SaveOutcome>)

  /** The outcome of `run` as a function of the pagination texts, the pages and the date. */
  function RunResult(cfg: ScraperConfig, paginationTexts: seq<string>, pages: nat -> PageView, today: Date)
    : RunOutcome
  {
    var p := Loop(pages, CountPage(paginationTexts));
    if p.aborted then Aborted(p.clicked)
    else Finished(p.jobs, p.clicked, if cfg.csvSave then Some(SaveToCsv(cfg.website, today, p.jobs)) else None)
  }

  /** Once the loop has raised, later iterations change nothing. */
  lemma {:induction false} AbortIsFinal(pages: nat -> PageView, m: nat, m': nat)
    requires m <= m' && Loop(pages, m).aborted
    ensures Loop(pages, m') == Loop(pages, m)
  {
    if m < m' {
      AbortIsFinal(pages, m, m' - 1);
    }
  }

  /**
   * `run`: iterations 0 .. n-1 for n = `count_page(...)`; a page with the error marker is
   * skipped, any other is clicked by label i + 1 and its records are appended; the save step
   * happens exactly when `csv_save` is true.
   */
  method Run(cfg: ScraperConfig, paginationTexts: seq<string>, pages: nat -> PageView, today: Date)
    returns (outcome: RunOutcome)
    ensures outcome == RunResult(cfg, paginationTexts, pages, today)
    ensures outcome.Finished? ==> (outcome.save.Some? <==> cfg.csvSave)
    ensures outcome.Finished? && cfg.csvSave ==> outcome.save == Some(SaveToCsv(cfg.website, today, outcome.jobs))
  {
    var n := CountPage(paginationTexts);
    var jobList: seq<Job> := [];
    var clicked: seq<nat> := [];
    for i := 0 to n
      invariant Loop(pages, i) == Progress(jobList, clicked, false)
    {
      var view := pages(i);
      if view.errorShown {
        continue;
      }
      clicked := clicked + [i + 1];
      var container, _ := GetJob(view.lookup);
      if container.Raised? {
        AbortIsFinal(pages, i + 1, n);
        return Aborted(clicked);
      }
      jobList := jobList + container.value;
    }
    var save := None;
    if cfg.csvSave {
      save := Some(SaveToCsv(cfg.website, today, jobList));
    }
    outcome := Finished(jobList, clicked, save);
  }

  /** Each label is i + 1 for an iteration i < m whose page shows no error marker. */
  ghost predicate LabelsOfClearPages(pages: nat -> PageView, m: nat, c: seq<nat>) {
    forall k :: 0 <= k < |c| ==> 1 <= c[k] <= m && !pages(c[k] - 1).errorShown
  }

  ghost predicate Increasing(c: seq<nat>) {
    forall a, b :: 0 <= a < b < |c| ==> c[a] < c[b]
  }

  /**
   * The labels clicked are increasing, each is i + 1 for an iteration i < m whose page shows
   * no error marker, and a loop that did not raise clicked every such label.
   */
  lemma {:induction false} ClickedLabels(pages: nat -> PageView, m: nat)
    ensures LabelsOfClearPages(pages, m, Loop(pages, m).clicked)
    ensures Increasing(Loop(pages, m).clicked)
  {
    if m > 0 {
      ClickedLabels(pages, m - 1);
      var p := Loop(pages, m - 1);
      var c := Loop(pages, m).clicked;
      LoopStep(pages, m);
      if p.aborted || pages(m - 1).errorShown {
        assert c == p.clicked;
      } else {
        assert c == p.clicked + [m];
        AppendLabel(pages, m, p.clicked);
      }
    }
  }

  lemma AppendLabel(pages: nat -> PageView, m: nat, c: seq<nat>)
    requires m > 0 && !pages(m - 1).errorShown
    requires LabelsOfClearPages(pages, m - 1, c) && Increasing(c)
    ensures LabelsOfClearPages(pages, m, c + [m]) && Increasing(c + [m])
  {
    var c' := c + [m];
    forall a, b | 0 <= a < b < |c'| ensures c'[a] < c'[b] {
      assert c'[a] == c[a];
      if b < |c| {
        assert c'[b] == c[b];
      }
    }
  }

  /** A loop that did not raise clicked the label of every page without the error marker. */
  lemma {:induction false} ClearPagesClicked(pages: nat -> PageView, m: nat)
    ensures !Loop(pages, m).aborted ==>
      forall i :: 0 <= i < m && !pages(i).errorShown ==> i + 1 in Loop(pages, m).clicked
  {
    if m > 0 {
      ClearPagesClicked(pages, m - 1);
      LoopStep(pages, m);
    }
  }

  /** How one more iteration changes the records, the clicks and the abort flag. */
  lemma LoopStep(pages: nat -> PageView, m: nat)
    requires m > 0
    ensures var p := Loop(pages, m - 1);
      Loop(pages, m).jobs ==
        if p.aborted || pages(m - 1).errorShown || Collected(pages(m - 1).lookup).Raised? then p.jobs
        else p.jobs + Collected(pages(m - 1).lookup).value
    ensures var p := Loop(pages, m - 1);
      Loop(pages, m).clicked == if p.aborted || pages(m - 1).errorShown then p.clicked else p.clicked + [m]
    ensures var p := Loop(pages, m - 1);
      Loop(pages, m).aborted ==
        (p.aborted || (!pages(m - 1).errorShown && Collected(pages(m - 1).lookup).Raised?))
  {
  }

  /** The records one page contributes: none behind the error marker, else what `get_job` returns. */
  function PageRecords(view: PageView): seq<Job> {
    if view.errorShown then []
    else match Collected(view.lookup)
      case Ok(found) => found
      case Raised => []
  }

  /** The in-order concatenation of the records of pages 0 .. m-1. */
  function Flat(pages: nat -> PageView, m: nat): seq<Job> {
    if m == 0 then [] else Flat(pages, m - 1) + PageRecords(pages(m - 1))
  }

  /**
   * A loop that did not raise keeps every record of every page without the error marker, in
   * page order: its records are exactly the concatenation of the pages' records.
   */
  lemma {:induction false} LoopKeepsAllRecords(pages: nat -> PageView, m: nat)
    ensures !Loop(pages, m).aborted ==> Loop(pages, m).jobs == Flat(pages, m)
  {
    if m > 0 {
      LoopKeepsAllRecords(pages, m - 1);
      LoopStep(pages, m);
      if !Loop(pages, m).aborted {
        assert !Loop(pages, m - 1).aborted;
      }
    }
  }

  /** The number of records per page, for pages 0 .. m-1. */
  function PageCounts(pages: nat -> PageView, m: nat): (r: seq<nat>)
    ensures |r| == m
    ensures forall i :: 0 <= i < m ==> r[i] == |PageRecords(pages(i))|
  {
    if m == 0 then [] else PageCounts(pages, m - 1) + [|PageRecords(pages(m - 1))|]
  }

  /** A loop that did not raise holds as many records as the pages' record counts add up to. */
  lemma {:induction false} LoopLength(pages: nat -> PageView, m: nat)
    ensures !Loop(pages, m).aborted ==> |Loop(pages, m).jobs| == Sum(PageCounts(pages, m))
  {
    LoopKeepsAllRecords(pages, m);
    FlatLength(pages, m);
  }

  lemma {:induction false} FlatLength(pages: nat -> PageView, m: nat)
    ensures |Flat(pages, m)| == Sum(PageCounts(pages, m))
  {
    if m > 0 {
      FlatLength(pages, m - 1);
      SumAppend(PageCounts(pages, m - 1), |PageRecords(pages(m - 1))|);
    }
  }

  /** Records and clicks only ever grow at the end: earlier pages come first. */
  lemma {:induction false} LoopExtends(pages: nat -> PageView, m: nat, m': nat)
    requires m <= m'
    ensures Loop(pages, m).jobs <= Loop(pages, m').jobs
    ensures Loop(pages, m).clicked <= Loop(pages, m').clicked
  {
    if m < m' {
      LoopExtends(pages, m, m' - 1);
    }
  }

  /** Every accumulated record was collected on some page without the error marker. */
  lemma {:induction false} LoopJobsSound(pages: nat -> PageView, m: nat, j: Job)
    requires j in Loop(pages, m).jobs
    ensures exists i :: 0 <= i < m && !pages(i).errorShown && Collected(pages(i).lookup).Ok?
                        && j in Collected(pages(i).lookup).value
  {
    var p := Loop(pages, m - 1);
    if j in p.jobs {
      LoopJobsSound(pages, m - 1, j);
    } else {
      assert !p.aborted && !pages(m - 1).errorShown;
    }
  }

  /** The contents of pages that show the error marker do not affect the run. */
  lemma {:induction false} ErrorPagesIgnored(pages: nat -> PageView, other: nat -> PageView, m: nat)
    requires forall i :: 0 <= i < m ==> pages(i).errorShown == other(i).errorShown
    requires forall i :: 0 <= i < m && !pages(i).errorShown ==> Collected(pages(i).lookup) == Collected(other(i).lookup)
    ensures Loop(pages, m) == Loop(other, m)
  {
    if m > 0 {
      ErrorPagesIgnored(pages, other, m - 1);
    }
  }

  /** With no error pages, no failed lookups and no exceptions, every container gives a record. */
  lemma {:induction false} NothingLost(pages: nat -> PageView, m: nat, counts: seq<nat>)
    requires |counts| == m
    requires forall i :: 0 <= i < m ==> !pages(i).errorShown && pages(i).lookup(0).Containers?
    requires forall i :: 0 <= i < m ==> |pages(i).lookup(0).items| == counts[i]
    requires forall i, c :: 0 <= i < m && c in pages(i).lookup(0).items ==> Complete(c)
    ensures !Loop(pages, m).aborted
    ensures |Loop(pages, m).jobs| == Sum(counts)
  {
    if m > 0 {
      NothingLost(pages, m - 1, counts[..m - 1]);
      var cs := pages(m - 1).lookup(0).items;
      assert forall i :: 0 <= i < |cs| ==> Complete(cs[i]);
      assert counts == counts[..m - 1] + [counts[m - 1]];
      SumAppend(counts[..m - 1], counts[m - 1]);
    }
  }

  function Sum(xs: seq<nat>): nat {
    if xs == [] then 0 else xs[0] + Sum(xs[1..])
  }

  lemma {:induction false} SumAppend(xs: seq<nat>, x: nat)
    ensures Sum(xs + [x]) == Sum(xs) + x
  {
    if xs != [] {
      assert (xs + [x])[1..] == xs[1..] + [x];
      SumAppend(xs[1..], x);
    }
  }

  /** A container with all four fields, and one whose title lookup fails. */
  const Listed: Container := Container(Text("Werkstudent"), Anchor(Some("https://de.indeed.com/a")), Text("ACME"), Text("Munich"))
  const Untitled: Container := Container(Absent, Anchor(Some("https://de.indeed.com/b")), Text("ACME"), Text("Munich"))

  /** Two result pages: three complete containers, then two of which one lacks a title. */
  function TwoPages(i: nat): PageView {
    if i == 0 then PageView(false, k => Containers([Listed, Listed, Listed]))
    else PageView(false, k => Containers([Listed, Untitled]))
  }

  /** The two-page run with saving enabled collects four records and writes them. */
  lemma TwoPageRun()
    ensures var r := RunResult(ScraperConfig("https://de.indeed.com/Jobs?q=werkstudent", true),
                               ["1", "2"], TwoPages, Date(1, 5, 2024));
      r.Finished? && |r.jobs| == 4 && r.clicked == [1, 2]
      && r.save == Some(Written("indeed-01-05-2024.csv", r.jobs))
  {
    assert CountPage(["1", "2"]) == 2;
    TwoPagesLoop();
    IndeedFileName();
  }

  lemma TwoPagesLoop()
    ensures Loop(TwoPages, 2) == Progress([ToJob(Listed), ToJob(Listed), ToJob(Listed), ToJob(Listed)], [1, 2], false)
  {
    TwoPagesCollected();
    assert Loop(TwoPages, 1) == Progress([ToJob(Listed), ToJob(Listed), ToJob(Listed)], [1], false);
  }

  lemma TwoPagesCollected()
    ensures Collected(TwoPages(0).lookup) == Ok([ToJob(Listed), ToJob(Listed), ToJob(Listed)])
    ensures Collected(TwoPages(1).lookup) == Ok([ToJob(Listed)])
  {
    assert Complete(Listed) && !Complete(Untitled);
    assert [Listed, Listed, Listed][..2] == [Listed, Listed];
    assert [Listed, Listed][..1] == [Listed];
    assert [Listed][..0] == [];
    assert Extract([Listed]) == [ToJob(Listed)];
    assert Extract([Listed, Listed]) == [ToJob(Listed), ToJob(Listed)];
    assert Extract([Listed, Listed, Listed]) == [ToJob(Listed), ToJob(Listed), ToJob(Listed)];
    assert [Listed, Untitled][..1] == [Listed];
    assert Extract([Listed, Untitled]) == [ToJob(Listed)];
  }
}
