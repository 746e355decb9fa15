# job_scraper decision logic, modelled in Dafny

`job_scraper` (`src/Jobs_Scraper.py`) drives a Selenium browser over the result pages of a
job-search site such as Indeed. It collects one record per job container (title, company,
location, link) and writes the records to `{site}-{dd}-{mm}-{yyyy}.csv`. This project models
the decisions the scraper makes once the browser is taken away. The DOM is given as plain data:

- for every container, the outcome of its four child lookups;
- for every `find_elements` call on the containers, whether it raises a stale-element error,
  raises some other error, or returns the containers;
- for every page-loop iteration, whether the error marker `//main[@class='error']` is present;
- the visible texts of the pagination links, and the current date.

Modules, one per concern of the source file:

- `Wrappers` (`wrappers.dfy`): `Option` and `Result` (`Ok` or `Raised`, for an exception that propagates).
- `Text` (`text.dfy`): `str.isnumeric` (ASCII digits only), `str()` of a natural number, zero-padded
  `strftime` fields, and reading a digit string back.
- `SiteName` (`site_name.dfy`): the first match of `(?<=\.).*(?=\.com)` as `re.findall(...)[0]` finds it.
  The specification is a declarative `MatchAt` predicate, and a left-to-right scan with greedy
  backtracking whose contract says it finds the earliest start and the longest match at that start.
- `Pagination` (`pagination.dfy`): `count_page` and the page-button locator of `run`.
- `Extraction` (`extraction.dfy`): containers, job records, and `get_job` as a method with the
  bounded retry loop and the inner container loop.
- `OutputFile` (`output_file.dfy`): the output file name and what `save_to_csv` writes.
- `Session` (`session.dfy`): the page loop of `run` as a method, proved against the specification
  function `Loop`, plus lemmas about `Loop`.

Behaviour of the code that the model keeps:

- `count_page` counts the numeric pagination texts. It does not take their maximum.
  `["1","2","10","Next"]` gives 3, not 10 (`CountIsNotMaximum`).
- `get_job` has no `NA` or default-location fallback. A container missing any of the four
  lookups yields no record.
- A non-stale error raised by the container lookup is not retried. It propagates out of
  `get_job` and ends `run` before the save step and before `driver.quit()`.
  For this reason the browser is not released on every exit path.
- `get_attribute("href")` returns `None` rather than raising when the attribute is missing.
  So a record's link is optional (`Option<string>`), while the other three fields are strings.
- An iteration that sees the error marker `continue`s before `next_page`, so it clicks no label.

## Model

| member | source | states |
|---|---|---|
| Text.Decimal | src/Jobs_Scraper.py:133 | `str(n)` is a non-empty digit string with no leading zero unless n is 0, one character exactly when n < 10 |
| Text.DecimalRoundTrip | src/Jobs_Scraper.py:133 | reading the digits of `str(n)` gives back n |
| Text.Pad | src/Jobs_Scraper.py:113-115 | a zero-padded field is numeric and as long as the width, or as the plain decimal if that is longer |
| Text.PadRoundTrip | src/Jobs_Scraper.py:113-115 | the leading zeros of a padded field do not change the number it denotes |
| Text.PadLength | src/Jobs_Scraper.py:113-115 | a number below 10^w padded to width w has exactly w characters (two for `%d`/`%m`, four for `%Y`) |
| SiteName.FirstMatchSpan | src/Jobs_Scraper.py:116 | the span found is a match; no match starts earlier; no longer match has the same start; None exactly when the pattern matches nowhere |
| SiteName.FirstMatch | src/Jobs_Scraper.py:116-117 | `findall(...)[0]` is missing exactly when no span after a dot, free of newlines, is followed by `.com` |
| SiteName.FragmentOfHost | src/Jobs_Scraper.py:116 | for a URL `a.b.com c` with no dot in a or c and no newline in b, the fragment is b |
| SiteName.IndeedFragment | src/Jobs_Scraper.py:116 | `https://de.indeed.com/Jobs?q=werkstudent` gives `indeed` |
| Pagination.CountPage | src/Jobs_Scraper.py:82-85 | the count is at most the number of texts; it equals it iff every text is numeric; it is 0 iff none is (so 0 for no elements) |
| Pagination.CountPageIsCardinality | src/Jobs_Scraper.py:85 | the count equals the number of positions holding a numeric text |
| Pagination.CountPageAppend | src/Jobs_Scraper.py:85 | counting is additive over concatenated lists of texts |
| Pagination.CountIsNotMaximum | src/Jobs_Scraper.py:85 | `["1","2","10","Next"]` counts as 3 pages, not 10 |
| Pagination.CountOfConsecutiveLabels | src/Jobs_Scraper.py:85 | texts `1`..`k` count as k pages |
| Pagination.LabelOfPageButton | src/Jobs_Scraper.py:133 | the locator `PageButton(label)`, built for a label, names that label, which can be read back from it |
| Pagination.PageButtonInjective | src/Jobs_Scraper.py:133 | different labels give different locators |
| Extraction.Extract | src/Jobs_Scraper.py:92-104 | records are at most the containers, and equally many exactly when every container has all four lookups |
| Extraction.ExtractAppend | src/Jobs_Scraper.py:92-101 | extraction keeps container order: the records of `a + b` are those of a followed by those of b |
| Extraction.ExtractSound | src/Jobs_Scraper.py:92-104 | every record is the record of some complete container, so no default value is ever emitted |
| Extraction.ExtractComplete | src/Jobs_Scraper.py:92-104 | every complete container yields its record |
| Extraction.GetJob | src/Jobs_Scraper.py:87-108 | 1 to 3 attempts; all but the last answered stale; fewer than 3 attempts only when the last was not stale; the result is the last attempt's records, `Raised` for a non-stale error, empty after three stale answers |
| Extraction.CollectedSound | src/Jobs_Scraper.py:87-108 | every record `get_job` returns comes from a complete container of one of the three attempts |
| Extraction.CollectedUsesThreeAttempts | src/Jobs_Scraper.py:89 | answers after the third attempt do not affect `get_job` |
| Extraction.StaleTwiceThenFound | src/Jobs_Scraper.py:89-106 | stale, stale, then containers: the records of the third attempt |
| Extraction.AllStale | src/Jobs_Scraper.py:88-108 | three stale answers give the empty list |
| OutputFile.FileName | src/Jobs_Scraper.py:110-122 | no name exactly when the URL has no match; otherwise, for a valid date, the name reads back as the first match and that date |
| OutputFile.NameRoundTrip | src/Jobs_Scraper.py:117 | `{fragment}-{dd}-{mm}-{yyyy}.csv` determines the fragment and the date |
| OutputFile.SaveToCsv | src/Jobs_Scraper.py:110-122 | a file is written exactly when the pattern matches somewhere in the URL; it holds the records unchanged, and for a valid date its name reads back as the first match and that date |
| OutputFile.IndeedFileName | src/Jobs_Scraper.py:113-117 | the Indeed URL on 1 May 2024 gives `indeed-01-05-2024.csv` |
| Session.Run | src/Jobs_Scraper.py:124-138 | the outcome is the `Loop` over `count_page` iterations; a finished run saves iff `csv_save`, and saves its accumulated records; `clicked` holds the labels, and `next_page` is given `PageButton(label)` for each |
| Session.AbortIsFinal | src/Jobs_Scraper.py:129-136 | once an exception escapes `get_job`, later iterations change nothing |
| Session.LoopStep | src/Jobs_Scraper.py:129-136 | an iteration adds label i + 1 exactly when the loop is still running and the page shows no error marker, appends that page's records unless `get_job` raised, and aborts only when `get_job` raised |
| Session.ClickedLabels | src/Jobs_Scraper.py:129-133 | clicked labels are increasing and each is i + 1 for an iteration i below the count whose page has no error marker |
| Session.ClearPagesClicked | src/Jobs_Scraper.py:129-133 | a loop that did not raise clicked label i + 1 for every page i without the error marker |
| Session.LoopExtends | src/Jobs_Scraper.py:128-136 | records and clicks only grow at the end, so earlier pages' records come first |
| Session.LoopKeepsAllRecords | src/Jobs_Scraper.py:128-136 | a run that did not raise holds exactly the in-order concatenation of the records of every page without the error marker |
| Session.LoopLength | src/Jobs_Scraper.py:128-136 | a run that did not raise holds as many records as the per-page record counts add up to |
| Session.LoopJobsSound | src/Jobs_Scraper.py:128-136 | every accumulated record was collected on some page, below the count, without the error marker |
| Session.ErrorPagesIgnored | src/Jobs_Scraper.py:131-132 | what pages with the error marker contain does not affect the run |
| Session.NothingLost | src/Jobs_Scraper.py:128-136 | with no error pages and only complete containers on the first attempt, the records number the sum of the containers |
| Session.TwoPageRun | src/Jobs_Scraper.py:124-138 | 3 complete containers, then 2 with one lacking a title: 4 records, labels 1 and 2, saved to `indeed-01-05-2024.csv` |

## Left out

- Driver construction, Chrome options, the stealth fingerprint settings and the chromedriver path (lines 44-63): these configure a foreign browser library.
- `driver.get(website)`, `accept_cookie`, the click side of `next_page`, `WebDriverWait` and `ActionChains` (lines 65-80, 125-127, 135): these are browser I/O. The model does not capture that `driver.get` can raise and end `run` before any page is counted. The model records which label `next_page` is asked to click, not whether the click succeeded.
- Line 127 looks up the cookie button again with `find_element`, which raises when the button is gone. This is browser I/O and is not modelled.
- `time.sleep(np.random.randint(5))` (line 130): randomised pacing with no effect on the result.
- `datetime.now()` is a parameter of the model. `pd.DataFrame(...).to_csv(...)` is reduced to "these records go to this name", and write failures are not modelled. `print` logging is left out.
- `driver.quit()`, the final `print(job_list)` and the module-level script (lines 139-153): teardown and hard-coded configuration. The XPath selectors are absorbed into the abstract DOM. The model's configuration keeps only the URL and `csv_save`.
- The unused `HTML_label` list (line 84).
- Errors raised by the other `find_elements` calls (in `count_page` and in the error-marker check) are not modelled. Only the container lookup of `get_job` may raise in the model.
- `Text.IsNumeric` accepts only ASCII digits. Python's `str.isnumeric` also accepts other Unicode numeric characters.
- OutputFile.FileName: years below 1000 are padded to four digits. Some platforms' `%Y` prints them unpadded.
- SiteName.IndeedFragment and OutputFile.IndeedFileName use a shortened form of the configured Indeed URL, `https://de.indeed.com/Jobs?q=werkstudent`. `SiteName.FragmentOfHost` covers the full URL, including the query string that follows `.com/`.
