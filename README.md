# Forensic financial dashboard — score interpreter

A Dafny model of the domain logic of a single-page dashboard that reads a
spreadsheet of per-company, per-year forensic accounting scores (Piotroski
F-Score, Montier C-Score, Ohlson O-Score, accrual zone) and shows, for a
selected company, the latest year's scores with a caption each, an overall
verdict banner with a fixed colour, and an accrual-quality card whose colour
depends on the zone name.

Modules:

- `Scores` (`scores.dfy`): the three captions (`FLabel`, `CLabel`, `OLabel`) and
  the ordered verdict chain `Overall`, with the verdict texts (emoji included)
  and banner colours. Scores are `real`, so fractional boundary values behave
  as the dashboard's comparisons make them behave.
- `Accruals` (`accruals.dfy`): the exact, case-sensitive zone-name match that
  gives the accrual card its colour.
- `Records` (`records.dfy`): the table rows, the company selector's distinct
  choices, filtering to one company, sorting by year, and taking the last row.
  The table's sort is not stable; the model uses one concrete sort, but what
  it proves about the chosen row holds for every year-sorted ordering: the
  rows that can come last are exactly the rows of the company with its
  largest year (`PossibleChoiceIffLatest`).
- `Dashboard` (`dashboard.dfy`): one page as a pure function of the table and
  the selected company.
- `Wrappers` (`wrappers.dfy`): `Option`, for a company with no rows.

The F- and C-Scores are usually whole numbers, but the code compares whatever
number the cell holds: a C-Score of 3.5 is captioned High Risk (`c > 3`) yet
can get a Watchlist verdict (`c >= 4` fails), as
`FractionalHighRiskMayBeWatchlist` shows. The accrual card names three zones
and gives every other string the fourth colour.

## Model

| member | source | states |
|---|---|---|
| `Scores.FLabel` | app.py:60 | Strong exactly when f ≥ 7, Moderate exactly when 4 ≤ f < 7, Weak exactly when f < 4 |
| `Scores.CLabel` | app.py:61 | Low Risk exactly when c ≤ 1, Moderate Risk exactly when 1 < c ≤ 3, High Risk exactly when c > 3 |
| `Scores.OLabel` | app.py:62 | Stable exactly when o ≤ 1, At Risk exactly when o > 1 |
| `Scores.Overall` | app.py:80-88 | first match wins: Healthy exactly when f ≥ 7, c ≤ 1 and o ≤ 1; High Forensic Risk exactly when that fails and c ≥ 4 or o ≥ 3; Watchlist otherwise |
| `Scores.BranchesExclusive` | app.py:80-83 | the Healthy guard and the High Forensic Risk guard never hold together |
| `Scores.RiskVerdictExactly` | app.py:80-85 | High Forensic Risk is given exactly when c ≥ 4 or o ≥ 3, whatever f is, so the branch order does not matter for it |
| `Scores.VerdictColourIdentifiesVerdict` | app.py:80-88 | the three verdicts have three distinct banner colours |
| `Scores.HealthyIffBestLabels` | app.py:60-82 | the verdict is Healthy exactly when the captions are Strong, Low Risk and Stable |
| `Scores.RiskVerdictHasRiskLabel` | app.py:60-85 | a High Forensic Risk verdict implies the caption High Risk or At Risk |
| `Scores.IntegralHighRiskForcesRiskVerdict` | app.py:61-85 | for a whole-number C-Score, a High Risk caption forces a High Forensic Risk verdict |
| `Scores.FractionalHighRiskMayBeWatchlist` | app.py:61-88 | c = 3.5 is captioned High Risk while (9, 3.5, 0) gets the Watchlist verdict |
| `Scores.BoundaryExamples` | app.py:60-88 | f = 4 is Moderate and 3.999 Weak; c = 1 is Low Risk and 1.5 Moderate Risk; o = 1 is Stable and 1.0001 At Risk; (7, 1, 1) is Healthy, (7, 1, 3) High Forensic Risk and (5, 2, 0.5) Watchlist |
| `Scores.LabelsMonotone` | app.py:60-62 | a larger F-Score never gives a worse caption; a larger C- or O-Score never gives a better one |
| `Scores.OverallMonotone` | app.py:80-88 | a higher F-Score and lower C- and O-Scores never make the verdict more severe |
| `Accruals.ZoneColour` | app.py:112-119 | the three named zones get green, amber and blue; the red default is given exactly when the name is none of them |
| `Accruals.ZoneColourIdentifiesZone` | app.py:112-119 | equal colours mean the same named zone, or two unrecognised names |
| `Accruals.ZoneMatchIsCaseSensitive` | app.py:112-119 | the strings "high-quality earnings", "Early Warning Zone " (trailing space) and "Unrecognized Value" get the default colour |
| `Records.Filter` | app.py:50 | each row occurs in the result as often as in the table if it belongs to the company, and not at all otherwise |
| `Records.FilterMembership` | app.py:50 | a row is in the filtered rows exactly when it is in the table and belongs to the company |
| `Records.Companies` | app.py:49 | the selector's choices are exactly the companies of the table, each once, the first row's company first (the default selection) |
| `Records.InsertPermutes` | app.py:50 | inserting a row adds exactly one occurrence of it and keeps every other row |
| `Records.InsertSorted` | app.py:50 | inserting into a year-sorted sequence keeps it sorted |
| `Records.SortByYear` | app.py:50 | the result is sorted by year and a permutation of the input |
| `Records.LastOfSortedIsLatest` | app.py:50-53 | the last row of any year-sorted ordering of the company's rows is a row of that company with its largest year |
| `Records.LatestIsReachable` | app.py:50-53 | every row of the company with its largest year is last in some year-sorted ordering |
| `Records.PossibleChoiceIffLatest` | app.py:50-53 | a row can be the one picked exactly when it is a latest row of the company |
| `Records.LatestYearsAgree` | app.py:50-53 | two latest rows of one company have the same year |
| `Records.LatestRecord` | app.py:49-53 | none exactly when the company has no rows; otherwise a row of the company with its largest year |
| `Records.SelectableCompanyHasLatest` | app.py:49-53 | every company the selector offers has a latest record |
| `Dashboard.Interpret` | app.py:56-119 | the captions, verdict and zone colour are those of the record's own scores and zone; Healthy exactly when f ≥ 7, c ≤ 1 and o ≤ 1, which is exactly when the captions are the best ones; High Forensic Risk exactly when c ≥ 4 or o ≥ 3 and then with a risk caption; red zone colour exactly for unrecognised zones |
| `Dashboard.Page` | app.py:49-119 | no page exactly when the company has no rows; otherwise the interpretation of one of its latest rows |
| `Dashboard.SelectedCompanyGetsPage` | app.py:49-53 | a company offered by the selector always gets a page |
| `Dashboard.UniqueLatestDeterminesPage` | app.py:50-88 | when one row alone holds the company's latest year, the page interprets that row |
| `Dashboard.AcmeScenario` | app.py:49-88 | rows 2022 (8, 0, 0.5) and 2023 (3, 5, 3.2): the 2023 row is scored, giving Weak, High Risk, At Risk and a red High Forensic Risk banner |

## Left out

- Page configuration, CSS, titles and the HTML of the banner and the cards (app.py:6-37, 90-102, 121-137): presentation only.
- The file upload, `read_excel` and the prompt shown before an upload (app.py:40-46, 178-179): I/O and UI state; the model starts from the rows as a sequence.
- The two Plotly charts (app.py:139-176): rendering by an external library.
- Number formatting: the `int(...)` truncation and `round(..., 2)` on the score cards and the three-decimal accrual ratios (app.py:68, 72, 76, 131-132); the accrual ratios and interpretation text are therefore not fields of `Record`.
- The cast of `Year` to text after sorting (app.py:52): it only affects the chart axes.
- Missing cells and NaN comparisons: every cell is modelled as present and well defined. Scores are reals. A missing Company cell would still be offered by the selector but match no row, so the last-row lookup would raise an IndexError; `SelectableCompanyHasLatest` does not cover that case. A missing Year would sort last, so that row would be the one scored; `LatestRecord` does not model this.
- The IndexError raised by the last-row lookup when the selected company has no rows (app.py:53) is modelled as `None` from `LatestRecord` and `Page`.
- Which of several rows sharing a company's largest year the table's unstable sort puts last: `LatestRecord` uses one concrete sort, and its contract, like `Page`'s, only promises some latest row; `PossibleChoiceIffLatest` states which rows are possible.
- Re-running the page on each interaction: every operation is a pure function, so interpreting the same record twice gives the same result by construction.
