# Loan application dashboard — Dafny model

This project models the logic of a small loan-application dashboard. Applicants
fill in an intake form. Each accepted form becomes an application in an
in-memory store, with status `pending`. A loan officer opens an application's detail
page, reads an automated risk assessment, and approves or rejects it while it is
still pending. The dashboard derives statistics, charts and tables from the store.

The modules follow the program's structure:

- `LoanTypes` (`loan_types.dfy`): the application record, its status, the
  applicant-supplied part of it, and the statistics record.
- `LoanStore` (`loan_store.dfy`): the store as a sequence of applications. It
  covers the statistics computation, adding an application, lookup by id and the
  unguarded status update.
- `Risk` (`risk.dfy`): the debt-to-income ratio and the first-match risk table
  with its fixed recommendations.
- `Review` (`review.dfy`): the detail page. It covers the lookup by route
  parameter, the not-found page, the pending-only approve/reject actions and the
  guarded review step.
- `Intake` (`intake.dfy`): the form schema's field checks, the form's default
  values, and submission: either validation issues, or a new store plus the
  route to the new application.
- `Dashboard` (`dashboard.dfy`): the approval rate, the status pie data, the
  amounts bar data with its last-ten window, the recent-applications window, and
  the per-day counts of the trends chart.
- `AppTable` (`app_table.dfy`): the applications table. It covers the stable
  newest-first sort, the status badge, the compact and full column sets, and the
  rows.
- `Arithmetic` (`arithmetic.dfy`): order facts about multiplication, shared by
  the risk thresholds and the approval-rate rounding.
- `Permutations` (`permutations.dfy`): generic facts about multisets of
  sequences. The order-independence proofs of the statistics and of the table's
  row keys use them.

Modelling choices:

- Money amounts are exact `real`s and credit scores are `int`s.
- A submission time is an `int` count of milliseconds since the epoch. It is the
  instant the stored ISO-8601 string denotes.
- Dividing by zero income mirrors floating point: the ratio is `+Infinity`, or
  `NaN` for a zero amount, and both fail every risk-table row.
- Three things come from outside the modelled code: the fresh id (a uuid), the
  current time, and the email-syntax check. Each is a parameter.

Where the code does not keep the program's own promises:

- The reject dialog says the action "cannot be undone", and the rejected banner
  says the application "cannot be approved in the future"
  (`src/pages/ApplicationDetail.tsx`, lines 140 and 268). Only the detail page
  keeps these promises, by offering approve and reject while the application is
  pending. The store's status update has no guard.
  `Review.StoreRewritesTerminalStatus` shows the store turning an approved
  application into a rejected one. `Review.StoreApprovesRejected` shows it
  approving a rejected one.
- With zero income and a negative amount the ratio is `-Infinity`, which passes
  every `<` test. Such an application is rated Low at a score of 750 or more
  (`Risk.NegativeOverZeroIsLow`). The form rejects negative amounts, so this
  needs data from outside the form.

## Model

| member | source | states |
|---|---|---|
| LoanTypes.ParseStatus | src/types/loan.ts:2 | a string read as a status is that status's wire name |
| LoanTypes.ParseStatusName | src/types/loan.ts:2 | each of the three statuses survives a round trip through its wire name |
| LoanTypes.StatusNamesClosed | src/types/loan.ts:2 | exactly the strings "pending", "approved" and "rejected" are statuses |
| LoanTypes.NewApplication | src/context/LoanContext.tsx:71-76 | a new record keeps every supplied field, takes the given id and time, and is pending |
| LoanStore.WithStatus | src/context/LoanContext.tsx:48-50 | the status filter keeps only applications with that status and never lengthens the list |
| LoanStore.WithStatusMultiplicity | src/context/LoanContext.tsx:48-50 | the filter keeps every application with the status as often as it occurs, and drops all others |
| LoanStore.StatusPartition | src/context/LoanContext.tsx:47-50 | the approved, pending and rejected counts add up to the number of applications |
| LoanStore.Sum | src/context/LoanContext.tsx:52-55 | the exact total of the amounts, 0 for no applications; its partners SumConcat and SumPermutation characterise it |
| LoanStore.SumConcat | src/context/LoanContext.tsx:52 | the amount total of a concatenation is the sum of the parts' totals |
| LoanStore.SumPermutation | src/context/LoanContext.tsx:52 | the amount total does not depend on the order of the applications |
| LoanStore.WithStatusConcat | src/context/LoanContext.tsx:53-54 | filtering distributes over concatenation |
| LoanStore.WithStatusPermutation | src/context/LoanContext.tsx:53-54 | reordering the store reorders each status filter's result and changes nothing else |
| LoanStore.ApprovedAmountBound | src/context/LoanContext.tsx:52-55 | with non-negative amounts, the approved amount lies between 0 and the total amount |
| LoanStore.Average | src/context/LoanContext.tsx:57 | the average is 0 for no applications, and otherwise times the count gives the total |
| LoanStore.Stats | src/context/LoanContext.tsx:46-68 | the total is the store size and the three status counts partition it; the approved amount is bounded by the total; an empty store gives all zeros; the average is the zero-guarded quotient of the total amount by the count |
| LoanStore.StatsAverageIsMean | src/context/LoanContext.tsx:57 | for a non-empty store, the average amount times the number of applications is the total amount |
| LoanStore.MeanOfAverage | src/context/LoanContext.tsx:57 | a guarded average over a positive count, times the count, is the total |
| LoanStore.StatsPermutationInvariant | src/context/LoanContext.tsx:46-68 | two stores holding the same applications in any order have equal statistics |
| LoanStore.Lookup | src/context/LoanContext.tsx:82-84 | lookup finds nothing exactly when no application has the id; otherwise it returns a stored application with that id |
| LoanStore.LookupFirst | src/context/LoanContext.tsx:83 | lookup returns the first application with the id |
| LoanStore.LookupConcat | src/context/LoanContext.tsx:83 | lookup in a concatenation searches the first part, then the second |
| LoanStore.HasIdTail | src/context/LoanContext.tsx:83 | past a first record with another id, an id occurs in the store exactly when it occurs in the rest |
| LoanStore.Add | src/context/LoanContext.tsx:70-80 | adding appends one pending record with the supplied data, fresh id and time, keeps the earlier records, and returns the id |
| LoanStore.AddFresh | src/context/LoanContext.tsx:70-80 | with a fresh id, ids stay distinct, the new id finds the new record, and every other id finds what it found before |
| LoanStore.AppendFresh | src/context/LoanContext.tsx:78 | appending a record whose id is not yet stored keeps the ids distinct |
| LoanStore.StatsAfterAdd | src/context/LoanContext.tsx:46-80 | adding raises the total and pending counts by one and the total amount by the new amount, and leaves the approved and rejected counts and the approved amount unchanged |
| LoanStore.SetStatus | src/context/LoanContext.tsx:86-92 | the update keeps length, order, ids, times and applicant data; it sets the status of records with the id and leaves the rest unchanged |
| LoanStore.SetStatusUnknownId | src/context/LoanContext.tsx:86-92 | updating an absent id changes nothing |
| LoanStore.SetStatusIgnoresCurrent | src/context/LoanContext.tsx:86-92 | after an update, lookup finds the old record with the new status, whatever the old status was |
| LoanStore.SetStatusKeepsIds | src/context/LoanContext.tsx:86-92 | an update changes neither the set of ids nor their distinctness |
| LoanStore.SumAfterSetStatus | src/context/LoanContext.tsx:86-92 | an update leaves the total amount unchanged |
| LoanStore.StatusFoldAfterSetStatus | src/context/LoanContext.tsx:48-55 | with distinct ids, an update moves one application and its amount from the old status's count and sum to the new one's |
| LoanStore.StatusFoldFound | src/context/LoanContext.tsx:86-92 | when the first record has the id and ids are distinct, only that record changes status, so only its count and amount move |
| LoanStore.StatusFoldSkip | src/context/LoanContext.tsx:86-92 | a first record with another id is kept as it is, so it counts the same before and after |
| LoanStore.FoldCons | src/context/LoanContext.tsx:48-55 | a record in front is counted, with its amount, under a status exactly when it has that status |
| LoanStore.StatsAfterSetStatus | src/context/LoanContext.tsx:46-92 | with distinct ids, the statistics after an update differ only by moving one application between status counts, and its amount into or out of the approved amount |
| Risk.BelowOnSpecialValues | src/pages/ApplicationDetail.tsx:294-302 | `Ratio.Below` is JavaScript's `<` on the ratio: +Infinity and NaN are below no bound, -Infinity is below every bound, and a finite ratio compares by value |
| Risk.DebtToIncome | src/pages/ApplicationDetail.tsx:287 | for non-zero income the ratio times twelve months' income is the amount; for zero income it is +Infinity, -Infinity or NaN by the amount's sign |
| Risk.Recommendations | src/pages/ApplicationDetail.tsx:294-311 | Low and Moderate list one recommendation, Medium and High two; income verification is advised exactly at Medium and rejection considered exactly at High |
| Risk.Classify | src/pages/ApplicationDetail.tsx:294-312 | Low exactly when score >= 750 and ratio < 0.3; at most Moderate exactly when score >= 650 and ratio < 0.4; at most Medium exactly when score >= 600 and ratio < 0.5 |
| Risk.BelowCrossMultiplied | src/pages/ApplicationDetail.tsx:287-302 | for positive income, ratio < bound exactly when the amount is below bound times twelve months' income |
| Risk.Assess | src/pages/ApplicationDetail.tsx:286-312 | the assessment carries the amount-to-yearly-income ratio; its level is Low exactly when score >= 750 and ratio < 0.3, at most Moderate exactly when score >= 650 and ratio < 0.4, at most Medium exactly when score >= 600 and ratio < 0.5; the recommendations are the level's fixed list |
| Risk.AssessThresholds | src/pages/ApplicationDetail.tsx:287-302 | for positive income the table in amount and income: Low exactly when score >= 750 and 10·amount < 36·income, at most Moderate exactly when score >= 650 and 10·amount < 48·income, at most Medium exactly when score >= 600 and amount < 6·income |
| Risk.ScoreMonotone | src/pages/ApplicationDetail.tsx:294-312 | a higher credit score never gives a riskier level |
| Risk.RatioMonotone | src/pages/ApplicationDetail.tsx:294-312 | a smaller ratio never gives a riskier level |
| Risk.AmountAndIncomeMonotone | src/pages/ApplicationDetail.tsx:286-312 | asking for less or earning more never makes an application riskier |
| Risk.ZeroIncomeIsHigh | src/pages/ApplicationDetail.tsx:287-312 | zero income gives +Infinity or NaN, and the level High |
| Risk.NegativeOverZeroIsLow | src/pages/ApplicationDetail.tsx:287-297 | zero income with a negative amount gives -Infinity, and a score of 750 or more then rates Low |
| Risk.ThresholdIsStrict | src/pages/ApplicationDetail.tsx:294-299 | a ratio of exactly 0.3 with score 750 is Moderate, not Low |
| Risk.WorkedCases | src/pages/ApplicationDetail.tsx:286-312 | sample applications land on each of the four levels, one with ratio 1.5 |
| Review.Target | src/pages/ApplicationDetail.tsx:61 | approving sets approved and rejecting sets rejected, never pending |
| Review.Actions | src/pages/ApplicationDetail.tsx:127-181 | the reject and approve buttons are offered exactly while the application is pending |
| Review.RouteId | src/pages/ApplicationDetail.tsx:43 | `id || ""`: the empty string exactly when the route has no id or an empty one, otherwise the route's id |
| Review.View | src/pages/ApplicationDetail.tsx:38-59 | the not-found page shows exactly when no application has the route id (a missing id means ""); otherwise the page shows that application, its assessment and its actions |
| Review.Review | src/pages/ApplicationDetail.tsx:61-81 | a review offered on the page applies to a pending application, gives it the chosen final status, and leaves no actions |
| Review.ReviewIsFinal | src/pages/ApplicationDetail.tsx:127 | after a review no further decision is offered for that application |
| Review.ReviewStats | src/pages/ApplicationDetail.tsx:68 | with distinct ids a review moves one application out of pending into approved or rejected, and approval adds its amount to the approved amount |
| Review.StoreRewritesTerminalStatus | src/context/LoanContext.tsx:86-92 | the store alone lets an approved application become rejected |
| Review.StoreApprovesRejected | src/context/LoanContext.tsx:86-92 | the store alone lets a rejected application become approved, although its page offers no action |
| Intake.CheckField | src/pages/ApplicationForm.tsx:34-41 | a field's check reports "not an email" exactly for a rejected email, "too large" exactly for an amount above 100000 or a score above 850, and the amount and score pass exactly within their inclusive ranges |
| Intake.FieldsOf | src/pages/ApplicationForm.tsx:33-42 | the fields of a list of issues, index by index |
| Intake.IssuesOf | src/pages/ApplicationForm.tsx:33-42 | every reported issue is a violated rule of its field |
| Intake.IssuesOfReports | src/pages/ApplicationForm.tsx:33-42 | a field is reported exactly when it is checked and fails its rule |
| Intake.Validate | src/pages/ApplicationForm.tsx:33-42 | every issue of the whole form names a field and the rule it breaks |
| Intake.ValidateReports | src/pages/ApplicationForm.tsx:33-42 | a field is reported exactly when it fails its rule |
| Intake.Valid | src/pages/ApplicationForm.tsx:33-42 | a form is accepted exactly when name >= 2 chars, the email is accepted, phone >= 10 chars, 1000 <= amount <= 100000, purpose and employment non-empty, 300 <= score <= 850 and income >= 1 |
| Intake.NoIssuesIffAllChecksPass | src/pages/ApplicationForm.tsx:33-42 | no issues exactly when every field passes |
| Intake.AllChecksPassIffInRange | src/pages/ApplicationForm.tsx:33-42 | every field passing is the conjunction of the eight rules |
| Intake.DefaultValuesRejected | src/pages/ApplicationForm.tsx:51-60 | the untouched form reports exactly, in schema order: name too short, email invalid (unless "" is accepted), phone too short, purpose empty, employment empty, income below 1 |
| Intake.DefaultAmountAndScoreInRange | src/pages/ApplicationForm.tsx:51-60 | the default amount 10000 and score 700 pass their range checks |
| Intake.IssuesOfStep | src/pages/ApplicationForm.tsx:33-42 | the issues of a field list are the first field's issue, if any, followed by the rest's |
| Intake.DefaultValuesInvalid | src/pages/ApplicationForm.tsx:51-60 | the untouched form cannot be submitted |
| Intake.AcceptedFormHasFiniteRatio | src/pages/ApplicationForm.tsx:41 | an accepted form has positive income, so its ratio is a finite positive number |
| Intake.Submit | src/pages/ApplicationForm.tsx:63-80 | an invalid form yields its non-empty issues and no change; a valid one appends a pending record with the form's data and routes to /applications/ followed by the new id |
| Intake.SubmitThenView | src/pages/ApplicationForm.tsx:70-73 | after a valid submission with a fresh id, the route shows the new application with its assessment and both actions |
| Dashboard.Round | src/pages/Dashboard.tsx:89 | `Math.round`: the integer r with x - 1/2 < r <= x + 1/2, so halves round up |
| Dashboard.ApprovalRate | src/pages/Dashboard.tsx:89 | 0 for an empty store; otherwise the integer nearest to 100·approved/total, with halves rounded up, and within 0..100 |
| Dashboard.RoundedPercent | src/pages/Dashboard.tsx:89 | rounding 100·a/t gives r with 2t·r <= 200a + t < 2t·(r+1), within 0..100 when a <= t |
| Dashboard.StatusData | src/pages/Dashboard.tsx:25-29 | three slices, approved, pending and rejected, carrying the matching counts |
| Dashboard.StatusDataCoversAll | src/pages/Dashboard.tsx:25-29 | for statistics of a store, the slices add up to the number of applications |
| Dashboard.FirstWord | src/pages/Dashboard.tsx:32 | the result is the prefix before the first space: it has no space and is the whole string or is followed by a space |
| Dashboard.AmountData | src/pages/Dashboard.tsx:31-35 | one bar per application in store order, with its first name, amount and status |
| Dashboard.Last | src/pages/Dashboard.tsx:147 | the last n elements, or all of them when there are fewer |
| Dashboard.BarChartData | src/pages/Dashboard.tsx:147 | at most ten bars, taken from the end of the store |
| Dashboard.RecentApplications | src/pages/Dashboard.tsx:168 | at most five applications, the store's suffix |
| Dashboard.RecentTable | src/pages/Dashboard.tsx:166-170 | the compact table of the last five applications: empty state exactly for an empty store, no purpose column |
| Dashboard.AllApplicationsTable | src/pages/Dashboard.tsx:180 | the full table: one row per application, with the purpose column |
| Dashboard.InWindow | src/pages/Dashboard.tsx:43 | an application counts when submitted at or after the cutoff; its day is then no earlier than the cutoff's day |
| Dashboard.ByDay | src/pages/Dashboard.tsx:41-48 | a day has an entry exactly when some application in the window falls on it, and the entry is their number |
| Dashboard.Tally | src/pages/Dashboard.tsx:46-53 | counting one more application on a day keeps the days strictly ascending and every count positive |
| Dashboard.TallyCounts | src/pages/Dashboard.tsx:46 | counting one more application on a day raises that day's count by one and leaves every other day's count alone |
| Dashboard.TallyTotal | src/pages/Dashboard.tsx:46 | counting one more application raises the sum of the counts by one |
| Dashboard.Trends | src/pages/Dashboard.tsx:50-53 | points in strictly ascending day order, each count positive and equal to that day's number of applications in the window |
| Dashboard.TrendsAreSortedByDay | src/pages/Dashboard.tsx:41-53 | every point is an entry of the per-day dictionary with its count, every entry appears as a point, and the days strictly ascend, so each appears once |
| Dashboard.TrendsCountEveryApplicationInWindow | src/pages/Dashboard.tsx:38-53 | the counts add up to the number of applications in the window, at most the store size |
| AppTable.SubmittedAt | src/components/ApplicationTable.tsx:26-28 | every application in the group was submitted at the given time, and the group is no longer than the input |
| AppTable.SubmittedAtMultiplicity | src/components/ApplicationTable.tsx:26-28 | the group holds each application submitted at that time as often as the input does, and nothing else |
| AppTable.Insert | src/components/ApplicationTable.tsx:26-28 | inserting into a newest-first list keeps it newest first |
| AppTable.InsertPermutes | src/components/ApplicationTable.tsx:26-28 | inserting adds exactly the inserted application |
| AppTable.InsertGroups | src/components/ApplicationTable.tsx:26-28 | the inserted application comes first among those with its time, and other times are untouched |
| AppTable.SubmittedAtCons | src/components/ApplicationTable.tsx:26-28 | the group at a time of a list with an application in front starts with it exactly when it has that time |
| AppTable.Sort | src/components/ApplicationTable.tsx:26-28 | the sorted list has the input's length and is newest first |
| AppTable.SortPermutes | src/components/ApplicationTable.tsx:26 | sorting is a permutation of the input |
| AppTable.SortStable | src/components/ApplicationTable.tsx:26-28 | applications with equal times keep their relative order |
| AppTable.NewestFirstUnique | src/components/ApplicationTable.tsx:26-28 | two newest-first lists with the same applications at every time are equal, so the stable sort is unique |
| AppTable.BothEmpty | src/components/ApplicationTable.tsx:26-28 | lists with the same groups are empty together |
| AppTable.SameHeadTime | src/components/ApplicationTable.tsx:26-28 | newest-first lists with the same groups start at the same time |
| AppTable.SortKeepsSorted | src/components/ApplicationTable.tsx:26-28 | sorting a newest-first list leaves it unchanged |
| AppTable.BadgeLabel | src/components/ApplicationTable.tsx:30-41 | the badge switch: "Unknown" exactly for strings other than the three status names, otherwise the name with its first letter replaced |
| AppTable.StatusLabel | src/components/ApplicationTable.tsx:30-41 | a stored status's badge is its name capitalised, never "Unknown" |
| AppTable.UnknownIffNotAStatus | src/pages/ApplicationDetail.tsx:94-105 | the "Unknown" badge appears exactly for strings that are not status names |
| AppTable.Columns | src/components/ApplicationTable.tsx:66-74 | the purpose column is present exactly in the full table; applicant and amount lead, date, status and action close |
| AppTable.CompactDropsOnlyPurpose | src/components/ApplicationTable.tsx:70 | the compact header is the full header without its third column, the purpose |
| AppTable.CellFor | src/components/ApplicationTable.tsx:79-91 | only the action column links, to /applications/ followed by the id; only the amount column shows money, the amount; the status badge is never "Unknown"; text cells show the name or the purpose |
| AppTable.Rows | src/components/ApplicationTable.tsx:77-93 | one row per application keyed by its id, with one cell per header column |
| AppTable.Render | src/components/ApplicationTable.tsx:52-97 | the empty state exactly for no applications; otherwise the header and one row per application, newest first, cells aligned with the header |
| AppTable.RowKeysAreIds | src/components/ApplicationTable.tsx:77-78 | the row keys are the applications' ids, with multiplicity |
| AppTable.RowKeysUnique | src/components/ApplicationTable.tsx:78 | distinct ids in the store give distinct row keys |
| AppTable.IdsPermutation | src/components/ApplicationTable.tsx:78 | reordering applications reorders their ids |
| AppTable.UniqueIdsPermutation | src/components/ApplicationTable.tsx:78 | reordering applications keeps their ids distinct |

## Left out

- Persistence: the store is loaded from and saved to browser storage as JSON, and
  the statistics are cached there too. The model recomputes statistics from the
  store, which is what the store's effect does on every change.
- React state, effects, routing, the form library's wiring, toasts, the
  simulated one-second delays, the busy flags and navigation. Only the data
  they carry is modelled, such as the route string after submission.
- The uuid generator and the clock. The fresh id and the current time are
  parameters of `LoanStore.Add` and `Intake.Submit`. The thirty-day cutoff is the
  parameter `cutoff` of the trends functions.
- The email-syntax check of the form library. It is the parameter `isEmail`.
- Intake.Message: the issue texts are kept as strings but nothing is proved
  about them.
- The error messages of the not-found page and the confirmation dialogs.
- Floating-point arithmetic. Amounts, the ratio, the average and the approval
  rate are exact; rounding to doubles is not modelled.
- String lengths count characters, not UTF-16 code units.
- Formatting: currency, locale dates, the risk colour, percentages in the pie
  labels and the chart styling.
- Dashboard.DayOf: a day is a UTC day number, not the "YYYY-MM-DD" prefix of
  the ISO string. The two order the same way, so the sorted trends agree.
- Dashboard.Last: it is `slice(-n)` only for n > 0. For n = 0 JavaScript returns
  the whole array, but the dashboard calls it only with 10 and 5.
- The hard-coded trend percentages on the stat cards, the header component, the
  index page and the other pages, which hold no logic.
- Non-integer credit scores. The schema's `z.number().min(300).max(850)` also
  accepts values such as 700.5, but a score here is an `int`. This is harmless:
  the slider yields only multiples of 10, and against the integer thresholds
  600, 650 and 750 a score and its floor give the same answer. The slider's
  step of 10 is not modelled either; any integer score in range is accepted.
