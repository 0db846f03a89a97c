# Incident dashboard: a Dafny model of its client-side state

The dashboard lists AI-safety incidents that a remote HTTP service stores. It
filters them by severity, sorts them by report time, creates new ones through a
form, and deletes them. This project models the logic inside the browser
client:

- **Projection** (`projection.dfy`). The view the dashboard shows is derived
  from the canonical list. The list is copied, the records the severity filter
  admits are kept, and the copy is sorted by `reported_at` with the source's
  comparator. "newest" sorts descending and "oldest" ascending. The sort is
  stable, because ECMAScript 2019 (ECMA-262 10th edition, section 22.1.3.27)
  requires `Array.prototype.sort` to be stable. `Sort` is a stable insertion
  sort. `SortUnique` shows that any sort that is both ordered and stable gives
  the same result, so the model does not depend on the engine's algorithm.
- **Controller** (`dashboard.dfy`). The class `IncidentDashboard` has the
  component's state fields. Its methods are the handlers: fetch, create,
  delete, toggle the detail view, toggle the sort order and set the filter.
  Each server call becomes an `Outcome` parameter: `Resolved(value)`, or
  `Rejected(reason)` where the reason is an `Error` with a message or some
  other thrown value. Each handler runs to completion. It then runs the effect
  that recomputes `filteredIncidents` (`RefreshProjection`). `Valid()` says
  that this field is always the projection of the canonical list and that no
  deletion is in flight between handlers.
- **Form** (`incident_form.dfy`). `String.prototype.trim` is modelled over
  ECMAScript's WhiteSpace and LineTerminator code points. `validate` builds an
  error record that has a key only for each failing field. `handleSubmit` sets
  the errors, calls `onSubmit` only when validation passes, and clears
  `isSubmitting` whether or not `onSubmit` throws.
- **Summary** (`incident_summary.dfy`). The total badge and the count for each
  severity, taken over the canonical list.
- **Card** (`incident_card.dfy`). `getSeverityColor`.
- `types.dfy` holds the records from `src/lib/types.ts`. `seqs.dfy` models
  `Array.prototype.filter` and holds its lemmas.

Three facts about the code shape the model:

- The canonical collection is an ordered array, not a set keyed by id. A
  create appends to it, and nothing stops two records from sharing an id.
- Deleting an id that is not present surfaces an error only if the server
  rejects the call. If the server accepts it, the filter removes nothing. Both
  paths leave the list unchanged (`WithoutAbsentId`).
- The dashboard starts with `loading = true`. There is no separate idle state.

Toggling the same id twice restores the earlier `activeIncident` only when
that value was null or already that id. If another incident was expanded, the
second toggle leaves nothing expanded, because the second toggle of an id
always collapses it (src/components/Dashboard.tsx:129). `ToggleTwice` proves
exactly this condition.

## Model

| member | source | states |
|---|---|---|
| Types.SeverityName | src/lib/types.ts:1 | each of the three severity values is a non-empty string, so it is truthy |
| Seqs.Filter | src/components/Dashboard.tsx:55-57 | the filtered list is no longer than its input, and every element in it satisfies the predicate |
| Seqs.FilterMultiset | src/components/Dashboard.tsx:55-57 | filtering keeps every occurrence of each element that passes the predicate and drops every element that fails it |
| Seqs.FilterMembers | src/components/Dashboard.tsx:55-57 | an element is in the filtered list iff it is in the input and passes the predicate |
| Seqs.FilterSubsequence | src/components/Dashboard.tsx:55-57 | filtering never reorders: the result is a subsequence of the input |
| Seqs.FilterKeepsAll | src/components/Dashboard.tsx:112 | a filter that every element passes returns its input unchanged |
| Seqs.FilterDropsAll | src/components/IncidentSummary.tsx:43 | a filter that no element passes returns the empty list |
| Seqs.FilterConcat | src/components/Dashboard.tsx:95 | filtering distributes over concatenation, so an appended record is filtered on its own |
| Seqs.FilterPermutation | src/components/IncidentSummary.tsx:43-69 | inputs with the same multiset give filtered results with the same multiset and the same length |
| Projection.InsertMultiset | src/components/Dashboard.tsx:60-64 | one insertion step adds exactly the inserted record |
| Projection.InsertSorted | src/components/Dashboard.tsx:60-64 | inserting into a list in comparator order keeps it in comparator order |
| Projection.SortSpec | src/components/Dashboard.tsx:60-64 | the sort returns a permutation of its input with every pair in comparator order |
| Projection.InsertStable | src/components/Dashboard.tsx:60-64 | an inserted record goes in front of records with the same timestamp and leaves other timestamps' records as they were |
| Projection.SortStable | src/components/Dashboard.tsx:60-64 | for each instant, the sorted list holds that instant's records in their input order |
| Projection.SortedStableEqual | src/components/Dashboard.tsx:60-64 | two lists in comparator order that agree on every instant's records are equal |
| Projection.SortUnique | src/components/Dashboard.tsx:60-64 | any list that is ordered and stable with respect to the input equals `Sort` of the input |
| Projection.MatchingSpec | src/components/Dashboard.tsx:52-58 | the filter step keeps exactly the admitted records (every occurrence, all of them for "All"), in canonical order |
| Projection.ProjectContents | src/components/Dashboard.tsx:52-58 | the projection holds exactly the canonical records the filter admits, counting multiplicity |
| Projection.ProjectOrdered | src/components/Dashboard.tsx:60-64 | for "newest", report times never increase along the projection; for "oldest", they never decrease |
| Projection.ProjectStable | src/components/Dashboard.tsx:52-64 | records with equal timestamps keep the order of the filtered copy, which is a subsequence of the canonical list |
| Projection.ProjectIdempotent | src/components/Dashboard.tsx:47-66 | projecting a projection again with the same filter and order returns it unchanged |
| Projection.ProjectEmpty | src/components/Dashboard.tsx:47-50 | an empty canonical list gives an empty projection |
| Projection.ProjectAppended | src/components/Dashboard.tsx:95 | an appended record is in the next projection iff the filter admits it, adding exactly one occurrence |
| Projection.ScenarioTwoRecords | src/components/Dashboard.tsx:52-64 | [High at t1, Low at t2 > t1]: "All"/"newest" gives [Low, High], and the High filter gives [High] |
| Dashboard.WithoutIdSpec | src/components/Dashboard.tsx:112 | removing an id drops every record with that id and keeps every other record, in order |
| Dashboard.WithoutAbsentId | src/components/Dashboard.tsx:112 | removing an id that no record has leaves the list unchanged |
| Dashboard.AppendedOnce | src/components/Dashboard.tsx:95 | a created record with a new id appears exactly once, at the end, and every earlier record is unchanged |
| Dashboard.Toggled | src/components/Dashboard.tsx:129 | the result is null exactly when the toggled id was the active one |
| Dashboard.ToggleTwice | src/components/Dashboard.tsx:128-130 | two toggles give back the prior state iff that state was null or this id; otherwise nothing is expanded |
| Dashboard.ToggleOther | src/components/Dashboard.tsx:128-130 | toggling an id that is not active makes it the one active id |
| Dashboard.Flipped | src/components/Dashboard.tsx:188 | the sort toggle always changes the order |
| Dashboard.FlipTwice | src/components/Dashboard.tsx:188 | the sort toggle is an involution |
| Dashboard.IncidentDashboard.constructor | src/components/Dashboard.tsx:30-40 | initial state: no incidents, filter "All", order "newest", nothing active, loading, no error, nothing being deleted |
| Dashboard.IncidentDashboard.RefreshProjection | src/components/Dashboard.tsx:46-67 | the effect stores the projection of the current list, filter and order, and writes nothing else |
| Dashboard.IncidentDashboard.FetchIncidents | src/components/Dashboard.tsx:69-86 | ends with loading false; on success the list is the response and the error is null; on failure the error is set and the list is unchanged |
| Dashboard.IncidentDashboard.HandleAddIncident | src/components/Dashboard.tsx:88-105 | on success the returned record is appended after the unchanged earlier records; on failure the list is untouched |
| Dashboard.IncidentDashboard.HandleDeleteIncident | src/components/Dashboard.tsx:107-126 | on success the id's records are removed and the detail view collapses if it showed that id; on failure nothing changes; deletingId ends null on both paths |
| Dashboard.IncidentDashboard.ToggleIncidentDetails | src/components/Dashboard.tsx:128-130 | the active id becomes `Toggled` of the old one, and nothing else changes |
| Dashboard.IncidentDashboard.ToggleSortOrder | src/components/Dashboard.tsx:187-188 | the order flips, the view is re-derived, and the canonical list is untouched |
| Dashboard.IncidentDashboard.SetSeverityFilter | src/components/Dashboard.tsx:166-168 | the filter is set, the view is re-derived, and the canonical list is untouched |
| IncidentForm.TrimStartSpec | src/components/new-incident-form.tsx:44 | trimming the start keeps a suffix that is empty or starts with a non-whitespace character, and drops only whitespace |
| IncidentForm.TrimEndSpec | src/components/new-incident-form.tsx:48 | trimming the end keeps a prefix that is empty or ends with a non-whitespace character, and drops only whitespace |
| IncidentForm.TrimEmptyIffBlank | src/components/new-incident-form.tsx:44-50 | `!s.trim()` holds exactly when every character of `s` is whitespace |
| IncidentForm.TrimKeepsContent | src/components/new-incident-form.tsx:44 | a non-blank string trims to a non-empty slice of itself that starts and ends with non-whitespace |
| IncidentForm.KeyCount | src/components/new-incident-form.tsx:57 | the key count is at most three, and it is zero iff no field has an error |
| IncidentForm.ValidateAcceptsIff | src/components/new-incident-form.tsx:37-57 | validation passes iff both title and description contain a non-whitespace character |
| IncidentForm.ValidateErrors | src/components/new-incident-form.tsx:44-54 | a field's error is "… is required" iff the field is blank, and absent otherwise; the severity error never fires for any severity |
| IncidentForm.NewIncidentForm.constructor | src/components/new-incident-form.tsx:27-35 | the fields start empty, severity starts as Medium, nothing is submitting and there are no errors |
| IncidentForm.NewIncidentForm.SetTitle | src/components/new-incident-form.tsx:106 | the title becomes the typed value |
| IncidentForm.NewIncidentForm.SetDescription | src/components/new-incident-form.tsx:126 | the description becomes the typed value |
| IncidentForm.NewIncidentForm.SetSeverity | src/components/new-incident-form.tsx:145 | the severity becomes the selected value |
| IncidentForm.NewIncidentForm.HandleSubmit | src/components/new-incident-form.tsx:60-78 | errors become `Validate` of the fields; `onSubmit` is called iff validation passes, with the untrimmed fields; `isSubmitting` is false before and after every call, whether validation fails, `onSubmit` returns or it throws; the handler rethrows iff `onSubmit` threw |
| IncidentSummary.SeverityCount | src/components/IncidentSummary.tsx:43 | a count never exceeds the total |
| IncidentSummary.TotalBadgeMatchesCounts | src/components/IncidentSummary.tsx:26-69 | once loading is over, the total badge equals the sum of the High, Medium and Low counts |
| IncidentSummary.CountAbsentZero | src/components/IncidentSummary.tsx:43 | a severity that no record has shows a count of zero |
| IncidentSummary.CountIsPositions | src/components/IncidentSummary.tsx:43-69 | each count equals the number of positions that hold a record of that severity |
| IncidentSummary.CountsSumToTotal | src/components/IncidentSummary.tsx:26-69 | the High, Medium and Low counts add up to the total |
| IncidentSummary.CountPermutationInvariant | src/components/IncidentSummary.tsx:43-69 | a count depends only on the multiset of records, not on their order |
| IncidentSummary.CountAppend | src/components/IncidentSummary.tsx:43-69 | appending a record raises only its own severity's count, by one |
| IncidentCard.SeverityColor | src/components/incident-card.tsx:39-50 | the result is one of the four class strings, and it is the slate default iff the input is not "High", "Medium" or "Low" |
| IncidentCard.SeverityColorOfLevel | src/components/incident-card.tsx:40-46 | High, Medium and Low map to their red, amber and emerald strings, never to the default |
| IncidentCard.SeverityColorInjective | src/components/incident-card.tsx:41-46 | different severities get different class strings |

## Left out

- HTTP calls (the `api` object, src/components/Dashboard.tsx:13-27): each call becomes an `Outcome` parameter of the handler that makes it. Which error kind a failure is (network, validation, not found) is the server's business.
- Toasts, the console log, JSX rendering, skeletons, icons and the form modal (`isFormOpen` and its open/close calls): these are presentation only.
- Parsing `reported_at` with `new Date(...).getTime()`: timestamps are integer instants. An unparsable string gives NaN in JavaScript, which is floating-point behaviour and is not modelled.
- `formatDate` in incident-card.tsx: it uses the locale formatting library.
- The card's `contentHeight` state: it measures the DOM.
- Interleaving of asynchronous handlers: each handler runs to completion. So two concurrent deletes cannot share the single `deletingId` slot. The value of `activeIncident` captured by the delete closure (Dashboard.tsx:114) cannot be stale either.
- Dashboard.IncidentDashboard.FetchIncidents: it does not expose the `loading = true`, `error = null` state that holds while the request is pending, because the handler runs to completion.
- IncidentForm.NewIncidentForm.HandleSubmit: it does not expose the `isSubmitting = true` state that holds while `onSubmit` is pending (new-incident-form.tsx:67), because the handler runs to completion.
- Dashboard.IncidentDashboard.HandleDeleteIncident: it does not expose the `deletingId = id` state that holds while the delete request is pending (Dashboard.tsx:109), because the handler runs to completion.
- Dashboard.IncidentDashboard.SetSeverityFilter: it does not model the filter and sort buttons being disabled while loading (`disabled={loading}`). The methods can be called at any time.
- The effect runs at the end of every handler that may change its dependencies. It is a pure function of those dependencies, so an extra run yields the same view.
- `e.preventDefault()` in `handleSubmit`: it is browser event plumbing.
- Strings are sequences of Unicode code points, not UTF-16 code units. `trim` is modelled on code points.
- src/lib/mock-data.ts is static data, and its records use a numeric `id`. src/App.tsx and the skeleton components are view templates.
