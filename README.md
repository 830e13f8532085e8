# Pagination reducer, password rules and session countdown — a Dafny model

This project models three small pieces of logic from a collection of React demo applications, and
proves properties of them in Dafny 4.11.

* **Product table with server-side pagination** (`reducer-example`). A pure reducer maps the table's
  state and one of eight actions to the next state. The state holds the endpoint URL, the load
  status, an optional error, the query parameters `{q?, skip, limit}`, the current page of products
  and the total row count. Module `ProductQuery` holds the datatypes, `Reduce`, and the lemmas about
  each action. It also proves a state invariant that every action keeps, provided the action's
  page size (if it carries one) is positive. Module `ProductTable` holds the
  `useReducer` cell as a class. Its `Dispatch` method applies the reducer. Further methods replay the
  fetch effect's dispatch sequence, with the HTTP response passed in, and the event handlers.
* **Password strength rules** (`password-verification`). `validPassword` maps a string to six flags:
  `length`, `caps`, `lower`, `numeral`, `special` and `valid`. Each regex test becomes a scan whose
  result is proved to be an `exists` over the string. Module `PasswordRules` covers the exported
  check in `PasswordFields.tsx` and that component's flagging conditions. Module `PasswordPage`
  covers the inline copy in `App.tsx` and that page's own, different, flagging conditions. The two
  checks are proved to agree.
* **Session countdown and handlers** (`persistent-auth`). Module `SessionClock` covers `formatTime`,
  with JavaScript's floor division, truncating remainder and number printing written out. It is
  proved against an independent reader of the `M:SS` display: reading the display back gives the
  time for every time >= 0. Module `AuthSession` covers the component's state cells as a class. Its
  methods are the login, logout and refresh handlers, the user effect, the countdown tick and the
  auto-refresh. Each call to the authentication service becomes an input that says how it ended.

Several behaviours of the code are worth knowing. Nothing stops a slow response from overwriting
the rows of a newer one. Repeating `reset`, `set-page`, `set-rows-per-page`, `set-search` or
`clear-search` always builds a new `queryParams`, which triggers another fetch. The state holds an offset, not a page number. A rejected fetch is never caught:
the status stays `'loading'` over the old rows and no error is recorded
(`RejectedFetchStaysLoading`). `set-rows-per-page` keeps the offset,
so the offset can stop being a multiple of the page size (`RowsPerPageLeavesBoundary`). `set-error`
leaves `status` alone, and nothing ever sets `status` to `'error'`. A failed manual refresh logs
out but keeps `refreshed`, so the next login shows "Token refreshed" at once
(`StaleRefreshedNotice`). The auto-refresh does not restart the countdown. The countdown therefore
runs past zero, and `formatTime(-1)` is `"-1:0-1"` (`FormatNegativeTime`).

Files: `wrappers.dfy` (Option), `product_query.dfy`, `product_table.dfy`, `password_rules.dfy`,
`password_page.dfy`, `session_clock.dfy`, `auth_session.dfy`.

## Model

| member | source | states |
|---|---|---|
| ProductQuery.LimitOrDefault | reducer-example/src/App.tsx:57 | `limit \|\| 20`: a non-zero page size is kept; a zero one becomes 20; the result is never 0 |
| ProductQuery.Reduce | reducer-example/src/App.tsx:54-94 | every action changes only the fields in its footprint: `set-status` only status; `set-data` only data, totalRows and status; `set-rows-per-page` only limit; `set-page` only skip; `set-error` only error; the search actions only url, q, skip and limit |
| ProductQuery.ResetResult | reducer-example/src/App.tsx:56-59 | `reset` yields the initial state (base url, idle, no error, no rows, total 0, no q, skip 0) with the old non-zero limit kept, 20 for a zero one; with limit 20 it is exactly the initial state |
| ProductQuery.SetStatusOrErrorResult | reducer-example/src/App.tsx:60-78 | `set-status` replaces only the status; `set-error` replaces only the error and leaves the status as it was |
| ProductQuery.SetDataResult | reducer-example/src/App.tsx:63-66 | `set-data` shows the response's products and total and returns to idle; query parameters, url and error unchanged |
| ProductQuery.SetRowsPerPageResult | reducer-example/src/App.tsx:67-70 | `set-rows-per-page(n)` sets limit to n and keeps skip, q, url and every result field |
| ProductQuery.SetPageResult | reducer-example/src/App.tsx:71-75 | `set-page(n)`: skip is 0 for n <= 1 and (n-1)*limit otherwise; limit, q, url and result fields unchanged |
| ProductQuery.SetSearchResult | reducer-example/src/App.tsx:84-89 | `set-search(t)`: search endpoint, q = t, skip 0, non-zero limit kept (else 20); data, status, error and totalRows unchanged |
| ProductQuery.ClearSearchResult | reducer-example/src/App.tsx:79-83 | `clear-search`: base endpoint, no q, skip 0, non-zero limit kept (else 20); result fields unchanged |
| ProductQuery.ReduceIdempotent | reducer-example/src/App.tsx:54-94 | dispatching any action twice in a row gives the same state as dispatching it once |
| ProductQuery.FetchSequenceResult | reducer-example/src/App.tsx:118-121 | loading, then the response, then idle: status idle, data and totalRows from the response, query parameters, url and error unchanged |
| ProductQuery.SetPageRoundTrip | reducer-example/src/App.tsx:71-74 | with a positive page size, the offset after `set-page(n)` lies on a page boundary and reads back as page n (page 1 for n <= 1) |
| ProductQuery.PageBoundaryPreserved | reducer-example/src/App.tsx:54-94 | every action other than `set-rows-per-page` keeps the offset a non-negative multiple of a positive page size |
| ProductQuery.RowsPerPageLeavesBoundary | reducer-example/src/App.tsx:67-69 | page 2 at 20 rows, then 50 rows per page: skip stays 20, which is not a multiple of 50 |
| ProductQuery.InitialWellFormed | reducer-example/src/App.tsx:47-53 | the initial state has a positive limit, skip 0, and the base endpoint with no search term |
| ProductQuery.ReducePreservesWellFormed | reducer-example/src/App.tsx:54-94 | every action with a positive page size keeps limit > 0, skip >= 0, and "search endpoint iff a search term is present" |
| ProductTable.ProductBrowser.constructor | reducer-example/src/App.tsx:95-96 | the reducer cell starts at the initial state and the search box empty |
| ProductTable.ProductBrowser.Dispatch | reducer-example/src/App.tsx:95 | the state becomes the reducer's next state, only the action's footprint changes, and the invariant is kept |
| ProductTable.ProductBrowser.FetchProducts | reducer-example/src/App.tsx:117-122 | the request uses the state's url and query parameters; on success the state ends idle with the response's products and total, all else unchanged; on rejection only the status has changed, to loading |
| ProductTable.ProductBrowser.HandlePerRowsChange | reducer-example/src/App.tsx:126-128 | only the page size changes |
| ProductTable.ProductBrowser.HandlePageChange | reducer-example/src/App.tsx:129-132 | the new offset is 0 for page <= 1 and (page-1)*limit otherwise, for any page size; page size and search kept; with a positive page size the offset is on a page boundary and reads back as the chosen page |
| ProductTable.ProductBrowser.HandleSearchTerm | reducer-example/src/App.tsx:133-139 | the search box follows the input; an emptied box clears the search, any other text leaves the table state alone |
| ProductTable.ProductBrowser.TriggerSearch | reducer-example/src/App.tsx:140-143 | submitting searches for the box's text from offset 0, keeping a non-zero page size (else 20) |
| ProductTable.ProductBrowser.ClearSearch | reducer-example/src/App.tsx:144-147 | the box is emptied and the table returns to the unfiltered first page |
| ProductTable.SearchThenPage | reducer-example/src/App.tsx:116-147 | search "phone", fetch, page 3, fetch: the second request is q=phone, skip 40, limit 20 on the search endpoint, and the table shows the last response |
| ProductTable.RejectedFetchStaysLoading | reducer-example/src/App.tsx:116-122 | a fetch that succeeds, a page change, then a fetch that rejects: the status stays loading, the first response's rows stay shown, and no error is set |
| PasswordRules.TestRange | password-verification/src/components/PasswordFields.tsx:59-61 | `/[lo-hi]/.test(s)` is true iff some character of s lies in lo..hi |
| PasswordRules.TestAnyOf | password-verification/src/components/PasswordFields.tsx:62 | the special-character test is true iff some character of s is one of `@#$%!^&*` |
| PasswordRules.ValidPassword | password-verification/src/components/PasswordFields.tsx:57-65 | `length` iff at least 10 characters; `caps`, `lower`, `numeral`, `special` iff a character of that class occurs; `valid` iff all five hold |
| PasswordRules.IsValid | password-verification/src/components/PasswordFields.tsx:8 | the password is valid iff it has at least 10 characters and a character of each of the upper-case, lower-case, digit and special classes |
| PasswordRules.PasswordsMatch | password-verification/src/components/PasswordFields.tsx:9 | the inputs match iff they have the same length and agree at every position |
| PasswordRules.PasswordFieldRed | password-verification/src/components/PasswordFields.tsx:21 | the password input is red iff the password is shorter than 10 or lacks one of the four classes |
| PasswordRules.RepeatFieldRed | password-verification/src/components/PasswordFields.tsx:33 | the repeat input is red iff the two inputs differ |
| PasswordRules.RuleListRed | password-verification/src/components/PasswordFields.tsx:48 | the rule list is red iff the password is non-empty and not valid; every non-empty password under 10 characters turns it red |
| PasswordRules.RuleMarks | password-verification/src/components/PasswordFields.tsx:49-53 | five marks in display order; each is green iff the password is non-empty and passes that rule; none is green for an empty password |
| PasswordRules.RuleListRedIffSomeMarkMissing | password-verification/src/components/PasswordFields.tsx:48-53 | the list is red iff the password is non-empty and some rule item is not green |
| PasswordRules.ShortPasswordInvalid | password-verification/src/components/PasswordFields.tsx:57-65 | no password shorter than 10 characters, the empty one included, is valid, and its input is flagged |
| PasswordRules.ValidHasFourKinds | password-verification/src/components/PasswordFields.tsx:57-65 | a valid password holds four pairwise distinct characters, one from each class |
| PasswordRules.EmptyPasswordFlagging | password-verification/src/components/PasswordFields.tsx:8-48 | with nothing typed, the password input is red while the rule list is not, and the repeat input is not red |
| PasswordPage.InlineValidPassword | password-verification/src/App.tsx:8-16 | the page's inline check returns the same six flags as the exported `validPassword` for every input |
| PasswordPage.InlineValidMeans | password-verification/src/App.tsx:9-14 | `valid` iff length >= 10 and a character from each of the upper-case, lower-case, digit and special classes occurs |
| PasswordPage.InputBorderRed | password-verification/src/App.tsx:44-56 | both inputs are red iff the password is non-empty and not valid, which is the component's password flag restricted to non-empty passwords |
| PasswordPage.RuleListRed | password-verification/src/App.tsx:30 | the rule list is red iff the inputs are red, and under the same condition as in the component |
| PasswordPage.RuleMarks | password-verification/src/App.tsx:31-35 | the page's five green marks equal the component's |
| PasswordPage.MismatchMessageShown | password-verification/src/App.tsx:59-61 | "Passwords do not match" is shown iff the inputs differ, exactly when the component would flag the repeat input |
| PasswordPage.FlaggingDiffersFromComponent | password-verification/src/App.tsx:44-56 | the page leaves an empty password unflagged where the component flags it, and flags a matching repeat input when the password is invalid |
| SessionClock.JsRemainder | persistent-auth/src/App.tsx:67 | `time % 60` lies strictly between -60 and 60, equals Dafny's remainder for time >= 0, and is the negated remainder of -time otherwise |
| SessionClock.NatToString | persistent-auth/src/App.tsx:68 | a number prints as a non-empty string of digits without leading zeros, one digit exactly below 10 |
| SessionClock.IntToString | persistent-auth/src/App.tsx:68 | a non-negative number prints as digits that read back as it; a negative one as '-' followed by digits that read back as its magnitude |
| SessionClock.NatToStringValue | persistent-auth/src/App.tsx:68 | the printed digits read back as the number |
| SessionClock.SecondsFieldIsTwoDigits | persistent-auth/src/App.tsx:68 | for 0 <= seconds < 60 the padded seconds field is exactly two digits worth the seconds |
| SessionClock.FormatTimeShape | persistent-auth/src/App.tsx:65-69 | for time >= 0: the minutes `time / 60`, a colon, then two digits worth `time % 60`, with minutes*60 + seconds = time and a '0' pad exactly when seconds < 10 |
| SessionClock.FormatTime | persistent-auth/src/App.tsx:65-69 | for time >= 0, reading the `M:SS` display back gives the time (the layout is stated by `FormatTimeShape`, the examples by `FormatInitialTime` and `FormatNegativeTime`) |
| SessionClock.ClockRoundTrip | persistent-auth/src/App.tsx:68 | minutes, a colon and a padded seconds field below 60 read back as minutes*60 + seconds |
| SessionClock.FormatTimeInjective | persistent-auth/src/App.tsx:65-69 | distinct non-negative times are displayed differently |
| SessionClock.FormatInitialTime | persistent-auth/src/App.tsx:9 | the initial 600 seconds is shown as "10:00" |
| SessionClock.FormatNegativeTime | persistent-auth/src/App.tsx:65-69 | -1 second is shown as "-1:0-1" |
| AuthSession.Session.constructor | persistent-auth/src/App.tsx:6-11 | empty credentials and error, timer 600, no user, not refreshed |
| AuthSession.Session.RefreshedNoticeShown | persistent-auth/src/App.tsx:92 | "Token refreshed" is shown exactly when the countdown is shown (a user is logged in) and `refreshed` is true |
| AuthSession.Session.CountdownText | persistent-auth/src/App.tsx:93-95 | the countdown is shown iff a user is logged in; a non-negative timer reads back from the display, at most ten minutes in a valid session |
| AuthSession.Session.ManualRefresh | persistent-auth/src/App.tsx:13-28 | with no user: error "No user to refresh", nothing else changes; success: timer 600 and refreshed; failure: user null, refreshed and timer kept |
| AuthSession.Session.DoLogin | persistent-auth/src/App.tsx:70-78 | login is called with the typed credentials; a message becomes the error and the user is kept; a user is stored and the error cleared; a rejected call changes nothing |
| AuthSession.Session.DoLogout | persistent-auth/src/App.tsx:82-86 | user null and refreshed false; error, timer and credentials unchanged |
| AuthSession.Session.UserEffect | persistent-auth/src/App.tsx:29-41 | when there is no user the timer is reset to 600; with a user it is unchanged |
| AuthSession.Session.Tick | persistent-auth/src/App.tsx:32-34 | the countdown drops by one second, with no floor at zero |
| AuthSession.Session.AutoRefresh | persistent-auth/src/App.tsx:45-59 | no user: nothing changes; success: refreshed, user kept, timer not restarted; failure: refreshed false and user null |
| AuthSession.LoginLogout | persistent-auth/src/App.tsx:70-94 | after login the countdown reads "10:00"; after logout and the user effect it is hidden and the timer is 600 |
| AuthSession.StaleRefreshedNotice | persistent-auth/src/App.tsx:19-26 | login, refresh, failed refresh, login again: "Token refreshed" is shown before any refresh in the new session |

## Left out

- HTTP: the `axios` calls of the fetch effect and of the authentication service are not modelled; how each call ended is a parameter: a response or a rejection for `FetchProducts`, and the outcomes of `DoLogin`, `ManualRefresh` and `AutoRefresh`.
- persistent-auth/src/api.ts is not part of this model: it is `localStorage`, JSON encoding, environment lookup and `axios`. Its `login` throws instead of returning a message, which is the `Rejected` outcome; the message branch of `doLogin` is kept because the handler has it.
- Scheduling: when React runs effects, `setInterval`/`clearInterval`, and the interleaving of overlapping fetches are runtime behaviour. Only the bodies of the effects and interval callbacks are modelled (`FetchProducts`, `UserEffect`, `Tick`, `AutoRefresh`), each as one atomic step.
- Numbers: JavaScript numbers are modelled as `int`. Fractional or NaN page numbers and page sizes are not modelled, and `limit || 20` treats only 0 as falsy.
- String length: JavaScript counts UTF-16 code units and Dafny counts characters, so `length` differs for characters outside the Basic Multilingual Plane.
- The optional `searchTerm` property of the table state is declared but never written by the reducer; it is left out.
- The reducer's `default` branch, which throws on an unknown action, cannot be reached with a closed datatype of actions.
- Rendering: JSX, the data-table configuration and columns, CSS classes beyond the boolean conditions modelled, and the floating-point price formatting are not modelled.
- `console.log`/`console.error`, `e.preventDefault()`, and the `onChange` setters of the text inputs (plain assignments to a state cell) are not modelled.
- React batches the state updates of one handler; every handler here sets its cells to values that do not read each other, so sequential assignment gives the same final state.
