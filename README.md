# Aggregator admin console: a verified model of its core logic

This project models, in Dafny, the parts of the Aggregator admin console that hold logic
that can be stated and checked.

- **Money arithmetic** (`MoneyMath`). This is the big.js helper. It has exact sums, differences and products. Quotients are rounded half-up to 10 places. Falsy operands count as 0. It also covers percentage formatting with `toFixed` and currency exchange.
- **CSV export** (`CsvExport`). It writes the header row and data rows. Data fields are quoted in the style of RFC 4180; header labels are written unquoted. Rows are joined by LF, and the content starts with a U+FEFF byte-order mark. A separate reader is the partner: reading the export gives back the labels and every cell when no label holds ',', '"' or LF.
- **Agent breadcrumbs** (`AgentList`). This is the trail that starts at Root. Drilling down grows it; clicking an earlier entry cuts it back to a prefix. It also covers the query each fetch sends and how a reply updates the agent list.
- **Route guard** (`RouteGuard`). It makes the four-way decision before every navigation, and there is no redirect loop.
- **Auth store** (`AuthStore`). The token and user are mirrored into local storage, which is modelled as a map. This covers login and logout, and the state read back on start-up.
- **Merchant list** (`MerchantList`). This is the pagination record and what a fetch does to it on success and on failure.
- **Mock admin tables** (`SystemMock`). This covers the staff upsert, the settings merge with its audit entry, the list responses, and the seeded audit log sorted newest first.

`Digits` turns natural numbers into decimal text and back. `Wrappers` holds `Option` and `Result`.

Money values are Dafny `real`s, so big.js arithmetic is exact here as it is in the library. big.js rounding mode `roundHalfUp` means the nearest value, with a tie going away from zero. `toFixed` takes its '-' sign from the unrounded value, so a small negative value is written "-0.00".

An asynchronous fetch is split into two methods. The first starts the fetch and the second settles it with the reply, which is a parameter. Only the agent-list fetch returns something when it starts: its query parameters. Randomly generated values and the clock are parameters too: the new staff id, the audit entry id and time, the seeded dates and the 25 seeded log entries.

## Model

| member | source | states |
|---|---|---|
| MoneyMath.RoundDP | src/utils/math.ts:10-11 | the result has at most 10 fractional digits and is the nearest such value to the input, a tie going away from zero |
| MoneyMath.RoundDPExact | src/utils/math.ts:10-11 | a value that already has at most 10 fractional digits is left unchanged by the rounding |
| MoneyMath.Add | src/utils/math.ts:15 | a falsy operand (0, '', null, undefined, NaN) contributes nothing: the sum is then the other operand's value |
| MoneyMath.OptAdd | src/utils/math.ts:16 | equals `add` for every pair of operands, null and undefined included |
| MoneyMath.Sub | src/utils/math.ts:18 | a falsy subtrahend leaves the minuend's value; a falsy minuend gives the negated subtrahend |
| MoneyMath.Mul | src/utils/math.ts:20 | a falsy factor makes the product 0 |
| MoneyMath.Div | src/utils/math.ts:22-26 | a zero or falsy divisor gives 0; otherwise the result is the exact quotient rounded half-up to 10 places |
| MoneyMath.CalcExchange | src/utils/math.ts:35-38 | every rate other than a numeric string denoting zero gives `div(amount, rate)`, so a nonzero rate gives the exact quotient rounded half-up to 10 places; the only failure is a numeric-string rate denoting zero, which big.js rejects with its "Division by zero" error |
| MoneyMath.ToFixed | src/utils/math.ts:30 | the text is plain notation: integer digits with no superfluous leading zero, then exactly `dp` fractional digits; it starts with '-' exactly when the value is negative; it denotes the value rounded half-up to `dp` places |
| MoneyMath.MagnitudeUnits | src/utils/math.ts:30 | rounding half-up is symmetric about zero: the rounded magnitude with the value's sign is the rounded value |
| MoneyMath.ToPercent | src/utils/math.ts:29-31 | more than 10^6 decimal places is big.js's "Invalid decimal places" error; otherwise the text is plain notation with exactly `decimals` fractional digits (2 by default), starts with '-' exactly when 100 times the value is negative, and denotes 100 times the value rounded half-up |
| MoneyMath.AddIsExact | src/utils/math.ts:15 | 0.1 + 0.2 is exactly 0.3, with a number or a numeric-string operand |
| MoneyMath.AddSubInverse | src/utils/math.ts:15-18 | subtracting `b` from `add(a, b)` gives back the value of `a` |
| MoneyMath.DivUndoesMul | src/utils/math.ts:20-26 | dividing `mul(a, b)` by a nonzero `b` gives `a` rounded to 10 places |
| MoneyMath.DivUndoesMulExactly | src/utils/math.ts:20-26 | for an `a` with at most 10 fractional digits, dividing `mul(a, b)` by a nonzero `b` gives `a` exactly |
| MoneyMath.DivByZero | src/utils/math.ts:22-24 | every zero or falsy divisor makes `div` return 0, and a zero rate makes `calcExchange` return 0 |
| MoneyMath.ToPercentExample | src/utils/math.ts:29-31 | `toPercent(0.0595, 2)` is "5.95" |
| MoneyMath.ToPercentNegativeZero | src/utils/math.ts:29-31 | `toPercent(-0.00001, 2)` is "-0.00": the sign follows the unrounded value |
| Digits.TextRoundTrip | src/composables/useMerchantList.ts:25 | the decimal text of a number, as in the HTTP status message, reads back as that number |
| CsvExport.Keys | src/utils/csvExport.ts:10 | the header keys in mapping order |
| CsvExport.Labels | src/utils/csvExport.ts:11 | the header labels in mapping order |
| CsvExport.HeaderRow | src/utils/csvExport.ts:14 | the labels joined by commas without escaping: it reads back as the labels when no label holds ',', '"' or LF |
| CsvExport.CellText | src/utils/csvExport.ts:17-25 | a missing, undefined or null value becomes the empty field; any other value becomes its text |
| CsvExport.DoubleQuotes | src/utils/csvExport.ts:27 | never shortens the text; a text without '"' is unchanged |
| CsvExport.Escape | src/utils/csvExport.ts:25-29 | a field without ',', '"' or LF is written unchanged; any other field is written between double quotes |
| CsvExport.EscapeAll | src/utils/csvExport.ts:16-29 | one escaped field per text, in order |
| CsvExport.RowTexts | src/utils/csvExport.ts:16-25 | exactly one field text per header key, in header-key order |
| CsvExport.DataRow | src/utils/csvExport.ts:15-31 | a record's escaped fields joined by commas: it reads back as one field text per header key, in key order |
| CsvExport.Rows | src/utils/csvExport.ts:13-32 | `data.length + 1` rows: first the header row (the labels joined by commas, unescaped), then the row of each record in input order |
| CsvExport.DataRows | src/utils/csvExport.ts:15-31 | row `i` is the row of record `i`, in input order |
| CsvExport.ExportContent | src/utils/csvExport.ts:7-37 | nothing is produced exactly when the data is missing or empty; otherwise the content starts with the byte-order mark |
| CsvExport.EscapeRoundTrip | src/utils/csvExport.ts:26-27 | removing the outer quotes and undoubling inner quotes recovers the original field |
| CsvExport.FieldRoundTrip | src/utils/csvExport.ts:25-29 | an escaped field followed by ',' or LF or the end reads back as the field, leaving the separator |
| CsvExport.RowRoundTrip | src/utils/csvExport.ts:16-30 | the comma-joined escaped fields of a row read back as that row's fields |
| CsvExport.TableRoundTrip | src/utils/csvExport.ts:13-34 | rows joined by LF read back as the same rows, for rows of at least one field |
| CsvExport.ExportRoundTrip | src/utils/csvExport.ts:7-37 | after the byte-order mark, the content reads back as the labels, then each record's field texts in key order, when no label needs quotes |
| CsvExport.HeaderCommaSplits | src/utils/csvExport.ts:11-14 | header labels are not escaped: a label "bet,win" reads back as two header fields |
| AgentList.Get | src/composables/useAgentList.ts:25-27 | a parameter is found exactly when some entry has that name |
| AgentList.BuildQuery | src/composables/useAgentList.ts:25-27 | `parent_id` comes first and only for a non-null, nonzero parent, holding it; `level` is always present and last; nothing else is in the query |
| AgentList.ItemFor | src/composables/useAgentList.ts:45-49 | the entry holds the agent's account as its text, its id and its level, and so is never Root |
| AgentList.DrillDown | src/composables/useAgentList.ts:45-49 | exactly one entry (account, id, level) is appended and earlier entries are kept |
| AgentList.SlicePrefix | src/composables/useAgentList.ts:59 | `slice(0, end)` with JavaScript's clamping and counting a negative end from the back |
| AgentList.Click | src/composables/useAgentList.ts:54-59 | a click on the last entry leaves the trail unchanged; a click on index `i` before it leaves the first `i + 1` entries, ending with the clicked one; an unguarded index of -1 empties the trail, Root included |
| AgentList.ClickIsPrefix | src/composables/useAgentList.ts:54-59 | a click on any entry leaves a non-empty prefix of the trail |
| AgentList.StepGrowsOrCuts | src/composables/useAgentList.ts:43-63 | each user action grows the trail by exactly one entry or cuts it to a non-empty prefix |
| AgentList.ReplayKeepsRoot | src/composables/useAgentList.ts:17-63 | after any sequence of drill-downs and clicks on trail entries, the trail is non-empty and Root is first |
| AgentList.AgentsAfter | src/composables/useAgentList.ts:31-35 | code 0 replaces the agents by the reply's list; any other reply keeps them |
| AgentList.NoticeFor | src/composables/useAgentList.ts:31-37 | an error is shown exactly when the reply is not code 0: `msg`, else "Failed to fetch agents", and "Network Error" for a failed request |
| AgentList.AgentListState.constructor | src/composables/useAgentList.ts:13-19 | not loading, no agents, and the trail is exactly [Root] |
| AgentList.AgentListState.FetchAgents | src/composables/useAgentList.ts:21-29 | loading is raised and the query is built from (parent id, level); nothing else changes |
| AgentList.AgentListState.SettleFetch | src/composables/useAgentList.ts:30-40 | loading ends false, the agents follow the reply, the notice is the reply's error message, and the trail is kept |
| AgentList.AgentListState.HandleDrillDown | src/composables/useAgentList.ts:43-52 | the trail gets the agent's entry, Root stays first, and a fetch of its children starts |
| AgentList.AgentListState.HandleBreadcrumbClick | src/composables/useAgentList.ts:54-63 | the last entry is a no-op with no fetch; otherwise the trail is cut after the index and the clicked item's children are fetched; Root stays first for an index on the trail |
| RouteGuard.Guard | src/router/permission.ts:4-22 | navigation proceeds exactly when the user has a token or the page is white-listed but not both; a signed-in user is sent to "/", a signed-out one to the login page |
| RouteGuard.QueryIsNotPath | src/router/permission.ts:20 | the redirect location `/login?redirect=…` has path "/login" |
| RouteGuard.NoRedirectLoop | src/router/permission.ts:10-21 | with the token unchanged, the page a redirect leads to is let through |
| RouteGuard.EmptyTokenIsNoToken | src/router/permission.ts:8 | an empty-string token decides as no token |
| RouteGuard.GuardOutcomes | src/router/permission.ts:10-21 | the four outcomes: token and /login go to "/"; token and another page proceed; no token and /login proceed; no token and page p go to "/login?redirect=" + p |
| AuthStore.LoadToken | src/stores/auth.ts:5 | the token is the stored `auth_token` string, or null when the key is missing |
| AuthStore.LoadUser | src/stores/auth.ts:6 | the user is the stored `auth_user` text exactly when that entry is present, non-empty and not "null"; a missing or empty entry reads as null |
| AuthStore.SaveLogin | src/stores/auth.ts:11-12 | both keys hold the new token and the user's JSON text |
| AuthStore.ClearLogin | src/stores/auth.ts:18-19 | neither key is left in storage |
| AuthStore.OtherKeysKept | src/stores/auth.ts:11-19 | login and logout leave every other storage key and its value as they were |
| AuthStore.ReloadAfterLogin | src/stores/auth.ts:5-12 | a store started after `login(t, u)` has token t and user u |
| AuthStore.ReloadAfterLogout | src/stores/auth.ts:5-20 | a store started after `logout` has no token and no user |
| AuthStore.LogoutIdempotent | src/stores/auth.ts:15-20 | logging out twice leaves storage as logging out once |
| AuthStore.Store.constructor | src/stores/auth.ts:5-6 | token and user are read back from storage |
| AuthStore.Store.Login | src/stores/auth.ts:8-13 | token and user are set and both keys written, nothing else in storage changing |
| AuthStore.Store.Logout | src/stores/auth.ts:15-20 | token and user are null and both keys removed, nothing else in storage changing |
| MerchantList.FailureMessage | src/composables/useMerchantList.ts:24-41 | a bad HTTP status gives "HTTP Error: <status>"; a nonzero code gives `msg`, else "Unknown API Error"; a thrown error gives its message, else its text |
| MerchantList.ErrorAfter | src/composables/useMerchantList.ts:24-41 | an error exists exactly when the fetch failed; it is "API Error: " followed by "HTTP Error: <status>", by `msg` or "Unknown API Error", or by the thrown error's message or text |
| MerchantList.StatusReadsBack | src/composables/useMerchantList.ts:25 | the digits after "API Error: HTTP Error: " in the error of a failed response denote its status |
| MerchantList.PageCount | src/composables/useMerchantList.ts:37 | `(pageCount - 1) * pageSize < total <= pageCount * pageSize`, so a total of 0 gives 0 pages |
| MerchantList.PageCountExamples | src/composables/useMerchantList.ts:37 | 0, 20 and 21 items at 20 per page need 0, 1 and 2 pages |
| MerchantList.PageCountLeast | src/composables/useMerchantList.ts:37 | the page count is the least page number whose pages hold the total |
| MerchantList.MerchantListState.constructor | src/composables/useMerchantList.ts:5-15 | page 1, page size 20, no items, one page, no error, not loading |
| MerchantList.MerchantListState.FetchStart | src/composables/useMerchantList.ts:17-19 | loading is raised and the error cleared; list and pagination are kept |
| MerchantList.MerchantListState.FetchSettle | src/composables/useMerchantList.ts:20-44 | loading ends false; page and page size never change; success replaces the list, item count and page count; failure keeps them and sets the prefixed error |
| SystemMock.Prop | src/mocks/system.ts:56 | a present property reads as its value, a missing one as undefined |
| SystemMock.Merge | src/mocks/system.ts:59 | the merged record has the union of keys; the body's values win and the record's other values are kept |
| SystemMock.FindIndex | src/mocks/system.ts:58 | the first index whose id is `===` to the given id, or -1 when there is none |
| SystemMock.NewStaff | src/mocks/system.ts:62-68 | the new record has the given id, the body's account and role, last_login "-" and status "active" |
| SystemMock.Upsert | src/mocks/system.ts:56-68 | a found id shallow-merges the body into that record, length and every other record unchanged; a truthy id matching no record leaves the list unchanged; a missing or falsy id (0 included) puts one new record first and the old records follow unchanged |
| SystemMock.Insert | src/mocks/system.ts:35 | inserting adds exactly the one entry |
| SystemMock.InsertKeepsOrder | src/mocks/system.ts:35 | inserting into a newest-first log keeps it newest first |
| SystemMock.SortNewestFirst | src/mocks/system.ts:22-35 | the sorted log is newest first and holds the same entries |
| SystemMock.PrependKeepsOrder | src/mocks/system.ts:99-107 | a newest-first log stays so when an entry stamped no earlier than all others is put in front |
| SystemMock.SettingsEntry | src/mocks/system.ts:99-107 | the entry is stamped with the given id and time, by "admin", action UPDATE_SETTINGS on "Global Config" from 127.0.0.1, with the body as its changes |
| SystemMock.SeedStaff | src/mocks/system.ts:5-10 | four seeded records with ids 1 to 4 and the generated last-login texts |
| SystemMock.MockBackend.constructor | src/mocks/system.ts:5-40 | the seeded staff, the 25 generated entries sorted newest first, and the initial settings |
| SystemMock.MockBackend.ListStaff | src/mocks/system.ts:44-51 | the response lists the staff and reports their number as total |
| SystemMock.MockBackend.ListAuditLogs | src/mocks/system.ts:74-81 | the response lists the log and reports its length as total |
| SystemMock.MockBackend.GetSettings | src/mocks/system.ts:84-91 | the response carries the current settings |
| SystemMock.MockBackend.SaveStaff | src/mocks/system.ts:53-71 | the staff list becomes the upsert of the body; a null body throws and saves nothing; log and settings are unchanged |
| SystemMock.MockBackend.UpdateSettings | src/mocks/system.ts:93-111 | settings become the shallow merge of old settings and body; exactly one UPDATE_SETTINGS entry is put in front of the log; the log stays newest first when the clock has not gone back |

## Left out

- The final `Number(...)` conversion of big.js results to an IEEE double is not modelled. Results are exact decimals.
- big.js parsing of operand strings is not modelled. A numeric string is given by the decimal value it denotes, and a non-numeric string, which big.js rejects, is not represented.
- MoneyMath.ToPercent: a negative or non-integer `decimals` (which big.js rejects with "Invalid decimal places") is not represented, because `decimals` is a `nat`.
- MoneyMath.Div: the NaN operand counts as falsy, as in JavaScript. Infinite numbers are not represented.
- The CSV download itself is out of scope: the Blob, object URL, hidden anchor, click and revoke (src/utils/csvExport.ts:37-48).
- CsvExport.CellText: `String(value)` of a non-null value is taken as given. Number-to-text conversion and object-to-text conversion are not modelled.
- Async ordering is not modelled. A stale reply of an earlier fetch can settle after a later one.
- The fetch URLs and the `String` rendering of query values are not modelled; AgentList.BuildQuery gives the parameters as name/number pairs.
- UI message toasts are modelled only as the returned notice text, and console logging is left out.
- JSON stringify/parse of the user object is not modelled. The user is kept as its JSON text, and a stored value that is not valid JSON (which would make start-up throw) is not represented.
- AuthStore.Store.Login: storing an `undefined` user (saved as the text "undefined") is not represented.
- Faker-generated values and `new Date()` are not modelled; they are method parameters: ids, dates, the 25 seeded entries and the clock.
- Timestamps are milliseconds. ISO-8601 text and its parsing are not modelled.
- SystemMock.SortNewestFirst: equal timestamps keep their input order, as in a stable `Array.prototype.sort`, but stability is not proved.
- SystemMock.Merge: spreading a string or array body (which adds index-named properties) is not modelled; such a body adds no properties.
- Key order of JavaScript objects is not modelled; records are maps.
- Object identity in `===` is reduced to one rule: an object or array from a freshly parsed body equals nothing stored.
- MSW routing, response delays and HTTP response wrapping in src/mocks/system.ts are not modelled. The list responses are the values and totals the handlers put in them.
