# Route gate, session and report exports of a Nuxt spare-part management client

This project models the decision and string logic of a thin Nuxt front end
for a spare-part management back end:

- **the global route middleware** (`middleware/auth.global.js`). It looks up the
  requested path in an ordered table of protected routes and takes the first
  rule whose path equals the request or is a `/`-prefix of it. It then checks
  the `access_token` cookie and the rule's permission (`null`, one string, or
  an array checked with `some`). The `admin` role overrides a failed
  permission check. The model is `RouteGate.Evaluate`, generic over the table
  and over the `hasPermission` / `hasRole` predicates, and `ProtectedRoutes`
  is the table as shipped.
- **the session** (`composables/useAuth.js`). `Auth.Session` is a class whose
  four fields are the four cookies. `Login` (the part after the response has
  arrived) and `Logout` update them. `HasPermission`, `HasRole` and `IsAdmin`
  are membership reads that are false when the list is absent.
- **the report exports** (`composables/services/useReport.js`). This covers the
  request URLs, the `start_date` / `end_date` / `status` query string of the
  filtered export, the error thrown on a failed response, and the download
  filename. The filename is a default per export kind, replaced by what a
  `Content-Disposition` header yields. `ContentDisposition` is a dedicated
  matcher for the one regular expression the code uses. It gives a loose
  reading of the `filename` parameter of section 4.1 of RFC 6266.
- **the greeting** (`utils/helper.js`, `getGreeting`), with the hour as an input.

The middleware and the greeting are pure functions. The session and the
report exports are imperative, as in the source: `Session` has methods with
`modifies`, and `Report.BuildQueryParams` and `Report.Receive` build their
results step by step.

`RouteGate.Evaluate` is a function and reads no state, so the same path,
token state, permissions and roles always give the same decision.

The main fact proved about the shipped table is this. `/dashboard` comes
first and has no permission, and every other rule path lies under
`/dashboard/`. So whenever the table matches a path, it selects the
`/dashboard` rule, and the four permission rules are never selected
(`RouteGate.PermissionRulesUnreachable`). The shipped middleware therefore
ignores permissions and roles completely (`RouteGate.ShippedGate`):
- a visitor with a token is redirected only away from `/login` and `/register`;
- a visitor without a token is redirected to `/login` only from `/dashboard`
  and the paths below it.

The code is followed here. Per-route permission enforcement, such as
redirecting a token holder without `user.read` away from `/dashboard/users`,
is not what the code does (`RouteGate.UsersPageWithoutPermission`).

## Model

| member | source | states |
|---|---|---|
| `RouteGate.Matches` | middleware/auth.global.js:24 | a rule path matches only paths it is a prefix of, and a longer matching path continues it with `/` |
| `RouteGate.FindRule` | middleware/auth.global.js:23-25 | the selected rule matches the path (equal, or a prefix followed by `/`), and no earlier rule matches it; none is selected only when no rule matches |
| `RouteGate.Demands` | middleware/auth.global.js:32 | the permission check runs exactly when the rule's permission is neither `null` nor the empty string |
| `RouteGate.Granted` | middleware/auth.global.js:33-35 | a string permission is granted iff it is held; an array iff some listed permission is held |
| `RouteGate.AnyHeld` | middleware/auth.global.js:33-34 | an array permission is satisfied exactly when some listed permission is held |
| `RouteGate.Evaluate` | middleware/auth.global.js:1-42 | the only outcomes are: no redirect, a redirect to `/login` (only without a token and only on a matched path), or a redirect to `/dashboard` (only with a token) |
| `RouteGate.MatchesIff` | middleware/auth.global.js:24 | a rule path matches itself and exactly the paths that continue it with `/` |
| `RouteGate.MatchesTransitive` | middleware/auth.global.js:24 | whatever lies under a rule path also lies under every path that rule path lies under |
| `RouteGate.AuthPageRedirect` | middleware/auth.global.js:19-21 | with a token, `/login` and `/register` redirect to `/dashboard`, for any table and any permissions |
| `RouteGate.UnprotectedContinues` | middleware/auth.global.js:23-27 | a path that no rule matches is never redirected, except an auth page visited with a token |
| `RouteGate.UnauthenticatedToLogin` | middleware/auth.global.js:27-30 | without a token, any path that some rule matches redirects to `/login` |
| `RouteGate.PermissionCheck` | middleware/auth.global.js:32-39 | with a token on the selected rule: a `null` permission allows; a string allows iff it is empty, held, or the visitor is `admin`; an array allows iff some element is held or the visitor is `admin` |
| `RouteGate.AdminNeverRedirected` | middleware/auth.global.js:37-39 | a token holder with role `admin` is let through on every path except the auth pages, whatever permissions it holds |
| `RouteGate.RuleReachable` | middleware/auth.global.js:23-25 | for any table, rule k is ever selected iff no earlier rule matches rule k's own path |
| `RouteGate.ShippedRulesUnderDashboard` | middleware/auth.global.js:5-17 | every rule path of the shipped table lies under `/dashboard` |
| `RouteGate.ShippedTableSelectsDashboard` | middleware/auth.global.js:5-6 | the shipped table matches a path iff the path is under `/dashboard`, and then it selects the `/dashboard` rule |
| `RouteGate.PermissionRulesUnreachable` | middleware/auth.global.js:7-16 | the rules for users, spare parts, transactions and reports are never selected, for any path |
| `RouteGate.ShippedGate` | middleware/auth.global.js:1-42 | the complete decision of the shipped middleware; permissions and roles never affect it |
| `RouteGate.ShippedGateNoLoop` | middleware/auth.global.js:19-30 | a redirect target is never redirected again with the same token state, so there is no redirect loop (an unauthenticated `/login` is allowed) |
| `RouteGate.DashboardxUnprotected` | middleware/auth.global.js:24 | `/dashboardx` matches no rule of the shipped table |
| `RouteGate.UsersPageWithoutPermission` | middleware/auth.global.js:6-7 | a token holder lacking `user.read` and not `admin` still reaches `/dashboard/users` |
| `RouteGate.SparepartDetailSignedOut` | middleware/auth.global.js:27-30 | without a token, `/dashboard/spareparts/123` redirects to `/login` |
| `RouteGate.Middleware` | middleware/auth.global.js:2-3 | for a session read from its cookies: with a token, `/login` and `/register` redirect to `/dashboard`; without one, `/dashboard` and everything under it redirect to `/login`; every other case continues |
| `RouteGate.SignedOutSession` | middleware/auth.global.js:2-30 | for a session with no token (as after logout), exactly `/dashboard` and the paths below it redirect to `/login` |
| `RouteGate.SignedInSession` | middleware/auth.global.js:2-41 | for a session with a token, every path except the auth pages is let through |
| `Auth.Includes` | composables/useAuth.js:61 | `includes` is true exactly for elements of the list |
| `Auth.Holds` | composables/useAuth.js:59-62 | an absent list holds nothing; a present list holds exactly its elements |
| `Auth.RoleNames` | composables/useAuth.js:40 | the stored role names have the same length and order as `user.roles`, each the corresponding role's name |
| `Auth.RoleNamesMembership` | composables/useAuth.js:40 | a name is among the stored role names iff some role of the user carries it |
| `Auth.Session.HasPermission` | composables/useAuth.js:59-62 | false when the permission list is absent, otherwise membership in it |
| `Auth.Session.HasRole` | composables/useAuth.js:64-67 | false when the role list is absent, otherwise membership in it |
| `Auth.Session.IsAdmin` | composables/useAuth.js:69-71 | `admin` is among the stored role names |
| `Auth.Session.Login` | composables/useAuth.js:30-43 | a failed response throws the server message or `Error: <status>` and leaves every cookie unchanged; a successful one stores the token, user, permissions and role names, grants exactly the listed permissions and the roles the user carries, and navigates to `/dashboard` |
| `Auth.Session.Logout` | composables/useAuth.js:50-57 | all four cookies are cleared: no token, no user, no permission, no role, not admin, and navigation to `/login` |
| `Auth.Session.constructor` | composables/useAuth.js:4-7 | the session starts from whatever the four cookies hold |
| `FetchError.Decimal` | composables/useAuth.js:32 | a status is rendered as a non-empty string of decimal digits without a leading zero |
| `FetchError.DecimalRoundTrip` | composables/useAuth.js:32 | reading the rendered status back gives the status |
| `FetchError.ErrorMessage` | composables/services/useReport.js:41-44 | the thrown message is never empty: the server's message when truthy, otherwise `Error: ` followed by exactly the decimal rendering of the status |
| `FetchError.StatusRecoverable` | composables/services/useReport.js:43 | without a server message, the status can be read back from the error text |
| `ContentDisposition.RunEnd` | composables/services/useReport.js:50 | a greedy character-class run stops at the first excluded character or at the end |
| `ContentDisposition.ClosingQuote` | composables/services/useReport.js:50 | the lazy `.*?\2` finds the first matching quote, and fails if a line terminator comes first |
| `ContentDisposition.Group` | composables/services/useReport.js:50 | the captured group is the slice of the header right after the `=`: when it opens with a quote that closes later on the same line, it ends at the first such closing quote; otherwise it is the longest run without `;` or a newline, ending at one of those or at the end |
| `ContentDisposition.FirstMatch` | composables/services/useReport.js:50 | the match used is the leftmost position where `filename`, a run without `;`, `=` or newline, and `=` match |
| `ContentDisposition.FilenameGroup` | composables/services/useReport.js:50-51 | no contract of its own: `FilenameGroupAt` gives its value (the group of the leftmost match) and `NoGroupIffNoMatch` when it is null |
| `ContentDisposition.FilenameGroupAt` | composables/services/useReport.js:50 | when the pattern matches at i and at no earlier position, `match(...)[1]` is the group that starts right after the `=` following the keyword at i |
| `ContentDisposition.NoGroupIffNoMatch` | composables/services/useReport.js:50 | `match` gives no group exactly when the pattern matches at no position of the header |
| `ContentDisposition.MatchStartsWithF` | composables/services/useReport.js:50 | every match begins with the `f` of `filename` |
| `ContentDisposition.ClosingQuoteAt` | composables/services/useReport.js:50 | the lazy `.*?\2` stops at the first matching quote when no line terminator comes before it |
| `ContentDisposition.StripQuotes` | composables/services/useReport.js:52 | the result holds the same set of characters as the input, quotes removed; `StripQuotesAppend` and `StripQuotesUnquoted` fix their order and repeats |
| `ContentDisposition.SuggestedFilename` | composables/services/useReport.js:49-53 | a filename taken from the header is the non-empty group of a present header with its quotes removed, and so never contains `'` or `"` |
| `ContentDisposition.KeepsDefaultIff` | composables/services/useReport.js:49-53 | the default is kept iff the pattern does not match, or the first match's `=` is followed at once by `;`, a newline or the end |
| `ContentDisposition.EmptyHeaderKeepsDefault` | composables/services/useReport.js:49 | an empty header is falsy, so the default stays |
| `ContentDisposition.KeepsDefaultIffNoGroup` | composables/services/useReport.js:49-53 | for a non-empty header the default stays exactly when there is no group or the group is empty |
| `ContentDisposition.KeepsDefaultAt` | composables/services/useReport.js:50-53 | when the first match is at a given position, the default stays exactly when `;`, a newline or the end follows its `=` |
| `ContentDisposition.GroupNonEmptyAt` | composables/services/useReport.js:50-51 | a match captures an empty value exactly when `;`, a newline or the end follows the `=` |
| `ContentDisposition.GroupShape` | composables/services/useReport.js:50 | the captured value is either quoted, with the same quote at both ends, or free of `;` and newlines |
| `ContentDisposition.StripQuotesAppend` | composables/services/useReport.js:52 | quote removal distributes over concatenation |
| `ContentDisposition.StripQuotesUnquoted` | composables/services/useReport.js:52 | a value without quotes is kept as it is |
| `ContentDisposition.StripQuotesIdempotent` | composables/services/useReport.js:52 | removing quotes twice is removing them once |
| `ContentDisposition.QuotedValue` | composables/services/useReport.js:50-52 | a quoted value without inner quotes loses exactly its two quotes |
| `ContentDisposition.StripInnerQuotes` | composables/services/useReport.js:52 | quotes between two unquoted pieces vanish |
| `ContentDisposition.FirstMatchAt` | composables/services/useReport.js:50 | the match starts at the first position where the pattern matches |
| `ContentDisposition.QuotedHeaderGroup` | composables/services/useReport.js:50 | `attachment; filename="<name>"`, for any name without quotes or line terminators (such as `t_7.pdf`), captures `"<name>"` |
| `ContentDisposition.QuotedHeader` | composables/services/useReport.js:50-52 | `attachment; filename="<name>"` yields the name itself, for any name without quotes or line terminators (`t_7.pdf` from `"t_7.pdf"`) |
| `ContentDisposition.ExtendedParameterGroup` | composables/services/useReport.js:50 | `filename*=<charset>''<name>` (as in `filename*=UTF-8''r.pdf`) matches at the keyword, with `*` consumed by the name run, and captures everything after the `=` |
| `ContentDisposition.ExtendedParameterTakenLiterally` | composables/services/useReport.js:50-52 | `filename*=<charset>''<name>` yields `<charset><name>` (`UTF-8r.pdf` from `UTF-8''r.pdf`), for a non-empty charset and a name without quotes, `;` or newlines: the RFC 5987 form is not decoded |
| `ContentDisposition.FirstValueWins` | composables/services/useReport.js:50-52 | `filename=<a>;<rest>` yields `a` for any value a without quotes, `;` or newlines, whatever follows (`filename=a.pdf;filename=b.pdf` gives `a.pdf`) |
| `ContentDisposition.FirstEmptyValueWins` | composables/services/useReport.js:50-51 | `filename=;filename=a.pdf` keeps the default: only the first match counts |
| `ContentDisposition.EmptyValueKeepsDefault` | composables/services/useReport.js:51 | `filename=;` keeps the default |
| `ContentDisposition.EmptyQuotedValue` | composables/services/useReport.js:51-52 | `filename=""` gives the empty filename, because the captured `""` is truthy |
| `Report.BuildQueryParams` | composables/services/useReport.js:104-107 | the parameters are exactly the truthy filters, each once, under its own name and with its own value, in the order `start_date`, `end_date`, `status` |
| `Report.QueryString` | composables/services/useReport.js:109 | the query string is empty iff no parameter was appended |
| `Report.NoParamsIffNoFilter` | composables/services/useReport.js:104-110 | no parameter is appended iff no filter is truthy |
| `Report.EntriesFit` | composables/services/useReport.js:104-107 | the reference list of truthy filters in order meets the description |
| `Report.EntryAt` | composables/services/useReport.js:104-107 | the i-th reference entry belongs to the filter with exactly i truthy filters before it |
| `Report.SamePositionSet` | composables/services/useReport.js:104-107 | a parameter list that meets the description sits at the places of the truthy filters, in increasing order |
| `Report.QueryForUnique` | composables/services/useReport.js:104-107 | only one parameter list meets the description: the reference list |
| `Report.PositionsBounded` | composables/services/useReport.js:104-107 | a list meeting the description has at most three parameters, the i-th at a place between i and 3 - (count - i) |
| `Report.PositionAtLeast` | composables/services/useReport.js:104-107 | in a list meeting the description, the i-th parameter's place is at least i |
| `Report.PositionAtMost` | composables/services/useReport.js:104-107 | in a list meeting the description, the i-th parameter's place leaves room for the parameters after it |
| `Report.Receive` | composables/services/useReport.js:41-54 | a failed response throws the message rule; otherwise the filename is the header's suggestion, or the default when it gives none |
| `Report.ExportTransactionToPdf` | composables/services/useReport.js:34-57 | fetches `<apiUrl>/reports/transaction/<id>/pdf`; without a header the file is `transaction_<id>.pdf` |
| `Report.ExportTransactionToExcel` | composables/services/useReport.js:67-90 | fetches `<apiUrl>/reports/transaction/<id>/excel`; without a header the file is `transaction_<id>.xlsx` |
| `Report.ExportAllTransactionsToPdf` | composables/services/useReport.js:101-133 | the URL is the bare `.../reports/transactions/pdf` iff no filter is truthy, and otherwise `...?` followed by the query string of the parameters described above; without a header the file is `transactions_report.pdf` |
| `Helper.Greeting` | utils/helper.js:5-11 | before 12 `Selamat Pagi`, 12 to 14 `Selamat Siang`, 15 to 17 `Selamat Sore`, from 18 `Selamat Malam` |
| `Helper.Phase` | utils/helper.js:7-10 | each greeting has one place in the day's order |
| `Helper.GreetingPartition` | utils/helper.js:5-11 | every hour gets exactly one of the four greetings |
| `Helper.GreetingMonotone` | utils/helper.js:5-11 | as the hour increases the greeting only moves forward, from Pagi through Siang and Sore to Malam |

## Left out

- `fetch`, `response.json()`, `response.blob()`, `useRuntimeConfig` and `useCookie` are Nuxt and browser runtime. A response is an input record. The API base URL is a parameter. Cookies are the `Session` fields.
- `navigateTo` is a returned value: `RouteGate.Decision`, and the navigation result of `Login` and `Logout`.
- The credentials that `login` posts, and the request headers, are not modelled: only what happens after the response is.
- A response body that is not JSON makes `response.json()` throw a different error. This is not modelled, and neither is a successful login body that lacks `user`, `all_permissions` or `roles`.
- `Auth.Session.GetUser` has no contract of its own: it is the read of the `user` cookie, and `Login` and `Logout` state what it returns.
- `Report.BuildQueryParams` and `Report.QueryString`: percent-encoding by `URLSearchParams` is the parameter `encode`, applied to values. The three parameter names contain only letters and `_`, which the encoder leaves as they are.
- `handleFileDownload` (composables/services/useReport.js:19-29) creates an object URL and a DOM link. It is not modelled; a successful export's result is the filename the download would be saved under.
- The matcher models the one regular expression at composables/services/useReport.js:50, not a general regex engine. `filename*` values (RFC 5987) are not decoded, because the code does not decode them either.
- `formatCurrentDate` and `getCurrentYear` (utils/helper.js:17-34) are locale formatting and clock reads, and the hour that `getGreeting` reads from `new Date()` is a parameter.
- `console.error` logging, `async`/`await` and the `try`/`catch` rethrow are not modelled: execution is sequential and the error is passed on unchanged.
- composables/useUser.js, composables/useRole.js, composables/services/useTransactions.js and composables/services/useSpareparts.js are not part of this model. They are fetch wrappers whose only logic is URL concatenation and the same error-message rule as `FetchError.ErrorMessage`.
- Per-route permission enforcement, which the rules at middleware/auth.global.js:7-16 suggest, is not modelled, because the code does not perform it: the `/dashboard` rule shadows those rules (see `RouteGate.PermissionRulesUnreachable`).
