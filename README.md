# Financial scorecard system: client-side session, role gate and pickers

This project models, in Dafny, the client-side logic of the scorecard
management UI:

- **AuthContext** (`auth_context.dfy`): the authentication provider. It holds
  the signed-in `user`, the `isAuthenticated` flag and a persistent store
  with the keys `scorecard_user` and `scorecard_session`. `login` checks a
  fixed directory of four accounts. The match is exact and case-sensitive.
  On success it saves the user without its password, with a session that
  expires 24 hours (86 400 000 ms) later. `logout` clears the fields and both
  keys. The mount effect restores a saved session only while `now < expires`
  and deletes an expired one. The class `AuthProvider` holds the three
  fields. Its methods are specified by the pure step functions `LoginStep`,
  `LogoutStep` and `MountStep`, and the lemmas state the properties of those
  functions.
- **ProtectedAction** (`protected_action.dfy`): the role gate and the
  login-prompt interceptor. Roles rank admin 3 > user 2 > viewer 1, and the
  required role defaults to `user`. The click check sits on the wrapping
  element, so it runs after the wrapped element's own click handler. A click
  without permission opens the prompt and stops the click from going any
  further, but the wrapped handler has already run (see Findings). Signing in
  or cancelling closes the prompt, and no click is replayed. When permission
  is missing and a fallback is supplied, the fallback replaces the content,
  and then the prompt never shows.
- **UserProfile** (`user_profile.dfy`): the signed-out condition, the role
  badge class and label, the avatar initial, and the logout button.
- **BorrowerSearch** (`borrower_search.dfy`): the searchable business
  selector. It has a case-insensitive substring filter that keeps order, a
  "create new" option for names not listed, and a trim-and-submit action.
  Its state is `isOpen`, `searchTerm` and `displayValue`.
- **Scorecards** (`scorecards.dfy`): the risk band of a score, the distinct
  borrower ids, the per-borrower account filter, the two pickers and the
  calculation guard, and the in-place newest-first sort of the table.

Helper modules: `Wrappers` (Option, Result), `Text` (`toLowerCase`,
`toUpperCase`, `includes`, `trim`) and `Arrays` (`filter`).

Platform services become parameters. The clock is an `int` parameter `now`
in milliseconds. `localStorage` is a `map<string, string>`. `JSON.stringify`
and `JSON.parse` are the functions of a `Codec` value. The proofs rely on
nothing about them beyond what the predicate `Faithful` states: each record reads back as
written, and the empty string does not parse. Callbacks to the parent
component (`onSelect`, `onCreateNew`, `onRefresh`) and the calculation
request are returned as values (`Notice`, `CalcStart`, `CalcEnd`).

Behaviour kept exactly as the code has it:

- A stored record that does not parse is not recovered from. `JSON.parse`
  throws inside the mount effect, so the model's `MountStep` returns
  `ParseFailure` and changes nothing. Expiry is checked only at mount.
- `savedUser && savedSession` is a truthiness test. A key holding the empty
  string counts as missing.
- If the stored user record is the JSON value `null` and the session is
  live, restore sets `isAuthenticated` while `user` stays null. `login` never
  writes such a record, so the pairing "authenticated iff a user is set" holds
  for every store the provider writes itself (`StepsKeepPaired`).
  `MountOfNullUserBreaksPairing` shows the exception. The consumers test
  `!user` as well.
- Picker values are `number | ''`, and a pick is truthy only when it is a
  number other than 0. A borrower whose id is 0 is listed but cannot be
  chosen (`OfferedBorrowersHaveAccounts`).
- `handleCreateNew` keeps the text shown in the box. It clears only the
  search term and closes the list.
- `handleCalculateScore` does not check `loading`. Only the button's
  `disabled` attribute does.

A session record that does not parse, or a user record that does not parse
next to a live session, is not cleared by the restore. It stays in the store
(`MountParseFailureChangesNothing`), and every later mount throws again. The
app has no error boundary, and the only `logout` and `login` calls are made
by components inside the provider, so neither can run to replace it. The
record stays until the store is cleared from outside the app.

The comment at `ProtectedAction.tsx:46` says the action "will now proceed"
after sign-in. `handleLoginSuccess` only closes the prompt, and the model
follows it: no refused click is run again (`HandleLoginSuccess`,
`PromptFollowsLastDecision`).

`useAuth` is the function `UseAuth`: the enclosing provider, or the error it
throws outside one.

## Model

| member | source | states |
|---|---|---|
| AuthContext.Lookup | frontend/src/components/AuthContext.tsx:68 | `find` returns a directory entry matching both username and password, and returns none exactly when no entry matches |
| AuthContext.DirectoryUsernamesDistinct | frontend/src/components/AuthContext.tsx:61-66 | no two directory entries share a username |
| AuthContext.LookupFindsTheMatch | frontend/src/components/AuthContext.tsx:61-68 | when entry i matches, the search returns exactly entry i |
| AuthContext.FindCredential | frontend/src/components/AuthContext.tsx:61-68 | the loop over the directory finds an entry iff some entry matches exactly (case-sensitive), and the entry it returns matches |
| AuthContext.Initial | frontend/src/components/AuthContext.tsx:33-34 | a provider starts signed out, with the pairing invariant holding |
| AuthContext.LoginSucceedsIffListed | frontend/src/components/AuthContext.tsx:61-86 | `login` returns true iff some directory entry matches both username and password |
| AuthContext.LoginSuccess | frontend/src/components/AuthContext.tsx:70-83 | a successful login sets the matching entry without its password as user, authenticated, writes both keys with the session reading back as `now + 86400000`, and keeps every other key |
| AuthContext.LoginFailureChangesNothing | frontend/src/components/AuthContext.tsx:68-86 | a failed login returns false and leaves user, flag and store unchanged |
| AuthContext.LogoutClears | frontend/src/components/AuthContext.tsx:93-98 | logout leaves no user, not authenticated, neither key present, other keys kept, and is idempotent |
| AuthContext.MountResumes | frontend/src/components/AuthContext.tsx:41-48 | with both records present and `now < expires`, restore gives back the stored user, authenticated, store untouched |
| AuthContext.MountExpires | frontend/src/components/AuthContext.tsx:45-53 | at or after expiry restore removes both keys, leaves the user signed out, and a second restore finds nothing |
| AuthContext.MountNeedsBothRecords | frontend/src/components/AuthContext.tsx:38-41 | with either record missing or empty, restore changes nothing |
| AuthContext.MountParseFailureChangesNothing | frontend/src/components/AuthContext.tsx:41-47 | with both keys set, a session record that does not parse, or a live session whose user record does not parse, aborts restore with the state and both stored records unchanged (no silent recovery) |
| AuthContext.StepsKeepPaired | frontend/src/components/AuthContext.tsx:37-98 | login, logout and restore keep "authenticated iff a user is set" and never leave a `null` user record in the store |
| AuthContext.MountOfNullUserBreaksPairing | frontend/src/components/AuthContext.tsx:46-48 | a stored user record that parses to `null` with a live session yields authenticated with no user |
| AuthContext.LoginThenRemount | frontend/src/components/AuthContext.tsx:37-81 | after login at t, a fresh provider resumes the same user before t + 24h, and at or after it finds the session expired and cleared |
| AuthContext.AuthProvider.constructor | frontend/src/components/AuthContext.tsx:32-34 | the provider starts with no user, not authenticated, over the given store |
| AuthContext.AuthProvider.Mount | frontend/src/components/AuthContext.tsx:37-55 | the mount effect's outcome and new state are those of `MountStep` |
| AuthContext.AuthProvider.Login | frontend/src/components/AuthContext.tsx:57-91 | `login` returns true iff the pair is listed; its new state is that of `LoginStep`; on failure nothing changes |
| AuthContext.AuthProvider.Logout | frontend/src/components/AuthContext.tsx:93-98 | logout clears user and flag and removes both keys |
| AuthContext.AuthProvider.RequireAuth | frontend/src/components/AuthContext.tsx:100-102 | `requireAuth()` equals `isAuthenticated`, and under the pairing it means a user is signed in |
| AuthContext.AdminLogin | frontend/src/components/AuthContext.tsx:61-73 | logging in as admin/admin123 gives an authenticated admin |
| AuthContext.WrongCredentialsRefused | frontend/src/components/AuthContext.tsx:61-68 | demo/wrong and Admin/admin123 (wrong case) are refused and change nothing |
| ProtectedAction.Level | frontend/src/components/ProtectedAction.tsx:27-31 | every role has a rank between 1 and 3 |
| ProtectedAction.PermissionIsHierarchy | frontend/src/components/ProtectedAction.tsx:23-34 | permission holds iff authenticated, a user is set, and its role covers the requirement in admin > user > viewer |
| ProtectedAction.CoversIsTotalOrder | frontend/src/components/ProtectedAction.tsx:26-33 | the role hierarchy is a total order |
| ProtectedAction.PermissionMonotone | frontend/src/components/ProtectedAction.tsx:23-34 | passing a higher requirement implies passing every lower one; signed out passes nothing |
| ProtectedAction.AdminAndViewerBounds | frontend/src/components/ProtectedAction.tsx:27-33 | admin passes every requirement; every signed-in user passes `viewer` |
| ProtectedAction.ViewerThenUserLogin | frontend/src/components/ProtectedAction.tsx:17-34 | a viewer fails the default requirement (`user` when none is given); after logging in as user/user123 it passes |
| ProtectedAction.ActionRunsOnEveryClick | frontend/src/components/ProtectedAction.tsx:36-42 | as written, the wrapped action runs once per click, permitted or not, and only the permitted clicks go on to the default action and outer handlers |
| ProtectedAction.RefusedClickStillRunsAction | frontend/src/components/ProtectedAction.tsx:36-42 | a single signed-out click runs the wrapped action, goes no further, and opens the prompt |
| ProtectedAction.CapturingRunsOnlyPermittedClicks | frontend/src/components/ProtectedAction.tsx:36-47 | with the check made before the wrapped handler, the action runs exactly once per permitted click, and a refused click is never run later |
| ProtectedAction.PromptFollowsLastDecision | frontend/src/components/ProtectedAction.tsx:36-61 | the prompt is open after any run iff the last deciding event was a refused click (sign-in and cancel close it) |
| ProtectedAction.NoRefusalKeepsPromptClosed | frontend/src/components/ProtectedAction.tsx:36-61 | a run with no refused click leaves a closed prompt closed |
| ProtectedAction.FallbackNeverShowsPrompt | frontend/src/components/ProtectedAction.tsx:49-66 | with a fallback, refused users see only the fallback, so clicks reach the wrapper only while permitted and the prompt is never visible |
| ProtectedAction.Interceptor.constructor | frontend/src/components/ProtectedAction.tsx:14-20 | the prompt starts closed and the requirement defaults to `user` |
| ProtectedAction.Interceptor.HandleClick | frontend/src/components/ProtectedAction.tsx:36-42 | runs after the wrapped handler; the click goes further iff permitted; a refused click opens the prompt; a permitted one leaves the prompt as it was |
| ProtectedAction.Interceptor.HandleClickCapture | frontend/src/components/ProtectedAction.tsx:36-42 | the corrected check: the wrapped handler and the rest of the click run iff permitted, and a refused click opens the prompt |
| ProtectedAction.Interceptor.HandleLoginSuccess | frontend/src/components/ProtectedAction.tsx:44-47 | sign-in closes the prompt and changes nothing else, so no action is replayed |
| ProtectedAction.Interceptor.Close | frontend/src/components/ProtectedAction.tsx:61 | cancel closes the prompt and changes nothing else |
| UserProfile.NotLoggedInIffNoPermission | frontend/src/components/UserProfile.tsx:8-17 | the signed-out view is shown iff the gate refuses every role; under the pairing, iff not authenticated |
| UserProfile.RoleColor | frontend/src/components/UserProfile.tsx:19-26 | the gray default class is given exactly to strings other than admin, user and viewer |
| UserProfile.RoleColorsDistinct | frontend/src/components/UserProfile.tsx:19-26 | the three roles get three distinct classes, none of them the default |
| UserProfile.RoleDisplay | frontend/src/components/UserProfile.tsx:28-30 | the label has the same length, its first character upper-cased and the rest unchanged |
| UserProfile.RoleLabels | frontend/src/components/UserProfile.tsx:28-30 | the labels are Admin, User and Viewer |
| UserProfile.AvatarInitial | frontend/src/components/UserProfile.tsx:37 | the avatar shows one character for a non-empty username: its first letter ignoring case, never a lower-case letter |
| UserProfile.LogoutClicked | frontend/src/components/UserProfile.tsx:51-55 | the logout button runs `logout`, after which the signed-out view is shown |
| BorrowerSearch.Filtered | frontend/src/components/BorrowerSearchDropdown.tsx:30-32 | the listed borrowers are exactly those whose lower-cased name includes the lower-cased term |
| BorrowerSearch.FilteredKeepsOrder | frontend/src/components/BorrowerSearchDropdown.tsx:30-32 | the filter keeps list order (it distributes over concatenation) |
| BorrowerSearch.FilteredByEmptyTerm | frontend/src/components/BorrowerSearchDropdown.tsx:30-32 | an empty term lists every borrower in order |
| BorrowerSearch.FilteredByLongTerm | frontend/src/components/BorrowerSearchDropdown.tsx:30-32 | a term longer than every name lists nothing |
| BorrowerSearch.CreateNewIffNameUnknown | frontend/src/components/BorrowerSearchDropdown.tsx:136 | "create new" is offered iff the term is non-empty and no borrower has that name ignoring case |
| BorrowerSearch.Dropdown.constructor | frontend/src/components/BorrowerSearchDropdown.tsx:23-25 | the list starts closed with an empty term, showing the selected name |
| BorrowerSearch.Dropdown.CreateNewShown | frontend/src/components/BorrowerSearchDropdown.tsx:136 | the create-new row appears only inside the shown list and with a non-empty term |
| BorrowerSearch.Dropdown.HandleSelect | frontend/src/components/BorrowerSearchDropdown.tsx:35-40 | selecting reports the borrower, shows its name, clears the term and hides the list |
| BorrowerSearch.Dropdown.HandleInputChange | frontend/src/components/BorrowerSearchDropdown.tsx:43-52 | typing sets display and term to the value and shows the list unless disabled; an empty value also clears the selection |
| BorrowerSearch.Dropdown.HandleCreateNew | frontend/src/components/BorrowerSearchDropdown.tsx:55-61 | a non-blank term is submitted trimmed (non-empty, no surrounding white space), then the term is cleared and the list hidden; a blank term changes nothing |
| BorrowerSearch.Dropdown.HandleFocus | frontend/src/components/BorrowerSearchDropdown.tsx:93 | focusing the box shows the list unless disabled (line 112) |
| BorrowerSearch.Dropdown.HandleClickOutside | frontend/src/components/BorrowerSearchDropdown.tsx:65-73 | an outside click hides the list, and with no selection and some text it clears text and term |
| BorrowerSearch.Dropdown.SyncSelection | frontend/src/components/BorrowerSearchDropdown.tsx:81-83 | a new selection from the parent replaces the text shown |
| Text.Lower | frontend/src/components/BorrowerSearchDropdown.tsx:31 | lower-casing keeps the length and maps each character |
| Text.Trim | frontend/src/components/BorrowerSearchDropdown.tsx:56 | the trimmed term is empty iff the term is all white space |
| Text.TrimShape | frontend/src/components/BorrowerSearchDropdown.tsx:57 | the trimmed term is the middle of the term between white-space runs, with no white space at either end |
| Arrays.FilterAppend | frontend/src/components/BorrowerSearchDropdown.tsx:30 | `filter` distributes over concatenation |
| Scorecards.RiskBands | frontend/src/components/ScorecardsTab.tsx:154-155 | a score of 70 or more is Low, 40 to below 70 Medium, below 40 High |
| Scorecards.RiskMonotone | frontend/src/components/ScorecardsTab.tsx:154-155 | a higher score is never in a riskier band |
| Scorecards.RiskColorMatchesBand | frontend/src/components/ScorecardsTab.tsx:154-157 | the colour computed from the score always belongs to the band shown |
| Scorecards.UniqueBorrowerIds | frontend/src/components/ScorecardsTab.tsx:42 | the borrower options have no repeats and are exactly the borrower ids of the accounts |
| Scorecards.UniqueBorrowerIdsInFirstOccurrenceOrder | frontend/src/components/ScorecardsTab.tsx:42 | the options come in the order of each id's first occurrence |
| Scorecards.FromChoice | frontend/src/components/ScorecardsTab.tsx:92 | a choice reads as picked exactly when it is an option other than the placeholder and other than 0, and then it is that id |
| Scorecards.FilteredAccounts | frontend/src/components/ScorecardsTab.tsx:45-47 | no accounts until a borrower is picked; then exactly the accounts with that borrower id |
| Scorecards.FilteredAccountsKeepOrder | frontend/src/components/ScorecardsTab.tsx:45-47 | the account filter keeps list order |
| Scorecards.OfferedBorrowersHaveAccounts | frontend/src/components/ScorecardsTab.tsx:42-47 | every offered borrower, once picked, has at least one account to pick, except id 0, which reads as unset |
| Scorecards.ScorecardsTab.constructor | frontend/src/components/ScorecardsTab.tsx:14-16 | not loading, both pickers unset |
| Scorecards.ScorecardsTab.AccountPickerDisabled | frontend/src/components/ScorecardsTab.tsx:111 | the account picker is disabled exactly when it could list no account whatever the accounts are |
| Scorecards.ScorecardsTab.ChangeBorrower | frontend/src/components/ScorecardsTab.tsx:91-94 | changing the borrower always resets the account pick |
| Scorecards.ScorecardsTab.ChangeAccount | frontend/src/components/ScorecardsTab.tsx:109 | changing the account touches nothing else |
| Scorecards.ScorecardsTab.StartCalculation | frontend/src/components/ScorecardsTab.tsx:18-29 | without both picks (0 counting as unset) an alert and no change; otherwise loading and a request for the two ids; an enabled button (line 124) always requests, and a disabled one refuses unless only `loading` disables it |
| Scorecards.ScorecardsTab.FinishCalculation | frontend/src/components/ScorecardsTab.tsx:30-38 | success resets both picks and refreshes, failure alerts and keeps them, loading ends either way |
| Scorecards.SortNewestFirst | frontend/src/components/ScorecardsTab.tsx:151-152 | the table rows end in non-increasing `created_at` order and are a permutation of the input |

## Left out

- The REST client and every `ApiClient` call. The calculation request is the returned `Requested` value, and its success or failure is the parameter of `FinishCalculation`.
- The backend (routers, models, migrations, start-up and seed scripts) and the calculation service. They are server-side database and HTTP plumbing.
- The average score of the summary card (`ScorecardsTab.tsx:49-51`) and all number formatting. These use floating-point arithmetic. The card's band (`ScorecardsTab.tsx:73-76`) uses the same thresholds as `RiskLevel`.
- Scores are `real`, so NaN scores are not modelled. Timestamps are integers, so unparsable dates are not modelled.
- The login prompt itself. It appears only as the `LoginSucceeded` and `Cancelled` events and the `LoginStep` it drives.
- The `catch` in `login`. It can only be reached by a storage write that throws, and the model's store never fails.
- JSON values other than a user record, a session record, `null`, or text that does not parse (numbers, arrays, records with missing fields). `Codec` distinguishes only those cases.
- `toLowerCase` and `toUpperCase` beyond ASCII letters. Multi-character mappings such as ß to SS are not modelled.
- React scheduling. Each handler and effect is one atomic method. The mount effect is a method the caller runs once, and the click-outside listener sees the latest `selectedBorrower`.
- Page layout, class names, the "No businesses found" message and placeholders.
- The browser's event dispatch. `e.preventDefault()` and `e.stopPropagation()` become the `propagates` result of `HandleClick`. The wrapped element's own handler is the `actionRan` part of `Effect`, and what it does is not modelled.
- React's handling of an effect that throws. `ParseFailure` is where the model stops; the unmounting of the component tree that follows is not modelled.
- SortNewestFirst: stability (rows with equal timestamps keeping their input order) is not stated.
- `Number(value)` of a non-numeric option value. Option values are always ids, so the picker input is modelled as an optional integer.

## Findings

| source | as written | input that shows it | evidently intended | confidence | as-written member | corrected member |
|---|---|---|---|---|---|---|
| frontend/src/components/ProtectedAction.tsx:36-42 | the permission check is the `onClick` of the wrapping `div`, so it runs after the wrapped element's own `onClick`; `preventDefault`/`stopPropagation` stop only later handlers | signed out, click the Delete button wrapped at `TradingAccountsTab.tsx:281-288`: `handleDelete` runs, then the prompt opens | a refused click never runs the wrapped action (the check made in the capture phase, before the child's handler) | high; not executed | ProtectedAction.ActionRunsOnEveryClick | ProtectedAction.CapturingRunsOnlyPermittedClicks |
