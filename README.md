# mama-care admin dashboard: the table, the forms, the auth store and the sidebar

This is a Dafny model of the parts of the mama-care admin dashboard (a Next.js
application) that hold logic, as opposed to markup:

- **The `DataTable` component** (`components/ui/data-table.tsx`). It narrows an
  in-memory list of rows by a case-insensitive substring search on one field,
  then by an exact match on the field of the first declared filter, where
  `'all'` means no filter. It then cuts out one fixed-size page.
  - The filter, the page count, the page slice, the footer summary and the empty
    body are pure functions in module `DataTable`.
  - Lemmas prove that the result is an ordered selection of the input and that
    the pages partition it.
  - The component's three state variables (`currentPage`, `searchTerm`,
    `selectedFilter`) and their handlers form the class
    `DataTableView.TableView`.
  - `DataTableExamples` proves facts about the model on the mock rows and the
    filter declarations of the user-management and booking-management pages.
    This includes filter-then-search sequences through the class.
- **Form handlers.** These are the password card, the settings page, the reset-password
  page, the verify-OTP page and the create-admin dialog. Each page is a class
  whose fields are the page's `useState` variables. Each `handleSubmit` is a
  method that:
  - runs the early-return checks in the source's order;
  - returns the request body it would send (`None` when a check stops it);
  - updates the error and the form fields as the page does.

  The remote call is a parameter `remote: Outcome`, either `Success` or
  `Failure(message)`. The shared pieces live in `Forms`: the message fallback
  `err.data?.message || fallback`, the `searchParams.get(..) || ''` default and
  the mismatch-then-length password check. The create-admin module also models
  the admin table's cell helpers (role label, badge colours, status label, last
  login).
- **The auth slice** of `lib/store.ts` and its untyped twin `lib/store.js`.
  - The reducers assign the slice's fields in place, so the slice is a class.
  - `prepareHeaders` mutates a Fetch `Headers` object (module `Http`). The
    object keys its entries by lower-cased name, trims the value, and throws a
    `TypeError` on a value it refuses.
  - For the untyped store, the reducer is also a function over states. The
    `isAuthenticated`/`token` agreement holds after every step of a run whose
    logins carry a token (`RunKeepsConsistency`). A single tokenless login
    breaks it at once (`TokenlessLoginIsInconsistent`).
- **The sidebar** (`components/layout/Sidebar.js`): the menu table, the
  active-entry rule and the collapse toggle.

JavaScript strings are modelled as follows (module `Text`):
- `.length` counts UTF-16 code units (`JsLength`).
- `toLowerCase`/`toUpperCase` change ASCII letters only.
- `includes`, `split`, `join` and the one-character `replace` are defined on
  sequences of characters.
- `encodeURIComponent` (module `Uri`) writes UTF-8 bytes as `%XX`.

The settings page's "policy" tab is a copy of the Terms card. Its text area
shows and edits `termsContent` and its button saves with `'terms'`
(`app/dashboard/settings/page.tsx:347-372`). The model keeps this as written:
`privacyContent` never leaves `''`, which is the class invariant
`SettingsPage.Settings.Valid`.

## Model

| member | source | states |
|---|---|---|
| Text.JsLength | components/settings/PasswordSettings.tsx:38 | `.length` in UTF-16 code units: between the number of characters and twice that |
| Text.JsLengthInBmp | components/settings/PasswordSettings.tsx:38 | on text without astral characters, `.length` equals the number of characters |
| Text.Lower | components/ui/data-table.tsx:64 | `toLowerCase()` keeps the length and lower-cases each character on its own |
| Text.Upper | app/dashboard/create-admin/page.tsx:144 | `toUpperCase()` keeps the length and upper-cases each character on its own |
| Text.LowerAbsorbsCase | components/ui/data-table.tsx:63-64 | lower-casing is idempotent and erases any earlier upper-casing |
| Text.Contains | components/ui/data-table.tsx:64 | defines `includes` as a scan of the starting positions from the left |
| Text.StartsWith | components/layout/Sidebar.js:56 | defines `startsWith`: the string begins with the prefix |
| Text.ContainsIff | components/ui/data-table.tsx:64 | the left-to-right `includes` scan holds iff the part occurs at some position |
| Text.ContainsEmpty | components/ui/data-table.tsx:64 | every string includes the empty string |
| Text.Split | app/dashboard/settings/page.tsx:173 | `split(sep)` returns at least one piece, and no piece contains the separator |
| Text.Join | app/dashboard/settings/page.tsx:173 | defines `join(sep)`: the pieces with one separator between neighbours |
| Text.JoinSplit | app/dashboard/settings/page.tsx:173 | joining the pieces of a split with the same separator gives back the original string |
| Text.ReplaceFirst | app/dashboard/create-admin/page.tsx:144 | `replace` with a one-character pattern changes only the first occurrence; length and every other character are kept |
| Text.FirstCharsOfSplit | app/dashboard/settings/page.tsx:173 | taking the first character of each split piece is the same as taking the characters that start a word |
| Text.FirstChars | app/dashboard/settings/page.tsx:173 | defines `.map(n => n[0]).join('')`: the first character of each piece, with nothing for an empty piece |
| Text.Initials | app/dashboard/settings/page.tsx:173 | defines the avatar fallback as the first characters of the pieces of `split(' ')`, joined |
| Text.InitialsAreWordStarts | app/dashboard/settings/page.tsx:173 | the avatar initials are exactly the word-starting characters of the name, in order |
| Text.InitialsOfTwoWords | app/dashboard/settings/page.tsx:173 | a two-word name gives the two words' first letters |
| Uri.EncodeUriComponent | app/auth/verify-otp/page.tsx:50 | the encoding is never shorter than its input, and holds only unreserved characters and `%` |
| Uri.EncodeUnreservedIsIdentity | app/auth/verify-otp/page.tsx:50 | a string of unreserved characters is encoded as itself |
| Uri.EncodedHasNoDelimiters | app/auth/verify-otp/page.tsx:50 | an encoded value never contains `&`, `=`, `#`, `?`, `+` or a space |
| Forms.ErrorMessage | components/settings/PasswordSettings.tsx:55 | `err.data?.message \|\| fallback` shows a non-empty server message when there is one, else the fallback |
| Forms.ParamOrEmpty | app/auth/reset-password/page.tsx:21-22 | a missing query parameter reads as `''`; a present one reads as its value |
| Forms.PasswordCheck | components/settings/PasswordSettings.tsx:33-41 | no error iff the passwords match and are at least 8 code units long; a mismatch reports the mismatch message; a short match reports the length message |
| Forms.MismatchCheckedFirst | components/settings/PasswordSettings.tsx:33-41 | a short, mismatched pair reports the mismatch, not the length |
| Forms.BmpPasswordAccepted | components/settings/PasswordSettings.tsx:38-41 | without astral characters, a confirmed password passes iff it has 8 characters or more (exactly 8 passes, 7 does not) |
| Forms.AstralCharactersCountTwice | components/settings/PasswordSettings.tsx:38 | four astral characters already pass the length check, because each counts as two units |
| DataTable.MatchesSearch | components/ui/data-table.tsx:63-64 | defines the search predicate: no key passes every row; otherwise the field must be present and its lower-cased value must include the lower-cased term |
| DataTable.MatchesFilter | components/ui/data-table.tsx:65-66 | defines the filter predicate: `'all'`, or the row's value under `filters[0].key` equals the selection |
| DataTable.Keeps | components/ui/data-table.tsx:67 | defines a kept row as one that passes both predicates |
| DataTable.FilteredData | components/ui/data-table.tsx:62-68 | the filtered list is never longer than the data |
| DataTable.FilteredIsOrderedSelection | components/ui/data-table.tsx:62-68 | the result is the rows at strictly increasing positions of the input, and a position is kept iff its row passes search AND filter |
| DataTable.FilteredMembership | components/ui/data-table.tsx:62-68 | a row is in the result iff it is in the data and passes |
| DataTable.FilteredIsSubMultiset | components/ui/data-table.tsx:62-68 | filtering never duplicates a row |
| DataTable.NoCriteriaKeepsAll | components/ui/data-table.tsx:63-66 | with no search key and the `'all'` filter, every row is kept, in order |
| DataTable.OnlyFirstFilterCounts | components/ui/data-table.tsx:65-66 | filters after `filters[0]` never affect the result |
| DataTable.MissingFieldNeverMatches | components/ui/data-table.tsx:63-64 | with a search key, a row without that field never passes, even for the empty term |
| DataTable.EmptyTermMatchesPresentField | components/ui/data-table.tsx:63-64 | the empty term finds every row that has the search field |
| DataTable.SearchIgnoresTermCase | components/ui/data-table.tsx:63-64 | upper- or lower-casing the search term does not change which rows pass (ASCII case mapping, see Left out) |
| DataTable.FilteredSnoc | components/ui/data-table.tsx:62-68 | appending a row appends it to the result exactly when it passes |
| DataTable.SearchThenFilter | components/ui/data-table.tsx:67 | searching alone and then filtering the survivors alone gives the table's result: the predicates combine with AND |
| DataTable.FilteredIdempotent | components/ui/data-table.tsx:62-68 | filtering the result again changes nothing |
| DataTable.FilterMenuValues | components/ui/data-table.tsx:103-114 | the dropdown exists iff there are filters; it offers `'all'` and then exactly the options of `filters[0]` |
| DataTable.TotalPages | components/ui/data-table.tsx:70 | `Math.ceil(count / perPage)`: the fewest pages of `perPage` rows that hold `count` rows |
| DataTable.StartIndex | components/ui/data-table.tsx:71 | defines the first row of a page as `(page - 1) * perPage` |
| DataTable.PageSlice | components/ui/data-table.tsx:71-73 | a page holds at most `perPage` rows, namely the rows from `(page-1)*perPage` on, clamped to the end |
| DataTable.PagesArePrefix | components/ui/data-table.tsx:70-73 | pages 1 to k concatenated are the first `k*perPage` rows, clamped |
| DataTable.PagesPartition | components/ui/data-table.tsx:70-73 | pages 1 to `totalPages` concatenated give back the filtered rows exactly |
| DataTable.PageEmptyIffPastEnd | components/ui/data-table.tsx:70-73 | a page is empty iff its number exceeds `totalPages` |
| DataTable.ControlsShownIffOverflow | components/ui/data-table.tsx:175 | the pagination controls (`totalPages > 1`) show iff there are more rows than fit on one page |
| DataTable.PaginationSummary | components/ui/data-table.tsx:178-179 | defines the footer numbers: `startIndex + 1`, `min(endIndex, count)` and the count |
| DataTable.SummaryDescribesSlice | components/ui/data-table.tsx:177-179 | on a page in range, "Showing from to to of total" is a valid range whose width is the number of visible rows |
| DataTable.TableBody | components/ui/data-table.tsx:134-137 | the body is the single "No results found." cell iff no rows are visible; it spans the columns plus the Actions column when present |
| DataTableView.TableView.constructor | components/ui/data-table.tsx:47-60 | the props' defaults (no data, no search key, no filters, 10 per page) and the initial state: page 1, empty term, `'all'` |
| DataTableView.TableView.Filtered | components/ui/data-table.tsx:62 | defines `filteredData` as the table's rows filtered by its props and state |
| DataTableView.TableView.PageCount | components/ui/data-table.tsx:70 | defines `totalPages` of the filtered rows |
| DataTableView.TableView.CurrentData | components/ui/data-table.tsx:73 | defines `currentData` as the current page of the filtered rows |
| DataTableView.TableView.HandleSearch | components/ui/data-table.tsx:75-79 | stores the term, returns to page 1, passes the value to `onSearch`; the visible rows are page 1 of the new filter, whatever the old term and page were |
| DataTableView.TableView.HandleFilter | components/ui/data-table.tsx:81-85 | stores the dropdown value, returns to page 1, passes the value to `onFilter`; the visible rows are page 1 of the new filter |
| DataTableView.TableView.Previous | components/ui/data-table.tsx:185-186 | the page becomes `max(p-1, 1)`, and stays within `totalPages` when it started there |
| DataTableView.TableView.Next | components/ui/data-table.tsx:197-198 | the page becomes `min(p+1, totalPages)` and ends in `[1, totalPages]` |
| DataTableView.TableView.ReceiveData | components/ui/data-table.tsx:70-73 | a new `data` prop keeps the page, so a page past the new end shows no rows |
| DataTableExamples.SearchSarahJohnson | app/dashboard/user-management/page.tsx:24-65 | on the user list searched by name, "sarah" and "JOHN" find Sarah Johnson and "xyz" does not |
| DataTableExamples.NannyFilter | app/dashboard/user-management/page.tsx:24-65 | the role filter `nanny` keeps Emily Brown and Jennifer Smith, in that order |
| DataTableExamples.AllBookings | app/dashboard/booking-management/page.tsx:30-67 | with an empty search and `'all'`, the three mock bookings are all shown, in order |
| DataTableExamples.PendingBookings | app/dashboard/booking-management/page.tsx:126-137 | the status filter `pending` keeps only Lisa Chen's booking |
| DataTableExamples.SearchChen | app/dashboard/booking-management/page.tsx:163 | searching "Chen" on `motherName` finds only Lisa Chen's booking |
| DataTableExamples.ChenPending | app/dashboard/booking-management/page.tsx:160-166 | "Chen" under the `pending` filter still finds only Lisa Chen's booking |
| DataTableExamples.ChenCompleted | app/dashboard/booking-management/page.tsx:160-166 | "Chen" under `completed` finds nothing: Sarah Johnson's booking fails the search, Lisa Chen's the filter |
| DataTableExamples.ChenCompletedBody | app/dashboard/booking-management/page.tsx:80-124 | with "Chen" under `completed`, the body is the one "No results found." cell spanning the seven columns and Actions (`colSpan` 8) |
| DataTableExamples.FirstPageShows | app/dashboard/booking-management/page.tsx:166 | at ten rows a page, up to ten filtered rows make one page holding exactly them, and none make no page |
| DataTableExamples.BookingTable | app/dashboard/booking-management/page.tsx:160-166 | the booking page's table: its seven columns, its rows, `searchKey="motherName"`, the status filter, ten rows a page and the view-details action; on page 1 with no search and `'all'` |
| PasswordSettings.PasswordSettingsCard.constructor | components/settings/PasswordSettings.tsx:20-26 | the three password fields and the error start empty |
| PasswordSettings.PasswordSettingsCard.HandlePasswordSubmit | components/settings/PasswordSettings.tsx:29-58 | a failed check sets its message, sends nothing and keeps the fields; otherwise `{currentPassword, newPassword}` is sent without the confirmation; success empties the three fields, failure shows the server message or "Failed to change password" and keeps them |
| SettingsPage.SaveContentMessage | app/dashboard/settings/page.tsx:119-121 | the toast is the saved tab's title ("Terms & Conditions" or "Privacy Policy") followed by " saved successfully!" |
| SettingsPage.PrivacyToast | app/dashboard/settings/page.tsx:120 | the Privacy toast reads "Privacy Policy saved successfully!" |
| SettingsPage.SaveMessageNamesTab | app/dashboard/settings/page.tsx:119-121 | the two toasts differ, so the message tells which tab was saved |
| SettingsPage.AvatarFallbackIsJS | app/dashboard/settings/page.tsx:173 | the avatar fallback for "John Smith" is "JS" |
| SettingsPage.Settings.constructor | app/dashboard/settings/page.tsx:48-68 | the profile form starts with the current user's name and email; the password fields, contents and errors start empty |
| SettingsPage.Settings.HandleProfileSubmit | app/dashboard/settings/page.tsx:73-85 | the profile is always sent; the error is cleared, and on failure it is the server message or "Failed to update profile" |
| SettingsPage.Settings.HandlePasswordSubmit | app/dashboard/settings/page.tsx:87-117 | the same checks, request, reset and fallback as the password card |
| SettingsPage.Settings.EditTermsTab | app/dashboard/settings/page.tsx:323-324 | the Terms text area sets `termsContent` |
| SettingsPage.Settings.EditPolicyTab | app/dashboard/settings/page.tsx:364-365 | the policy tab's text area also sets `termsContent`; `privacyContent` stays `''` |
| SettingsPage.Settings.SaveTab | app/dashboard/settings/page.tsx:371-372 | either tab's save button shows the Terms & Conditions toast |
| ResetPassword.ResetPasswordPage.constructor | app/auth/reset-password/page.tsx:30-36 | all five fields start empty |
| ResetPassword.ResetPasswordPage.HandleParamsLoaded | app/auth/reset-password/page.tsx:20-43 | `email` and `otp` take the query parameters, with `''` for a missing one |
| ResetPassword.ResetPasswordPage.HandleSubmit | app/auth/reset-password/page.tsx:45-65 | a mismatch, then a short password, stops with its message and no request; otherwise exactly `{email, otp, password}` is sent; success redirects to the login page with the reset message, failure shows the server message or "Failed to reset password" |
| VerifyOtp.OtpCheck | app/auth/verify-otp/page.tsx:43-46 | no error iff the code is exactly 6 units long; otherwise the "complete 6-digit OTP" message |
| VerifyOtp.SubmitDisabled | app/auth/verify-otp/page.tsx:97 | the button is enabled iff nothing is loading and the code passes the length check |
| VerifyOtp.ResetPasswordTarget | app/auth/verify-otp/page.tsx:50 | the target starts with the reset-password path and ends with `&otp=` and the code |
| VerifyOtp.TargetSeparatesParameters | app/auth/verify-otp/page.tsx:50 | between `?email=` and `&otp=` lies exactly the encoded email, which holds no `&`, so the code is the `otp` parameter |
| VerifyOtp.VerifyOtpPage.constructor | app/auth/verify-otp/page.tsx:29-31 | code, error and email start empty |
| VerifyOtp.VerifyOtpPage.HandleEmailLoaded | app/auth/verify-otp/page.tsx:20-37 | `email` takes the query parameter, or `''` when it is missing |
| VerifyOtp.VerifyOtpPage.HandleSubmit | app/auth/verify-otp/page.tsx:39-54 | a code that is not 6 long stops with its message and no request; otherwise `{email, otp}` is sent; success redirects to the reset-password target, failure shows the server message or "Invalid OTP. Please try again." |
| CreateAdmin.WithField | app/dashboard/create-admin/page.tsx:173-174 | the named field takes the value and every other field is unchanged |
| CreateAdmin.AdminCheck | app/dashboard/create-admin/page.tsx:182-190 | no error iff all four fields are non-empty and the password is at least 8 long; a missing field reports "All fields are required"; otherwise a short password reports the length message |
| CreateAdmin.MissingFieldReportedFirst | app/dashboard/create-admin/page.tsx:182-190 | any missing field is reported even when the password is also too short |
| CreateAdmin.CreateAdminPage.constructor | app/dashboard/create-admin/page.tsx:102-109 | the dialog starts closed, with an empty form and no error |
| CreateAdmin.CreateAdminPage.SetDialogOpen | app/dashboard/create-admin/page.tsx:212 | the dialog's open state follows `onOpenChange` |
| CreateAdmin.CreateAdminPage.HandleInputChange | app/dashboard/create-admin/page.tsx:173-176 | only the named field changes, and the error is cleared |
| CreateAdmin.CreateAdminPage.HandleSubmit | app/dashboard/create-admin/page.tsx:178-201 | a failed check sets its message and sends nothing; otherwise the whole form is sent; success closes the dialog and empties the form, failure shows the server message or "Failed to create admin" and keeps both |
| CreateAdmin.BadgeColor | app/dashboard/create-admin/page.tsx:143 | a known value with a non-empty class gets its class; an unknown value gets the gray class |
| CreateAdmin.UnknownRolesAreGray | app/dashboard/create-admin/page.tsx:90-94 | a role gets the gray badge iff it is not `super_admin`, `admin` or `moderator` |
| CreateAdmin.UnknownStatusesAreGray | app/dashboard/create-admin/page.tsx:96-99 | a status gets the gray badge iff it is not `active` (`inactive`'s own class is the gray one) |
| CreateAdmin.RoleIcon | app/dashboard/create-admin/page.tsx:140-142 | shield iff `super_admin`, gear iff `admin`, eye iff `moderator` |
| CreateAdmin.RoleLabel | app/dashboard/create-admin/page.tsx:144 | the first `_` becomes a space and every other character is upper-cased |
| CreateAdmin.RoleLabelOfCompound | app/dashboard/create-admin/page.tsx:144 | for `head_tail`, the label is the upper-cased head, a space, then the upper-cased tail (later underscores stay) |
| CreateAdmin.SuperAdminLabel | app/dashboard/create-admin/page.tsx:144 | `super_admin` is shown as "SUPER ADMIN" |
| CreateAdmin.StatusLabel | app/dashboard/create-admin/page.tsx:167 | only the first character is upper-cased; the rest is kept |
| CreateAdmin.LastLoginLabel | app/dashboard/create-admin/page.tsx:159 | the cell reads "Never" iff the value is empty; otherwise it formats the value |
| Http.TrimStart | lib/store.ts:44 | drops exactly the leading HTTP whitespace: what is dropped is whitespace, and what is kept is a suffix that does not start with it |
| Http.TrimEnd | lib/store.ts:44 | drops exactly the trailing HTTP whitespace, symmetrically |
| Http.Normalize | lib/store.ts:44 | the value `set` stores neither starts nor ends with HTTP whitespace |
| Http.NormalizeKeepsTrimmed | lib/store.ts:44 | a value without surrounding whitespace is stored as it is |
| Http.NormalizeIdempotent | lib/store.ts:44 | normalising twice is normalising once |
| Http.LowerKeepsHeaderName | lib/store.ts:44 | a lower-cased header name is still a header name, and already lower-case |
| Http.Headers.constructor | lib/store.ts:41 | the headers `fetchBaseQuery` passes in: empty, since no endpoint sets any |
| Http.Headers.Set | lib/store.ts:44 | `headers.set` throws a `TypeError` (and changes nothing) iff the name is not a token or the value is not a byte string or holds NUL, CR or LF; otherwise the normalised value is stored under the lower-cased name, replacing any earlier one; names stay lower-cased |
| Http.NoCaseVariants | lib/store.ts:44 | the list never holds two names that differ only in case |
| Http.Truthy | lib/store.ts:43 | defines a truthy token: present and not the empty string |
| Http.SetBearer | lib/store.ts:43-45 | with a truthy token, `set('authorization', 'Bearer ' + token)` as above; otherwise the headers are unchanged |
| Http.BearerOfValueCharsAccepted | lib/store.ts:44 | a token of Latin-1 characters without NUL, CR or LF is never refused |
| Http.ValueCharsAccepted | lib/store.ts:44 | a value of such characters is a byte string whose normal form is a valid header value |
| Http.JwtBearerAccepted | lib/store.ts:44 | a JSON Web Token is accepted and sent as exactly `Bearer <token>` |
| Http.TrailingSpaceTrimmed | lib/store.ts:44 | a space after the token is trimmed off the sent value |
| Http.BearerValue | lib/store.ts:43-44 | a header value is produced iff the token is truthy, and it is `Bearer ` followed by the token |
| AuthStore.Consistent | lib/store.ts:136-155 | defines the agreement the reducers keep: authenticated iff a token is held |
| AuthStore.AuthSlice.constructor | lib/store.ts:136-140 | the initial state: no user, no token, not authenticated |
| AuthStore.AuthSlice.SetCredentials | lib/store.ts:146-150 | the payload's user and token replace what was held, and the session is authenticated |
| AuthStore.AuthSlice.Logout | lib/store.ts:151-155 | the state returns to the initial state, whatever it was, so logging out twice is logging out once |
| AuthStore.PrepareHeaders | lib/store.ts:41-47 | with a truthy token, `authorization` is set to the normalised `Bearer <token>` unless `set` throws; otherwise, or on a throw, the headers are unchanged; the slice is not touched |
| AuthStoreJs.Reduce | lib/store.js:113-124 | logout yields the initial state; a login stores the payload's user and token and authenticates |
| AuthStoreJs.Run | lib/store.js:113-124 | defines dispatching a sequence of actions in order through the reducer |
| AuthStoreJs.RunKeepsConsistency | lib/store.js:114-123 | from a consistent state, any run of logouts and token-carrying logins ends with `isAuthenticated` iff a token is held |
| AuthStoreJs.TokenlessLoginIsInconsistent | lib/store.js:114-118 | a login whose payload has no token leaves an authenticated state without a token |
| AuthStoreJs.ReducerIdempotence | lib/store.js:114-123 | a second logout changes nothing, and a second login replaces the first |
| AuthStoreJs.AuthSliceJs.constructor | lib/store.js:108-112 | the inline initial state |
| AuthStoreJs.AuthSliceJs.SetCredentials | lib/store.js:114-118 | the new state is the reducer's; it is consistent iff the payload carries a token |
| AuthStoreJs.AuthSliceJs.Logout | lib/store.js:119-123 | the new state is the initial state and is consistent |
| AuthStoreJs.PrepareHeaders | lib/store.js:9-15 | the same rule on the untyped slice's token, including the `TypeError` case |
| Sidebar.IsActive | components/layout/Sidebar.js:55-56 | defines the highlight rule: an exact match, or for entries other than `/dashboard` a raw string prefix |
| Sidebar.OverviewOnlyOnRoot | components/layout/Sidebar.js:55-56 | Overview is highlighted iff the path is exactly `/dashboard` |
| Sidebar.SubpagesActivateEntry | components/layout/Sidebar.js:55-56 | any other entry is highlighted on its own path and on every path that extends it |
| Sidebar.RawPrefixMatch | components/layout/Sidebar.js:55-56 | the match is a raw string prefix: `/dashboard/reports` highlights Reports |
| Sidebar.OnMenuPageExactlyThatEntry | components/layout/Sidebar.js:19-56 | on each of the six paths of `menuItems` (lines 19-26, the constant `Sidebar.MenuItems`) exactly that entry is highlighted |
| Sidebar.SidebarState.constructor | components/layout/Sidebar.js:29 | the sidebar starts expanded |
| Sidebar.SidebarState.Toggle | components/layout/Sidebar.js:43 | the button flips `isCollapsed`, so two clicks restore it |
| Sidebar.SidebarState.WidthClass | components/layout/Sidebar.js:35 | `w-16` iff collapsed, `w-64` iff expanded |
| Sidebar.SidebarState.ShowsLabels | components/layout/Sidebar.js:39-70 | the title and captions are shown iff the panel is at full width |

## Left out

- Network calls, `unwrap()` and `async`/`await`: each remote call is the parameter `remote: Outcome`. The RTK Query endpoint table (`lib/store.ts:37-133`, `lib/store.js:4-101`) is not modelled.
- Loading flags (`isLoading`, `isChangingPassword`, `isCreating`, ...): these are owned by the query library. They appear only as the parameter of `VerifyOtp.SubmitDisabled`.
- Toasts and `router.push`: these are side-effect sinks. A redirect target is returned as a string. Toast text is modelled only for `handleSaveContent`.
- Http.Headers.Set: header names are checked against the token grammar, and values against the byte-string and NUL/CR/LF rules. The other Fetch restrictions are not modelled: the forbidden request-header list (which `authorization` is not on) and the guard of an immutable `Headers`.
- Unicode case mapping: `toLowerCase`/`toUpperCase` change ASCII letters only.
- Text.FirstChars: `n[0]` (`app/dashboard/settings/page.tsx:173`) is modelled as the first character, not the first UTF-16 code unit. For a word starting with an astral character, JavaScript takes a lone surrogate; the model takes the whole character.
- CreateAdmin.StatusLabel: `charAt(0)` and `slice(1)` (`app/dashboard/create-admin/page.tsx:167`) are modelled on characters, not UTF-16 code units. They differ only for a status starting with an astral character.
- `DataTableView.TableView.Next`: requires `totalPages > 1`, because the button is only rendered then (`components/ui/data-table.tsx:175`). The `disabled` attributes of both buttons are not modelled; the updaters themselves clamp.
- `DataTable.TotalPages`: `Math.ceil` of a floating-point quotient is modelled as exact integer ceiling division. The two agree for row counts far below 2^53: the rounded quotient then never reaches the next integer.
- Row fields are strings or absent. A non-string search field, which would make `toLowerCase` throw, is not modelled.
- Column `render` functions, `className`s, row clicks and the view-details callback are JSX and are not modelled. Only the body's empty/non-empty choice and its `colSpan` are.
- `new Date(value).toLocaleDateString()`: `CreateAdmin.LastLoginLabel` records the raw value it would format. Date formatting depends on the locale and is not modelled.
- `CreateAdmin.BadgeColor`: colour lookups are modelled as `Map` lookups. Keys inherited from JavaScript's `Object.prototype` (such as `constructor`) are not modelled.
- `AuthStoreJs.Payload`: an untyped payload is modelled with optional `user` and `token`. Other shapes, such as extra members or non-string tokens, are not.
- Profile field edits, avatar upload and tab switching on the settings page are plain setters or markup and are not modelled.
- The report page, the dashboard charts, stat cards, rich-text editor wrappers, layout, the forgot-password page and the profile settings card are presentation or thin forwarders. They are not part of this model.
- The booking-management and user-management pages only configure `DataTable`. Their mock rows, filter declarations and table props are the concrete inputs of `DataTableExamples`.
  - A booking row keeps every string field of `mockBookings`. The number `amount` and the list `services` are left out, since a row holds only strings.
  - A user row keeps only `name` and `role`, the fields its table searches and filters.
  - The booking table's seven columns are passed with their keys and headers. Their `render` functions and `className`s are not modelled.
