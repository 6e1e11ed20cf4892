# EduVault-Web, modelled in Dafny

EduVault-Web is the Next.js front end of a receipt vault for a university department. Students
upload one PDF receipt per fee category and level. Staff and administrators review receipts
(approve, reject with a reason, preview, download). Administrators also invite staff, manage
accounts and send notifications. Everyone signs in with credentials or Google and sees a live
unread-notification count.

This project models the client-side rules of that front end:

- the session kept in `localStorage` (`lib/auth.ts`), as a class over a map from keys to text,
  with the JSON text of the stored user written and read back;
- the HTTP client's token interceptors and refresh-on-401 logic (`lib/api.ts`);
- the route guard, the home-page redirect and the sign-in, registration, invitation and
  password-reset pages;
- the notification counter shared through a React context, the bell badge and the inbox list;
- the student, staff and admin dashboards, the upload page, the user management page and the
  notification sending page.

Each page is a class whose fields are its React state. Each handler is a method that states its
whole new state. Every backend reply is an input of type `Reply<T>`, either `Ok(value)` or
`Failed(error)`, so each method's contract covers both outcomes. A navigation is a returned
route. Shared modules hold the JavaScript operations the pages rely on:

- `Wrappers`: optional values and replies;
- `JsonValue`: JavaScript values, truthiness, `||` and `??`;
- `JsonText`: the string codec of the stored user;
- `Strings`: trim, case, `indexOf`, `replace`, `split` and number text;
- `Seqs`: `filter`;
- `Receipts`: the counts shared by the two review dashboards.

## Model

| member | source | states |
|---|---|---|
| Auth.UserTextRoundTrip | lib/auth.ts:7-16 | the text `setStoredUser` writes parses, and reading its members back yields exactly the user written |
| Auth.SetThenGetStoredUser | lib/auth.ts:7-16 | `getStoredUser()` right after `setStoredUser(u)` returns `u`, whatever else the store holds |
| Auth.ClearAuthEffect | lib/auth.ts:18-26 | `clearAuth` removes exactly the two token keys and "user" and keeps every other entry; afterwards `isAuthenticated` is false and there is no stored user |
| Auth.HasRoleSpec | lib/auth.ts:28-31 | `hasRole` is true iff a user is stored whose role is among the allowed ones; no stored user gives false, and an empty list is never satisfied |
| Auth.Storage.SetStoredUser | lib/auth.ts:14-16 | only the "user" entry changes, and a later `getStoredUser` returns the user written |
| Auth.Storage.StoreSession | app/login/page.tsx:60-64 | after a sign-in writes both tokens and the user, the session counts as authenticated iff the access token is non-empty, and the user reads back |
| Auth.Storage.ClearAuth | lib/auth.ts:18-22 | the store loses exactly the three session keys; afterwards nobody is signed in |
| Api.BearerRoundTrip | lib/api.ts:16 | the token can be read back from the `Bearer <token>` credential (section 2.1 of RFC 6750) |
| Api.Intercept | lib/api.ts:12-21 | a non-empty stored access token is attached as a Bearer Authorization header carrying that token; no token leaves the request unchanged; no other header and not the URL is touched |
| Api.GuardsCompared | lib/api.ts:28 | only a 401 or 403 ever triggers a refresh; the written guard and the intended one differ exactly on a 401 already retried |
| Api.AsWrittenRefreshesUnbounded | lib/api.ts:28-29 | with the guard as written, a request answered 401 n times is refreshed n times: `_retry` does not stop a 401 |
| Api.RefreshAtMostOnce | lib/api.ts:28-29 | with the intended guard a request is refreshed at most once, and never once it is marked retried |
| Api.HandleResponseError | lib/api.ts:23-59 | other errors are passed on untouched; a refreshable error marks the request retried; with a stored refresh token and a successful refresh the new access token is stored and sent as Bearer on the retry; otherwise both tokens are removed and the browser is sent to /login |
| Api.PathsDetermineCategory | lib/api.ts:106-124 | the upload, retrieve, approve and reject paths each determine their category, and an approve path is never a reject path |
| NotificationContext.AfterRefresh | app/context/NotificationContext.tsx:21-28 | a successful refresh replaces the counter by the server's `unreadNotifications`, or 0 when it is missing; a failed one keeps it |
| NotificationContext.PushThenRefreshIsServerValue | app/context/NotificationContext.tsx:45-51 | after any history, a handled push followed by a successful refresh leaves the counter at the server's figure, so the local +1 never survives it |
| NotificationContext.UnhandledPushChangesNothing | app/context/NotificationContext.tsx:46-54 | a body that fails to parse, or parses to `null`, leaves the counter as it was |
| NotificationContext.PushWithFailedRefresh | app/context/NotificationContext.tsx:50-51 | when the refresh fails, a push raises the counter by exactly 1 iff the notification is unread |
| NotificationContext.UseNotificationContext | app/context/NotificationContext.tsx:83-86 | the hook yields the provider's value iff there is one, and otherwise throws the stated message |
| NotificationContext.NotificationProvider.constructor | app/context/NotificationContext.tsx:18-19 | the counter starts at 0 with no client |
| NotificationContext.NotificationProvider.RefreshUnreadCount | app/context/NotificationContext.tsx:21-28 | the counter becomes `AfterRefresh` of the old one; nothing else changes |
| NotificationContext.NotificationProvider.IncrementUnread | app/context/NotificationContext.tsx:30 | the counter goes up by exactly 1 |
| NotificationContext.NotificationProvider.ResetUnread | app/context/NotificationContext.tsx:31 | the counter becomes 0 |
| NotificationContext.NotificationProvider.MountConnection | app/context/NotificationContext.tsx:33-63 | a new client is created iff the held one is not connected, so no second client appears while one is connected |
| NotificationContext.NotificationProvider.OnConnect | app/context/NotificationContext.tsx:42-45 | the held client is connected afterwards, and the counter is untouched |
| NotificationContext.NotificationProvider.OnPush | app/context/NotificationContext.tsx:45-55 | the counter becomes `AfterPush`: +1 iff the payload is handled and unread, then the refresh; an unhandled payload changes nothing |
| NotificationContext.NotificationProvider.Deliver | app/context/NotificationContext.tsx:21-55 | delivering events one by one leaves the counter at `Run` of the events, the fold the lemmas above are about |
| NotificationBadge.ConnectHeaders | components/notification-badge.tsx:26-43 | the handshake carries an Authorization header iff the session is authenticated, and that header carries the stored access token; no other header is sent |
| NotificationBadge.HandshakeAsWrittenUnauthenticated | components/notification-badge.tsx:26-43 | after a sign-in writes its keys, the handshake as written (reading "token") has no Authorization header, while the one read from "accessToken" does |
| NotificationBadge.BadgeLabelSpec | components/notification-badge.tsx:119-121 | the badge is hidden iff the count is at most 0, reads "9+" iff the count exceeds 9, and otherwise is one digit that reads back as the count |
| NotificationBadge.Badge.constructor | components/notification-badge.tsx:18-23 | count 0, empty list, closed and disconnected |
| NotificationBadge.Badge.Mount | components/notification-badge.tsx:25-71 | the count becomes the fetched figure (unchanged on failure) and an active client holds the handshake headers |
| NotificationBadge.Badge.OnConnect | components/notification-badge.tsx:46-48 | `connected` becomes true; nothing else changes |
| NotificationBadge.Badge.OnDisconnect | components/notification-badge.tsx:56-64 | `connected` becomes false; nothing else changes |
| NotificationBadge.Badge.OnPush | components/notification-badge.tsx:49-53 | a parsed notification is prepended with the old list after it unchanged; the count goes up by 1 iff it is unread; an unparsable body changes nothing |
| NotificationBadge.Badge.ToggleDropdown | components/notification-badge.tsx:81-91 | the dropdown flips; mark-all is called iff it was closed and the count was positive; the count becomes 0 only when that call succeeds |
| NotificationBadge.Badge.ClickOutside | components/notification-badge.tsx:93-98 | the dropdown is closed; nothing else changes |
| NotificationBadge.Badge.Cleanup | components/notification-badge.tsx:73-78 | the client is deactivated iff it was active |
| Auth.Storage.constructor | lib/auth.ts:8-10 | the store starts with the given entries, in a browser or on the server |
| Auth.Storage.SetItem | lib/auth.ts:15 | `localStorage.setItem`: exactly one key takes the new value |
| Auth.Storage.RemoveItem | lib/auth.ts:19-21 | `localStorage.removeItem`: exactly one key disappears |
| NotificationList.ReadOf | components/notification-list.tsx:48 | an entry's `read` is its own `read` when present (a present `false` included), else its `readStatus` when present, else `false` |
| NotificationList.NormalizePayload | components/notification-list.tsx:44-51 | a stored list has one entry per item of the chosen array, in order, each the item's own fields with `read` set to `ReadOf(item)`; no list exactly when the body or one of its items is `null` |
| NotificationList.NormalizePayloadSpec | components/notification-list.tsx:44-49 | a `content` array is preferred over the body; a body that is neither an array nor carries one gives the empty list; each entry keeps a present `read`, `false` included, and keeps every other field of the item, adding none |
| NotificationList.UnreadCount | components/notification-list.tsx:114 | the unread count never exceeds the number of entries |
| NotificationList.MarkedRead | components/notification-list.tsx:70-72 | length and order are kept; exactly the entries with that id get `read: true`, the others are unchanged |
| NotificationList.AllMarkedRead | components/notification-list.tsx:85 | length and order are kept and every entry gets `read: true` |
| NotificationList.MarkAllIdempotent | components/notification-list.tsx:85 | marking all read twice is the same as once |
| NotificationList.MarkAllClears | components/notification-list.tsx:85-114 | after mark-all the unread count is 0 |
| NotificationList.MarkOneLowersUnread | components/notification-list.tsx:70-114 | marking an id read never raises the unread count, and lowers it when an unread entry has that id |
| NotificationList.UnreadLabelSpec | components/notification-list.tsx:118-122 | the label shows iff something is unread, starts with the count's digits, and is plural iff the count is not 1 |
| NotificationList.FullNameSpec | components/notification-list.tsx:33 | the viewer's full name has no blanks at either end and is empty when neither name is set |
| NotificationList.ViewerOf | components/notification-list.tsx:26-39 | a viewer is set iff the stored user parses; it carries that user's role and trimmed "first last" |
| NotificationList.SenderLineSpec | components/notification-list.tsx:155-161 | students never see the line; others see it iff the sender is non-empty; it names the sender unless the sender is the viewer, and then reads "you" |
| NotificationList.Inbox.constructor | components/notification-list.tsx:22-24 | empty list, loading, no viewer |
| NotificationList.Inbox.LoadViewer | components/notification-list.tsx:26-39 | the viewer is replaced only when the stored user reads back |
| NotificationList.Inbox.Fetch | components/notification-list.tsx:41-61 | a successful, normalisable reply replaces the list; anything else keeps it; loading ends either way |
| NotificationList.Inbox.MarkAsRead | components/notification-list.tsx:67-80 | success applies `MarkedRead` to the list; failure keeps it |
| NotificationList.Inbox.MarkAllAsRead | components/notification-list.tsx:82-94 | success marks every entry read, so nothing is unread; failure keeps the list |
| Receipts.CountState | app/admin/dashboard/page.tsx:148 | the number of receipts in a list with a given state never exceeds the list's length |
| Receipts.CountStateAppend | app/admin/dashboard/page.tsx:151 | counting a state distributes over concatenating two lists |
| Receipts.StatusesBounded | app/admin/dashboard/page.tsx:150-151 | in one list, each receipt counts toward at most one of PENDING, APPROVED and REJECTED |
| Receipts.PendingCount | app/admin/dashboard/page.tsx:147-148 | a category not loaded has 0 pending; otherwise the figure is at most that category's size |
| Receipts.CountByStatusPick | app/admin/dashboard/page.tsx:150-151 | the summed count does not depend on the order in which categories are visited |
| Receipts.TotalReceiptsPick | app/admin/dashboard/page.tsx:150-151 | the total number of loaded receipts does not depend on the order in which categories are visited |
| Receipts.StatusTotalsBounded | app/admin/dashboard/page.tsx:150-151 | receipts whose state is missing count toward no status, so the three totals add up to at most the number of receipts loaded |
| Receipts.ReplaceCategoryTotals | app/admin/dashboard/page.tsx:131-151 | loading category c replaces exactly c's share of every status total |
| Receipts.ConfirmCallSpec | app/admin/dashboard/page.tsx:159-174 | no call goes out iff there is no selection, or it is a rejection whose reason is blank; a call names the selected receipt and category, is a reject iff a reject was selected, and carries the reason as typed |
| Receipts.ZipNameSpec | app/staff/dashboard/page.tsx:124 | the download name begins with the category and ends with "-receipts.zip", so different categories get different names |
| AdminDashboard.ParseCountSpec | app/admin/dashboard/page.tsx:84-88 | a falsy body gives 0; a number is kept; an object gives the first of `count`, `receiptCount`, `total` that is present, else 0; the result is never `null` |
| AdminDashboard.PreviewUrlSpec | app/admin/dashboard/page.tsx:222-225 | a URL without "/upload/" is unchanged; otherwise exactly its first "/upload/" becomes "/upload/fl_attachment:false/", with the text around it kept |
| AdminDashboard.PreviewOf | app/admin/dashboard/page.tsx:215-228 | a preview exists iff the receipt has a non-empty `pdfUrl`; it shows the rewritten URL and the file name, and is a PDF iff the lower-cased URL ends with ".pdf" |
| AdminDashboard.Dashboard.constructor | app/admin/dashboard/page.tsx:52-71 | nothing loaded, analytics loading, all four cards 0, no dialog and no preview |
| AdminDashboard.Dashboard.FetchReceipts | app/admin/dashboard/page.tsx:127-141 | only category c's list (on success) and loading flag change; c's flag ends false |
| AdminDashboard.Dashboard.FetchAnalytics | app/admin/dashboard/page.tsx:74-105 | on success all four cards are parsed together; on failure none changes; loading ends |
| AdminDashboard.Dashboard.OpenActionDialog | app/admin/dashboard/page.tsx:153-157 | the selection is recorded, the reason cleared and the dialog opened |
| AdminDashboard.Dashboard.SetRejectReason | app/admin/dashboard/page.tsx:68 | only the reason changes |
| AdminDashboard.Dashboard.ConfirmAction | app/admin/dashboard/page.tsx:159-213 | the call made is `ConfirmCall`; with a selection the dialog always ends closed and cleared, the blank-reason return included; only after a successful call is the acted-on category refetched and the analytics reloaded |
| AdminDashboard.Dashboard.Refresh | app/admin/dashboard/page.tsx:176-200 | the acted-on category is refetched and the cards reloaded, a failure of either leaving its part as it was |
| AdminDashboard.Dashboard.FinishAction | app/admin/dashboard/page.tsx:207-212 | no receipt is busy and the dialog is closed with selection and reason cleared |
| AdminDashboard.Dashboard.HandlePreview | app/admin/dashboard/page.tsx:215-234 | the preview opens iff `PreviewOf` gives one, showing it; otherwise nothing changes |
| AdminDashboard.Dashboard.ClosePreview | app/admin/dashboard/page.tsx:236-239 | the preview is cleared and closed |
| StaffDashboard.PreviewOf | app/staff/dashboard/page.tsx:183-206 | a preview exists iff the receipt has a non-empty `pdfUrl`; it shows that URL unchanged, and is a PDF iff the lower-cased URL ends with ".pdf" or contains "application/pdf" |
| StaffDashboard.Dashboard.constructor | app/staff/dashboard/page.tsx:64-77 | nothing loaded, no dialog and no preview |
| StaffDashboard.Dashboard.FetchReceipts | app/staff/dashboard/page.tsx:96-110 | only category c's list (on success) and loading flag change; c's flag ends false |
| StaffDashboard.Dashboard.DownloadAll | app/staff/dashboard/page.tsx:116-137 | on success the file is saved as `ZipName(c)`; c's download flag ends false either way |
| StaffDashboard.Dashboard.HandleAction | app/staff/dashboard/page.tsx:140-144 | the selection is recorded, the reason cleared and the dialog opened |
| StaffDashboard.Dashboard.SetRejectReason | app/staff/dashboard/page.tsx:74 | only the reason changes |
| StaffDashboard.Dashboard.ConfirmAction | app/staff/dashboard/page.tsx:147-180 | the call made is `ConfirmCall`; with a selection the dialog always ends closed and cleared; only after a successful call is the acted-on category, and no other, refetched |
| StaffDashboard.Dashboard.FinishAction | app/staff/dashboard/page.tsx:174-179 | no receipt is busy and the dialog is closed with selection and reason cleared |
| StaffDashboard.Dashboard.HandlePreview | app/staff/dashboard/page.tsx:183-216 | the preview opens iff `PreviewOf` gives one, showing it; otherwise nothing changes |
| StaffDashboard.Dashboard.ClosePreview | app/staff/dashboard/page.tsx:218-221 | the preview is cleared and closed |
| StudentDashboard.GreetingSpec | app/student/dashboard/page.tsx:59-64 | "Good morning" iff the hour is before 12, "Good afternoon" iff it is 12 to 17, "Good evening" iff it is 18 or later |
| StudentDashboard.HeadingName | app/student/dashboard/page.tsx:57-136 | the heading name is never empty: the stored matric number when there is a non-empty one, "Student" otherwise |
| StudentDashboard.FileNamesSpec | app/student/dashboard/page.tsx:114-195 | both names are the text after the last "/" of the URL, which then ends the URL and holds no "/"; a URL ending in "/" falls back to "receipt.pdf" and "Receipt"; a URL without "/" is its own name |
| StudentDashboard.BadgeStatusIgnoresStatus | app/student/dashboard/page.tsx:227 | as written, the badge's status does not depend on the `status` field: a receipt with only `status: APPROVED` shows PENDING |
| StudentDashboard.BadgeStatusSpec | app/student/dashboard/page.tsx:227 | the corrected fallback uses a non-empty `state`, else a non-empty `status`, else PENDING, and any of the three statuses renders a badge |
| StudentDashboard.Dashboard.constructor | app/student/dashboard/page.tsx:54-56 | nothing loaded or downloading |
| StudentDashboard.Dashboard.FetchReceipts | app/student/dashboard/page.tsx:68-82 | only category c's list (on success) and loading flag change; c's flag ends false |
| StudentDashboard.Dashboard.DownloadAll | app/student/dashboard/page.tsx:84-108 | on success the file is saved as `ZipName(c)`; c's download flag ends false either way |
| StatusBadge.StatusBadgeTable | components/status-badge.tsx:9-38 | a badge renders iff the status is PENDING, APPROVED or REJECTED; its label is the status name capitalised; only APPROVED has its own class; different statuses never share a look |
| StudentUpload.FormatLevelSpec | app/student/upload/page.tsx:34-36 | "LEVEL_" followed by n reads "n Level", whatever n holds; a level without "LEVEL_" only gains " Level" |
| StudentUpload.PrecheckSpec | app/student/upload/page.tsx:61-99 | a request is made iff a file is chosen, it is a PDF, a level is chosen and the category is not blocked; the first failing check, in that order, is the one reported |
| StudentUpload.ClassifySpec | app/student/upload/page.tsx:128-151 | a failure is a duplicate iff the backend message contains "already uploaded a receipt" as written, and keeps that message; it is "user not found" iff it is not a duplicate and the lower-cased message contains that phrase; any other failure carries a non-empty description |
| StudentUpload.DuplicateWinsOverUserNotFound | app/student/upload/page.tsx:131-139 | a message holding both phrases is classified as a duplicate |
| StudentUpload.UploadPage.constructor | app/student/upload/page.tsx:41-47 | all seven per-category records start empty |
| StudentUpload.UploadPage.HandleFileChange | app/student/upload/page.tsx:49-53 | only key c changes: its file is replaced, its success flag cleared and its progress reset to 0 |
| StudentUpload.UploadPage.HandleLevelChange | app/student/upload/page.tsx:55-59 | only key c changes: its level is set and its block and block message cleared |
| StudentUpload.UploadPage.UploadEnabled | app/student/upload/page.tsx:233 | a blocked category can be sent neither by its button, which is disabled, nor past the handler's checks |
| StudentUpload.UploadPage.HandleUpload | app/student/upload/page.tsx:61-157 | a refused upload changes nothing; otherwise only key c changes: success marks it done, clears file and level, sets progress 100 and leads to /student/dashboard; a failure sets progress 0 and blocks c with the backend message iff it is a duplicate; `uploading[c]` is false afterwards |
| StudentUpload.UploadPage.Send | app/student/upload/page.tsx:101-156 | the request once every check passes: the outcome follows the reply, success leads to /student/dashboard, and the per-category records change as `HandleUpload` states, with `uploading[c]` false at the end |
| StudentUpload.UploadPage.RecordSuccess | app/student/upload/page.tsx:115-118 | c is marked done, its file and level cleared and its progress set to 100; nothing else changes |
| StudentUpload.UploadPage.RecordFailure | app/student/upload/page.tsx:128-153 | c's progress is reset to 0, and c is blocked with the backend message exactly for a duplicate |
| Register.Form.Set | app/register/page.tsx:61-66 | writing one field of the form (or of the errors) sets that field and leaves the other three as they were |
| Register.EmailFormatMatchesPattern | app/register/page.tsx:46 | the direct email check accepts exactly the strings that `/^[A-Z0-9._%+-]+@[A-Z0-9.-]+\.[A-Z]{2,}$/i` matches |
| Register.FieldErrorSpec | app/register/page.tsx:37-59 | each field's error is empty iff all its rules hold: matric non-blank; email non-blank, matching the pattern and ending with "@student.funaab.edu.ng"; password non-blank and at least 6 long; confirmation non-blank and equal to the password; a failing rule reports its own message, first failure first |
| Register.SubmitSendsSpec | app/register/page.tsx:70-81 | the corrected guard sends a form iff every field passes its rules, the two passwords being equal |
| Register.StaleConfirmationIsSent | app/register/page.tsx:56-81 | as written, changing the password after the confirmation was accepted leaves the form valid although the passwords now differ and a fresh validation would reject it |
| Register.ConfirmFirstIsRefused | app/register/page.tsx:56-81 | as written, a confirmation typed before an equal password keeps "Passwords do not match" shown, so a form whose passwords agree is not valid although a fresh validation finds no error in the confirmation |
| Register.RegisterPage.constructor | app/register/page.tsx:19-32 | empty form, no errors, not loading |
| Register.RegisterPage.IsFormValid | app/register/page.tsx:70-75 | the form of the current render is valid iff no error is shown and every input holds a non-whitespace character |
| Register.RegisterPage.SubmitDisabled | app/register/page.tsx:218 | the button is disabled while loading; while the errors shown are those of the current inputs, an enabled button means every field passes its rules |
| Register.RegisterPage.ValidateField | app/register/page.tsx:37-62 | only the named field's error changes, to that field's rule result |
| Register.RegisterPage.HandleChange | app/register/page.tsx:64-68 | the input is stored, and its error is computed against the password as it was before the change |
| Register.RegisterPage.Revalidate | app/register/page.tsx:80-81 | every field is validated afresh, but the decision is the render's `isFormValid`, taken from the errors shown before this validation |
| Register.RegisterPage.Complete | app/register/page.tsx:83-117 | a successful reply stores both tokens and the user, marks success and leads to /student/dashboard; a failure leaves the store alone and reports the backend message or the default; loading ends either way |
| Register.RegisterPage.HandleSubmit | app/register/page.tsx:77-118 | as written, a request is sent iff the form was valid by the errors shown before the submit, and the errors shown afterwards are those of a fresh validation; nothing is stored without a request; a successful reply stores the session and leads to /student/dashboard |
| ResetPassword.StrengthSpec | app/reset-password/reset-password-content.tsx:39-46 | the score is at most 4; it is 4 iff the password has 8 or more characters, an upper-case letter, a digit and a symbol, and 0 iff it has none of these; the empty password scores 0 |
| ResetPassword.StrengthMonotone | app/reset-password/reset-password-content.tsx:39-46 | typing more characters never lowers the score |
| ResetPassword.StrengthDisplay | app/reset-password/reset-password-content.tsx:48-155 | scores 0 and 1 read "Too weak", 2 "Weak", 3 "Good", 4 "Strong"; only score 0 falls back to the grey bar; the bar is score/4 of 100 and is full iff all four criteria hold |
| ResetPassword.SubmitCheckSpec | app/reset-password/reset-password-content.tsx:54-67 | a request goes out iff there is a token, the passwords match and the score is at least 2; otherwise the first failing check, in that order, is reported |
| ResetPassword.TickNonNegative | app/reset-password/reset-password-content.tsx:88-96 | a tick never takes a running countdown below 0, and the redirecting tick leaves it stopped at 0 |
| ResetPassword.RedirectExactlyOnce | app/reset-password/reset-password-content.tsx:35-101 | from k seconds, n < k ticks show k - n with no redirect; from the k-th tick on the countdown is stopped at 0 and has gone to /login exactly once |
| ResetPassword.StoppedStaysStopped | app/reset-password/reset-password-content.tsx:91-99 | a cleared interval ticks no more: nothing changes and no redirect happens |
| ResetPassword.ResetPage.constructor | app/reset-password/reset-password-content.tsx:31-35 | empty fields, not loading, no success, countdown at 5 and not running |
| ResetPassword.ResetPage.SetPassword | app/reset-password/reset-password-content.tsx:31 | only the password changes |
| ResetPassword.ResetPage.SetConfirmPassword | app/reset-password/reset-password-content.tsx:167 | only the confirmation changes |
| ResetPassword.ResetPage.SubmitDisabled | app/reset-password/reset-password-content.tsx:181 | the button is disabled while loading and never while a form the submit check accepts is shown |
| ResetPassword.ResetPage.HandleSubmit | app/reset-password/reset-password-content.tsx:51-84 | the refusal is `SubmitCheck`'s, and a refused submit sends nothing and changes nothing; otherwise the request carries the link's token and the password as typed; a successful reset sets `success` and starts the countdown; a failed one reports the backend message or the default; loading ends |
| ResetPassword.ResetPage.OnTick | app/reset-password/reset-password-content.tsx:88-97 | one interval tick, as `Tick` states: the countdown falls by 1, and the tick that reaches 0 stops it and goes to /login |
| InviteRegister.SubmitCheckSpec | app/invite/register/page.tsx:70-98 | a request goes out iff there is a token, the passwords match and a picture is chosen; otherwise the first failing check, in that order, is reported |
| InviteRegister.RoleTables | app/invite/register/page.tsx:126-146 | ADMIN and only ADMIN goes to /admin/dashboard, STAFF and only STAFF to /staff/dashboard; every other role gets the generic welcome and /login; two roles share a message iff they share a route |
| InviteRegister.InvitePage.constructor | app/invite/register/page.tsx:21-31 | not loading, no token, no picture, empty form |
| InviteRegister.InvitePage.LoadToken | app/invite/register/page.tsx:33-45 | a missing or empty `token` parameter sends the browser to /login and stores nothing; otherwise the token is kept; nothing else changes |
| InviteRegister.InvitePage.HandleImageChange | app/invite/register/page.tsx:47-63 | a picture larger than 5 MiB (5·1024·1024 bytes) is refused and the previous one kept; exactly 5 MiB or less is taken; the preview, the token, both flags and the form are unchanged |
| InviteRegister.InvitePage.OnPreviewRead | app/invite/register/page.tsx:59-61 | when the file reader finishes, its data URL becomes the preview, and nothing else changes |
| InviteRegister.InvitePage.HandleRemoveImage | app/invite/register/page.tsx:65-68 | both the picture and its preview are cleared, and nothing else changes |
| InviteRegister.InvitePage.SetField | app/invite/register/page.tsx:203-240 | typing in one input changes that field of the form and nothing else |
| InviteRegister.InvitePage.Complete | app/invite/register/page.tsx:100-156 | a successful reply stores both tokens and the user, shows the overlay and picks the role's welcome and route; a failure stores nothing and reports the backend message or "Invalid or expired invitation"; loading ends; the token, the picture, its preview and the form are unchanged |
| InviteRegister.InvitePage.HandleSubmit | app/invite/register/page.tsx:70-157 | the refusal is `SubmitCheck`'s, and a refused submit sends nothing and changes nothing; otherwise the request carries the token, the picture, both names and the password as they stand, and the reply is handled as `Complete` states; the token, the picture, its preview and the form are unchanged on both paths |
| HomePage.HomeRouteSpec | app/page.tsx:10-32 | without a session the landing page goes to /login; with one it stays put iff no stored user reads back, and otherwise goes to the STUDENT, STAFF or ADMIN dashboard exactly for that role |
| HomePage.UnknownRoleToLogin | app/page.tsx:28-29 | a signed-in user whose role is none of the three is sent to /login |
| AuthGuard.GuardRequiresSession | components/auth-guard.tsx:18-41 | without a session the guard redirects to /login and never renders its children, and /login is chosen only then |
| AuthGuard.NoRoleListAuthorisesSession | components/auth-guard.tsx:18-33 | with no role list, a visitor is authorised iff signed in |
| AuthGuard.RoleListMatchesHasRole | components/auth-guard.tsx:24-32 | with a role list, a signed-in visitor is authorised iff `hasRole` holds and sent to /unauthorized iff it fails; an empty list authorises nobody |
| Login.RedirectAgreesWithHome | app/login/page.tsx:215-229 | the three roles go to their dashboards exactly as on the landing page; any other role goes to "/" here, where the landing page sends it to /login |
| Login.CredentialsSpec | app/login/page.tsx:54-57 | the password is sent exactly as typed and the identifier trimmed; trimming an already trimmed identifier changes nothing |
| Login.CredentialsIdentifier | app/login/page.tsx:55 | the identifier sent has no whitespace at either end, and is empty iff the field held only whitespace |
| Login.ErrorMessageSpec | app/login/page.tsx:25-29 | the shown message is the backend's message when non-empty, else the error's own message when non-empty, else the default; with a non-empty default it is never empty |
| Login.SignUpHintSpec | app/login/page.tsx:33-43 | the sign-up link is offered iff the message contains "User not found" at some position, wherever it stands in the message |
| Login.NoMarkerIn | app/login/page.tsx:33 | a message without a capital U never offers the sign-up link |
| Login.LoginPage.constructor | app/login/page.tsx:19-22 | not loading, not redirecting, no error, empty form |
| Login.LoginPage.SetIdentifier | app/login/page.tsx:151 | typing in the identifier input changes only the identifier |
| Login.LoginPage.SetPassword | app/login/page.tsx:163 | typing in the password input changes only the password |
| Login.LoginPage.Complete | app/login/page.tsx:59-120 | a successful reply stores both tokens and the user, starts redirecting and picks `RedirectByRole` of the user's role; a failure stores nothing and shows `ErrorMessage`, with the sign-up hint iff it mentions a missing user |
| Login.LoginPage.Begin | app/login/page.tsx:50-51 | loading is shown and the previous error cleared |
| Login.LoginPage.HandleSubmit | app/login/page.tsx:48-85 | sends the trimmed identifier and the password as typed; success clears the error, stores the session and routes by role; failure shows the message with the password default and leaves the redirect flag; loading ends either way; the identifier and the password are unchanged |
| Login.LoginPage.HandleGoogleLogin | app/login/page.tsx:87-121 | a request is made iff a non-empty credential came back, and then with that credential as the id token; without one nothing changes; the reply is handled as for the password form, with the Google default message and no change to loading; success leaves the shown error and failure the redirect flag; the identifier and the password are unchanged |
| AdminUsers.FirstTokenAt | app/admin/users/page.tsx:130 | the position found is a match of "token=" followed by a character other than '&', and no match lies between the start and it; none is found only when there is no match |
| AdminUsers.UpToAmp | app/admin/users/page.tsx:130 | `[^&]+` read greedily: a prefix of the text with no '&', ending at the end of the text or just before a '&' |
| AdminUsers.InviteTokenSpec | app/admin/users/page.tsx:129-131 | the token is empty iff the link has no match; otherwise it is the whole '&'-free run after the leftmost match, ending at the end of the link or at a '&' |
| AdminUsers.TokenRun | app/admin/users/page.tsx:130 | the run after a match is non-empty and stops at the end of the link or at a '&' |
| AdminUsers.InviteTokenOfLink | app/admin/users/page.tsx:130-132 | a link "base?token=t", whose base has no '=', yields exactly t |
| AdminUsers.InviteLinkRoundTrip | app/admin/users/page.tsx:129-133 | the token read back from the link the page shows is the token taken from the backend's link |
| AdminUsers.CallForSpec | app/admin/users/page.tsx:152-164 | delete and only delete uses the delete call; every call names the chosen account; the three status actions set three different statuses, each spelt like its action word |
| AdminUsers.SuspendNoticeMisspelt | app/admin/users/page.tsx:167 | as written, suspending shows "User suspendd successfully.", which is not the past tense |
| AdminUsers.StatusNoticeSpec | app/admin/users/page.tsx:152-168 | the corrected notice names the action in the past tense, extending its word and ending in "ed"; among the three status actions it agrees with the written one exactly when the word ends in 'e', that is for all but suspend |
| AdminUsers.Initial | app/admin/users/page.tsx:183-188 | the avatar initial is always exactly one character |
| AdminUsers.InitialSpec | app/admin/users/page.tsx:183-188 | a non-blank first name gives its first character upper-cased, else a non-empty email gives its first character upper-cased, else "?"; the initial is never a lower-case letter |
| AdminUsers.RelativeOrFullSpec | app/admin/users/page.tsx:191-206 | for a given date, "Just now" iff it is less than an hour old (the future included), and the full date iff it is at least 7 days old |
| AdminUsers.RelativeText | app/admin/users/page.tsx:196-201 | within the last day the text is the whole hours, 1 to 23, with "hour" in the singular only for 1; within the week it is the whole days, 1 to 6, likewise |
| AdminUsers.MissingDateIsNA | app/admin/users/page.tsx:192 | a missing or empty date reads "N/A" whatever the clock says |
| AdminUsers.FilteredStudentsSpec | app/admin/users/page.tsx:208-214 | a student is listed iff the lower-cased query occurs in the lower-cased email or matric number; the empty query lists everyone who has either |
| AdminUsers.FilteredPrivilegedSpec | app/admin/users/page.tsx:216-226 | a user is listed iff the role filter is ALL or the user's role, and the query occurs, ignoring case, in the email or in "first last"; a listed user has the filtered role; ALL with the empty query lists everyone |
| AdminUsers.UsersPage.constructor | app/admin/users/page.tsx:75-93 | empty lists, loading, an empty STAFF invitation and a closed dialog |
| AdminUsers.UsersPage.FetchAll | app/admin/users/page.tsx:99-116 | on success both lists are replaced together, a missing body read as empty; on failure neither changes; loading ends |
| AdminUsers.UsersPage.SetInviteEmail | app/admin/users/page.tsx:256-264 | only the invitation email changes |
| AdminUsers.UsersPage.SetInviteRole | app/admin/users/page.tsx:268-275 | only the invitation role changes |
| AdminUsers.UsersPage.HandleCreateInvite | app/admin/users/page.tsx:118-147 | the invitation goes out iff an email is entered, with that email and role; on success the link shown carries the backend link's token and the confirmation names the email; otherwise neither changes; the form, the lists, loading and the action dialog are unchanged |
| AdminUsers.UsersPage.ClearSentMessage | app/admin/users/page.tsx:139 | the confirmation disappears, and nothing else changes |
| AdminUsers.UsersPage.OpenActionDialog | app/admin/users/page.tsx:474-505 | the dialog opens for the chosen user and action, and nothing else changes |
| AdminUsers.UsersPage.SetActionDialogOpen | app/admin/users/page.tsx:526-541 | Cancel or closing the dialog changes only its open flag; the chosen user and action are kept |
| AdminUsers.UsersPage.HandleUserAction | app/admin/users/page.tsx:149-180 | without a user and an action nothing happens; otherwise `CallFor`'s call is made and the dialog closed and cleared whatever the outcome; a success shows "User has been removed." for delete and the notice as written (the action word plus "d") otherwise, and fetches both lists again; a failure reports the backend message or "Please try again."; loading ends only through the refetch after a success; the invitation role and confirmation are unchanged |
| AdminNotifications.Trimmed | app/admin/notifications/page.tsx:73 | every piece is replaced by its trimmed text, in place and in order |
| AdminNotifications.RecipientsWellFormed | app/admin/notifications/page.tsx:71-74 | every recipient sent is non-empty, already trimmed, free of commas and made only of characters typed in the field |
| AdminNotifications.RecipientPiece | app/admin/notifications/page.tsx:71-74 | each recipient is the trimmed text of one of the pieces between commas |
| AdminNotifications.PieceFacts | app/admin/notifications/page.tsx:72-73 | a trimmed piece between commas is trimmed, comma-free and made of characters of the field |
| AdminNotifications.RecipientStart | app/admin/notifications/page.tsx:71-74 | a recipient starts with a typed character that is neither a comma nor whitespace |
| AdminNotifications.BlankRecipients | app/admin/notifications/page.tsx:71-80 | a field of commas and whitespace only gives the empty recipient list, which is still sent |
| AdminNotifications.SplitJoin | app/admin/notifications/page.tsx:72 | splitting comma-free pieces joined with commas gives the pieces back |
| AdminNotifications.ParseJoinRoundTrip | app/admin/notifications/page.tsx:71-80 | addresses typed with commas between them are sent as the same list in the same order |
| AdminNotifications.RecipientCount | app/admin/notifications/page.tsx:71-87 | the count in the confirmation is at most one more than the commas; a field without commas names one recipient, its trimmed text, unless it is blank |
| AdminNotifications.BroadcastTargetSpec | app/admin/notifications/page.tsx:37-46 | the students call and the students message go together and only "students" selects them; the form is sent as it stands |
| AdminNotifications.NotificationsPage.constructor | app/admin/notifications/page.tsx:27-31 | not loading, both forms empty, the dialog closed |
| AdminNotifications.NotificationsPage.HandleBroadcast | app/admin/notifications/page.tsx:34-66 | the broadcast form goes to the chosen audience; on success the dialog shows that audience's message and the form is cleared; on failure nothing but loading changes and the backend message or "Please try again" is reported; loading always ends |
| AdminNotifications.NotificationsPage.HandleCustomNotification | app/admin/notifications/page.tsx:68-100 | the parsed recipients go out with the title and message; on success the dialog opens, the form is cleared and the count reported is the number sent; on failure the form stays and the backend message or "Please try again" is reported |
| AdminNotifications.NotificationsPage.Conclude | app/admin/notifications/page.tsx:82-99 | the reply's effect: the dialog, the cleared form and the count on success; on failure nothing but loading changes and the failure text is reported |
| AdminNotifications.NotificationsPage.CloseDialog | app/admin/notifications/page.tsx:271 | the dialog closes and nothing else changes |
| Strings.TrimStart | app/admin/notifications/page.tsx:73 | the result is a suffix preceded by whitespace only and not starting with whitespace |
| Strings.TrimEnd | app/admin/notifications/page.tsx:73 | the result is a prefix followed by whitespace only and not ending with whitespace |
| Strings.TrimSlice | app/register/page.tsx:42 | the trimmed text is a slice of the text with only whitespace on either side |
| Strings.TrimEnds | app/admin/notifications/page.tsx:73 | the trimmed text has no whitespace at either end |
| Strings.BlankIffAllWhitespace | app/register/page.tsx:42-56 | `!s.trim()` holds exactly when every character is whitespace |
| Strings.TrimChars | app/admin/notifications/page.tsx:73 | trimming adds no character |
| Strings.TrimIdempotent | app/admin/notifications/page.tsx:73 | trimming twice is trimming once |
| Strings.IndexOfFrom | app/admin/users/page.tsx:130 | the first occurrence at or after the start, or none when there is none |
| Strings.IndexOf | app/student/upload/page.tsx:131 | the leftmost occurrence, with none before it; none exactly when the pattern never occurs |
| Strings.ReplaceFirst | app/student/upload/page.tsx:35 | a text without the pattern is left as it is |
| Strings.FirstIndex | app/admin/notifications/page.tsx:72 | the first position of the character, with none before it |
| Strings.Split | app/admin/notifications/page.tsx:72 | there is always at least one piece |
| Strings.SplitPieces | app/admin/notifications/page.tsx:72 | no piece contains the separator |
| Strings.SplitJoinBack | app/admin/notifications/page.tsx:72 | the pieces joined with the separator give the text back |
| Strings.LastSegmentSpec | app/student/dashboard/page.tsx:114-195 | `split("/").pop()` has no '/', ends the text and is the whole text or follows its last '/' |
| Strings.NatToString | components/notification-badge.tsx:121 | decimal text: non-empty, digits only, no leading zero |
| Strings.ParseNatToString | components/notification-badge.tsx:121 | reading the text back gives the number |
| Strings.NatToStringInjective | components/notification-badge.tsx:121 | different numbers show different texts |
| Seqs.Filter | components/notification-list.tsx:114 | the filter is never longer than the list |
| Seqs.FilterSpec | app/admin/users/page.tsx:208-226 | the filter keeps exactly the entries that pass |
| Seqs.FilterAppend | app/admin/dashboard/page.tsx:151 | filtering keeps order: the filter of two lists joined is the two filters joined |
| Seqs.FilterAll | app/admin/notifications/page.tsx:74 | when every entry passes, the filter is the list itself |
| Wrappers.TextOr | app/login/page.tsx:27 | JavaScript `or` on text: the default, or the given text when it is non-empty |
| JsonValue.Get | components/notification-list.tsx:48 | a property is found only on an object that has that key, with its value |
| JsonValue.Or | components/notification-list.tsx:44 | JavaScript `or` gives the left value when truthy, the right one otherwise |
| JsonValue.Coalesce | components/notification-list.tsx:48 | nullish coalescing gives the left value unless it is null or undefined |
| JsonText.ParseEscaped | lib/auth.ts:11-15 | an escaped string body followed by a quote reads back as the string, leaving the rest |
| JsonText.ParseEscapedChar | lib/auth.ts:11-15 | one escaped character reads back as that character |
| JsonText.ParseQuoted | lib/auth.ts:11-15 | a quoted string reads back as the string |
| JsonText.ParseMemberText | lib/auth.ts:11-15 | one written member reads back as that member |
| JsonText.ParseMembersText | lib/auth.ts:11-15 | the written members read back as the same members in order |
| JsonText.ParseSerialize | lib/auth.ts:11-15 | `JSON.parse(JSON.stringify(o))` gives the same members in the same order |

## Left out

- The HTTP transport, the STOMP-over-SockJS connection and its 5-second reconnect delay: replies and pushed messages are inputs.
- Interleavings of concurrent requests and of React renders: each handler runs to completion, in the order given.
- Toasts, dialog animation and the form shake. The 1500 ms and 2000 ms delays before the upload and registration pages go to the dashboard are not modelled: the route is returned at once. The reset page's countdown is modelled tick by tick.
- Upload progress between 0 and 100: only the values the handlers set (0 and 100) are modelled, since the intermediate ones are floating point from the browser.
- `FileReader`: its completion is the separate method `InviteRegister.InvitePage.OnPreviewRead`.
- Date parsing: dates are whole milliseconds since the epoch and the locale-formatted full date is an opaque value. A non-empty date text that does not parse fails every comparison and is shown as "Invalid Date"; the model treats it as missing and shows "N/A", so that text is lost.
- `String.prototype.trim` removes every Unicode white space and line terminator; the model uses the ASCII ones plus no-break space, BOM and the two Unicode line separators.
- Lengths are counted in characters, not in UTF-16 code units.
- Letter case is changed on ASCII letters only.
- Unread counters that arrive as non-numbers, and stored users whose fields are not strings.
- A receipts reply whose body is not an array, and a receipt without `pdfUrl` on the student dashboard.
- The welcome toasts shown after `getCurrentUser`, and the analytics charts, which only display what the dashboards fetch.
- Receipts.CountByStatus: a ghost function, since the order in which `Object.values` visits the categories cannot be observed and only the total matters.
- AdminUsers.Initial: takes the first character of the first name as written, untrimmed, as the page does.
- StudentDashboard.HeadingName: requires the stored user to be readable, since `getStoredUser` throws on text that is not JSON.
- Login.SignUpHintSpec: states the hint in terms of the marker test; it does not prove that each literal default message lacks the marker.
- StatusBadge.ConfigFor: the page looks the status up in a plain object, so "toString", "constructor" and other inherited names find a value without an icon and the render throws; the model renders nothing for every status outside the three.
- JsonText.Serialize: `JSON.stringify` also escapes the control characters U+0000 to U+001F (a newline as `\n`); the model escapes only the quote and the backslash, so for a user field holding a control character the text stored is not the one modelled.
- JsonText.Parse: reads only the compact text that `JSON.stringify` writes; stored text with whitespace between tokens, or other JSON values such as `null`, which `JSON.parse` accepts, reads as unreadable.
- JsonValue.Spread: spreading a string or an array gives its characters or elements under index keys ("0", "1", …) in JavaScript; the model gives no fields, so a notification item that is a string or an array is normalised without those keys.
- Api.HandleResponseError and NotificationBadge.Badge.Mount: use the corrected guard and the corrected storage key; the code as written is modelled beside them (see Findings).
- The notification counter follows the code: a refresh simply replaces the count, and marking one notification read does not decrement the shared counter.

## Findings

| source | as written | input that shows it | evidently intended | confidence | as-written member | corrected member |
|---|---|---|---|---|---|---|
| lib/api.ts:28 | the guard tests for status 401, or for status 403 without the retry flag: the flag only guards 403 | a request whose every reply is 401: each retry refreshes the token and retries again, without end | retry a 401 or a 403 once, only while the retry flag is unset | not executed | Api.AsWrittenRefreshesUnbounded | Api.RefreshAtMostOnce |
| components/notification-badge.tsx:26 | the socket handshake reads the key "token" | a signed-in user: sign-in stores "accessToken", so the handshake carries no bearer token | read "accessToken", as the HTTP client does | not executed | NotificationBadge.HandshakeAsWrittenUnauthenticated | NotificationBadge.ConnectHeaders |
| app/register/page.tsx:64-81 | editing a field re-validates that field only, and submit decides with the errors of the current render | password and confirmation both "abc123", then the password changed to "abc1234", then submit: the confirmation's error is still empty and the request goes out with two different passwords | a submit decides with the errors of every field computed from the current values | not executed | Register.StaleConfirmationIsSent | Register.SubmitSendsSpec |
| app/student/dashboard/page.tsx:227 | the badge falls back from `receipt.state` to `receipt.state` again, then to "PENDING" | a receipt with no `state` and `status` "APPROVED": the badge reads Pending | fall back from `state` to `status`, then to "PENDING" | not executed | StudentDashboard.BadgeStatusIgnoresStatus | StudentDashboard.BadgeStatusSpec |
| app/admin/users/page.tsx:167 | the notice is the action word plus "d" | suspending a user shows "User suspendd successfully." | the past tense, "suspended" | not executed | AdminUsers.SuspendNoticeMisspelt | AdminUsers.StatusNoticeSpec |
