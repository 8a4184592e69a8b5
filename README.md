# Profile-verification front end: client-side state machines

This project models, in Dafny, the parts of a React single-page application that are more than layout. The application lets a user sign in through LinkedIn, upload a national ID, upload a profile picture, and review notifications about picture decisions. It covers five components:

- **Profile picture** (`ProfilePicture.dfy`). The user picks an image, which is checked by MIME type and by a 5 MiB limit. Submitting it either commits at once or, when the server reports similar existing pictures, enters a two-phase "awaiting resolution" state. That state holds a server-side `tempPath` until the user proceeds or cancels.
- **Notification centre** (`Notifications.dfy`). It holds a fetched list and an unread counter. Mark-all-read zeroes the counter. An approve/reject decision removes the matching notifications and decrements the counter, never below zero. A per-id in-flight guard disables that notification's buttons.
- **Verification status** (`VerificationStatus.dfy`). Three server flags become one step (0 to 3) of a four-stage stepper.
- **National-ID upload** (`IdUpload.dfy`). It checks the file size, submits the file, and reports the outcome. A success message schedules the move to `/profile`.
- **OAuth callback** (`CallbackHandler.dfy`). A latch makes sure the one-time `code` is exchanged at most once per mount. The handler then logs in and navigates.

`Api.dfy` holds the shared vocabulary. `Response<D>` is the outcome of one awaited request: `Ok(data)` for a 2xx reply, or `Thrown(error, message)` for a rejected promise. `Message` is the `{type, text}` alert. `OrElse` is JavaScript's `s || fallback` on strings.

Every network call is a parameter of the handler that awaits it, so each handler is proved for every possible reply. Payload fields that the code tests for truthiness are `Option`s or booleans: an absent field is `None`/`false`, and an empty string is falsy. Each component whose fields change in place is a class with one field per `useState` hook. A ghost `requests` (or `effects`) log records what was sent, in order. Field-level `modifies` clauses (``this`file``) state which fields a handler may touch, so "nothing else changes" is part of every contract. Each handler runs atomically, from its start to its `finally`. The exception is the notification decision, which is split at its `await` (`StartAction`/`FinishAction`) so that the in-flight state can be stated.

Three behaviours of the code are worth stating plainly, and the model follows the code in each:
- Mark-all-read is not optimistic. The count becomes 0 only after the request succeeds; on failure it is unchanged.
- A reply with falsy `success` and any `conflicts` array enters the conflict state, even when the array is empty. Otherwise (`success` truthy, or no `conflicts` array) the code commits whatever `profilePicture` comes back, and a reply without one fails with the fallback text.
- There is no face-detection gate before upload. The live component submits any accepted file.

## Model

| member | source | states |
|---|---|---|
| Api.OrElse | src/components/Verification/VerificationStatus.jsx:53 | `s \|\| fallback`: a non-empty server string wins; an absent or empty one gives the fallback; the result is always one of the two |
| Api.ErrorText | src/components/Profile/ProfilePicture.jsx:398-402 | a failed request's text is the server's `error` field, verbatim, whenever it is non-empty, and the fallback exactly when it is absent or empty |
| ProfilePicture.CheckSelection | src/components/Profile/ProfilePicture.jsx:335-369 | a file is accepted iff its type is jpeg/png/webp and its size is at most 5242880 bytes (exactly 5 MiB passes); a bad type is reported as such whatever the size (type is checked first); "too large" only for a valid type over the limit |
| ProfilePicture.ClassifyUpload | src/components/Profile/ProfilePicture.jsx:381-402 | a submission is a conflict iff the reply is 2xx with falsy `success` and a `conflicts` array (it then carries that array and `tempPath`); a commit iff 2xx, not a conflict, and `profilePicture` present (carrying its url); otherwise a failure: a thrown request shows the server's non-empty `error` verbatim or else the fallback, and a 2xx reply always shows the fallback |
| ProfilePicture.ClassifyConfirm | src/components/Profile/ProfilePicture.jsx:409-426 | confirming never yields a conflict; it commits iff the reply is 2xx with a `profilePicture` (carrying its url); otherwise a failure: a thrown request shows the server's non-empty `error` verbatim or else the fallback, and a 2xx reply without a picture shows the fallback |
| ProfilePicture.Uploader.constructor | src/components/Profile/ProfilePicture.jsx:310-319 | initial state: nothing selected, no pending upload, dialog closed, no picture, no message, no request sent |
| ProfilePicture.Uploader.SyncUserPicture | src/components/Profile/ProfilePicture.jsx:321-333 | the current picture becomes the user's picture url when that url is truthy, else stays as it was |
| ProfilePicture.Uploader.HandleFileChange | src/components/Profile/ProfilePicture.jsx:335-364 | an accepted file is stored and the message cleared; a bad type or an oversized file sets the matching error and leaves `file` (and `preview`) unchanged; no file selected changes nothing; no request is ever sent |
| ProfilePicture.Uploader.OnPreviewLoaded | src/components/Profile/ProfilePicture.jsx:358-362 | the reader's result becomes the preview; nothing else changes |
| ProfilePicture.Uploader.HandleUpload | src/components/Profile/ProfilePicture.jsx:371-406 | with no file: an error and no request; otherwise exactly one submission of the file; a conflict stores `conflicts` and `tempPath`, opens the dialog and leaves `currentPicture`, `file`, `preview` unchanged; a commit sets `currentPicture` to the returned url and clears `file`/`preview`; a failure sets the error text and leaves `currentPicture` and the file unchanged; `loading` is false afterwards and a held `tempPath` implies an open dialog |
| ProfilePicture.Uploader.HandleConfirmUpload | src/components/Profile/ProfilePicture.jsx:408-430 | sends one `proceed` request for the held `tempPath`; success sets `currentPicture`, closes the dialog and clears `file`, `preview`, `tempPath`; failure keeps the dialog, `tempPath`, file and picture so the user can retry; `loading` is false afterwards |
| ProfilePicture.Uploader.HandleCancelUpload | src/components/Profile/ProfilePicture.jsx:432-447 | sends a `cancel` request exactly when `tempPath` is truthy; whatever its reply, closes the dialog and clears `file`, `preview` and `tempPath`, and touches nothing else (the dialog's `onClose` at line 536 is this handler) |
| Notifications.SuccessTextAsWrittenMisspellsApprove | src/components/Notification/Notification.js:80 | the code's `${action}ed` toast reads "approveed" for an approval |
| Notifications.SuccessTextIsPastTense | src/components/Notification/Notification.js:80 | the corrected toast reads "approved"/"rejected", and differs from the code's text exactly for approvals |
| Notifications.FailureText | src/components/Notification/Notification.js:85-91 | a rejected decision shows the server's non-empty `message` or "Failed to <action> profile picture"; an exception always shows the latter |
| Notifications.FloorDecrement | src/components/Notification/Notification.js:84 | the new count is never negative, is one less for a positive count, and is 0 for a count of 0 or 1 |
| Notifications.RemoveById | src/components/Notification/Notification.js:82 | the filter never grows the list, and no survivor carries the removed id |
| Notifications.RemoveByIdMembers | src/components/Notification/Notification.js:82 | a notification survives iff it was in the list and its id differs |
| Notifications.RemoveByIdAppend | src/components/Notification/Notification.js:82 | filtering distributes over concatenation, so the survivors keep their relative order |
| Notifications.RemoveByIdLength | src/components/Notification/Notification.js:82 | exactly one element is dropped per notification carrying the id |
| Notifications.RemoveByIdAbsent | src/components/Notification/Notification.js:82 | removing an id that no notification carries leaves the list as it was |
| Notifications.RemoveByIdIdempotent | src/components/Notification/Notification.js:82 | a second removal of the same id changes nothing |
| Notifications.Title | src/components/Notification/Notification.js:219-222 | the title is a total map from type: the three known types get their own titles and every other type gets "Notification" |
| Notifications.View | src/components/Notification/Notification.js:186-222 | approve/reject are shown iff the type is PROFILE_PICTURE_SIMILARITY and `resolved` is falsy; they are disabled iff `actionLoading` equals the notification's id |
| Notifications.ListOrEmpty | src/components/Notification/Notification.js:35 | the fetched list, or empty when the field is absent |
| Notifications.CountOrZero | src/components/Notification/Notification.js:47 | the fetched count, or 0 when the field is absent |
| Notifications.NotificationCentre.constructor | src/components/Notification/Notification.js:20-29 | an empty list, count 0, nothing loading or in flight, no toast, no request |
| Notifications.NotificationCentre.FetchNotifications | src/components/Notification/Notification.js:31-42 | one GET; success replaces the list with the server's (or empty); failure keeps the list and shows the error toast; `loading` is false afterwards |
| Notifications.NotificationCentre.FetchUnreadCount | src/components/Notification/Notification.js:44-51 | one GET; success sets the count to the server's (or 0); failure leaves it unchanged |
| Notifications.NotificationCentre.Mount | src/components/Notification/Notification.js:53-56 | on mount the list and then the count are fetched; each fetch's success sets its field and its failure leaves the field unchanged; the toast is unchanged unless the list fetch fails, when it becomes 'Failed to fetch notifications' |
| Notifications.NotificationCentre.HandleMarkAllRead | src/components/Notification/Notification.js:58-68 | on success the count becomes 0, the list is fetched again, and the toast is success unless that refetch fails; on failure the count, the list and the loading flag are unchanged and no refetch is sent |
| Notifications.NotificationCentre.StartAction | src/components/Notification/Notification.js:70-77 | while a decision is in flight `actionLoading` is its id, exactly that id's buttons are disabled, and one decision request has been sent |
| Notifications.NotificationCentre.FinishAction | src/components/Notification/Notification.js:79-93 | success removes exactly the notifications with that id, decrements the count floored at 0, and shows the code's `${action}ed` toast; `success` false or an exception leaves list and count unchanged with the error toast; afterwards `actionLoading` is null and no button is disabled |
| Notifications.NotificationCentre.HandleNotificationAction | src/components/Notification/Notification.js:70-94 | the whole decision: one request, then the success or failure effect above (list, count and toast), ending with `actionLoading` null |
| VerificationStatus.ActiveStep | src/components/Verification/VerificationStatus.jsx:16-21 | the step always indexes the four-entry `steps` table |
| VerificationStatus.ActiveStepIsVerifiedPrefix | src/components/Verification/VerificationStatus.jsx:43-51 | the step equals the number of leading true flags in (LinkedIn, ID, picture): all three give 3, LinkedIn and ID without picture give 2, LinkedIn without ID gives 1 whatever the picture flag, and no LinkedIn gives 0 |
| VerificationStatus.VerifiedPrefixMonotone | src/components/Verification/VerificationStatus.jsx:43-51 | setting more flags never shortens the leading run of true flags |
| VerificationStatus.ActiveStepMonotone | src/components/Verification/VerificationStatus.jsx:43-51 | turning any flag from false to true never lowers the step |
| VerificationStatus.StatusView.constructor | src/components/Verification/VerificationStatus.jsx:26-29 | initially step 0, loading, no error, no details |
| VerificationStatus.StatusView.FetchVerificationStatus | src/components/Verification/VerificationStatus.jsx:35-57 | success stores the details and the derived step; an error keeps the step (initially 0) and the details and sets the server's `message` or the fallback; the step stays a valid index and `loading` is false after both |
| IdUpload.ReplyMessageAsWritten | src/components/Verification/IDUpload.jsx:174-177 | the alert the code shows: success-typed iff `success` is truthy; a non-empty server message verbatim; otherwise 'ID verified successfully!', whatever the outcome |
| IdUpload.RejectionReadsAsVerified | src/components/Verification/IDUpload.jsx:174-177 | as written, a reply `{success: false}` with no message yields an error alert reading "ID verified successfully!" |
| IdUpload.ReplyMessage | src/components/Verification/IDUpload.jsx:174-177 | the corrected alert: success-typed iff `success` is truthy; a non-empty server message is shown verbatim; without one, a success falls back to 'ID verified successfully!' and a failure to 'Error uploading ID', and each fallback appears only on its own side |
| IdUpload.ReplyMessageCorrectsOnlyBareRejections | src/components/Verification/IDUpload.jsx:174-177 | the corrected alert differs from the code's exactly on rejections without a message |
| IdUpload.IdUploader.constructor | src/components/Verification/IDUpload.jsx:128-132 | no file, no message, empty input, nothing loading, no request |
| IdUpload.IdUploader.HandleFileChange | src/components/Verification/IDUpload.jsx:144-155 | a file over 5 MiB sets the error, keeps `file` and clears the input; any other file is stored and the message cleared (no type check); no request is sent, and a pending navigation is cancelled unless no file was picked |
| IdUpload.IdUploader.HandleUpload | src/components/Verification/IDUpload.jsx:157-191 | with no file: an error and no request; otherwise one submission; `success` true gives a success alert and clears file and input; `success` false gives an error alert and keeps the file; a 2xx reply's alert is the code's own (`ReplyMessageAsWritten`), so its text defaults to 'ID verified successfully!' on both outcomes; an exception gives the server's `error` or the fallback; navigation to `/profile` is pending afterwards iff the upload succeeded (lines 134-142); `loading` is false afterwards |
| Callback.FirstRun | src/components/CallbackHandler.js:20-55 | with no code: only a navigation to `/login` and no exchange; with a code: exactly one exchange, first; a reply without a truthy `token` and a `user`, or an exception, leads straight to `/login?error=auth_failed` without `login`; `/profile` is reached iff the exchange gave a session and `login` did not throw, and then `login(token, user)` comes just before it; a session reply always gives exchange, `login`, then `/profile`, or `/login?error=auth_failed` when `login` throws |
| Callback.CallbackHandler.constructor | src/components/CallbackHandler.js:12 | the latch starts unset and nothing has happened |
| Callback.CallbackHandler.HandleCallback | src/components/CallbackHandler.js:14-59 | the latch is set on every firing; a firing after the first changes nothing; the first does exactly `FirstRun`; at most one exchange ever happens per mount |
| Callback.FireTwice | src/components/CallbackHandler.js:14-18 | when the effect fires twice, only the first firing's effects happen, and there is at most one exchange |

## Left out

- Rendering, styling, and the open state of the popover, the snackbar and the alert are not modelled. Message texts are kept only to show which fallback is used.
- The in-flight `loading = true` of the picture upload, the ID upload and the list fetch is not modelled as a separate state. Each of those handlers is atomic, and only its final `loading = false` is stated. The notification decision is the one handler split at its `await`.
- Render-level guards that disable buttons while `loading` is set, the upload button shown only when a file is chosen, and "Mark all read" disabled at count 0 are not modelled. The handlers are proved for every call, guarded or not.
- Interleaved async completions are not modelled. Examples are a stale fetch landing after a newer one, or a dialog `onClose` during a confirm. The code has no sequencing for them.
- Generating the FileReader preview is an asynchronous browser API. It is modelled only as the event `OnPreviewLoaded`, with the data URL kept opaque.
- Timers are not modelled. The 2-second navigation delay in the ID upload and the 100 ms one in the callback become "navigation requested".
- `src/services/api.js` (the bearer-token and 401 interceptor) and `src/context/AuthContext.js` are not part of this model. Their `login` appears in the callback only as "called", with a `loginThrows` parameter for its outcome.
- Console logging is not modelled, including the extra log for an HTTP 400 in the callback.
- JavaScript values are narrowed. A truthy non-boolean `success` is a boolean, `count` is an integer, and `code`, `token` and `tempPath` are optional strings, where the empty string counts as absent.
- The profile form, account settings, layout, routing and the LinkedIn button are view code and are not modelled. The commented-out earlier versions of the picture and ID components are dead code and are not modelled either.

## Findings

| source | as written | input that shows it | evidently intended | confidence | as-written member | corrected member |
|---|---|---|---|---|---|---|
| src/components/Verification/IDUpload.jsx:174-177 | the fallback text is 'ID verified successfully!' for every reply, including rejections | reply data `{ success: false }` with no `message` gives an error alert reading "ID verified successfully!" | a rejection without a message falls back to an error text such as the component's own 'Error uploading ID' | not executed; high | IdUpload.RejectionReadsAsVerified | IdUpload.ReplyMessage |
| src/components/Notification/Notification.js:80 | the success toast is built as `${action}ed` | action `approve` gives "Profile picture successfully approveed" | "approved" (and "rejected", which is already right) | not executed; high | Notifications.SuccessTextAsWrittenMisspellsApprove | Notifications.SuccessTextIsPastTense |

In both rows the handlers (`IdUpload.IdUploader.HandleUpload`, `Notifications.NotificationCentre.FinishAction`) keep the behaviour as written. The corrected definitions are proved alongside them, together with a lemma that names exactly the inputs where the two differ.
