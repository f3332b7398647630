# nexus client core in Dafny

A model of the deterministic logic in the nexus web client, a Next.js front
end for a document knowledge base with retrieval-augmented chat. The client
has no algorithmic engine. Its logic is a set of small state machines. Here
they are stated as immutable records and pure transition functions. Every
network outcome is an explicit input: an axios `Reply`, or a `FetchOutcome`
for the components that call `fetch` directly. Every asynchronous operation is
atomic with its outcome. The client has no generation counter and no guard
against stale responses, so the model has none either.

What is modelled:

- **The session slice.** The browser state is a `Client`:
  - the `token` slot of `localStorage`;
  - the `token` cookie, which only the edge middleware reads;
  - the location;
  - the router's push log;
  - the `['user']` and `['auth-status']` cache entries;
  - the query invalidations.

  Around it sit:
  - the axios instance and its two interceptors (`Api`);
  - the status query in both copies (`AuthHooks`, `AuthStatusQuery`);
  - the login, register and logout mutations (`AuthHooks`);
  - the context provider's `user` and `isLoading` (`AuthContext`);
  - the client route guard (`RequireAuth`);
  - the edge route decision (`Middleware`).

  `Session` drives the slice with sequences of events and proves facts about
  whole runs. The 401 interceptor assigns `/login` to the location, which
  starts a page load: `Session` replaces the tab's page with a fresh one, so
  the provider and the caches start over while storage stays. The document
  request passes the edge middleware first, so a tab holding the `token`
  cookie lands on `/dashboard` instead of `/login`.
- **The login and registration forms** (`LoginPage`, `RegisterPage`). The
  registration e-mail pattern is `EmailPattern`. Its regular language is
  given as a split of the address, and a scanning recogniser is proved to
  accept exactly that language. Both forms render their e-mail field as
  `<input type="email">` without `novalidate`, so the browser refuses a
  non-empty value that is not a valid e-mail address before the form's own
  rules run. That check, as the HTML Living Standard defines it in section
  4.10.5.1.5, is `NativeEmail`.
- **The chat UI's lists and selection**:
  - the document picker (`DocumentSelector`);
  - the conversation list (`ConversationSidebar`);
  - the optimistic send and rollback of the chat panel (`ChatInterface`);
  - the chat page's selected conversation (`ChatPage`).
- **Small helpers**:
  - PDF page clamping (`PdfViewer`);
  - the keyword preview and the delete dialog of the document list
    (`DocumentList`);
  - the search panel's error handling (`SearchDocuments`);
  - the upload form (`DocumentUpload`).

`Common` holds the JavaScript semantics the components rely on:
- truthiness of strings and ids (an id of 0 is falsy);
- `String(undefined)`;
- `toLowerCase` on ASCII letters;
- `includes`;
- `trim` over the ECMAScript white-space set;
- `Array.filter` with its order, membership and multiplicity laws;
- `slice`;
- decimal rendering of counts.

The model follows the code as written, including these surprising
behaviours:
- logout clears the token only after the POST succeeds;
- nothing loads `user` from `/auth/me`;
- the guard sends every signed-in user to `/dashboard`;
- registration stores the response's `token` field.

Each of these is stated as a lemma. The session model (`Session`) keeps the
as-written register and guard, so that its theorems describe the code as it
runs. The corrected definitions under "Findings" stand beside them, each with
its intended property proved.

## Model

| member | source | states |
|---|---|---|
| Middleware.Decide | src/middleware.ts:7-26 | With no `token` cookie, a protected path is redirected to `/login` and the cookie is deleted. With a cookie, `/login` and `/register` go to `/dashboard`. Everything else passes, both directions of each case. A present but empty cookie counts as present. |
| Middleware.ProtectionIsByPrefix | src/middleware.ts:12 | Protection is by prefix: `/dashboard/x` and `/documentsfoo` are redirected without a cookie, and `/profile` with an empty cookie passes. |
| Middleware.AuthRoutesAreExact | src/middleware.ts:21 | Auth routes match exactly: `/login/x` is neither an auth route nor protected, so a signed-in request passes. `/register` with any cookie is redirected. |
| Middleware.NoRedirectLoop | src/middleware.ts:4-25 | The target of any redirect passes when requested again. This holds with the same cookie and with the cookie the redirect leaves behind. |
| RequireAuth.Navigate | src/components/auth/RequireAuth.tsx:9-15 | The guard issues no navigation exactly while loading. Once settled, no user goes to `/login` and any user goes to `/dashboard`. The inputs are only `(user, isLoading)`. |
| RequireAuth.Render | src/components/auth/RequireAuth.tsx:16-24 | The spinner shows iff loading. The children show iff settled with a user. Nothing shows iff settled without one. |
| RequireAuth.GuardedPageOtherThanDashboardNeverStays | src/components/auth/RequireAuth.tsx:12-13 | Whenever the children render, the guard replaces the page with `/dashboard`, so no other guarded page, `/chat` included, can stay open. |
| RequireAuth.NavigateIntended | src/components/auth/RequireAuth.tsx:10-11 | Corrected guard: it redirects iff settled with no user and otherwise stays. |
| RequireAuth.IntendedGuardKeepsSignedInUser | src/components/auth/RequireAuth.tsx:9-24 | Under the corrected guard, the children render iff a signed-in user is kept in place. Anonymous visitors are treated as before. |
| Api.CreateApi | src/lib/api.ts:3-15 | Loading the module fails, with the fixed message, iff the API URL is unset or empty. The WebSocket URL falls back to `ws://localhost:8080`. JSON is the default content type. |
| Api.AttachToken | src/lib/api.ts:19-30 | A non-empty stored token adds `Authorization: Bearer <token>`. Every other header and the URL are kept. A missing or empty token leaves the request unchanged. |
| Api.AttachIffTokenTruthy | src/lib/api.ts:22-24 | On a request without the header, the header is present afterwards iff the token is truthy. |
| Api.OnResponseError | src/lib/api.ts:33-42 | A 401 removes the token and assigns `/login` to the location. Nothing else in the open page changes; the page load the assignment starts is modelled by `Session.Step`. Any other error, with or without a response, changes nothing. The same error is always re-rejected. |
| Api.Deliver | src/lib/api.ts:33-42 | A success passes through with the state unchanged. A rejection reaches the caller unchanged, after the 401 handling. |
| Api.DeliverIdempotent | src/lib/api.ts:33-42 | Handling the same reply twice leaves the same state as handling it once. |
| AuthHooks.RunStatusQuery | src/hooks/useAuth.ts:16-33 | Without a browser or a non-empty token, the query sends nothing and changes nothing. Otherwise it sends exactly one request, with no retry. Success caches the body. Failure removes the token, applies the interceptor's 401 redirect and rethrows. |
| AuthHooks.LoginFailure | src/hooks/useAuth.ts:48-53 | The rejection is "Incorrect email or password" iff the status was 401. Any other error is rethrown unchanged. |
| AuthHooks.Login | src/hooks/useAuth.ts:35-69 | Success stores `access_token` as the token, caches `['user']` and pushes `/dashboard`, and changes nothing else. Failure removes the token and rejects with the mapped error. |
| AuthHooks.Register | src/hooks/useAuth.ts:70-83 | Success stores `String(data.token)` and caches `['user']`, without navigating. Failure has no handler of its own, so only the interceptor acts. |
| AuthHooks.RegisterSendsBearerUndefined | src/hooks/useAuth.ts:79 | A registration answered with only `access_token` makes the next axios request carry `Bearer undefined`. |
| AuthHooks.RegisterStoringAccessToken | src/hooks/useAuth.ts:78-81 | Corrected register: it stores `access_token` as login does, and failures are handled as before. |
| AuthHooks.CorrectedRegisterSendsAccessToken | src/lib/api.ts:22-24 | Under the corrected register, the next request carries the issued access token. |
| AuthHooks.Logout | src/hooks/useAuth.ts:85-95 | Only a successful POST removes the token and sets `['user']` to null. A failed one leaves the cache as it was, and the token too unless the interceptor saw a 401. |
| AuthStatusQuery.Options | src/hooks/useAuthStatus.ts:21-25 | The query is enabled iff in a browser with a non-empty token. It has no retry and no refetch on focus, refetches on mount, and stays fresh for 300000 ms. |
| AuthStatusQuery.Run | src/hooks/useAuthStatus.ts:4-27 | When enabled, it sends exactly one request. Success caches `{ user }`. Failure removes the token and rethrows. |
| AuthStatusQuery.CopiesDifferOnlyInShape | src/hooks/useAuthStatus.ts:12 | The two status queries send the same requests and fail the same way. On success they leave differently shaped data under the same key. |
| AuthContext.Start | src/contexts/AuthContext.tsx:42 | Firing an operation raises its own pending flag only. `isLoading` becomes true and `user` is untouched. |
| AuthContext.Login | src/contexts/AuthContext.tsx:27-30 | `user` becomes the response's user iff login resolves and is unchanged on rejection. The rejection propagates. |
| AuthContext.Register | src/contexts/AuthContext.tsx:32-35 | `user` becomes the response's user iff register resolves and is unchanged on rejection. |
| AuthContext.Logout | src/contexts/AuthContext.tsx:37-40 | `user` becomes null iff the logout POST succeeds and stays otherwise. |
| AuthContext.UseAuth | src/contexts/AuthContext.tsx:51-57 | Outside a provider `useAuth` throws the fixed message. Inside one it returns the provider's value. |
| Session.Settle | src/contexts/AuthContext.tsx:22-40 | An event settling in the open page never writes the cookie. Status queries and other requests leave the provider alone. The user changes only through a successful login, register or logout. A settled provider stays settled. |
| Session.Step | src/lib/api.ts:36-38 | An event never writes the cookie and keeps a settled provider settled. After a 401 the tab has no token, a fresh provider and a location the middleware lets through. Without a 401 the event only settles in the open page. |
| Session.Run | src/contexts/AuthContext.tsx:22-42 | A run that starts with nothing pending ends with nothing pending: every operation clears its own pending flag. |
| Session.UserIsLastCredentialResult | src/contexts/AuthContext.tsx:22-40 | After any sequence of events, `user` is the result of the last successful login, register or logout, unless a later 401 reloaded the page, which leaves no user. Status queries, other requests and other failures never write it. |
| Session.Reload | src/lib/api.ts:38 | A page load keeps the stored token. Its document request passes the middleware: a location the middleware lets through is kept with the cookie, and otherwise the load lands on the redirect target, without the cookie when the redirect deletes it. Either way the page that loads is one the middleware lets through. It starts with empty caches, an empty router log and a provider with no user and nothing pending. |
| Session.ReloadSendsToLogin | src/contexts/AuthContext.tsx:22 | After a page load, status queries alone never give the provider a user. The guard therefore sends the visitor to `/login` even with a valid stored token. |
| Session.QueriesKeepOrResetProvider | src/contexts/AuthContext.tsx:22-24 | Status queries alone never change the provider, except that a 401 reply resets it to a fresh page's provider. |
| Session.LoginLogoutLogin | src/hooks/useAuth.ts:55-95 | Login, logout, then login ends with the second login's user and token. |
| Session.CookieNeverWritten | src/middleware.ts:8 | No event writes the `token` cookie. |
| Session.ProtectedPathsStayLocked | src/middleware.ts:12-16 | A tab loaded without the cookie has every protected path redirected to `/login`, whatever happens, a successful login included. |
| Session.AnyUnauthorizedClearsToken | src/lib/api.ts:36-38 | A 401 on any request, credential or other, ends in a fresh page load with no token, the cookie unchanged and a provider with no user and nothing pending. The page is `/login` without a `token` cookie and `/dashboard` with one, because the middleware redirects the load of `/login`. |
| Session.UnauthorizedWithCookieLandsOnDashboard | src/middleware.ts:21-23 | A tab holding the cookie that meets a 401 lands on `/dashboard` with no token, and the guard there sends it on to `/login`. |
| Session.UnauthorizedAfterLoginSignsOut | src/lib/api.ts:36-38 | A signed-in user whose next request is answered with 401 has no user afterwards, and the guard sends the page to `/login`. |
| Session.NoTokenNoStatusRequest | src/hooks/useAuth.ts:31 | With no truthy token the status query sends no `/auth/me` request and changes nothing. |
| Session.PendingOperationShowsSpinner | src/components/auth/RequireAuth.tsx:16-22 | While any credential operation is pending, the guard shows only its spinner and does not navigate. |
| LoginPage.Validate | src/app/login/page.tsx:42-54 | Each field fails iff it is empty, with its required message. |
| LoginPage.Submit | src/app/login/page.tsx:19-43 | Submission is disabled iff loading. Otherwise the browser refuses it iff the e-mail is non-empty and not a valid address, and it is invalid iff it passes that check and a field is empty. A sent form has a valid address and a password. A success pushes `/dashboard` twice, once from the hook and once from the page. A failure pushes nothing. |
| LoginPage.SentIsSessionLogin | src/app/login/page.tsx:19-26 | A sent form leaves exactly the client and provider of the session's `Login` event, plus the page's own `/dashboard` push on success. |
| LoginPage.SentUserIsLastUser | src/app/login/page.tsx:19-26 | After a sent form, the session's user is the reference last user of the one-event run: the form's user, or none when a 401 reloaded the page. |
| LoginPage.MalformedEmailNeverSent | src/app/login/page.tsx:43 | An e-mail without `@` is refused by the browser and never reaches the login request. |
| RegisterPage.Validate | src/app/register/page.tsx:44-95 | Each field carries its required message iff it is empty, and required rules come first. The e-mail fails iff it does not match the pattern, the password iff it is shorter than 8, and the confirmation iff it differs from the password. Each failure carries its own message. |
| RegisterPage.PassingFormShape | src/app/register/page.tsx:56-95 | A form that passes has a name, exactly one `@` in the e-mail, a password of 8 or more characters and a matching confirmation. |
| RegisterPage.Submit | src/app/register/page.tsx:21-63 | Submission is disabled iff loading. Otherwise the browser refuses it iff the e-mail is non-empty and not a valid address, and it is invalid iff it passes that check and a rule fails. A sent form's e-mail is both a valid address and a match of the pattern. A success pushes `/dashboard` exactly once. A failure does not navigate. |
| RegisterPage.DotsOnlyHostNeverSent | src/app/register/page.tsx:58-63 | `a@..co` matches the pattern, yet the browser refuses it, so it is never sent. |
| RegisterPage.PatternMessageOnlyForNativelyValid | src/app/register/page.tsx:58-63 | "Invalid email address" appears only for a natively valid address, and `a@b.c` shows it. |
| EmailPattern.IndexOf | src/app/register/page.tsx:59 | This is the first occurrence of a character, or none when the character is absent. |
| EmailPattern.LastIndexOf | src/app/register/page.tsx:59 | This is the last occurrence of a character, or none when the character is absent. |
| EmailPattern.RecogniserMatchesPattern | src/app/register/page.tsx:59 | The recogniser accepts exactly the language of `^[A-Z0-9._%+-]+@[A-Z0-9.-]+\.[A-Z]{2,}$` under the `i` flag. |
| EmailPattern.RecogniserIsSound | src/app/register/page.tsx:59 | Every accepted address splits into local part, `@`, host, `.` and a label of two or more letters. |
| EmailPattern.RecogniserIsComplete | src/app/register/page.tsx:59 | Every such split is accepted. |
| EmailPattern.AcceptedShape | src/app/register/page.tsx:58-61 | An accepted address has exactly one `@` and ends in `.` followed by at least two letters. |
| EmailPattern.MixedCaseAccepted | src/app/register/page.tsx:59 | Matching ignores case: `a@B.Co` is accepted. |
| EmailPattern.DotsOnlyHostAccepted | src/app/register/page.tsx:59 | The host may be dots only: `a@..co` is accepted. |
| EmailPattern.ShortLabelRefused | src/app/register/page.tsx:59 | A one-letter top-level label is refused: `a@b.c`. |
| NativeEmail.DomainShape | src/app/register/page.tsx:63 | A valid domain begins and ends with a letter or digit and never holds two dots in a row. |
| NativeEmail.NoAtRefused | src/app/login/page.tsx:43 | A non-empty value without `@` is a type mismatch. |
| NativeEmail.DotsOnlyHostRefused | src/app/register/page.tsx:63 | `a@..co` is a type mismatch. |
| NativeEmail.SingleLabelHostAccepted | src/app/register/page.tsx:59-63 | `a@b` is a valid address, and the registration pattern refuses it. |
| NativeEmail.ShortLabelAccepted | src/app/register/page.tsx:59-63 | `a@b.c` is a valid address, and the registration pattern refuses it. |
| DocumentSelector.FinishLoad | src/components/rag/DocumentSelector.tsx:40-63 | A load ends not loading. An `ok` response replaces the list. A non-`ok` response or a throw keeps the list and sets "Failed to load documents". |
| DocumentSelector.Filtered | src/components/rag/DocumentSelector.tsx:65-67 | The filter keeps exactly the documents whose lower-cased title contains the lower-cased term, in list order and with their multiplicities. An empty term keeps all of them. |
| DocumentSelector.FilterIgnoresTermCase | src/components/rag/DocumentSelector.tsx:66 | Filtering by a term and by its lower-cased form gives the same list. |
| DocumentSelector.Toggle | src/components/rag/DocumentSelector.tsx:69-75 | Toggling flips membership of the id and no other id changes membership. A present id loses every occurrence, every other id keeps its multiplicity, and the order of the rest is kept. An absent id is appended. |
| DocumentSelector.ToggleTwiceRestores | src/components/rag/DocumentSelector.tsx:70-72 | Toggling an unselected id twice restores the selection. |
| DocumentSelector.ToggleTwiceOnSelectedReorders | src/components/rag/DocumentSelector.tsx:70-72 | Toggling a selected id twice moves it to the end: `[1, 2]` becomes `[2, 1]`. |
| DocumentSelector.ToggleKeepsDistinct | src/components/rag/DocumentSelector.tsx:70-72 | Toggling keeps a duplicate-free selection duplicate-free. |
| DocumentSelector.SelectAll | src/components/rag/DocumentSelector.tsx:77-85 | The result is empty iff the counts are equal or nothing is shown. Otherwise it is exactly the shown documents' ids, in display order. |
| DocumentSelector.SelectAllComparesLengthsOnly | src/components/rag/DocumentSelector.tsx:78 | Only lengths are compared: `[7]` against one shown document with id 1 is cleared. |
| DocumentSelector.CaptionMatchesAction | src/components/rag/DocumentSelector.tsx:136 | For any selection and list, pressing the button clears the selection iff it reads "Deselect All" or nothing is shown. |
| DocumentSelector.SelectAllOnEmptyResultClears | src/components/rag/DocumentSelector.tsx:78-85 | With a search that shows nothing, the button reads "Select All" yet pressing it clears the selection. |
| DocumentSelector.SelectNone | src/components/rag/DocumentSelector.tsx:87-89 | The selection becomes empty and the picker stays open or closed as it was. |
| DocumentSelector.Apply | src/components/rag/DocumentSelector.tsx:91-93 | The picker closes and the selection is unchanged. |
| DocumentSelector.SelectionSummary | src/components/rag/DocumentSelector.tsx:212-215 | The footer says every document is searched iff nothing is selected. Otherwise it starts with the selection's size in decimal, which reads back as the size, followed by ` document selected` for one and ` documents selected` for more. |
| ConversationSidebar.FinishLoad | src/components/rag/ConversationSidebar.tsx:36-57 | An `ok` load replaces the list. Failures keep it and set "Failed to load conversations". Loading ends either way. |
| ConversationSidebar.Create | src/components/rag/ConversationSidebar.tsx:59-83 | Success prepends the new conversation, keeps the rest and selects its id. Failure keeps the list, sets the error and fires no callback. |
| ConversationSidebar.Delete | src/components/rag/ConversationSidebar.tsx:85-114 | A declined confirmation changes nothing. Success keeps exactly the conversations with other ids, in order and with their multiplicities. It asks for a new conversation iff the deleted id was selected. Failure only sets the error. |
| ConversationSidebar.CreateThenDeleteRestores | src/components/rag/ConversationSidebar.tsx:74-106 | Creating a conversation with a fresh id and deleting it restores the list. The delete clears the selection the create made. |
| ConversationSidebar.DeleteOfUnknownIdKeepsList | src/components/rag/ConversationSidebar.tsx:101 | Deleting an id no conversation has keeps the list. |
| ConversationSidebar.TruncateTitle | src/components/rag/ConversationSidebar.tsx:130-132 | A title of at most 30 characters is kept. A longer one becomes its first 30 characters plus `...`, 33 in all. |
| ConversationSidebar.TruncateIdempotent | src/components/rag/ConversationSidebar.tsx:130-132 | Truncating a displayed title again changes nothing. |
| ConversationSidebar.TruncatedTitleShape | src/components/rag/ConversationSidebar.tsx:131 | A displayed title has at most 33 characters and starts with the title's first 30 characters, or all of them if fewer. |
| ConversationSidebar.MessageBadge | src/components/rag/ConversationSidebar.tsx:210-213 | The badge shows iff the message count is positive. It starts with the count in decimal, which reads back as the count, followed by ` messages` whatever the count. |
| ConversationSidebar.SingleMessageBadge | src/components/rag/ConversationSidebar.tsx:236 | The footer pluralises ("1 conversation") but the badge does not ("1 messages"). |
| Common.CountLabelReadsBack | src/components/rag/ConversationSidebar.tsx:236 | A count label starts with the count in decimal, which reads back as the count, then a space and the noun, and ends with `s` iff the count is not 1 and with nothing more otherwise. |
| ChatInterface.SendMessage | src/components/rag/ChatInterface.tsx:74-132 | A send happens iff the button is enabled; a disabled one changes nothing. A sent question is the trimmed draft, and the panel ends with the draft cleared and not loading. Success appends the question and the answer with no error. Failure leaves exactly the earlier messages with the retry message. The callback fires iff the send succeeded, the panel had no truthy conversation and a callback exists. |
| ChatInterface.BeginSend | src/components/rag/ChatInterface.tsx:74-101 | The send is ignored iff the trimmed draft is empty or a send is loading. Otherwise it appends the trimmed user message, clears the draft, sets loading and clears the error. The request carries the trimmed text, the conversation and the header. Selected ids are included iff there are any. |
| ChatInterface.FinishSend | src/components/rag/ChatInterface.tsx:103-132 | Success appends the answer. Failure drops the last message and sets the retry message. Loading ends either way. The callback fires iff the send succeeded, the panel had no truthy conversation and a callback exists. |
| ChatInterface.DisabledSendIsNoOp | src/components/rag/ChatInterface.tsx:356 | A disabled send changes nothing, sends nothing and fires no callback. |
| ChatInterface.BlankDraftNotSent | src/components/rag/ChatInterface.tsx:75 | A draft made only of white space is never sent. |
| ChatInterface.FailedSendRollsBack | src/components/rag/ChatInterface.tsx:125-132 | A failed send restores exactly the message list from before the send. The draft stays cleared and the panel is ready again. |
| ChatInterface.SuccessfulSendAppendsPair | src/components/rag/ChatInterface.tsx:84-118 | A successful send adds exactly the trimmed question followed by the answer, and leaves no error. |
| ChatInterface.CallbackOnlyForNewConversation | src/components/rag/ChatInterface.tsx:121-123 | The answer's conversation id is announced for no conversation and for conversation 0, and never for a non-zero one. |
| ChatInterface.ConversationChanged | src/components/rag/ChatInterface.tsx:43-71 | A falsy id, 0 included, empties the list. A loaded list replaces it. A non-`ok` response changes nothing. A throw sets the load error. |
| ChatInterface.FailedSwitchKeepsOldMessages | src/components/rag/ChatInterface.tsx:64-71 | Switching to a conversation whose load fails keeps the previous conversation's messages. |
| ChatInterface.KeyPress | src/components/rag/ChatInterface.tsx:135-140 | Enter without Shift sends. Every other key does nothing. |
| ChatInterface.ShiftEnterNeverSends | src/components/rag/ChatInterface.tsx:136 | Shift+Enter never sends a request. |
| ChatInterface.ClearSelectedDocuments | src/components/rag/ChatInterface.tsx:321 | Clearing empties the document selection and changes nothing else. |
| ChatInterface.ClearedSelectionSearchesEverything | src/components/rag/ChatInterface.tsx:99 | After clearing, the next question carries no document filter. |
| ChatPage.SelectConversation | src/app/chat/page.tsx:12-14 | Selecting sets the selected id. |
| ChatPage.NewConversation | src/app/chat/page.tsx:16-22 | A truthy id is selected. `undefined` and 0 clear the selection. |
| ChatPage.OnSidebar | src/app/chat/page.tsx:30-34 | Sidebar clicks select. Its new-conversation callback always clears, because it is passed no id. |
| ChatPage.OnChat | src/app/chat/page.tsx:39-42 | The panel's callback hands the answer's id to `handleNewConversation`. |
| ChatPage.SelectionNeverZeroFromPanel | src/app/chat/page.tsx:16-22 | The panel's callback never leaves a selection of 0. |
| ChatPage.DeletingSelectedConversationEmptiesPanel | src/app/chat/page.tsx:33 | Deleting the selected conversation clears the page's selection, and the panel then empties its list. |
| ChatPage.DeletingOtherConversationKeepsSelection | src/app/chat/page.tsx:31-33 | Deleting any other conversation leaves the selection alone. |
| ChatPage.CreatedConversationIsSelected | src/app/chat/page.tsx:32 | A conversation created in the sidebar becomes the selection. |
| ChatPage.FirstAnswerSelectsItsConversation | src/app/chat/page.tsx:41 | The first answer of a fresh chat selects its conversation when the id is truthy. |
| PdfViewer.Previous | src/components/documents/PdfViewer.tsx:37 | The page never drops below 1 and goes back by one whenever it can. |
| PdfViewer.Next | src/components/documents/PdfViewer.tsx:47 | The page never exceeds the page count and goes forward by one whenever it can. |
| PdfViewer.Load | src/components/documents/PdfViewer.tsx:18 | Loading replaces only the page count. |
| PdfViewer.ButtonsKeepPageInRange | src/components/documents/PdfViewer.tsx:37-47 | If `1 <= page <= numPages` holds, both buttons keep it. |
| PdfViewer.DisabledIffNoEffect | src/components/documents/PdfViewer.tsx:38-48 | In range, each button is disabled iff pressing it would change nothing. |
| PdfViewer.PreviousUndoesNext | src/components/documents/PdfViewer.tsx:37-47 | Previous undoes Next wherever Next moves, and Next undoes Previous in the same way. |
| PdfViewer.PressNextWalksPages | src/components/documents/PdfViewer.tsx:47 | `k` presses of Next advance the page by `k` while pages remain. |
| PdfViewer.LoadDoesNotReclamp | src/components/documents/PdfViewer.tsx:18 | Loading a shorter document on a later page leaves the page out of range. |
| PdfViewer.InitialPagerIsStill | src/components/documents/PdfViewer.tsx:11-12 | The pager starts at page 1 of 1 with both buttons disabled. |
| DocumentList.Preview | src/components/documents/DocumentList.tsx:72-86 | There is no preview iff keywords are absent. Exactly the first 3, or all when fewer, are shown, in order. `+N more` appears iff there are more than 3, with N the number left over. |
| DocumentList.PreviewAccountsForAll | src/components/documents/DocumentList.tsx:74-84 | Shown keywords plus N equal the number of keywords. With nothing hidden, every keyword is shown. |
| DocumentList.ClickCard | src/components/documents/DocumentList.tsx:62 | Clicking a card opens it and leaves the pending deletion alone. |
| DocumentList.ClickDelete | src/components/documents/DocumentList.tsx:96-98 | The delete icon sets the pending deletion without opening the viewer. |
| DocumentList.Cancel | src/components/documents/DocumentList.tsx:134 | Cancel clears the pending deletion, sends nothing and leaves the viewer alone. |
| DocumentList.CloseViewer | src/components/documents/DocumentList.tsx:116 | Close shuts the viewer and leaves the pending deletion alone. |
| DocumentList.Confirm | src/components/documents/DocumentList.tsx:36-43 | The delete request is for the pending document. Success invalidates `['documents']` and clears the pending deletion. Failure keeps the dialog after the interceptor runs. With nothing pending, nothing happens. |
| DocumentList.DeleteDialogRoundTrips | src/components/documents/DocumentList.tsx:96-134 | Asking and cancelling, or asking and confirming successfully, returns to the same view. Confirming also refetches the list. |
| DocumentList.UnauthorisedDeleteSignsOut | src/components/documents/DocumentList.tsx:38 | A delete answered with 401 signs the tab out and sends it to `/login`; the dialog stays until that page load replaces it. |
| SearchDocuments.ErrorMessage | src/components/documents/SearchDocuments.tsx:33-38 | The rate-limit message appears iff the status is 429. Every other error gets the generic message. |
| SearchDocuments.MutationFn | src/components/documents/SearchDocuments.tsx:21-41 | An empty term sends nothing and gives `[]`. Otherwise exactly one request is sent. Success clears the error and returns the hits. Failure writes the classified message and returns `[]`. |
| SearchDocuments.Mutate | src/components/documents/SearchDocuments.tsx:42-44 | The mutation always ends successful, with the function's value as the results. |
| SearchDocuments.HandleSearch | src/components/documents/SearchDocuments.tsx:47-52 | An empty term does not start the mutation. |
| SearchDocuments.EmptyTermChangesNothing | src/components/documents/SearchDocuments.tsx:22 | An empty term changes nothing and sends no request. |
| SearchDocuments.SearchOutcomes | src/components/documents/SearchDocuments.tsx:31-39 | A search shows its hits with no error, or no hits with exactly one of the two messages. |
| SearchDocuments.FailedSearchShowsNoResultsLine | src/components/documents/SearchDocuments.tsx:122 | A failed search shows the error and "No results found" together. |
| SearchDocuments.UnauthorisedSearchSignsOut | src/components/documents/SearchDocuments.tsx:24 | A search answered with 401 signs the tab out and shows the generic message. |
| SearchDocuments.HitKeywords | src/components/documents/SearchDocuments.tsx:147-149 | No keywords show iff the hit has none. Otherwise exactly the first 5 keywords, or all when fewer, are shown, in order. |
| DocumentUpload.FileChange | src/components/documents/DocumentUpload.tsx:49-54 | The first chosen file is set and the error cleared. An empty selection changes nothing. |
| DocumentUpload.Clear | src/components/documents/DocumentUpload.tsx:134-137 | Clear resets the file and the error. |
| DocumentUpload.ErrorMessageAsWritten | src/components/documents/DocumentUpload.tsx:33-34 | As written, a missing response or a null body shows the engine's TypeError text. An object body shows its non-empty message or "Failed to upload document". |
| DocumentUpload.ErrorMessage | src/components/documents/DocumentUpload.tsx:34 | Corrected: the message is always the server's non-empty message or "Failed to upload document". |
| DocumentUpload.NetworkFailureShowsTypeError | src/components/documents/DocumentUpload.tsx:33-34 | With no response, the as-written message is the TypeError text, while the corrected one is the fallback. |
| DocumentUpload.AsWrittenAgreesOnObjectBodies | src/components/documents/DocumentUpload.tsx:33-34 | The two messages agree iff the server answered with an object body. |
| DocumentUpload.Upload | src/components/documents/DocumentUpload.tsx:21-47 | The corrected upload. Without a file nothing happens. `onSuccess` is called iff a file was sent and the upload succeeded, which resets the form and refetches both lists. A failure keeps the file and shows the server's non-empty message, or "Failed to upload document" otherwise. |
| DocumentUpload.UploadAsWritten | src/components/documents/DocumentUpload.tsx:21-47 | The upload as written sends, settles and calls back exactly as the corrected one. Its form differs exactly when a failed upload's response has no object body. A failure with no response shows the `TypeError` text. |
| DocumentUpload.UploadWith | src/components/documents/DocumentUpload.tsx:21-47 | Without a file, nothing happens. Success invalidates `['documents']` and `['document-insights']`, resets the form and calls `onSuccess`. Failure keeps the file and shows the message. |
| DocumentUpload.NoFileNoRequest | src/components/documents/DocumentUpload.tsx:118 | Uploading with no file chosen does nothing. |
| DocumentUpload.SuccessfulUploadResetsForm | src/components/documents/DocumentUpload.tsx:37-42 | A successful upload after choosing a file leaves the form as it started and refetches both lists. |
| DocumentUpload.NetworkFailureAfterChoosingFile | src/components/documents/DocumentUpload.tsx:44-46 | After a network failure the file stays. As written the TypeError text shows; corrected, the fallback shows. |
| ClientState.FetchAuthorization | src/components/rag/ChatInterface.tsx:94 | The header of the direct `fetch` calls is exactly `Bearer ` plus the stored token, whatever it is, and `Bearer null` when none is stored. |
| Common.FilterIsSubsequence | src/components/rag/DocumentSelector.tsx:65-67 | `filter` keeps the surviving elements in their original order. |
| Common.FilterKeepsDistinct | src/components/rag/DocumentSelector.tsx:71 | `filter` keeps a duplicate-free array duplicate-free. |
| Common.FilterCounts | src/components/rag/ConversationSidebar.tsx:101 | `filter` keeps each kept element as often as it occurred and drops every other one entirely. |
| Common.TrimEmptyIffAllWhitespace | src/components/rag/ChatInterface.tsx:75 | `trim()` is empty iff every character is white space. |
| Common.NatToStringRoundTrip | src/components/rag/ConversationSidebar.tsx:213 | A rendered count reads back as the count. |

## Left out

- JSX rendering, styling, icons, animation and the landing page: these are presentation with no logic to state.
- The charts, the knowledge graph, the WebSocket hook and the collaborative editor: these are library internals, I/O and concurrency.
- Date, time and locale formatting, and the similarity percentage: these depend on the clock, the locale and floating point.
- The middleware's `matcher` regular expression: it is routing configuration for the framework.
- The shared query client (src/lib/queryClient.ts) is not part of this model. Cache writes and invalidations are recorded as plain data, and query retries and refetch scheduling are not modelled beyond the options the hooks pass.
- Interleavings of concurrent requests: each operation is atomic with its outcome, and the client has nothing that orders late responses.
- Request payloads (credentials, search type, filters, the upload's form data) are not modelled; only the replies drive the model.
- Thin wrappers and static views (template selector, share, create note, delete confirmation, modal, document viewer and analysis, layout, dashboard, providers): they have no logic beyond enabling a button. The layout's `handleLogout` only awaits logout and then sets the location to `/`.
- PDF rendering, and the `process.env` lookups other than the API URL check.
- `Session.ProtectedPathsStayLocked` assumes the API's replies never set the `token` cookie: no client code writes it, and a `Set-Cookie` from the server is outside the model.
- `NativeEmail.IsValidAddress` does not model the browser's value sanitisation (removing line breaks and surrounding white space) or the conversion of internationalised domain names to punycode.
- Router navigations (`push`, `replace`) are recorded in the router log and are not passed through the edge middleware; only page loads are.
- The page and component modules (`LoginPage`, `RegisterPage`, `DocumentList`, `SearchDocuments`, `DocumentUpload`) describe the open page up to the page load a 401 starts; `Session` models that load.
- `Common.Lower` lower-cases ASCII letters only, not the full Unicode case mapping of `toLowerCase`.
- `ConversationSidebar.TruncateTitle` and `RegisterPage.Validate` count characters, where JavaScript counts UTF-16 code units; the two differ only outside the Basic Multilingual Plane.
- `DocumentUpload.ErrorMessageAsWritten` uses the V8 wording of the `TypeError` message; other engines word it differently, but it is never the fallback text.
- Console logging and the pending flags of the search and upload mutations (which only disable buttons) are not modelled.
- `ChatInterface.FinishSend` keeps only the role and text of a message; timestamps come from the clock and cited excerpts are display data.

## Findings

| source | as written | input that shows it | evidently intended | confidence | as-written member | corrected member |
|---|---|---|---|---|---|---|
| src/hooks/useAuth.ts:79 | Registration stores `data.token`, a field the API's auth response does not carry, so the slot holds the string `undefined` | a register reply with only `access_token`; the next request's header is `Bearer undefined` | store `data.access_token`, as login does at line 57 | not executed; high | AuthHooks.RegisterSendsBearerUndefined | AuthHooks.CorrectedRegisterSendsAccessToken |
| src/components/auth/RequireAuth.tsx:12-13 | A signed-in user is sent to `/dashboard` from every guarded page | `/chat` with a signed-in user: the guard replaces it with `/dashboard` | redirect only anonymous visitors | not executed; high | RequireAuth.GuardedPageOtherThanDashboardNeverStays | RequireAuth.IntendedGuardKeepsSignedInUser |
| src/components/documents/DocumentUpload.tsx:33-34 | `err.response?.data` is dereferenced without `?.`, so with no response the handler throws a `TypeError` whose text is displayed | a network failure (no response): the error line shows "Cannot read properties of undefined (reading 'message')" | `err.response?.data?.message \|\| 'Failed to upload document'` | not executed; high | DocumentUpload.NetworkFailureShowsTypeError | DocumentUpload.ErrorMessage |
