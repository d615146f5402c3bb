# Session and navigation layer of the contacts single-page application

This project models, in Dafny, the client-side core of a small contacts web
application: the GitHub OAuth token kept in session storage (`auth.js`), the
day arithmetic it and the screens use (`time.js`), `routing.push` and the part
of `window.history` it drives (`routing.js`), the `<custom-router>` /
`<custom-route>` pair that decides which screen element is mounted
(`customRouter.js`, `customRoute.js`), and the contact list and contact item
screens (`contact.js`).

Modules, one per source file, plus three small ones they share:

- `Wrappers` — `Option` and `Result`.
- `Js` — parsed JSON values, JavaScript truthiness, `v || {}`, and the
  exceptions the code raises or receives.
- `Decimal` — `String(n)` and `Number(text)` for integral numbers, with the
  round trip between them.
- `Time` — `nowSeconds` and `nDaysDiff`, with `Date.now()` as the parameter
  `clockMs`.
- `Routing` — a `History` class (entries, the last one current; the popstate
  events dispatched so far), URLs with path, query and fragment, and `Push`.
- `Auth` — the token record, the session-storage slot and the request log in
  the `GithubAuth` class; `isTokenValid`, `isAccessTokenValid`, the code
  exchange, the refresh and `authenticateGithub`.
- `Route` — `OnRouteChange`, a pure function giving the effect of one
  `handleRouteChange`, its properties, and the `CustomRoute` class whose
  methods are proved against it.
- `Router` — the `CustomRouter` class: the constructor's `replaceState`, the
  popstate listener, `connectedCallback` and `updateRoutes`.
- `Contact` — the stable sort by due time, the item texts, the request-status
  display, and the `ContactItem` and `ContactList` classes.

The network (the OAuth backend and the contacts API of `api.js`) is not
called: each response is a parameter of the operation that awaits it
(`Result` for a call that may raise). Requests sent to the OAuth backend are
recorded in `GithubAuth.requests`, so "no request was sent" and "exactly one
refresh was sent" are stated about that log. The clock is a parameter: `now`
in seconds for `auth.js`, `clockMs` in milliseconds where `time.nowSeconds()`
is called. Where the code reads the clock again after an `await`, the model
takes a second reading (`stampNow`, `renderMs`) that is independent of the
first.

Behaviour taken from the code as written, where a reader might expect
otherwise:

- `getGithubToken` calls `JSON.parse` on the stored text, so a malformed
  value raises a `SyntaxError` out of `isAuthenticated`, `authenticateGithub`,
  `refreshGithubToken` and everything that calls them; it is not read as
  "absent". The model returns `Failure(SyntaxError)` on those paths.
- `authenticateGithub` with an expired record that has no truthy
  `refresh_token` sends nothing and does not redirect: `refreshGithubToken`
  returns `{}` without raising.
- A protected route whose user is not authenticated starts
  `authenticateGithub` without waiting for it and mounts its screen anyway;
  only `isAuthenticated` raising stops the mount.
- `routing.push` dispatches `new Event('popstate', state)`, which carries no
  `state`, so after a push the routes always receive `{}`
  (`Router.PushDeliversEmptyObject`). The routes never read
  `data-route-state`, so this has no visible effect.
- `isTokenValid` tests truthiness: a record whose `issued_at` or `expires_in`
  is `0` is invalid, like one where the field is missing.

## Model

| member | source | states |
|---|---|---|
| Js.OrEmptyObject | resource/public/js/components/customRouter.js:10 | `v \|\| {}` is `v` when `v` is truthy and `{}` otherwise; the result is always truthy |
| Time.NowSeconds | public/js/time.js:5-7 | the seconds `s` returned satisfy `s*1000 <= Date.now() < s*1000 + 1000` (floor) |
| Time.CeilDays | public/js/time.js:20 | `Math.ceil(seconds / 86400)`: the least `days` with `seconds <= days*86400` |
| Time.NDaysDiff | public/js/time.js:14-21 | the whole number of days from `timeInSeconds` to `from` (or to now when `from` is null), rounded up, characterised by the two ceiling inequalities |
| Time.NDaysDiffSelf | public/js/time.js:14-21 | the same instant is 0 days away |
| Time.NDaysDiffWholeDays | public/js/time.js:14-21 | instants exactly `k` days apart give `k`, for any sign of `k` |
| Time.NDaysDiffWithinOneDay | public/js/time.js:14-21 | any positive span of at most one day gives 1 |
| Time.NDaysDiffFuture | public/js/time.js:14-21 | a time not yet reached gives 0 or a negative count |
| Time.NDaysDiffMonotone | public/js/time.js:14-21 | the count grows with `from` and shrinks as `timeInSeconds` grows |
| Time.NDaysDiffDefaultsToClock | public/js/time.js:15-17 | a null `from` is the clock in whole seconds |
| Decimal.NatDigits | resource/public/js/components/contact.js:80 | the text of a natural number is a non-empty string of decimal digits, with no leading zero except for 0 itself |
| Decimal.FromInt | resource/public/js/components/contact.js:80 | the text of an integer is never empty, starts with `-` iff the number is negative, and has no leading zero except for 0 itself, as `String(n)` writes it |
| Decimal.ToInt | public/js/time.js:20 | `Number(text)` of a digit string is non-negative and of a minus-signed digit string non-positive |
| Decimal.ParseNatDigits | resource/public/js/components/contact.js:84 | reading the digits of `n` back gives `n` |
| Decimal.FromIntRoundTrip | resource/public/js/components/contact.js:84 | `Number(String(n)) == n` for every integer `n`, negative ones included |
| Decimal.FromIntInjective | resource/public/js/components/contact.js:80 | distinct numbers are written as distinct texts |
| Routing.History.constructor | resource/public/js/routing.js:4 | a document loaded at a URL has one entry at that URL with a null state and no events |
| Routing.History.PushState | resource/public/js/routing.js:4 | `pushState` appends exactly one entry `(url, state)` and dispatches no event |
| Routing.History.ReplaceState | resource/public/js/components/customRouter.js:19 | `replaceState` overwrites the current entry only; the number of entries is unchanged |
| Routing.History.DispatchPopState | resource/public/js/routing.js:5 | dispatching appends the event and leaves the entries unchanged |
| Routing.Push | resource/public/js/routing.js:3-6 | `push` leaves the history as `AfterPush`: one new current entry `(url, state)`, then one popstate event; location and state are the pushed ones |
| Routing.PushAppendsOneEntry | resource/public/js/routing.js:3-6 | after a push there is exactly one more entry and one more event, the earlier ones unchanged, and the new event carries no state |
| Router.DeliveredState | resource/public/js/components/customRouter.js:10 | the listener delivers `event.state \|\| {}`: `{}` for an event without state |
| Router.PushDeliversEmptyObject | resource/public/js/routing.js:5 | whatever state `push` is given, the routes receive `{}` from the event it dispatches |
| Auth.Parse | public/js/auth.js:13-16 | reading the slot fails (with `SyntaxError`) exactly when the stored text is malformed, and gives null exactly when nothing is stored |
| Auth.Stamped | public/js/auth.js:22-27 | the stored record is the given one with `issued_at` set to now and every other field kept |
| Auth.RefreshTokenOf | public/js/auth.js:41-47 | the refresh token that would be sent is never empty |
| Auth.IsTokenValid | public/js/auth.js:59-61 | `isTokenValid` holds iff the record exists and `issued_at` and `expires_in` are both present and non-zero |
| Auth.IsAccessTokenValid | public/js/auth.js:63-65 | a fresh access token is always a valid record |
| Auth.ExpiredAtExpiryInstant | public/js/auth.js:63-65 | at the instant `issued_at + expires_in` the access token is already expired (strict comparison) |
| Auth.ExpiryIsPermanent | public/js/auth.js:63-65 | once expired, a record stays expired at every later time |
| Auth.StampedIsFreshIff | public/js/auth.js:63-65 | a record just stamped at `now` is fresh iff its `expires_in` is positive and `now` is not 0 |
| Auth.GithubAuth.constructor | public/js/auth.js:6-7 | the manager starts with the given slot and no requests sent |
| Auth.GithubAuth.GetGithubToken | public/js/auth.js:13-16 | null for an empty slot, the record for parsable text, `SyntaxError` for malformed text |
| Auth.GithubAuth.IsAuthenticated | public/js/auth.js:67-71 | true iff the slot parses to a record whose expiry lies strictly after now; false for an empty slot; raises iff the slot is malformed; it sends no request |
| Auth.GithubAuth.RemoveGithubToken | public/js/auth.js:18-20 | the slot is emptied whatever it held, so the user is unauthenticated at every time; no request is sent |
| Auth.GithubAuth.SetGithubToken | public/js/auth.js:22-27 | the slot holds the stamped record, which `getGithubToken` then returns |
| Auth.GithubAuth.FetchGithubToken | public/js/auth.js:29-38 | exactly one code-exchange request; on success the stamped record is stored and returned; on failure `{}` is returned and the slot is untouched |
| Auth.GithubAuth.RefreshGithubToken | public/js/auth.js:40-57 | no record or no truthy refresh token: `{}`, nothing sent, slot untouched; otherwise exactly one refresh request with the stored refresh token, then the stamped new record stored and returned, or the failure rethrown with the slot untouched; a malformed slot raises before anything is sent |
| Auth.GithubAuth.AuthenticateGithub | public/js/auth.js:73-91 | no valid record: one push to `/` with `{}`, nothing sent; record fresh at the time of the check: nothing happens; expired record: exactly one refresh attempt and one push to `/` iff it fails, no retry, and on success the new record is stamped with the clock read after the response arrived; expired without refresh token: nothing happens; malformed slot: rejects with nothing changed |
| Route.OnRouteChange | resource/public/js/components/customRoute.js:31-62 | a route change never changes `#ready`, never both starts authentication and raises, and, when rendered afterwards, has added at most the one screen element |
| Route.NotReadyIsNoop | resource/public/js/components/customRoute.js:31-35 | before `connectedCallback` a route change does nothing |
| Route.AbsentPathIsNoop | resource/public/js/components/customRoute.js:32-35 | an empty or missing current path does nothing |
| Route.MatchMountsOneChild | resource/public/js/components/customRoute.js:49-53 | a matching path on a dormant route appends exactly one child, the `data-element`, and sets `#rendered` |
| Route.ActivationIsIdempotent | resource/public/js/components/customRoute.js:49-56 | repeating the same notification leaves the mount state as the first one left it |
| Route.MismatchUnmounts | resource/public/js/components/customRoute.js:57-61 | a present, non-matching path removes all children, clears `#rendered` and starts no authentication |
| Route.OnRouteChangeKeepsTidy | resource/public/js/components/customRoute.js:31-62 | every change keeps the invariant "`#rendered` iff the one screen element is the only child" |
| Route.LeaveThenReturnRemountsOnce | resource/public/js/components/customRoute.js:39-61 | leaving the path and coming back mounts the screen again exactly once |
| Route.AuthStartedIff | resource/public/js/components/customRoute.js:41-47 | `authenticateGithub` is started iff the route is ready, matches, requires auth and `isAuthenticated()` is false; the screen is mounted all the same |
| Route.ThrowsOnlyFromAuthCheck | resource/public/js/components/customRoute.js:41-42 | the change raises iff a ready, matching, protected route finds `isAuthenticated()` raising, and then nothing is mounted or unmounted |
| Route.CustomRoute.constructor | resource/public/js/components/customRoute.js:13-20 | a new route is not ready, not rendered and has no children |
| Route.CustomRoute.HandleRouteChange | resource/public/js/components/customRoute.js:31-62 | the new mount state and the started/raised flags are those `OnRouteChange` gives, and the invariant is kept |
| Route.CustomRoute.ConnectedCallback | resource/public/js/components/customRoute.js:22-29 | the route becomes ready, then reacts to the current path as `OnRouteChange` says |
| Route.CustomRoute.AttributeChangedCallback | resource/public/js/components/customRoute.js:64-71 | a `data-current-path` change is handled as `OnRouteChange` says; any other attribute changes nothing |
| Route.CustomRoute.SetCurrentPath | resource/public/js/components/customRouter.js:32 | setting `data-current-path` stores the path and reacts to it |
| Route.CustomRoute.SetRouteState | resource/public/js/components/customRouter.js:33 | setting `data-route-state` stores the state and changes nothing else |
| Router.CustomRouter.constructor | resource/public/js/components/customRouter.js:4-20 | `replaceState({}, '', pathname + search)`: the current entry keeps its path and query, loses its fragment and gets the state `{}`; the earlier entries and their number are unchanged and no event is dispatched |
| Router.CustomRouter.UpdateRoutes | resource/public/js/components/customRouter.js:30-35 | every route, matched or not, receives the path and the state and reacts to the path from the mount state it had; for a non-empty path every ready non-matching route ends with no child and every ready matching route (unless the auth check raised) with exactly its screen |
| Router.CustomRouter.ConnectedCallback | resource/public/js/components/customRouter.js:22-28 | the routes receive `location.pathname` and `history.state \|\| {}`; the router itself does not change the history |
| Router.CustomRouter.OnPopState | resource/public/js/components/customRouter.js:7-14 | the routes receive `location.pathname` and `event.state \|\| {}`; the router itself does not change the history |
| Contact.SortedIsOrdered | resource/public/js/components/contact.js:42 | in a sorted list any earlier contact is due no later than any later one |
| Contact.InsertByDueAt | resource/public/js/components/contact.js:42 | inserting into a sorted list keeps it sorted and adds exactly the one contact |
| Contact.SortByDueAt | resource/public/js/components/contact.js:42 | the sorted list is ordered by `due_at` and is a permutation of the input |
| Contact.DueAtConcat | resource/public/js/components/contact.js:42 | the contacts due at a given time in a concatenation are those of each part, in order |
| Contact.TieCommutes | resource/public/js/components/contact.js:42 | a contact with another due time placed in front does not disturb the ties at a given time |
| Contact.InsertKeepsTies | resource/public/js/components/contact.js:42 | insertion places the new contact before the contacts already due at the same time, which, inserting each earlier input element into the sorted rest, keeps input order |
| Contact.SortIsStable | resource/public/js/components/contact.js:42 | the sort is stable: contacts due at the same time keep their input order |
| Contact.FrequencyText | resource/public/js/components/contact.js:79-81 | the frequency text starts with `(` and ends with `d 🕔)` |
| Contact.DueAtText | resource/public/js/components/contact.js:83-86 | the due-at text ends with `d` after at least one character |
| Contact.DueAtTextReadsBack | resource/public/js/components/contact.js:83-86 | the due-at text is the day count from the due time to now, followed by `d` |
| Contact.FrequencyTextReadsBack | resource/public/js/components/contact.js:79-81 | the frequency text is `(`, the frequency in days, then `d 🕔)` |
| Contact.FirstMatch | resource/public/js/components/contact.js:94 | `querySelector` finds the first element for the status, or none when there is none |
| Contact.ShowStatus | resource/public/js/components/contact.js:88-98 | the elements keep their number and statuses, and an element is shown iff it is the first one for the status |
| Contact.ShowStatusShowsAtMostOne | resource/public/js/components/contact.js:88-98 | after setting a status, at most one status element is shown, it is one for that status, and one is shown iff the template has one |
| Contact.FirstMatchIgnoresHidden | resource/public/js/components/contact.js:94 | which element is found depends only on the elements' statuses, not on which are shown |
| Contact.LastStatusWins | resource/public/js/components/contact.js:88-98 | setting one status and then another shows what setting only the second shows |
| Contact.ContactedStatuses | resource/public/js/components/contact.js:100-117 | the action shows Pending first; it ends on Success iff the response is ok and its body reads, on Error otherwise; Success is shown iff the response is ok |
| Contact.ContactItem.constructor | resource/public/js/components/contact.js:63-73 | a new item has no attributes, empty texts and the template's status elements |
| Contact.ContactItem.SetContactedRequestStatus | resource/public/js/components/contact.js:88-98 | the status elements become `ShowStatus` of the old ones; attributes and texts are unchanged |
| Contact.ContactItem.AttributeChangedCallback | resource/public/js/components/contact.js:119-129 | `data-full-name`, `data-frequency-days` and `data-due-at` each set their own text; `data-id` sets none; nothing else changes |
| Contact.ContactItem.SetAttribute | resource/public/js/components/contact.js:46-49 | `setAttribute` stores the attribute and fires the callback for it |
| Contact.ContactItem.HandleContactedAction | resource/public/js/components/contact.js:100-117 | the statuses set are `ContactedStatuses` and the last one is displayed; the new due time and its text are set iff the response is ok and its body reads |
| Contact.ContactList.constructor | resource/public/js/components/contact.js:9-16 | a new list has no items |
| Contact.ContactList.SetContactList | resource/public/js/components/contact.js:38-52 | the list holds one new, distinct item per contact, in the stable due-time order, each showing its contact |
| Contact.ContactList.CreateContactItems | resource/public/js/components/contact.js:44-51 | one new, distinct item per contact, in order, each showing its contact |
| Contact.ContactList.CreateContactItem | resource/public/js/components/contact.js:45-49 | a new item given the contact's four attributes shows that contact and the template's status elements |
| Contact.ContactList.ConnectedCallback | resource/public/js/components/contact.js:18-36 | unauthenticated: one push to `/`, then the fetch; a failed request or an unreadable body raises and leaves the list; a 401 clears the token and pushes `/` again without touching the list; any other status with an array body sets the list to new, distinct items, rendered with the clock read after the body arrived; a body that is not an array empties the list and raises a TypeError; a raising auth check ends the callback with nothing changed; no OAuth request is sent |

## Left out

- `api.js` (the HTTP calls to the OAuth backend and the contacts API) is not
  part of this model: each response is a parameter, and whatever `api.js` does
  with a failed `fetch` (for example returning `{}` instead of raising) is
  outside the model.
- `sessionStorage`, `JSON.stringify` and `JSON.parse` are abstracted into the
  slot value `Option<StoredItem>`: a stored record or text that does not parse.
  Text that parses to something other than an object (a number, a string) is
  not modelled.
- Asynchrony: `await` and the `setTimeout(…, 0)` deferral of the popstate
  listener are modelled as separate calls made in order; interleavings (two
  concurrent refreshes, a popstate arriving during a refresh) are not. A route
  only reports that it started `authenticateGithub`; the run itself is the
  separate call `Auth.GithubAuth.AuthenticateGithub`. In the code that async
  function runs at once up to its first `await`, inside `handleRouteChange` and
  before the screen is appended: for a missing or invalid record its
  `routing.push('/', {})` happens there, and for an expired record the refresh
  request is sent there.
- Route.CustomRoute.HandleRouteChange: does not perform the synchronous part of
  the `authenticateGithub` it starts (the push to `/` for a missing or invalid
  record, the refresh request for an expired one); it only reports the start.
- Router.CustomRouter.ConnectedCallback: "the router itself does not change the
  history" leaves out the push to `/` that a started `authenticateGithub`
  makes before the routes are updated in the code.
- Router.CustomRouter.OnPopState: as for ConnectedCallback, the push to `/`
  made by a started `authenticateGithub` is not part of this call.
- History traversal (back/forward, forward entries discarded by `pushState`)
  is not modelled; `History` keeps the entries up to the current one.
- DOM details are reduced to what the code reads or writes: the shadow roots,
  templates, `<slot>` and `querySelectorAll('custom-route')` become the
  router's fixed list of routes and the item's list of status elements.
- `console.log` and `console.error` calls are left out.
- Numbers are integers: floating point, `NaN` and non-integral times are not
  modelled.
- `githubLogin`, `homePage` and `authGithubCallback` screens and the older
  copies of the scripts under `public/js/components` are not part of this model.
- Route.CustomRoute.SetRouteState: stores the state value itself rather than
  its `JSON.stringify` text, since no code reads it back.
- Decimal.ToInt: text that is not an optionally signed string of digits reads
  as 0 rather than `NaN`; only texts written by `Decimal.FromInt` are read back.
- Contact.SortByDueAt: returns a new sorted sequence; `contacts.sort` sorts the
  response array in place, which no other code observes.
- Contact.ContactItem.HandleContactedAction: the `data-id` read and sent with
  the PATCH request is not modelled, because the response is a parameter.
- Contact.ContactList.SetContactList: the clock is read once for the whole
  list; the code reads `Date.now()` once per item.
- Contact.ContactList.ConnectedCallback: the elements of an array body are
  taken to be contacts; an array of other values, which the comparator turns
  into `NaN` comparisons, is not modelled.
- Auth.GithubAuth.IsAuthenticated: returns a boolean, where the code returns
  whichever falsy or truthy operand of `&&` decides; every caller only tests
  its truthiness.
