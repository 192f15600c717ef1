# The Sixth Rift band site: a Dafny model of its rules

The band's website is mostly static pages. This project models the parts of it that follow rules:

- **newsletter store** (`Subscriptions`): the `/api/subscribe` handler validates, rejects a duplicate and inserts. The `/api/subscribers` listing sits behind the admin check.
- **HTTP Basic check** (`Auth`): the server reads a `Basic` header, decodes it and compares it with the configured pair. Base 64 is in `Base64`:
  - the client encodes with `btoa`, the encoding of section 4 of RFC 4648;
  - the server decodes with Node's lenient decoder.
- **browser session** (`Browser`): `sessionStorage` and the current location, shared by the two admin pages.
- **admin login page** (`AdminLogin`): builds the token, stores it and verifies it against the server.
- **admin subscribers page** (`AdminSubscribers`):
  - the session guard and the listing query;
  - copying the emails;
  - the HTML newsletter template and logout.
- **track detail page** (`TrackDetail`):
  - the catalogue and the lookup of the track from the route;
  - the `m:ss` formatter and the play toggle.
- **featured player** (`MusicPlayer`): its state, its formatter and the test-id slugs of the upcoming titles.
- **request log** (`RequestLog`): the server's log line for `/api` responses and its error fallback.

Pure parts are functions with lemmas. Parts that change state are classes with `modifies` frames:

- the subscriber storage;
- the browser session;
- the two admin pages' component state;
- the players' `isPlaying` flags.

The logging middleware's `let logLine` reassignments are a method, `RequestLog.BuildLogLine`.

Inputs the program gets from outside are parameters:

- the validation schema is `isValidEmail`;
- storage failures are a `StorageFault` or a boolean;
- the clock is `now`, `start` and `finish`;
- the environment variables are an `Env`;
- `fetch` is a function from the `Authorization` header to the response.

## Model

| member | source | states |
|---|---|---|
| Subscriptions.ParseBody | server/routes.ts:10 | validation succeeds exactly when an email is present and the schema accepts it, and yields that email |
| Subscriptions.FindByEmail | server/routes.ts:12 | the lookup finds nothing exactly when no stored subscriber has the email; when it finds one, that one is stored and has the email |
| Subscriptions.Subscribe | server/routes.ts:8-27 | the status is always 400, 409 or 201; an invalid body, or any storage fault on lookup or insert, answers 400 "Invalid email address" and leaves the store unchanged; a known email answers 409 and leaves it unchanged; otherwise exactly one subscriber with the next id is appended, and the 201 reply carries only its id and email |
| Subscriptions.SubscribeKeepsInvariant | server/routes.ts:12-19 | one subscribe keeps stored emails pairwise distinct and ids below the next id |
| Subscriptions.SubscribeEmails | server/routes.ts:12-23 | after a subscribe the stored emails are the old ones plus, on a 201, the validated email |
| Subscriptions.ResubscribeConflicts | server/routes.ts:12-19 | after a 201 for an email, the store holds it and subscribing it again answers 409 with no change |
| Subscriptions.SubscribeAllKeepsInvariant | server/routes.ts:12-19 | any sequence of requests, handled one at a time, keeps emails distinct |
| Subscriptions.SubscribeAllEmails | server/routes.ts:12-23 | after a sequence of requests the stored emails are the initial ones plus exactly the emails of the accepted requests |
| Subscriptions.ListSubscribers | server/routes.ts:29-35 | the listing answers the whole store, unfiltered and in order, exactly when the admin check calls `next` and storage does not fail; a denial is the check's 401; a failure is 500 "Failed to retrieve subscribers" |
| Subscriptions.SubscriberStorage.CreateSubscriber | server/routes.ts:19 | the insert appends one record with the next id and advances the counter |
| Subscriptions.HandleSubscribe | server/routes.ts:8-27 | the handler over the mutable storage gives the reply and new state of `Subscribe` and keeps the storage invariant |
| Subscriptions.HandleListSubscribers | server/routes.ts:29-36 | the handler's reply is `ListSubscribers` of the stored records |
| Auth.SplitCredentials | server/middleware/auth.ts:16 | the username holds no colon; the password is absent exactly when the decoded text has no colon, and holds no colon when present |
| Auth.SplitCredentialsAgreesWithRfcIff | server/middleware/auth.ts:16 | the split agrees with section 2 of RFC 7617 (password = everything after the first colon) if and only if the text has at most one colon |
| Auth.SplitCredentialsIs | server/middleware/auth.ts:16 | the split yields (u, p) exactly when the text is `u:p` or starts with `u:p:` |
| Auth.TokenIsSecondField | server/middleware/auth.ts:14 | the token is the second space-separated field of the header |
| Auth.RequireAdminAuth | server/middleware/auth.ts:9-38 | exactly one outcome: `next`, or 401 with `WWW-Authenticate: Basic realm="Admin Area"`; a missing header or one without the exact `Basic ` prefix gives "Authentication required"; a mismatch gives "Invalid credentials" with the hint |
| Auth.AcceptsIff | server/middleware/auth.ts:14-31 | `next` is called if and only if the header has the prefix and the decoded username and password equal the configured pair |
| Auth.NoColonRejected | server/middleware/auth.ts:16-30 | decoded text without a colon leaves the password undefined, so it is always rejected as invalid credentials |
| Auth.ColonCredentialLocksOut | server/middleware/auth.ts:16-30 | a configured username or password containing a colon can never be matched, so every request is refused |
| Auth.DefaultCredentials | server/middleware/auth.ts:19-20 | unset or empty variables give "admin" / "changeme123"; a non-empty variable wins |
| Base64.Encode | client/src/pages/admin-login.tsx:22 | the encoding has `4 * ceil(n / 3)` characters, none of them a space or a colon |
| Base64.Btoa | client/src/pages/admin-login.tsx:22 | `btoa` succeeds exactly on Latin-1 text |
| Base64.DecodeEncode | server/middleware/auth.ts:15 | Node's base 64 decoder inverts the RFC 4648 encoder on every byte sequence |
| Base64.AsciiRoundTrip | server/middleware/auth.ts:15 | ASCII text survives `btoa`, Node's decode and `toString('ascii')` |
| AdminLogin.CredentialsToken | client/src/pages/admin-login.tsx:22 | a token exists exactly when both inputs are Latin-1; it is non-empty and has no space |
| AdminLogin.HeaderHasBasicPrefix | client/src/pages/admin-login.tsx:28 | the header the page sends always passes the server's `Basic ` test |
| AdminLogin.TokenOfHeader | server/middleware/auth.ts:14 | the server extracts the token the page stored |
| AdminLogin.DecodedLoginText | client/src/pages/admin-login.tsx:22 | for ASCII input the server decodes exactly `username:password` |
| AdminLogin.LoginRoundTrip | client/src/pages/admin-login.tsx:22 | for ASCII input without colons the server recovers the typed username and password |
| AdminLogin.ColonPasswordTruncated | client/src/pages/admin-login.tsx:22 | a typed password `p:rest` reaches the server as `p` |
| AdminLogin.LoginAcceptedIff | client/src/pages/admin-login.tsx:26-37 | against the modelled server, the login response is ok exactly for the configured pair, when storage does not fail |
| AdminLogin.AdminLoginPage.SubmitLogin | client/src/pages/admin-login.tsx:16-30 | loading starts, the token is stored before the request, and the header is `Basic ` + token; when `btoa` throws, the token is removed, loading ends and the error toast shows |
| AdminLogin.AdminLoginPage.ReceiveLoginResponse | client/src/pages/admin-login.tsx:32-55 | an ok response keeps the token and navigates to `/admin/subscribers`; a non-ok response or a rejection removes it; loading ends on every path |
| AdminLogin.AdminLoginPage.HandleLogin | client/src/pages/admin-login.tsx:16-56 | afterwards `adminAuth` is present only if the response was ok, the page navigated only then, and loading is over |
| AdminSubscribers.EmailsOf | client/src/pages/admin-subscribers.tsx:47 | the emails in list order, one per subscriber |
| AdminSubscribers.CopyEmails | client/src/pages/admin-subscribers.tsx:45-54 | something is copied exactly when data is defined |
| AdminSubscribers.CopiedEmailAt | client/src/pages/admin-subscribers.tsx:47 | the i-th email sits at its offset in the copied text |
| AdminSubscribers.CopiedSeparatorAt | client/src/pages/admin-subscribers.tsx:47 | consecutive emails are separated by exactly ", " |
| AdminSubscribers.CopiedLength | client/src/pages/admin-subscribers.tsx:47 | the copied text ends right after the last email |
| AdminSubscribers.CopiedSplitsBack | client/src/pages/admin-subscribers.tsx:47 | splitting the copied text at commas gives back the first email and the others each preceded by one space |
| AdminSubscribers.CopiedCountIsHeaderCount | client/src/pages/admin-subscribers.tsx:51-121 | the toast's count reads back as the list length, the same as the header count |
| AdminSubscribers.ContentHtml | client/src/pages/admin-subscribers.tsx:74 | the substituted content holds no newline |
| AdminSubscribers.ContentLines | client/src/pages/admin-subscribers.tsx:74 | the substituted content is the content's lines joined by `<br>` |
| AdminSubscribers.EmailTemplateLayout | client/src/pages/admin-subscribers.tsx:56-82 | after trimming, the template is the head, the subject, the middle, the substituted content and the tail |
| AdminSubscribers.SubjectVerbatim | client/src/pages/admin-subscribers.tsx:71 | the subject appears unescaped right after the head |
| AdminSubscribers.PlainContentVerbatim | client/src/pages/admin-subscribers.tsx:74 | content without newlines is inserted unchanged |
| AdminSubscribers.LoggedInSeesStore | client/src/pages/admin-subscribers.tsx:31-41 | after a login with the configured pair, the page's request yields the whole store in order, unless storage fails |
| AdminSubscribers.AdminSubscribersPage.GuardSession | client/src/pages/admin-subscribers.tsx:17-22 | without a stored token the page navigates to `/admin/login`; with one it stays |
| AdminSubscribers.AdminSubscribersPage.FetchSubscribers | client/src/pages/admin-subscribers.tsx:26-43 | without a token the query fails with "Not authenticated" and sends nothing; otherwise it sends `Basic ` + token; a non-ok response removes the token, navigates to login and fails with "Authentication failed"; an ok one loads the list |
| AdminSubscribers.AdminSubscribersPage.CopyAllEmails | client/src/pages/admin-subscribers.tsx:45-54 | with data, the clipboard gets the joined emails and the toast shows "Copied!"; without, nothing changes |
| AdminSubscribers.AdminSubscribersPage.SetSubject | client/src/pages/admin-subscribers.tsx:157 | the subject becomes the typed value |
| AdminSubscribers.AdminSubscribersPage.SetContent | client/src/pages/admin-subscribers.tsx:167 | the content becomes the typed value |
| AdminSubscribers.AdminSubscribersPage.ClickGenerate | client/src/pages/admin-subscribers.tsx:56-89 | with an empty subject or content the button (line 173) is disabled and nothing changes; otherwise the clipboard gets the template and the toast shows |
| AdminSubscribers.AdminSubscribersPage.Logout | client/src/pages/admin-subscribers.tsx:103-110 | the token is removed, the page navigates to `/admin/login` and the logout toast shows |
| TrackDetail.FindTrack | client/src/pages/track-detail.tsx:74 | no track is found exactly when none matches; a found track matches and is in the catalogue |
| TrackDetail.FindTrackFirst | client/src/pages/track-detail.tsx:74 | the lookup returns the first matching track |
| TrackDetail.TracksDataIdsDistinct | client/src/pages/track-detail.tsx:8-69 | the catalogue's ids are pairwise distinct |
| TrackDetail.FindById | client/src/pages/track-detail.tsx:74 | with distinct ids, looking up a track's own id finds that track |
| TrackDetail.TrackRouteParams | client/src/App.tsx:15 | a match of `/track/:slug` has exactly the parameter `slug` |
| TrackDetail.EveryVisitNotFound | client/src/pages/track-detail.tsx:72-74 | as wired, `params.id` is undefined on every matched path, so no track is ever found |
| TrackDetail.SlugParam | client/src/App.tsx:15 | the route's own parameter is read exactly when the match has it |
| TrackDetail.RouteOfSegment | client/src/App.tsx:15 | `/track/` followed by one non-empty path segment matches with that segment as `slug` |
| TrackDetail.CatalogueIdIsSegment | client/src/pages/track-detail.tsx:10-55 | every catalogue id is a non-empty path segment |
| TrackDetail.SlugRouteFindsTrack | client/src/App.tsx:15 | reading the route's parameter, the page for every catalogue id finds that track |
| TrackDetail.ViewOf | client/src/pages/track-detail.tsx:126-192 | the not-found view is shown exactly when no track was found; the player exactly when the track has an audio URL, otherwise its status card |
| TrackDetail.CatalogueShowsStatusCards | client/src/pages/track-detail.tsx:178-189 | no catalogue track has audio, so a found track always gets its status card |
| TrackDetail.TwoDigitsParse | client/src/pages/track-detail.tsx:123 | the padded seconds field is two digits that read back as the number |
| TrackDetail.FormatTime | client/src/pages/track-detail.tsx:119-124 | the text always holds a colon |
| TrackDetail.FormatWhole | client/src/pages/track-detail.tsx:119-124 | for whole seconds t the text is the minutes `t div 60`, a colon, and `t mod 60` padded to two digits |
| TrackDetail.SecondsField | client/src/pages/track-detail.tsx:122-123 | after the colon come exactly two digits, reading 00 to 59 |
| TrackDetail.ParseFormat | client/src/pages/track-detail.tsx:121-123 | reading the text back as minutes * 60 + seconds recovers t |
| TrackDetail.ParseFields | client/src/pages/track-detail.tsx:121-123 | a minutes field, a colon and a two-digit seconds field below 60 read back as their total |
| TrackDetail.FormatNaN | client/src/pages/track-detail.tsx:120 | NaN is shown as "0:00" |
| TrackDetail.TrackDetailPage.constructor | client/src/pages/track-detail.tsx:72-78 | the page holds the looked-up track, mounts audio only for the player view, and starts paused at 0:00 |
| TrackDetail.TrackDetailPage.TogglePlay | client/src/pages/track-detail.tsx:108-117 | the flag flips only when the audio element exists and the track has an audio URL |
| MusicPlayer.MusicPlayerState.constructor | client/src/components/music-player.tsx:47-49 | the player starts paused at 0 with a duration of 227 seconds |
| MusicPlayer.MusicPlayerState.TogglePlay | client/src/components/music-player.tsx:52-61 | the flag flips unconditionally, whether or not an audio element exists |
| MusicPlayer.FormatTime | client/src/components/music-player.tsx:63-67 | the text always holds a colon |
| MusicPlayer.AgreesWithTrackDetail | client/src/components/music-player.tsx:63-67 | on whole seconds this formatter equals the track page's one, 0 included |
| MusicPlayer.FormatTimeFields | client/src/components/music-player.tsx:65-66 | the seconds field is two digits reading `t mod 60`, and the text reads back as t |
| MusicPlayer.FeaturedDurationShown | client/src/components/music-player.tsx:13-49 | the initial duration is shown as "3:47", the featured track's listed duration |
| MusicPlayer.ClockOf | client/src/components/music-player.tsx:63-67 | a one-digit minute and a two-digit second give a four-character clock |
| MusicPlayer.Slug | client/src/components/music-player.tsx:160 | the slug has the title's length |
| MusicPlayer.SlugSpaces | client/src/components/music-player.tsx:160 | the slug is free of spaces exactly when the title has at most one, because only the first space is replaced |
| MusicPlayer.TwoWordSlug | client/src/components/music-player.tsx:160 | a two-word title gives both words lowercased, joined by `-` |
| MusicPlayer.UpcomingSlugsHaveNoSpace | client/src/components/music-player.tsx:19-44 | none of the four upcoming titles' slugs contains a space |
| MusicPlayer.CosmicDreamsSlug | client/src/components/music-player.tsx:21 | the first upcoming title's slug is "cosmic-dreams" |
| Strings.ReplaceFirst | client/src/components/music-player.tsx:160 | a string-pattern replace changes only the first occurrence, as section 22.1.3.19 of ECMA-262 has it |
| Strings.Trimmed | client/src/pages/admin-subscribers.tsx:82 | `trim` of a text whose first and last characters are not blank, with blank margins around it, gives the text back |
| RequestLog.BuildLogLine | server/index.ts:27-41 | a line is logged exactly for paths starting with `/api`, and it is the truncated raw line for the measured duration |
| RequestLog.Truncate | server/index.ts:35-37 | a line of at most 80 characters is unchanged; a longer one keeps its first 79 characters, followed by the suffix literal |
| RequestLog.TruncateIdempotent | server/index.ts:35-37 | truncating a logged line again changes nothing |
| RequestLog.WrittenSuffixLength | server/index.ts:36 | with the suffix as the file holds it, a truncated line is 82 characters, over the limit it is cut for |
| RequestLog.LogLineFieldsRoundTrip | server/index.ts:30 | with a space-free method and path, the line splits at spaces into method, path, status, "in" and duration + "ms", and the status reads back |
| RequestLog.CapturedFollowsBase | server/index.ts:31-33 | with a captured body the line is the base, then ` :: `, then the JSON text |
| RequestLog.ErrorStatus | server/index.ts:51 | the status is `err.status` if truthy, else `err.statusCode` if truthy, else 500 |
| RequestLog.ErrorMessage | server/index.ts:52 | the message is `err.message` if non-empty, else "Internal Server Error" |
| RequestLog.HandleErrorStable | server/index.ts:50-54 | an error carrying the reply's own status and message gets the same reply |
| RequestLog.BareErrorIs500 | server/index.ts:51-52 | an error with no usable field, zero and empty included, is answered 500 "Internal Server Error" |

## Findings

| source | as written | input that shows it | evidently intended | confidence | as-written member | corrected member |
|---|---|---|---|---|---|---|
| client/src/pages/track-detail.tsx:73 | the page reads `params.id`, but its route in client/src/App.tsx:15 is `/track/:slug` | visiting `/track/cosmic-dreams` shows "Track Not Found" | read the route's parameter, so each catalogue track's page finds it | not executed | TrackDetail.EveryVisitNotFound | TrackDetail.SlugRouteFindsTrack |

## Left out

- The storage module and the validation schema are not part of this model:
  - storage is a sequence of records with exact-match email lookup;
  - ids come from a counter starting at 1;
  - the schema is the parameter `isValidEmail`;
  - lookup and insert failures are the parameter `fault`.
- Concurrency: the check-then-insert race between the lookup and the insert. Uniqueness is proved for requests handled one at a time.
- `subscribedAt` is set by storage; the clock is the parameter `now`.
- Node's `'ascii'` decoding and `btoa`'s Latin-1 exception are modelled:
  - `'ascii'` clears each byte's high bit;
  - `btoa` fails above U+00FF.
  The round-trip lemmas are stated for ASCII credentials only.
- Browser plumbing is not modelled:
  - toast descriptions and variants (only titles are kept);
  - `navigator.clipboard` is a page field written synchronously;
  - react-query is reduced to one call of `queryFn`, with no retries, caching or `isLoading`;
  - wouter's URI decoding of route parameters;
  - the `e.preventDefault()` form event.
- The audio element and its event listeners are not modelled. `currentTime` and `duration` keep their initial values; `TrackDetailPage` records only whether the element is mounted.
- Floating point and the progress bar are not modelled:
  - times are whole non-negative seconds, plus a NaN value for the track page;
  - fractional and negative inputs to `formatTime` are not covered;
  - the progress-bar percentage is not modelled.
- `JSON.stringify` is not modelled: the captured body is opaque text (`Option<string>`), and a captured falsy body is the same as none.
- The `console.log` debugging in the auth middleware and the server's `log` sink are output only.
- The error handler's `throw err` after replying is not modelled: the reply is all the model keeps.
- `Strings.ToLower` maps ASCII letters only; `toLowerCase`'s non-ASCII case mapping is left out. Every catalogue title is ASCII.
- Static display data is not modelled: images, descriptions, lyrics, badges and colours. Only ids, titles, statuses, durations and audio URLs are kept.
- client/src/App.tsx defines no `/admin/login` route, so the login redirects land on the router's fallback. The model records the location only.
- The subscribe form's text, and client/src/components/contact-section.tsx, which never calls the API, are not part of this model.
- Other parts of the site are not part of this model:
  - navigation, hero section, band members, about section and home page, which are rendering and static data;
  - `express.static`, Vite setup and `PORT` parsing.
- api/index.ts is not part of this model; its error fallback repeats the one in server/index.ts.
- A successful listing body that is not an array falls outside `Option<seq<Subscriber>>`: the page's data is either undefined or a list.
- RequestLog.Truncate: the suffix is the three-character literal the file holds (U+00E2 U+20AC U+00A6, an ellipsis's UTF-8 bytes read as Windows-1252). No property but `WrittenSuffixLength` depends on its length.
- The subscribe path is `/api/subscribe` (server/routes.ts:8).
- RequestLog.Truncate and RequestLog.BuildLogLine: lengths and slices count characters (Unicode scalar values), while JavaScript's `.length` and `slice` count UTF-16 code units. A line holding characters outside the Basic Multilingual Plane (an emoji in a JSON body, say) is cut at a different point in the source, which can even split a surrogate pair. The same holds for every other `.length` in the model.
- TrackDetail.TrackRouteParams: the matcher covers exact-case paths `/track/<segment>` without a trailing slash, and binds `slug` alone. wouter also accepts a trailing slash, matches case-insensitively and may add positional keys; none of these gives the page an `id`.
- RequestLog.ThrownError: `status` and `statusCode` are integers or absent. A string status, or NaN, which `||` skips like 0, is not modelled.
