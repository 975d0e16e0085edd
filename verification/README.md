# football_front: session and request logic, modelled in Dafny

This project models the logic of the front-end of a "find a soccer match" web
application that can be stated independently of its user interface. The
models are pure functions over immutable data, and every network outcome is a
parameter.

- **Token-lifetime parser** (`DateUtils`): `parseExpirationInDays` takes a
  lifetime string such as `"10m"`, `"1h"` or `"1d"`. It finds the leftmost
  match of the unanchored pattern `(\d+)([smhd])` and converts it to days.
  Days are exact reals. A matched `s` unit falls into the switch's default
  case and gives 0, exactly as written.
- **Image URL normaliser** (`ImageUrl`): `getImageUrl` keeps a reference that
  starts with `http` and otherwise prefixes the local back-end origin.
- **Cookie jar** (`Cookies`): the `access_token`/`refresh_token` cookies. A
  jar is a map from name to value and optional lifetime in days. It has the
  two session writes used everywhere: store both tokens, and clear both.
- **Authenticated request pipeline** (`ApiClient`): the request interceptor's
  bearer rule, and the response interceptor as a state machine. An original
  request goes through these steps:
  1. It is sent through the intercepted instance.
  2. A first 401 marks it `_retry` and, if a refresh token is stored, calls
     the refresh endpoint.
  3. A successful refresh stores the new tokens and resends the request once
     through the plain client. That resend's outcome is final.
  4. A failed refresh clears both cookies and passes on the original 401.

  Network replies are the machine's input events.
- **Auth operations** (`Auth`): `registerUser`, `userLogin`, `userLogout` and
  `googleSignin`, each modelled by:
  - which cookies it writes or removes, and with what lifetime;
  - which requests it makes;
  - what it returns or throws.

  `userLogout` posts through the intercepted instance, so its model runs the
  whole pipeline.
- **Multipart forms** (`FormData`): an ordered list of named fields.
- **Posts feed** (`PostsFeed`): the fetch guard with its loading flag, and
  the filter that shows posts not owned by the current user and dated now or
  later. Times are integer milliseconds, and "now" is a parameter.
- **Profile update** (`UpdateUserInfo`): the submit handler. It builds a
  payload of changed fields only, sends the update only for a signed-in user,
  and moves the loading flag.

Behaviour of the code that is easy to get wrong, and that the model keeps:
- Logout removes the cookies only after its post resolves. A rejected post is
  rethrown, and the cookies are what the response interceptor left:
  - unchanged, for a rejection other than a first 401, or a first 401 with no
    refresh token;
  - cleared, for a first 401 whose refresh fails
    (`Auth.LogoutUnauthorizedRefreshFails`);
  - replaced by the refreshed tokens, for a first 401 whose refresh succeeds
    but whose resend is rejected (`Auth.LogoutResendRejectedKeepsNewTokens`).
- Registration stores whatever tokens the JSON body holds, whatever the HTTP
  status.
- Login failure rethrows the error; it does not turn it into a message.
- Nothing in these files restores a session at start-up beyond reading the
  cookies.

## Model

| member | source | states |
|---|---|---|
| DateUtils.DigitRunEnd | football_front/src/utils/dateUtils.ts:4 | `\d+` is greedy: the run found from a position is all digits and is followed by the end of the string or a non-digit |
| DateUtils.FirstMatch | football_front/src/utils/dateUtils.ts:4 | the match found is leftmost: the pattern matches there and at no earlier position, and "no match" means no position matches |
| DateUtils.ParseExpirationInDays | football_front/src/utils/dateUtils.ts:3-20 | the number of days is never negative |
| DateUtils.NoMatchGivesZero | football_front/src/utils/dateUtils.ts:4-5 | if no digit run anywhere is followed directly by s, m, h or d, the result is 0 |
| DateUtils.NonZeroHasMatch | football_front/src/utils/dateUtils.ts:4-5 | a non-zero result comes from some digits-plus-unit occurrence in the string |
| DateUtils.UnitTable | football_front/src/utils/dateUtils.ts:10-19 | n minutes give n/1440 days, n hours n/24, n days n, and n seconds 0 because `s` has no case |
| DateUtils.ParseNumberUnit | football_front/src/utils/dateUtils.ts:4-19 | a lone number followed by a unit reads as that number in that unit |
| DateUtils.UnitConsistency | football_front/src/utils/dateUtils.ts:11-16 | 60n minutes equal n hours, and 24n hours equal n days, for every n |
| DateUtils.ParseInContext | football_front/src/utils/dateUtils.ts:4-8 | unanchored: leading text with no match and no trailing digit, and any text after the unit, do not change the result |
| DateUtils.LeftmostExample | football_front/src/utils/dateUtils.ts:4-8 | only the first occurrence counts: "x2h3d" is 2/24 days |
| DateUtils.LeftmostMatchIsWholeRun | football_front/src/utils/dateUtils.ts:4-7 | the leftmost match starts where its digit run starts, so the value read is the whole maximal run before the unit |
| DateUtils.DecimalRoundTrip | football_front/src/utils/dateUtils.ts:7 | reading the decimal notation of n in base 10 gives n back |
| DateUtils.LeadingZeroIgnored | football_front/src/utils/dateUtils.ts:7 | a leading zero does not change the value read |
| DateUtils.ParseDigitRun | football_front/src/utils/dateUtils.ts:4-19 | any non-empty digit run directly followed by a unit, after text with no match and no trailing digit, is read whole (leading zeros included) in that unit, whatever follows the unit |
| DateUtils.LeadingZeroLifetime | football_front/src/utils/dateUtils.ts:4-19 | a lifetime written with a leading zero reads as the same lifetime without it, so "010m" is ten minutes |
| DateUtils.ScanExpiration | football_front/src/utils/dateUtils.ts:3-20 | a left-to-right scan that skips unmatched digit runs whole computes the same number of days as the leftmost-match definition |
| DateUtils.TenMinutes | football_front/src/services/auth.ts:20 | the lifetime "10m" used by the auth operations is 1/144 of a day |
| ImageUrl.GetImageUrl | football_front/src/utils/getImageUrl.ts:1-10 | the result always starts with "http", ends with the input, and is at least as long as the input |
| ImageUrl.GetImageUrlCases | football_front/src/utils/getImageUrl.ts:3-9 | the input is returned unchanged exactly when it starts with "http"; otherwise the result is "http://localhost:3000" directly followed by the input |
| ImageUrl.GetImageUrlIdempotent | football_front/src/utils/getImageUrl.ts:3-9 | normalising twice gives the same as normalising once |
| Cookies.StoreTokens | football_front/src/services/auth.ts:41-42 | after the write the access token has the given lifetime, the refresh token is a session cookie, and every other cookie is unchanged |
| Cookies.ClearTokens | football_front/src/services/api-client.ts:52-53 | after the clear neither token cookie exists and every other cookie is unchanged |
| Cookies.ClearTokensIdempotent | football_front/src/services/api-client.ts:52-53 | clearing twice is the same as clearing once |
| Cookies.StoreThenRead | football_front/src/services/api-client.ts:46-47 | a store reads back the stored access token and overrides whatever the jar held, a cleared jar included |
| Strings.IncludesIff | football_front/src/services/api-client.ts:18 | `url.includes(text)` holds exactly when a copy of the text starts at some position of the URL |
| ApiClient.AttachBearer | football_front/src/services/api-client.ts:15-24 | when the rule holds, Authorization becomes "Bearer " plus the stored token, overwriting any old value; otherwise the config is unchanged; other headers, URL, payload and retry flag are never touched |
| ApiClient.BearerRule | football_front/src/services/api-client.ts:18-20 | a header is attached only if the access token is non-empty and the URL is non-empty; any URL containing "auth/logout" goes out unchanged; when all three conditions hold the header is set |
| ApiClient.Begin | football_front/src/services/api-client.ts:14-24 | a request is sent once, as the request interceptor rewrites it (the sent config is `AttachBearer` of the given one), with the cookies untouched |
| ApiClient.OnReply | football_front/src/services/api-client.ts:30-41 | the first reply never changes the cookies; it either settles with that very reply or waits for a refresh with the request flagged as retried |
| ApiClient.OnRefresh | football_front/src/services/api-client.ts:42-54 | a successful refresh stores the new access token with the configured lifetime and the new refresh token as a session cookie, and resends the request once with "Bearer " plus the new token; the resent request has the original URL, payload, retry flag and headers, plus the Authorization header and no other new header; a failed refresh clears both cookies, settles with the original status, and makes no further call |
| ApiClient.Step | football_front/src/services/api-client.ts:30-59 | a settled request never moves again, and the record of calls made only grows |
| ApiClient.Pipeline | football_front/src/services/api-client.ts:30-59 | with a reply, a refresh answer and a resend reply available, every request settles |
| ApiClient.AtMostOneRefreshAndResend | football_front/src/services/api-client.ts:37-50 | for any sequence of network events, one request causes at most one refresh call and at most one resend |
| ApiClient.ResendNotIntercepted | football_front/src/services/api-client.ts:50-51 | whatever the resend answers becomes the result, and the freshly stored cookies stay |
| ApiClient.SuccessPassesThrough | football_front/src/services/api-client.ts:31-33 | a successful response is returned unchanged, with no cookie touched and nothing else sent |
| ApiClient.OtherErrorsPropagate | football_front/src/services/api-client.ts:37-57 | an error other than 401, or a 401 on a request already marked as retried, is passed on unchanged with the cookies unchanged |
| ApiClient.MissingRefreshTokenPropagates | football_front/src/services/api-client.ts:37-57 | a first 401 with no refresh token passes on the original error without any refresh call |
| ApiClient.RefreshSuccessResends | football_front/src/services/api-client.ts:43-50 | after a successful refresh, the new access token is stored with the configured lifetime and the new refresh token as a session cookie; the request is resent once with the new bearer token; the resend's outcome is the result |
| ApiClient.RefreshFailureClears | football_front/src/services/api-client.ts:51-57 | a failed refresh removes both cookies and passes on the original 401 |
| ApiClient.RefreshScenario | football_front/src/services/api-client.ts:14-50 | with tokens A1/R1 stored, a request to /posts carries "Bearer A1"; after a 401 and a refresh to A2/R2 it is resent with "Bearer A2", and the jar holds A2 and R2 |
| Auth.RegisterForm | football_front/src/services/auth.ts:23-32 | the registration form carries no field other than username, email, password, skillLevel and profile_img |
| Auth.RegisterFormFields | football_front/src/services/auth.ts:23-32 | username, email and skillLevel are sent once each; password is sent only if non-empty; profile_img only if a file is given; nothing else is sent |
| Auth.RegisterUser | football_front/src/services/auth.ts:22-48 | registration posts exactly the registration form built from the data and the optional file, and never throws; success requires an ok answer; an error message appears exactly when no JSON body was read, and then the cookies are untouched |
| Auth.RegisterStoresWhateverStatus | football_front/src/services/auth.ts:40-43 | a parsed body's tokens are stored whatever the HTTP status, the access token for ten minutes, and success is the status's ok flag |
| Auth.RegisterFailureReported | football_front/src/services/auth.ts:44-47 | a failed request or an unreadable body gives success false with "Something went wrong. Please try again." and no cookie write |
| Auth.UserLogin | football_front/src/services/auth.ts:50-61 | the login posts exactly the given credentials; it returns exactly when the post succeeded, returning the body after storing its tokens; otherwise it rethrows the same error with the cookies untouched |
| Auth.LoginStoresTokens | football_front/src/services/auth.ts:52-56 | after a login the jar holds the returned tokens, the access token for ten minutes |
| Auth.UserLogout | football_front/src/services/auth.ts:63-74 | a returning logout leaves neither token cookie; a request is made exactly when a refresh token is stored |
| Auth.LogoutHasNoBearer | football_front/src/services/api-client.ts:18 | the logout request is exempt from the bearer header |
| Auth.LogoutWithoutToken | football_front/src/services/auth.ts:71-73 | without a refresh token, logout throws "No refresh token found", makes no request and leaves the cookies unchanged |
| Auth.LogoutSuccessClears | football_front/src/services/auth.ts:66-70 | with a refresh token and a successful post, that token is posted without a bearer header and both cookies are removed |
| Auth.LogoutFailureKeepsCookies | football_front/src/services/auth.ts:67-70 | a logout post rejected with a status other than 401 is rethrown and the cookies stay |
| Auth.LogoutUnauthorizedRefreshFails | football_front/src/services/auth.ts:66-70 | a logout post refused with 401 whose refresh fails is rethrown, but the response interceptor has already removed both cookies |
| Auth.LogoutResendRejectedKeepsNewTokens | football_front/src/services/auth.ts:66-70 | a logout post refused with 401, refreshed, and then rejected on resend is rethrown with the refreshed tokens left stored |
| Auth.GoogleSignin | football_front/src/services/auth.ts:76-98 | a request is made exactly when the credential is non-empty, and it carries that credential; the call throws exactly when the credential is missing or no JSON body was read, and a throw leaves the cookies untouched; otherwise it returns the body after storing its tokens |
| Auth.GoogleMissingCredential | football_front/src/services/auth.ts:77-80 | a missing credential throws the fixed message before any request or cookie write |
| Auth.GoogleStoresWhateverStatus | football_front/src/services/auth.ts:90-93 | a readable body is stored and returned whatever the HTTP status |
| PostsFeed.FetchUserPosts | football_front/src/Pages/PostsFeed.tsx:20-31 | a fetch happens exactly when the user has an id, and without one nothing changes; after a fetch loading is off, and the posts are the fetched list on success and unchanged on failure |
| PostsFeed.NoUserKeepsSpinner | football_front/src/Pages/PostsFeed.tsx:18-21 | without a user id the initial spinner stays on, because the early return skips the finally |
| PostsFeed.FilteredPosts | football_front/src/Pages/PostsFeed.tsx:40-42 | a post is shown exactly when it is in the list, not owned by the user, and dated now or later; each visible post appears as often as in the input and no other post appears; the shown list is a subsequence of the posts |
| PostsFeed.OwnPostsHidden | football_front/src/Pages/PostsFeed.tsx:41 | the current user's own posts are never shown |
| PostsFeed.BoundaryIsInclusive | football_front/src/Pages/PostsFeed.tsx:41 | another user's post dated exactly now is shown, and one dated a millisecond earlier is not |
| PostsFeed.FilterIdempotent | football_front/src/Pages/PostsFeed.tsx:40-42 | filtering the shown posts again changes nothing |
| UpdateUserInfo.ChangedFields | football_front/src/Pages/UpdateUserInfo.tsx:71-80 | the payload has at most three fields, all among username, skillLevel and profile_img |
| UpdateUserInfo.ChangedFieldsExact | football_front/src/Pages/UpdateUserInfo.tsx:72-80 | username is sent when no user is present or it differs; skillLevel only when a user is present and it differs; profile_img only when a file was chosen whose name differs; each at most once, and no other field such as email |
| UpdateUserInfo.UnchangedFormIsEmpty | football_front/src/Pages/UpdateUserInfo.tsx:72-80 | a form holding the user's own values, with no new picture or the same picture name, gives an empty payload |
| UpdateUserInfo.OnSubmit | football_front/src/Pages/UpdateUserInfo.tsx:67-86 | the update is called exactly when a user is present, with that user's id and the changed-fields payload; "changes saved" is shown exactly when there is no user or the update resolved; loading then goes on and off, and otherwise goes on and stays on |

## Left out

- Rendering, layout, routing and form validation: these live in libraries whose behaviour is not part of this model.
- The thin HTTP wrappers for posts, comments and users, and the context providers: each is a single call or a React effect. The fetch and update they perform appear here only as outcome parameters.
- The request interceptor's error handler (`api-client.ts` lines 25-27) just passes request-side errors on. The model has no request-side errors.
- Requests whose error carries no response: the source would throw a TypeError reading the status. In the model every rejection carries a status.
- Several requests failing with 401 at the same time: this is a concurrency concern. The model follows one request at a time.
- What `js-cookie` does with a lifetime: it turns days into an absolute date, and a lifetime of 0 makes the cookie expire at once. The jar records the lifetime in days as given.
- Auth.RegisterUser: a JSON body without token fields is not modelled. `js-cookie` would then store the text "undefined". The body type always carries both tokens.
- Auth.GoogleSignin: same limitation as `RegisterUser`. A readable body always carries both tokens.
- Auth.UserLogin: same limitation. The login response's data always carries both tokens.
- ApiClient.OnRefresh: same limitation. The refresh answer always carries both tokens.
- ApiClient.Pipeline: the access-token lifetime comes from a build-time setting. If that setting were missing, the parser would throw inside the refresh block and the cookies would be cleared. The model takes the setting as a string that is always present.
- PostsFeed.FilteredPosts: the source reads the clock (`Date.now()`) once per post inside the filter callback, so a clock tick during filtering can hide later posts that an earlier reading would show. The model compares the whole list with a single instant `now`.
- DateUtils.ParseExpirationInDays: results are exact reals, not JavaScript doubles. Very long digit runs would lose precision in the source.
- Date formatting (`formatDate` and its callers): it depends on the locale and the time zone.
- Console logging, and the text of the alert dialog. The model keeps only whether the alert is shown.
- The loading flag's intermediate renders are not modelled. The model gives the successive values the flag is set to.
- Team splitting: it runs on the server.
