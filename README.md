# ExploraNotes sessions and identity, in Dafny

ExploraNotes is a SvelteKit school application backed by a Dgraph store. This
project models its session and identity core:

- the server hook that turns the `Auth` cookie, a signed JWT, into
  `locals.currentUser`;
- sign-in, which checks credentials against the store and writes the session
  token and the side-bar preference cookie;
- sign-up, which refuses a taken email, creates the user node, signs an
  unverified session and mails a verification link;
- the email-verification page (its guard and its resend action) and its layout;
- the root layout, which reads the preference cookies;
- sign-out, which deletes the cookies and clears the session;
- the teacher's school selection, which records a join request and mails every
  admin of the chosen school;
- the teacher's school creation, which makes its creator the school's admin.

## How the world is modelled

- **JSON values** are `Js.Value`. `null` and a missing property are distinct
  (`Null`, `Undefined`), and `typeof null === "object"` is kept.
- **The session** `locals.currentUser` is `App.Session`. It is `Unset` after
  sign-out (`undefined`), `Anonymous` when the hook found no valid token
  (`null`), or `SignedIn(user)`. Only `SignedIn` is truthy. Claims are copied
  from the token without any type check, so the fields of `CurrentUser` are
  `Value`s.
- **JWT signing and verification** is a pair of functions, `Jwt.Codec`. Every
  property that needs more than the shape of the code takes `Jwt.Sound(codec)`
  as a hypothesis. `Sound` says four things:
  - tokens are non-empty;
  - a token verifies to its payload before its expiry;
  - a token is refused from its expiry on;
  - whatever verifies was signed.
- **Time** is an integer number of seconds. The request instant `now` is a
  parameter. `"1y"` is 365.25 days, following the `ms` library that
  `jsonwebtoken` uses. `"30d"` is 30 days.
- **The Dgraph store** is the class `Dgraph.Graph`. Nodes are kept by uid, with
  an exact email index. The `pendingJoin` and `school` edges are single-valued
  maps; the `school` edge carries its `admin` facet. Each mutation is a method
  that states its full frame. Dgraph's `checkpwd` is a parameter
  `checkPwd(stored, submitted)`. A blank node gets a uid no node has.
- **Cookies** are the class `Kit.Cookies` over a map from name to value and
  options.
- **Mail** is the append-only log `Mail.Outbox`. Each message keeps its
  recipient, the person greeted and the path of its link.
- **Form data** is a map from field name to a text or an upload.
- **zod's `email()` check** is a parameter `isEmail`. The literal and
  minimum-length rules are written out; the length is counted in UTF-16 code
  units.
- **Handler outcomes** are `Kit.LoadResult` and `Kit.ActionResult`, each of
  which has a `Thrown` case:
  - dereferencing a `null` or `undefined` session throws;
  - a session whose `uid` claim is not a string is also treated as a thrown
    request wherever the store is addressed by it.

What is worth knowing about the core, as the model states it:

- **The hook and sign-in agree.** For as long as the browser keeps the cookie,
  the token sign-in writes decodes on every later request to exactly the
  session sign-in built, `verifiedEmail` included
  (`SignIn.SessionSurvivesNextRequest`). The same holds for sign-up
  (`SignUp.SessionSurvivesNextRequest`). Signing in to a fresh account gives
  back the session sign-up built (`SignUp.SignInAfterSignUp`).
- **Only signed tokens open sessions.** A session the hook opens comes from a
  token that was signed, has not expired and holds an object or array payload
  (`Hooks.OnlySignedTokensOpenSessions`).
- **The acceptance token opens a session.** Select-school mails an acceptance
  token signed with the session key. Its payload is `{ uid }`, so if it is put
  in the `Auth` cookie the hook accepts it, as a session with only a uid and a
  verified email (`SelectSchool.AcceptanceTokenOpensSession`).
- **The email-verification layout does not redirect the sessions modelled
  here.** It tests `currentUser.isAuthenticated`, a property that the hook,
  sign-in and sign-up never set, so on their sessions its guard never fires
  (`EmailVerif.LayoutNeverRedirects`). The `[jwt]` verification action does
  set `isAuthenticated` and `verifiedEmail`, so on that request the layout
  does redirect; that route is not part of this model. The layout reads the
  property without a null check, so an anonymous request to the verification
  page fails in the layout.
- **One mail per admin.** Whatever the iteration order, select-school sends
  exactly one mail to each admin of the chosen school, and every such mail
  carries the acceptance link (`SelectSchool.MailsMatchAdmins`,
  `SelectSchool.OneMailPerAdmin`).
- **A new school's only admin is its creator.** The uid the store gives the
  new school is one no existing `school` edge points to
  (`Dgraph.Graph.NewUid`, `NewSchool.Action`), so the admins of a newly
  created school are its creator alone (`NewSchool.CreatorIsSoleAdmin`).

## Model

| member | source | states |
|---|---|---|
| Js.IsObjectType | src/hooks.server.ts:26 | `typeof v === "object"` holds exactly for objects, arrays and `null` |
| Js.Truthy | src/routes/signup/email-verif/+layout.server.ts:4 | a value is falsy exactly when it is `undefined`, `null`, `false`, `0` or the empty string |
| Js.Prop | src/hooks.server.ts:27 | reading a claim that is absent, or reading from a non-object, gives `undefined` |
| Js.Utf16Length | src/routes/signin/+page.server.ts:15 | the length `min(7)` counts is between the character count and twice it, and equals it when every character is in the Basic Multilingual Plane |
| Js.ToLowerCase | src/routes/signin/+page.server.ts:61 | `toLowerCase` keeps the length and maps every character through the ASCII lower-casing |
| Jwt.VerifiedMeansSigned | src/hooks.server.ts:25 | under the soundness hypothesis, a token that verifies is the signature of its own payload with an expiry still ahead |
| App.UserProp | src/routes/signup/email-verif/+layout.server.ts:4 | a property of the session record other than its five fields, `isAuthenticated` included, reads as `undefined`; `verifiedEmail` reads as the boolean |
| Kit.TextField | src/routes/signin/+page.server.ts:40-42 | `formData.get(name)` gives a text only when the field is present and is not an upload |
| Kit.Lookup | src/hooks.server.ts:18 | `cookies.get(name)` gives the value of the cookie of that name, or nothing when there is none |
| Kit.Cookies.Set | src/routes/signin/+page.server.ts:77-91 | setting a cookie replaces the entry of that name and leaves every other cookie as it was |
| Kit.Cookies.Delete | src/routes/signout/+page.server.ts:3-5 | deleting a cookie removes exactly that name |
| Mail.Outbox.Send | src/routes/signup/sendVerifEmail.ts:25-28 | a send appends the message to the log |
| Dgraph.EmailsUnique | src/routes/signup/+page.server.ts:56-61 | with an exact index, two persons with the same email are one node |
| Dgraph.AddPersonKeepsIndex | src/routes/signup/+page.server.ts:56-78 | adding a person under a fresh uid with an unused email keeps the index exact |
| Dgraph.Graph.NewUid | src/routes/signup/+page.server.ts:80 | the uid assigned to a blank node is one that no node has and that no `pendingJoin` or `school` edge mentions |
| Dgraph.Graph.AddPerson | src/routes/signup/+page.server.ts:63-80 | the new person is stored under a fresh uid and indexed by email; the edges are untouched and the index stays exact |
| Dgraph.Graph.AddSchool | src/routes/teacher/new-school/+page.server.ts:39-44 | the new school is stored under a fresh uid; nothing else changes |
| Dgraph.Graph.SetPendingJoin | src/routes/teacher/select-school/+page.server.ts:65-69 | the user's `pendingJoin` edge now points to the target; nothing else changes |
| Dgraph.Graph.SetSchool | src/routes/teacher/new-school/+page.server.ts:41 | the user's `school` edge and its admin facet are replaced; nothing else changes |
| Hooks.UserFromPayload | src/hooks.server.ts:26-34 | an object or array payload gives a user whose four claims are copied as they are and whose `verifiedEmail` is false exactly when the claim is `false`; any other payload gives none |
| Hooks.SessionFromCookie | src/hooks.server.ts:16-44 | the hook never leaves the session undefined; with no cookie, or an empty one, it is anonymous; a signed-in session needs a token that verifies |
| Hooks.SignedTokenOpensSession | src/hooks.server.ts:24-34 | an unexpired signed token with an object payload opens the session its claims describe |
| Hooks.OnlySignedTokensOpenSessions | src/hooks.server.ts:24-44 | a signed-in session comes from an unexpired signed token whose object or array payload decodes to it |
| Hooks.ExpiredTokenIsAnonymous | src/hooks.server.ts:25 | an expired token leaves the request anonymous |
| Hooks.ForeignTokenIsAnonymous | src/hooks.server.ts:41-44 | a token that was never signed leaves the request anonymous |
| Hooks.NonObjectPayloadIsAnonymous | src/hooks.server.ts:26-40 | a signed payload that is neither an object nor an array leaves the request anonymous |
| Hooks.Pipeline.Resolve | src/hooks.server.ts:45 | the route sees the session as the hook left it |
| Hooks.Handle | src/hooks.server.ts:16-46 | `currentUser` becomes the session the `Auth` cookie decodes to, and the request is resolved exactly once with it |
| SignIn.Load | src/routes/signin/+page.server.ts:9-11 | a signed-in visitor gets a 303 redirect to `/`, and everyone else gets the page |
| SignIn.Parse | src/routes/signin/+page.server.ts:13-17 | the parse succeeds exactly when the form meets the `User` schema, and then returns what the form holds |
| SignIn.SessionUser | src/routes/signin/+page.server.ts:59-65 | the session holds the stored uid, email and name, and the lower-cased first type; the email counts as verified only when the stored flag is true |
| SignIn.Claims | src/routes/signin/+page.server.ts:69-70 | the payload omits `verifiedEmail` exactly when it is true, and the hook decodes the payload back to the same session |
| SignIn.Authenticate | src/routes/signin/+page.server.ts:39-57 | a schema failure gives 400, and a wrong email or password gives the same 403; an acceptance is for the one person with that email whose password checks |
| SignIn.Action | src/routes/signin/+page.server.ts:32-95 | a rejection changes nothing; an acceptance sets the session, and sets `Auth` to the one-year token and `SBOpen` to the flag, both for 365 days, then greets the user by name |
| SignIn.SessionSurvivesNextRequest | src/routes/signin/+page.server.ts:72-83 | during the cookie's 365 days, the token decodes on every request to the session sign-in built |
| SignUp.Load | src/routes/signup/+page.server.ts:12-14 | a signed-in visitor gets a 303 redirect to `/`, and everyone else gets the page |
| SignUp.Parse | src/routes/signup/+page.server.ts:24-52 | the parse succeeds exactly when the form meets the `NewUser` schema, and then returns what the form holds |
| SignUp.DisplayName | src/routes/signup/+page.server.ts:54 | the display name is the first name, one space, then the last name |
| SignUp.StoredType | src/routes/signup/+page.server.ts:68 | the stored type is "Teacher" exactly for a teacher account, and "Student" otherwise |
| SignUp.NewNode | src/routes/signup/+page.server.ts:66-75 | the created person has the stored type, the submitted email and the display name, and no verification flag |
| SignUp.SessionUser | src/routes/signup/+page.server.ts:82-88 | a fresh account's session has the new uid and the submitted type, email and name, and is never verified |
| SignUp.Claims | src/routes/signup/+page.server.ts:91 | the payload carries `verifiedEmail: false`, and the hook decodes it to the unverified session |
| SignUp.VerifyPath | src/routes/signup/+page.server.ts:96 | the link path is `/signup/email-verif/` followed by the token |
| SignUp.Action | src/routes/signup/+page.server.ts:33-117 | a schema failure, or an email already in the store, gives 400 and changes nothing. Otherwise it adds the node and sets the unverified session. It mails the link of the 30-day token, sets both cookies for 30 days and greets the user |
| SignUp.SessionSurvivesNextRequest | src/routes/signup/+page.server.ts:91-105 | during the cookie's 30 days, the token decodes on every request to the unverified session sign-up built |
| SignUp.SignInAfterSignUp | src/routes/signin/+page.server.ts:59-65 | signing in to an account sign-up created gives back the session sign-up built |
| EmailVerif.Load | src/routes/signup/email-verif/+page.server.ts:4-10 | an anonymous visitor gets a 303 redirect to `/`; a signed-in one gets the session's email |
| EmailVerif.Action | src/routes/signup/email-verif/+page.server.ts:12-22 | an anonymous request gets a bare 401 and nothing is sent; otherwise one verification mail goes out, linking to the current `Auth` cookie |
| EmailVerif.ResendLinkCarriesSessionToken | src/routes/signup/email-verif/+page.server.ts:17 | when the hook opened the session, the resent link carries the `Auth` token itself |
| EmailVerif.LayoutLoad | src/routes/signup/email-verif/+layout.server.ts:3-5 | an anonymous request throws; a redirect to `/` requires `isAuthenticated` and a verified email |
| EmailVerif.LayoutNeverRedirects | src/routes/signup/email-verif/+layout.server.ts:4 | on a session of the shape the hook, sign-in and sign-up build, the layout never redirects and lets every signed-in session through |
| EmailVerif.LayoutNeverRedirectsAfterHook | src/routes/signup/email-verif/+layout.server.ts:4 | whatever the cookie, the layout never redirects the session the hook produced |
| EmailVerif.GuardsComplement | src/routes/signup/email-verif/+page.server.ts:4-5 | the verification page turns a visitor away exactly when the sign-in and sign-up pages let them in |
| RootLayout.Load | src/routes/+layout.server.ts:1-5 | a preference flag is on exactly when its cookie is `yes`, and the session passes through |
| RootLayout.SideBarFollowsSubmittedFlag | src/routes/+layout.server.ts:2-3 | once sign-in or sign-up has stored the flag, the side bar is open exactly when `yes` was submitted, and the large-screen flag is unchanged |
| SignOut.SignedOut | src/routes/signout/+page.server.ts:3-5 | the three cookies are gone, and every other cookie is kept |
| SignOut.Action | src/routes/signout/+page.server.ts:1-9 | the jar becomes the signed-out jar, the session becomes undefined, and the message is fixed |
| SignOut.Idempotent | src/routes/signout/+page.server.ts:3-5 | signing out twice leaves the same jar as signing out once |
| SignOut.NextRequestIsAnonymous | src/routes/signout/+page.server.ts:3-6 | after sign-out, the next request is anonymous, the side bar shows closed, and the large-screen flag is unchanged |
| SelectSchool.FindSchool | src/routes/teacher/select-school/+page.server.ts:42 | the result is the first row whose uid is the target, and there is none exactly when no row has it |
| SelectSchool.PendingTarget | src/routes/teacher/select-school/+page.server.ts:18-24 | the user's `pendingJoin` target is present exactly when the edge exists |
| SelectSchool.Load | src/routes/teacher/select-school/+page.server.ts:33-44 | an anonymous request throws; otherwise it returns the school list unchanged, with the pending school from that list, or none when there is no edge or no row matches |
| SelectSchool.PendingSchoolShown | src/routes/teacher/select-school/+page.server.ts:40-43 | a request to join a stored school shows that school, with its stored name and address |
| SelectSchool.SchoolUidField | src/routes/teacher/select-school/+page.server.ts:61-62 | `schoolUid` is accepted exactly when it is a non-empty text |
| SelectSchool.AcceptClaims | src/routes/teacher/select-school/+page.server.ts:74 | the acceptance payload holds the uid and no other claim |
| SelectSchool.AcceptPath | src/routes/teacher/select-school/+page.server.ts:77 | the acceptance link path is `/teacher/accept-teacher/` followed by the token |
| SelectSchool.Admins | src/routes/teacher/select-school/+page.server.ts:46-55 | the admins are exactly the stored teachers whose `school` edge points to the school with the admin facet true |
| SelectSchool.RequestMails | src/routes/teacher/select-school/+page.server.ts:76-106 | one request mail per admin, in the order given |
| SelectSchool.NotifyAdmins | src/routes/teacher/select-school/+page.server.ts:76-106 | the log gains the request mails of some enumeration of the admins, one per admin |
| SelectSchool.MailsMatchAdmins | src/routes/teacher/select-school/+page.server.ts:71-77 | in any order, there are as many mails as admins; each is the request mail of an admin and carries the acceptance link |
| SelectSchool.OneMailPerAdmin | src/routes/teacher/select-school/+page.server.ts:76-106 | in any order, each admin's email address receives exactly one mail, the admin's request mail |
| SelectSchool.Action | src/routes/teacher/select-school/+page.server.ts:57-109 | an anonymous request throws; a bad `schoolUid` gives 400 and changes nothing. Otherwise it sets `pendingJoin`, mails every admin exactly once with the link of a uid-only 30-day token, and returns the fixed message |
| SelectSchool.AcceptanceTokenOpensSession | src/routes/teacher/select-school/+page.server.ts:74 | for 30 days, the acceptance token would open a session with only the uid set and the email counted as verified |
| NewSchool.Parse | src/routes/teacher/new-school/+page.server.ts:12-35 | the parse succeeds exactly when all three fields are texts, the empty text included |
| NewSchool.Created | src/routes/teacher/new-school/+page.server.ts:46 | the success message embeds the school name |
| NewSchool.Action | src/routes/teacher/new-school/+page.server.ts:18-47 | an anonymous request throws before the form is read, and a schema failure gives 400 and changes nothing. Otherwise one school node is created with the submitted fields, and the creator's `school` edge points to it as admin |
| NewSchool.CreatorIsSoleAdmin | src/routes/teacher/new-school/+page.server.ts:39-42 | after creation under a uid no earlier `school` edge points to, the new school's admins are its creator alone when the creator is a stored teacher, and nobody otherwise |

Four definitions carry no contract of their own. They are the JavaScript and
schema semantics and the mail contents that the rows above state properties
through:

- `Js.TemplateText` (src/routes/signup/email-verif/+page.server.ts:17) is the text a template literal gives a cookie value, `"undefined"` when it is absent; it is used by `EmailVerif.Action` and `EmailVerif.ResendLinkCarriesSessionToken`.
- `Kit.IsYesNo` (src/routes/signin/+page.server.ts:16) is the `"yes" | "no"` enum of the form schemas, used by `SignIn.Parse` and `SignUp.Parse`.
- `Mail.VerificationMail` (src/routes/signup/sendVerifEmail.ts:3-31) is the verification mail, used by `SignUp.Action` and `EmailVerif.Action`.
- `SelectSchool.RequestMail` (src/routes/teacher/select-school/+page.server.ts:77-96) is one join-request mail, used by `SelectSchool.NotifyAdmins`, `SelectSchool.MailsMatchAdmins` and `SelectSchool.OneMailPerAdmin`.

## Left out

- JWT cryptography (ES256 keys, signature format) is not modelled: `Jwt.Codec` is abstract, and its soundness is a stated hypothesis, not proved.
- The `iat` and `exp` claims that `jsonwebtoken` adds to the payload are not modelled. The hook copies only the five named claims, so they do not reach the session.
- The query and mutation text sent to Dgraph is left out: queries are reads of the graph fields, and mutations are the `Graph` methods. Dgraph's checks on uid syntax are also left out.
- Dgraph's `@normalize` result shape is left out. `SelectSchool.Load` treats a user without a `pendingJoin` edge as having none; it does not model the query result having no row for that user.
- Uids in the store are strings, and a session `uid` that is not a string is treated as a failed request in both teacher actions and in select-school's `load`.
- Mail HTML, subjects, the sender address and the SMTP transport are left out. Sending is fire-and-forget, so delivery errors, which are only logged, are not modelled.
- SelectSchool.Action: the order in which admins are mailed is not stated; the contract says only that some enumeration of the admins is mailed.
- Absolute URLs are left out: only the path of each link is kept, because the host comes from the request.
- The cookie `path` option is left out, since every cookie here uses `/`.
- EmailVerif.LayoutNeverRedirects: holds only for sessions of the shape `App.CurrentUser` can hold. The `[jwt]` verification action sets `isAuthenticated` and a `school` on `locals.currentUser`, which that record cannot carry, and on that request the layout does redirect.
- Js.ToLowerCase: lower-cases ASCII letters only, because the stored types are ASCII; full Unicode case mapping is not modelled.
- zod's email format check is a parameter (`isEmail`), not modelled.
- Startup `transporter.verify` in `src/hooks.server.ts:7-14` is left out, because it is I/O with no effect on requests. Every `console.log` is left out too.
- Concurrency is not modelled: two sign-ups racing on one email, or transactions interleaving. Each handler runs atomically.
- `creationDate` is the request instant, as an integer rather than a `Date`.
- The email-verification `[jwt]` route, the accept-teacher route and the teacher dashboard are not part of this model.
- `src/lib/utilities.ts` (presentation helpers) is not part of this model. `src/app.d.ts` only shapes `App.CurrentUser`.
