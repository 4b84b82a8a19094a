/** The sign-up page: its `load` guard and its form action, which rejects a
    taken email, creates the user node, signs unverified claims, mails the
    verification link and sets the `Auth` and `SBOpen` cookies. */
module SignUp {
  import opened Js
  import opened App
  import opened Kit
  import Jwt
  import Dgraph
  import Mail
  import Hooks
  import SignIn

  const EmailTaken: string := "Cette adresse email est déjà utilisée !"

  /** `maxAge` of both cookies: 30 days, the token's own lifetime. */
  const CookieMaxAge: int := 60 * 60 * 24 * 30

  /** `load`: a visitor who is signed in is sent home. */
  function Load(currentUser: Session): (r: LoadResult<()>)
    ensures r.Redirect? <==> currentUser.SignedIn?
    ensures r.Redirect? ==> r.status == 303 && r.location == "/"
    ensures !r.Thrown?
  {
    if currentUser.SignedIn? then Redirect(303, "/") else Data(())
  }

  /** The `NewUser` schema's output. */
  datatype NewUser = NewUser(accountType: string, firstName: string, lastName: string,
                             email: string, password: string, sideBarOpen: string)

  /** The `NewUser` schema, stated as a relation: an account type "teacher" or
      "student", any two names, an email, a password of at least 7 UTF-16
      code units and a side-bar flag "yes" or "no", all as text fields. */
  ghost predicate Admissible(form: Form, isEmail: string -> bool, n: NewUser) {
    && TextField(form, "accountType") == Some(n.accountType) && (n.accountType == "teacher" || n.accountType == "student")
    && TextField(form, "firstName") == Some(n.firstName)
    && TextField(form, "lastName") == Some(n.lastName)
    && TextField(form, "email") == Some(n.email) && isEmail(n.email)
    && TextField(form, "password") == Some(n.password) && Utf16Length(n.password) >= 7
    && TextField(form, "sideBarOpen") == Some(n.sideBarOpen) && IsYesNo(n.sideBarOpen)
  }

  /** `NewUser.safeParse(...)`; `isEmail` stands for zod's email format check. */
  function Parse(form: Form, isEmail: string -> bool): (r: Option<NewUser>)
    ensures r.Some? ==> Admissible(form, isEmail, r.value)
    ensures r.None? ==> forall n :: !Admissible(form, isEmail, n)
  {
    var accountType := TextField(form, "accountType");
    var firstName := TextField(form, "firstName");
    var lastName := TextField(form, "lastName");
    var email := TextField(form, "email");
    var password := TextField(form, "password");
    var sideBarOpen := TextField(form, "sideBarOpen");
    if && accountType.Some? && (accountType.value == "teacher" || accountType.value == "student")
       && firstName.Some? && lastName.Some?
       && email.Some? && isEmail(email.value)
       && password.Some? && Utf16Length(password.value) >= 7
       && sideBarOpen.Some? && IsYesNo(sideBarOpen.value)
    then Some(NewUser(accountType.value, firstName.value, lastName.value, email.value, password.value, sideBarOpen.value))
    else None
  }

  /** The display name: first name, one space, last name. */
  function DisplayName(firstName: string, lastName: string): (name: string)
    ensures |name| == |firstName| + 1 + |lastName|
    ensures name[..|firstName|] == firstName && name[|firstName|] == ' ' && name[|firstName| + 1..] == lastName
  {
    firstName + " " + lastName
  }

  /** The stored `dgraph.type`: "Teacher" exactly for a teacher account, "Student" otherwise. */
  function StoredType(accountType: string): (t: string)
    ensures t == "Teacher" <==> accountType == "teacher"
    ensures t == "Student" <==> accountType != "teacher"
  {
    if accountType == "teacher" then "Teacher" else "Student"
  }

  /** The node the mutation creates: no `verifiedEmail` flag is stored. */
  function NewNode(n: NewUser, now: int): (node: Dgraph.Node)
    ensures node.Person? && node.types == [StoredType(n.accountType)]
    ensures node.email == n.email && node.name == DisplayName(n.firstName, n.lastName)
    ensures node.verifiedEmail == None
  {
    Dgraph.Person(
      types := [StoredType(n.accountType)],
      firstName := n.firstName,
      lastName := n.lastName,
      name := DisplayName(n.firstName, n.lastName),
      email := n.email,
      password := n.password,
      verifiedEmail := None,
      creationDate := now)
  }

  /** The `currentUser` of a fresh account: never verified. */
  function SessionUser(n: NewUser, uid: Dgraph.Uid): (u: CurrentUser)
    ensures !u.verifiedEmail
    ensures u.uid == Str(uid) && u.email == Str(n.email) && u.accountType == Str(n.accountType)
    ensures u.name == Str(DisplayName(n.firstName, n.lastName))
  {
    CurrentUser(
      uid := Str(uid),
      accountType := Str(n.accountType),
      email := Str(n.email),
      name := Str(DisplayName(n.firstName, n.lastName)),
      verifiedEmail := false)
  }

  /** The signed payload is `currentUser` itself, `verifiedEmail: false`
      included, so the hook decodes it to an unverified session. */
  function Claims(n: NewUser, uid: Dgraph.Uid): (p: Value)
    ensures p.Obj? && Prop(p, "verifiedEmail") == Bool(false)
    ensures Hooks.UserFromPayload(p) == Some(SessionUser(n, uid))
  {
    var u := SessionUser(n, uid);
    Obj(map["accountType" := u.accountType, "uid" := u.uid, "email" := u.email,
             "name" := u.name, "verifiedEmail" := Bool(false)])
  }

  /** The path of the verification link. */
  function VerifyPath(token: string): (path: string)
    ensures |path| == 20 + |token| && path[..20] == "/signup/email-verif/" && path[20..] == token
  {
    "/signup/email-verif/" + token
  }

  /** `actions.default`. `now` is the request instant. */
  method Action(form: Form, isEmail: string -> bool, codec: Jwt.Codec, now: int,
                graph: Dgraph.Graph, locals: Locals, cookies: Cookies, outbox: Mail.Outbox)
    returns (r: ActionResult)
    requires graph.Valid()
    modifies graph, locals, cookies, outbox
    ensures graph.Valid()
    ensures graph.pendingJoin == old(graph.pendingJoin) && graph.school == old(graph.school)
    ensures match Parse(form, isEmail)
      case None =>
        && r == Fail(400, Some(InvalidFormat))
        && graph.nodes == old(graph.nodes) && graph.byEmail == old(graph.byEmail)
        && locals.currentUser == old(locals.currentUser) && cookies.jar == old(cookies.jar)
        && outbox.sent == old(outbox.sent)
      case Some(n) =>
        if n.email in old(graph.byEmail) then
          && r == Fail(400, Some(EmailTaken))
          && graph.nodes == old(graph.nodes) && graph.byEmail == old(graph.byEmail)
          && locals.currentUser == old(locals.currentUser) && cookies.jar == old(cookies.jar)
          && outbox.sent == old(outbox.sent)
        else
          && n.email in graph.byEmail
          && var uid := graph.byEmail[n.email];
          var token := codec.sign(Claims(n, uid), now + Jwt.ThirtyDays);
          && uid !in old(graph.nodes)
          && graph.nodes == old(graph.nodes)[uid := NewNode(n, now)]
          && graph.byEmail == old(graph.byEmail)[n.email := uid]
          && locals.currentUser == SignedIn(SessionUser(n, uid))
          && outbox.sent == old(outbox.sent) + [Mail.VerificationMail(Str(DisplayName(n.firstName, n.lastName)), Str(n.email), VerifyPath(token))]
          && cookies.jar == old(cookies.jar)
               ["Auth" := Cookie(token, AuthOptions(CookieMaxAge))]
               ["SBOpen" := Cookie(n.sideBarOpen, PreferenceOptions(CookieMaxAge))]
          && r == Ok("Bienvenue, " + DisplayName(n.firstName, n.lastName) + " !")
  {
    var parsed := Parse(form, isEmail);
    if parsed.None? {
      return Fail(400, Some(InvalidFormat));
    }
    var newUser := parsed.value;

    var name := DisplayName(newUser.firstName, newUser.lastName);

    if newUser.email in graph.byEmail {
      return Fail(400, Some(EmailTaken));
    }

    var uid := graph.AddPerson(NewNode(newUser, now));

    var currentUser := SessionUser(newUser, uid);
    locals.currentUser := SignedIn(currentUser);

    var jwt := codec.sign(Claims(newUser, uid), now + Jwt.ThirtyDays);

    var verifURL := VerifyPath(jwt);
    outbox.Send(Mail.VerificationMail(currentUser.name, currentUser.email, verifURL));

    cookies.Set("Auth", jwt, AuthOptions(CookieMaxAge));
    cookies.Set("SBOpen", newUser.sideBarOpen, PreferenceOptions(CookieMaxAge));

    r := Ok("Bienvenue, " + name + " !");
  }

  /** The round trip across the hook: for as long as the browser keeps the
      `Auth` cookie, every later request decodes the token sign-up wrote to
      the session sign-up built, unverified. */
  lemma {:induction false} SessionSurvivesNextRequest(codec: Jwt.Codec, n: NewUser, uid: Dgraph.Uid, now: int, later: int)
    requires Jwt.Sound(codec)
    requires now <= later < now + CookieMaxAge
    ensures Hooks.SessionFromCookie(Some(codec.sign(Claims(n, uid), now + Jwt.ThirtyDays)), codec, later)
            == SignedIn(SessionUser(n, uid))
    ensures !SessionUser(n, uid).verifiedEmail
  {
    Hooks.SignedTokenOpensSession(codec, Claims(n, uid), now + Jwt.ThirtyDays, later);
  }

  /** Signing in to the account sign-up created gives back the session
      sign-up built: the stored "Teacher"/"Student" lower-cases to the
      submitted account type, and the absent flag reads as unverified. */
  lemma {:induction false} SignInAfterSignUp(n: NewUser, uid: Dgraph.Uid, now: int)
    requires n.accountType == "teacher" || n.accountType == "student"
    ensures SignIn.SessionUser(uid, NewNode(n, now)) == SessionUser(n, uid)
  {
    var stored := StoredType(n.accountType);
    var lowered := ToLowerCase(stored);
    assert |lowered| == |n.accountType|;
    forall i | 0 <= i < |lowered|
      ensures lowered[i] == n.accountType[i]
    {
      assert lowered[i] == LowerChar(stored[i]);
    }
    assert lowered == n.accountType;
  }
}
