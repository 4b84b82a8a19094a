/** The sign-in page: its `load` guard and its form action, which checks
    the credentials against the store, builds the session and sets the `Auth`
    and `SBOpen` cookies. */
module SignIn {
  import opened Js
  import opened App
  import opened Kit
  import Jwt
  import Dgraph
  import Hooks

  const WrongCredentials: string := "L'adresse email ou le mot de passe sont incorrects !"

  /** `maxAge` of both cookies: 365 days. */
  const CookieMaxAge: int := 60 * 60 * 24 * 365

  /** `load`: a visitor who is signed in is sent home. */
  function Load(currentUser: Session): (r: LoadResult<()>)
    ensures r.Redirect? <==> currentUser.SignedIn?
    ensures r.Redirect? ==> r.status == 303 && r.location == "/"
    ensures !r.Thrown?
  {
    if currentUser.SignedIn? then Redirect(303, "/") else Data(())
  }

  /** The `User` schema's output. */
  datatype Credentials = Credentials(email: string, password: string, sideBarOpen: string)

  /** The `User` schema, stated as a relation: `c` is what the form holds and
      meets every rule (an email, a password of at least 7 UTF-16 code units,
      a side-bar flag "yes" or "no"). */
  ghost predicate Admissible(form: Form, isEmail: string -> bool, c: Credentials) {
    && TextField(form, "email") == Some(c.email) && isEmail(c.email)
    && TextField(form, "password") == Some(c.password) && Utf16Length(c.password) >= 7
    && TextField(form, "sideBarOpen") == Some(c.sideBarOpen) && IsYesNo(c.sideBarOpen)
  }

  /** `User.safeParse(...)`; `isEmail` stands for zod's email format check. */
  function Parse(form: Form, isEmail: string -> bool): (r: Option<Credentials>)
    ensures r.Some? ==> Admissible(form, isEmail, r.value)
    ensures r.None? ==> forall c :: !Admissible(form, isEmail, c)
  {
    var email := TextField(form, "email");
    var password := TextField(form, "password");
    var sideBarOpen := TextField(form, "sideBarOpen");
    if && email.Some? && isEmail(email.value)
       && password.Some? && Utf16Length(password.value) >= 7
       && sideBarOpen.Some? && IsYesNo(sideBarOpen.value)
    then Some(Credentials(email.value, password.value, sideBarOpen.value))
    else None
  }

  /** The `currentUser` built from the stored user `uid`: the account type is
      the lower-cased first `dgraph.type`, and the email counts as verified
      only when the stored flag is truthy. */
  function SessionUser(uid: Dgraph.Uid, n: Dgraph.Node): (u: CurrentUser)
    requires n.Person? && |n.types| > 0
    ensures u.uid == Str(uid) && u.email == Str(n.email) && u.name == Str(n.name)
    ensures u.accountType == Str(ToLowerCase(n.types[0]))
    ensures u.verifiedEmail <==> n.verifiedEmail == Some(true)
  {
    CurrentUser(
      uid := Str(uid),
      accountType := Str(ToLowerCase(n.types[0])),
      email := Str(n.email),
      name := Str(n.name),
      verifiedEmail := n.verifiedEmail == Some(true))
  }

  /** The signed payload `info`: a copy of `currentUser` from which
      `verifiedEmail` is deleted when it is true. The hook decodes it back to
      `currentUser` exactly. */
  function Claims(u: CurrentUser): (p: Value)
    ensures p.Obj?
    ensures "verifiedEmail" in p.fields <==> !u.verifiedEmail
    ensures Hooks.UserFromPayload(p) == Some(u)
  {
    var info := map["uid" := u.uid, "accountType" := u.accountType, "email" := u.email,
                    "name" := u.name, "verifiedEmail" := Bool(u.verifiedEmail)];
    if u.verifiedEmail then Obj(info - {"verifiedEmail"}) else Obj(info)
  }

  /** The decision the action takes before it touches any state. */
  datatype Verdict = Rejected(failure: ActionResult) | Accepted(user: CurrentUser, sideBarOpen: string)

  /** Schema failure gives 400; an unknown email and a wrong password give the
      same 403; otherwise the session is that of the one person holding the
      submitted email. `checkPwd` stands for the store's `checkpwd`. */
  function Authenticate(form: Form, isEmail: string -> bool, checkPwd: (string, string) -> bool,
                        nodes: map<Dgraph.Uid, Dgraph.Node>, byEmail: map<string, Dgraph.Uid>): (v: Verdict)
    requires Dgraph.IndexValid(nodes, byEmail)
    ensures v == Rejected(Fail(400, Some(InvalidFormat))) <==> Parse(form, isEmail).None?
    ensures v.Rejected? ==> v.failure in {Fail(400, Some(InvalidFormat)), Fail(403, Some(WrongCredentials))}
    ensures v.Accepted? ==>
              && Parse(form, isEmail).Some?
              && v.sideBarOpen == Parse(form, isEmail).value.sideBarOpen
              && v.user.name.Str?
              && exists uid :: && uid in nodes && nodes[uid].Person?
                               && nodes[uid].email == Parse(form, isEmail).value.email
                               && checkPwd(nodes[uid].password, Parse(form, isEmail).value.password)
                               && v.user == SessionUser(uid, nodes[uid])
    ensures Parse(form, isEmail).Some? && v.Rejected? ==>
              forall uid :: uid in nodes && nodes[uid].Person? && nodes[uid].email == Parse(form, isEmail).value.email
                ==> !checkPwd(nodes[uid].password, Parse(form, isEmail).value.password)
  {
    match Parse(form, isEmail)
    case None => Rejected(Fail(400, Some(InvalidFormat)))
    case Some(c) =>
      if c.email !in byEmail || !checkPwd(nodes[byEmail[c.email]].password, c.password) then
        assert forall uid :: uid in nodes && nodes[uid].Person? && nodes[uid].email == c.email ==> uid == byEmail[c.email];
        Rejected(Fail(403, Some(WrongCredentials)))
      else
        Accepted(SessionUser(byEmail[c.email], nodes[byEmail[c.email]]), c.sideBarOpen)
  }

  /** `actions.default`. */
  method Action(form: Form, isEmail: string -> bool, checkPwd: (string, string) -> bool,
                codec: Jwt.Codec, now: int, graph: Dgraph.Graph, locals: Locals, cookies: Cookies)
    returns (r: ActionResult)
    requires graph.Valid()
    modifies locals, cookies
    ensures match Authenticate(form, isEmail, checkPwd, graph.nodes, graph.byEmail)
      case Rejected(failure) =>
        && r == failure
        && locals.currentUser == old(locals.currentUser) && cookies.jar == old(cookies.jar)
      case Accepted(user, sideBarOpen) =>
        && locals.currentUser == SignedIn(user)
        && cookies.jar == old(cookies.jar)
             ["Auth" := Cookie(codec.sign(Claims(user), now + Jwt.OneYear), AuthOptions(CookieMaxAge))]
             ["SBOpen" := Cookie(sideBarOpen, PreferenceOptions(CookieMaxAge))]
        && r == Ok("Content de vous revoir, " + user.name.s + " !")
  {
    var parsed := Parse(form, isEmail);
    if parsed.None? {
      return Fail(400, Some(InvalidFormat));
    }
    var user := parsed.value;

    if user.email !in graph.byEmail || !checkPwd(graph.nodes[graph.byEmail[user.email]].password, user.password) {
      return Fail(403, Some(WrongCredentials));
    }
    var uid := graph.byEmail[user.email];
    var found := graph.nodes[uid];

    var currentUser := SessionUser(uid, found);
    locals.currentUser := SignedIn(currentUser);

    var jwt := codec.sign(Claims(currentUser), now + Jwt.OneYear);

    cookies.Set("Auth", jwt, AuthOptions(CookieMaxAge));
    cookies.Set("SBOpen", user.sideBarOpen, PreferenceOptions(CookieMaxAge));
    r := Ok("Content de vous revoir, " + found.name + " !");
  }

  /** The round trip across the hook: for as long as the browser keeps the
      `Auth` cookie, every later request decodes the token sign-in wrote back
      to the very session sign-in built, `verifiedEmail` included. */
  lemma {:induction false} SessionSurvivesNextRequest(codec: Jwt.Codec, user: CurrentUser, now: int, later: int)
    requires Jwt.Sound(codec)
    requires now <= later < now + CookieMaxAge
    ensures Hooks.SessionFromCookie(Some(codec.sign(Claims(user), now + Jwt.OneYear)), codec, later) == SignedIn(user)
  {
    Hooks.SignedTokenOpensSession(codec, Claims(user), now + Jwt.OneYear, later);
  }
}
