/** The email-verification page (its `load` guard and its resend action) and
    the layout around it. */
module EmailVerif {
  import opened Js
  import opened App
  import opened Kit
  import Jwt
  import Mail
  import Hooks
  import SignIn
  import SignUp

  const Resent: string := "Un nouvel email a bien été envoyé !"

  datatype PageData = PageData(email: Value)

  /** `load` of the page: an anonymous visitor is sent home; a signed-in one
      gets exactly the email of the session. */
  function Load(currentUser: Session): (r: LoadResult<PageData>)
    ensures r.Redirect? <==> !currentUser.SignedIn?
    ensures r.Redirect? ==> r.status == 303 && r.location == "/"
    ensures r.Data? ==> r.data == PageData(currentUser.user.email)
    ensures !r.Thrown?
  {
    if !currentUser.SignedIn? then Redirect(303, "/")
    else Data(PageData(email := currentUser.user.email))
  }

  /** `actions.default`: refuses an anonymous request with a bare 401 and sends
      nothing; otherwise mails a link whose path ends with the `Auth` cookie
      as it stands, and changes neither the cookies nor the session. */
  method Action(locals: Locals, cookies: Cookies, outbox: Mail.Outbox) returns (r: ActionResult)
    modifies outbox
    ensures !locals.currentUser.SignedIn? ==> r == Fail(401, None) && outbox.sent == old(outbox.sent)
    ensures locals.currentUser.SignedIn? ==>
              && r == Ok(Resent)
              && outbox.sent == old(outbox.sent) +
                   [Mail.VerificationMail(locals.currentUser.user.name, locals.currentUser.user.email,
                                          SignUp.VerifyPath(TemplateText(Lookup(cookies.jar, "Auth"))))]
  {
    var currentUser := locals.currentUser;
    if !currentUser.SignedIn? {
      return Fail(401, None);
    }

    var verifURL := SignUp.VerifyPath(TemplateText(Lookup(cookies.jar, "Auth")));
    outbox.Send(Mail.VerificationMail(currentUser.user.name, currentUser.user.email, verifURL));

    r := Ok(Resent);
  }

  /** When the session is the hook's, the `Auth` cookie it came from is there,
      so the resent link carries that token unchanged and never the text
      "undefined". */
  lemma {:induction false} ResendLinkCarriesSessionToken(jar: Jar, codec: Jwt.Codec, now: int)
    requires Hooks.SessionFromCookie(Lookup(jar, "Auth"), codec, now).SignedIn?
    ensures "Auth" in jar
    ensures SignUp.VerifyPath(TemplateText(Lookup(jar, "Auth"))) == SignUp.VerifyPath(jar["Auth"].value)
  {
  }

  /** `load` of the layout: it reads `currentUser.isAuthenticated` without a
      null check, so an anonymous request fails; it redirects home when both
      `isAuthenticated` and `verifiedEmail` are truthy. */
  function LayoutLoad(currentUser: Session): (r: LoadResult<()>)
    ensures r.Thrown? <==> !currentUser.SignedIn?
    ensures r.Redirect? ==> && r.status == 303 && r.location == "/"
                            && Truthy(UserProp(currentUser.user, "isAuthenticated"))
                            && currentUser.user.verifiedEmail
    ensures (&& currentUser.SignedIn? && Truthy(UserProp(currentUser.user, "isAuthenticated"))
             && currentUser.user.verifiedEmail) ==> r.Redirect?
  {
    match currentUser
    case SignedIn(user) =>
      if Truthy(UserProp(user, "isAuthenticated")) && Truthy(UserProp(user, "verifiedEmail"))
      then Redirect(303, "/")
      else Data(())
    case _ => LoadResult.Thrown
  }

  /** A session of the shape the hook, sign-in and sign-up build never
      carries `isAuthenticated`, so on such a session the layout's guard never
      fires: a verified user is not sent away, and an unverified one is not
      either. */
  lemma {:induction false} LayoutNeverRedirects(currentUser: Session)
    ensures !LayoutLoad(currentUser).Redirect?
    ensures currentUser.SignedIn? ==> LayoutLoad(currentUser) == Data(())
  {
    if currentUser.SignedIn? {
      assert UserProp(currentUser.user, "isAuthenticated") == Undefined;
    }
  }

  /** In particular for every session the hook produces, whatever the cookie. */
  lemma {:induction false} LayoutNeverRedirectsAfterHook(auth: Option<string>, codec: Jwt.Codec, now: int)
    ensures !LayoutLoad(Hooks.SessionFromCookie(auth, codec, now)).Redirect?
  {
    LayoutNeverRedirects(Hooks.SessionFromCookie(auth, codec, now));
  }

  /** The sign-in and sign-up pages and the verification page split visitors
      between them: whoever is sent away from one is let into the others. */
  lemma {:induction false} GuardsComplement(currentUser: Session)
    ensures SignIn.Load(currentUser).Redirect? <==> !Load(currentUser).Redirect?
    ensures SignUp.Load(currentUser).Redirect? <==> !Load(currentUser).Redirect?
  {
  }
}
