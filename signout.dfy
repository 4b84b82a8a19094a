/** The sign-out action: deletes the session and preference cookies and
    clears the session. */
module SignOut {
  import opened Js
  import opened App
  import opened Kit
  import Jwt
  import Hooks
  import RootLayout

  const SignedOutMessage: string := "Vous êtes à présent déconnecté(e) !"

  /** The jar after the three deletions: `Auth`, `SBOpen` and `Colour` are
      gone and every other cookie is kept as it was. */
  function SignedOut(jar: Jar): (j: Jar)
    ensures forall name :: name in j <==> name in jar && name != "Auth" && name != "SBOpen" && name != "Colour"
    ensures forall name :: name in j ==> j[name] == jar[name]
  {
    jar - {"Auth", "SBOpen", "Colour"}
  }

  /** `actions.default`: the same message whatever the prior session. */
  method Action(locals: Locals, cookies: Cookies) returns (r: ActionResult)
    modifies locals, cookies
    ensures cookies.jar == SignedOut(old(cookies.jar))
    ensures locals.currentUser == Unset
    ensures r == Ok(SignedOutMessage)
  {
    cookies.Delete("Auth");
    cookies.Delete("SBOpen");
    cookies.Delete("Colour");
    locals.currentUser := Unset;
    r := Ok(SignedOutMessage);
  }

  /** Signing out twice leaves the same jar as signing out once. */
  lemma {:induction false} Idempotent(jar: Jar)
    ensures SignedOut(SignedOut(jar)) == SignedOut(jar)
  {
  }

  /** The next request finds no `Auth` cookie, so the hook leaves it anonymous,
      and the root layout shows the side bar closed and the large-screen flag
      unchanged. */
  lemma {:induction false} NextRequestIsAnonymous(jar: Jar, codec: Jwt.Codec, now: int)
    ensures Hooks.SessionFromCookie(Lookup(SignedOut(jar), "Auth"), codec, now) == Anonymous
    ensures !RootLayout.Load(Anonymous, SignedOut(jar)).sideBarOpen
    ensures RootLayout.Load(Anonymous, SignedOut(jar)).largeScreen == RootLayout.Load(Anonymous, jar).largeScreen
  {
  }
}
