/** The server hook that runs before every request: it turns the `Auth`
    cookie into `locals.currentUser`, failing closed to `null`. */
module Hooks {
  import opened Js
  import opened App
  import opened Kit
  import Jwt

  /** The claim decoding: a verified payload that is not an object is
      rejected like a bad token; `null`, whose `typeof` is "object", is
      rejected too because destructuring it throws. Otherwise the four claims
      are copied as they are and `verifiedEmail` is false only when the claim
      is literally `false`. */
  function UserFromPayload(payload: Value): (r: Option<CurrentUser>)
    ensures r.Some? <==> payload.Obj? || payload.Arr?
    ensures r.Some? ==> (r.value.verifiedEmail <==> Prop(payload, "verifiedEmail") != Bool(false))
    ensures r.Some? ==> && r.value.uid == Prop(payload, "uid")
                        && r.value.accountType == Prop(payload, "accountType")
                        && r.value.email == Prop(payload, "email")
                        && r.value.name == Prop(payload, "name")
  {
    if !IsObjectType(payload) then None
    else if payload.Null? then None
    else
      Some(CurrentUser(
        uid := Prop(payload, "uid"),
        accountType := Prop(payload, "accountType"),
        email := Prop(payload, "email"),
        name := Prop(payload, "name"),
        verifiedEmail := Prop(payload, "verifiedEmail") != Bool(false)))
  }

  /** The session the hook leaves in `locals.currentUser` for a request whose
      `Auth` cookie is `auth`, verified at instant `now`. */
  function SessionFromCookie(auth: Option<string>, codec: Jwt.Codec, now: int): (s: Session)
    ensures !s.Unset?
    ensures auth.None? || auth == Some("") ==> s == Anonymous
    ensures s.SignedIn? ==> auth.Some? && codec.verify(auth.value, now).Some?
  {
    if auth.None? || auth.value == "" then Anonymous
    else
      match codec.verify(auth.value, now)
      case None => Anonymous
      case Some(payload) =>
        match UserFromPayload(payload)
        case None => Anonymous
        case Some(user) => SignedIn(user)
  }

  /** A token the application signed opens, before its expiry, the session
      its payload decodes to. */
  lemma {:induction false} SignedTokenOpensSession(codec: Jwt.Codec, payload: Value, exp: int, now: int)
    requires Jwt.Sound(codec)
    requires now < exp
    requires payload.Obj?
    ensures UserFromPayload(payload).Some?
    ensures SessionFromCookie(Some(codec.sign(payload, exp)), codec, now) == SignedIn(UserFromPayload(payload).value)
  {
    assert codec.sign(payload, exp) != "";
    assert codec.verify(codec.sign(payload, exp), now) == Some(payload);
  }

  /** Fail closed: only a token the application signed, not yet expired, whose
      payload is an object or array, opens a session, and the session is the
      decoding of that payload. */
  lemma {:induction false} OnlySignedTokensOpenSessions(auth: Option<string>, codec: Jwt.Codec, now: int)
    requires Jwt.Sound(codec)
    requires SessionFromCookie(auth, codec, now).SignedIn?
    ensures exists p, exp :: && auth == Some(codec.sign(p, exp)) && now < exp
                             && (p.Obj? || p.Arr?)
                             && UserFromPayload(p) == Some(SessionFromCookie(auth, codec, now).user)
  {
    var t := auth.value;
    Jwt.VerifiedMeansSigned(codec, t, now);
    var p := codec.verify(t, now).value;
    var exp :| now < exp && t == codec.sign(p, exp);
    assert auth == Some(codec.sign(p, exp));
  }

  /** An expired token gives an anonymous request. */
  lemma {:induction false} ExpiredTokenIsAnonymous(codec: Jwt.Codec, payload: Value, exp: int, now: int)
    requires Jwt.Sound(codec)
    requires exp <= now
    ensures SessionFromCookie(Some(codec.sign(payload, exp)), codec, now) == Anonymous
  {
    assert codec.verify(codec.sign(payload, exp), now) == None;
  }

  /** A string that is not a token the application signed (another key,
      another algorithm, garbage) gives an anonymous request. */
  lemma {:induction false} ForeignTokenIsAnonymous(codec: Jwt.Codec, t: string, now: int)
    requires Jwt.Sound(codec)
    requires forall p, exp :: t != codec.sign(p, exp)
    ensures SessionFromCookie(Some(t), codec, now) == Anonymous
  {
    if codec.verify(t, now).Some? {
      Jwt.VerifiedMeansSigned(codec, t, now);
      assert false;
    }
  }

  /** A signed payload that is not an object (a string, a number, `null`)
      gives an anonymous request. */
  lemma {:induction false} NonObjectPayloadIsAnonymous(codec: Jwt.Codec, payload: Value, exp: int, now: int)
    requires Jwt.Sound(codec)
    requires !payload.Obj? && !payload.Arr?
    ensures SessionFromCookie(Some(codec.sign(payload, exp)), codec, now) == Anonymous
  {
    if now < exp {
      assert codec.verify(codec.sign(payload, exp), now) == Some(payload);
    } else {
      assert codec.verify(codec.sign(payload, exp), now) == None;
    }
  }

  /** The rest of the request: `resolve(event)`, recorded with the session it
      was handed. */
  class Pipeline {
    var resolved: seq<Session>

    constructor ()
      ensures resolved == []
    {
      resolved := [];
    }

    method Resolve(locals: Locals)
      modifies this
      ensures resolved == old(resolved) + [locals.currentUser]
    {
      resolved := resolved + [locals.currentUser];
    }
  }

  /** `handle`: resets the session to `null`, reads and verifies the `Auth`
      cookie, swallows every verification failure, and calls `resolve` exactly
      once with the decoded session. It writes no cookie (the jar is not in its
      frame) and never redirects. */
  method Handle(locals: Locals, cookies: Cookies, codec: Jwt.Codec, now: int, pipeline: Pipeline)
    modifies locals, pipeline
    ensures locals.currentUser == SessionFromCookie(Lookup(cookies.jar, "Auth"), codec, now)
    ensures pipeline.resolved == old(pipeline.resolved) + [locals.currentUser]
  {
    locals.currentUser := Anonymous;
    var jwt := Lookup(cookies.jar, "Auth");
    if jwt.None? || jwt.value == "" {
      pipeline.Resolve(locals);
      return;
    }
    var verified := codec.verify(jwt.value, now);
    if verified.Some? {
      var decoded := UserFromPayload(verified.value);
      if decoded.Some? {
        locals.currentUser := SignedIn(decoded.value);
      }
    }
    pipeline.Resolve(locals);
  }
}
