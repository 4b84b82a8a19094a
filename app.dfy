/** The request-local state every handler shares: `locals.currentUser`,
    shaped as in `App.Locals` (src/app.d.ts). */
module App {
  import opened Js

  /** The session record. The hook copies the four claims verbatim from the
      token payload, so they are JavaScript values, not checked strings. */
  datatype CurrentUser = CurrentUser(
    uid: Value,
    accountType: Value,
    email: Value,
    name: Value,
    verifiedEmail: bool)

  /** `locals.currentUser`: `undefined` (after sign-out), `null` (set by the
      hook for an anonymous request) or a signed-in user. Only the last is truthy. */
  datatype Session = Unset | Anonymous | SignedIn(user: CurrentUser)

  /** The JavaScript property read `currentUser.key` on the session record:
      exactly the five fields are present, any other property is `undefined`. */
  function UserProp(u: CurrentUser, key: string): (v: Value)
    ensures key !in {"uid", "accountType", "email", "name", "verifiedEmail"} ==> v == Undefined
    ensures key == "verifiedEmail" ==> v == Bool(u.verifiedEmail)
  {
    match key
    case "uid" => u.uid
    case "accountType" => u.accountType
    case "email" => u.email
    case "name" => u.name
    case "verifiedEmail" => Bool(u.verifiedEmail)
    case _ => Undefined
  }

  /** `event.locals`, which the hook and the actions assign in place. */
  class Locals {
    var currentUser: Session

    constructor ()
      ensures currentUser == Unset
    {
      currentUser := Unset;
    }
  }
}
