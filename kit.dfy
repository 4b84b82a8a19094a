/** The parts of the web framework the handlers use: what a `load` or an
    action returns, submitted form data, and the cookie jar. */
module Kit {
  import opened Js

  /** What a `load` function produces: its data, a thrown `redirect(status,
      location)`, or an uncaught exception (a failed request). */
  datatype LoadResult<+T> = Data(data: T) | Redirect(status: int, location: string) | Thrown

  /** What an action produces: `{ message }`, `fail(status, { message })`
      (no message for a bare `fail(status)`), or an uncaught exception. */
  datatype ActionResult = Ok(message: string) | Fail(status: int, reason: Option<string>) | Thrown

  /** The message every action returns when its form does not validate. */
  const InvalidFormat: string := "Le format des données entrées n'est pas valide !"

  /** A form field: text, or an uploaded file. */
  datatype Entry = Text(s: string) | Upload

  /** Submitted form data: `formData.get(name)` is `null` for a name not in the map. */
  type Form = map<string, Entry>

  /** The field as a `z.string()` accepts it: present and text. */
  function TextField(form: Form, name: string): (r: Option<string>)
    ensures r.Some? <==> name in form && form[name].Text?
    ensures r.Some? ==> form[name] == Text(r.value)
  {
    if name in form && form[name].Text? then Some(form[name].s) else None
  }

  /** `z.literal("yes").or(z.literal("no"))`. */
  predicate IsYesNo(s: string) {
    s == "yes" || s == "no"
  }

  datatype CookieOptions = CookieOptions(path: string, maxAge: int, sameSite: string, httpOnly: bool, secure: bool)

  datatype Cookie = Cookie(value: string, options: CookieOptions)

  /** The cookies a request carries, as later updated by the response. Every
      cookie the application sets or deletes uses path "/", so cookies are
      keyed by name. */
  type Jar = map<string, Cookie>

  /** `cookies.get(name)`. */
  function Lookup(jar: Jar, name: string): (r: Option<string>)
    ensures r.Some? <==> name in jar
    ensures r.Some? ==> r.value == jar[name].value
  {
    if name in jar then Some(jar[name].value) else None
  }

  /** The options of a preference cookie: readable by scripts. */
  function PreferenceOptions(maxAge: int): CookieOptions {
    CookieOptions("/", maxAge, "lax", false, true)
  }

  /** The options of the `Auth` cookie: hidden from scripts. */
  function AuthOptions(maxAge: int): CookieOptions {
    CookieOptions("/", maxAge, "lax", true, true)
  }

  /** The `cookies` object of one request. */
  class Cookies {
    var jar: Jar

    constructor (initial: Jar)
      ensures jar == initial
    {
      jar := initial;
    }

    /** `cookies.set(name, value, options)`. */
    method Set(name: string, value: string, options: CookieOptions)
      modifies this
      ensures jar == old(jar)[name := Cookie(value, options)]
    {
      jar := jar[name := Cookie(value, options)];
    }

    /** `cookies.delete(name, { path: "/" })`. */
    method Delete(name: string)
      modifies this
      ensures jar == old(jar) - {name}
    {
      jar := jar - {name};
    }
  }
}
