/**
 * The passcode check the recorder service's HTTP middleware applies to every
 * request before routing it.
 */
module Auth {
  import opened Wrappers

  /** What the middleware looks at: the URL path, the method, and the `X-Picasso-Passcode` header if sent. */
  datatype Request = Request(path: string, httpMethod: string, passcode: Option<string>)

  /** Pass the request on, or answer 401 Unauthorized. */
  datatype Decision = Forward | Unauthorized

  /** The routes that need the exact passcode. */
  predicate Protected(path: string) {
    path == "/start_recording" || path == "/stop_recording" || path == "/take_picture"
  }

  /** The header is missing or empty. */
  predicate NoPasscode(r: Request) {
    r.passcode.None? || r.passcode.value == ""
  }

  /**
   * The middleware `test`. A request is refused exactly when security is on,
   * it is neither `/stream` nor a preflight, and its header is missing, empty,
   * or (on a protected route) not the passcode.
   */
  function Authorize(r: Request, secure: bool, passcode: string): (d: Decision)
    ensures d == Unauthorized <==>
      && secure && r.path != "/stream" && r.httpMethod != "OPTIONS"
      && (NoPasscode(r) || (Protected(r.path) && r.passcode != Some(passcode)))
  {
    if r.path == "/stream" then Forward
    else if r.httpMethod == "OPTIONS" then Forward
    else if secure && NoPasscode(r) then Unauthorized
    else if secure && Protected(r.path) && r.passcode.value != passcode then Unauthorized
    else Forward
  }

  /** With security off every request is forwarded. */
  lemma InsecureForwardsAll(r: Request, passcode: string)
    ensures Authorize(r, false, passcode) == Forward
  {
  }

  /** The right passcode, if it is not empty, opens every route. */
  lemma CorrectPasscodeForwarded(r: Request, secure: bool, passcode: string)
    requires passcode != "" && r.passcode == Some(passcode)
    ensures Authorize(r, secure, passcode) == Forward
  {
  }

  /** Any non-empty header, right or wrong, opens the routes that are not protected, such as `/metadata`. */
  lemma AnyHeaderOpensUnprotected(r: Request, secure: bool, passcode: string)
    requires !Protected(r.path) && !NoPasscode(r)
    ensures Authorize(r, secure, passcode) == Forward
  {
  }

  /** With security on and an empty configured passcode, the protected routes can never be reached. */
  lemma EmptyPasscodeLocksProtected(r: Request, passcode: string)
    requires passcode == "" && Protected(r.path) && r.httpMethod != "OPTIONS"
    ensures Authorize(r, true, passcode) == Unauthorized
  {
  }
}
