/**
 * The role middlewares `verifyAdmin`, `verifyMember` and `verifyUser`. Each
 * looks up the principal's user document and lets the request through only
 * when the stored role is exactly its own role: there is no hierarchy.
 */
module Guards {
  import opened Wrappers
  import opened Store
  import opened Http
  import Auth

  datatype Guard = VerifyAdmin | VerifyMember | VerifyUser

  function RequiredRole(g: Guard): string
  {
    match g
    case VerifyAdmin => Admin
    case VerifyMember => Member
    case VerifyUser => UserRole
  }

  /** The 403 message each guard sends. */
  function Denial(g: Guard): string
  {
    match g
    case VerifyAdmin => "forbidden access 1"
    case VerifyMember => "forbidden access 2"
    case VerifyUser => "forbidden access 3"
  }

  /** One role guard, for the principal `email` the token middleware attached. */
  function Authorize(users: map<string, User>, email: string, g: Guard): (r: Gate)
    ensures r.Proceed? <==> email in users && users[email].role == RequiredRole(g)
    ensures r.Proceed? ==> r.email == email
    ensures r.Reject? ==> r == Reject(403, Denial(g))
  {
    if email !in users || users[email].role != RequiredRole(g) then Reject(403, Denial(g))
    else Proceed(email)
  }

  /** The middleware chain `verifyFBToken, <guard>` in front of a protected route. */
  function Admit(users: map<string, User>, header: Option<string>,
                 verifyIdToken: string -> Option<string>, g: Guard): (r: Gate)
    ensures Auth.BearerToken(header).None? ==> r == Reject(401, "unauthorized access")
    ensures r.Proceed? <==>
              && Auth.BearerToken(header).Some?
              && verifyIdToken(Auth.BearerToken(header).value).Some?
              && var email := verifyIdToken(Auth.BearerToken(header).value).value;
                 email in users && users[email].role == RequiredRole(g)
    ensures r.Reject? ==> r.code == 401 || r.code == 403
  {
    match Auth.VerifyFBToken(header, verifyIdToken)
    case Reject(code, message) => Reject(code, message)
    case Proceed(email) => Authorize(users, email, g)
  }

  /** No role satisfies two guards: an admin is refused by `verifyMember` and `verifyUser`. */
  lemma GuardsExclusive(users: map<string, User>, email: string, g1: Guard, g2: Guard)
    requires g1 != g2
    requires Authorize(users, email, g1).Proceed?
    ensures Authorize(users, email, g2) == Reject(403, Denial(g2))
  {
  }
}
