/** The admin route guard (middleware.ts). */
module Middleware {
  import Seqs

  const AdminPrefix: string := "/admin"
  const LoginPath: string := "/admin/login"

  /** `NextResponse.next()` or a redirect to a path on the same origin. */
  datatype Response = Next | Redirect(path: string)

  /** `middleware(req)`, given whether a session exists and the request path. */
  function Middleware(hasSession: bool, pathname: string): (r: Response)
    ensures r.Redirect? <==> !hasSession && Seqs.StartsWith(pathname, AdminPrefix) && pathname != LoginPath
    ensures r.Redirect? ==> r.path == LoginPath
  {
    if !hasSession && Seqs.StartsWith(pathname, AdminPrefix) && pathname != LoginPath then Redirect(LoginPath)
    else Next
  }

  /** Following a redirect never redirects again, and a signed-in user always passes. */
  lemma NoRedirectLoop(hasSession: bool, pathname: string)
    ensures Middleware(hasSession, pathname).Redirect? ==> Middleware(hasSession, Middleware(hasSession, pathname).path) == Next
    ensures Middleware(true, pathname) == Next
  {
  }
}
