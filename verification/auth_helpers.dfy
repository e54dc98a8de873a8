/** Redirect URLs for authentication e-mails (lib/supabase/auth-helpers.ts). */
module AuthHelpers {
  import opened Wrappers
  import Environment
  import Seqs

  const DefaultRedirectPath: string := "auth/callback"

  /** `path.startsWith("/") ? path.slice(1) : path`. */
  function StripLeadingSlash(path: string): (r: string)
    ensures |path| > 0 && path[0] == '/' ==> path == "/" + r
    ensures !(|path| > 0 && path[0] == '/') ==> r == path
  {
    if |path| > 0 && path[0] == '/' then path[1..] else path
  }

  /** `getRedirectUrl(path)`; `None` is an omitted argument. */
  function GetRedirectUrl(env: Environment.ProcessEnv, window: Option<Environment.Location>, path: Option<string>)
    : (r: string)
    ensures var site := Environment.GetSiteUrl(env, window);
            var requested := path.GetOr(DefaultRedirectPath);
            && Seqs.StartsWith(r, site + "/")
            && var rest := r[|site| + 1..];
               if |requested| > 0 && requested[0] == '/' then "/" + rest == requested else rest == requested
  {
    Environment.GetSiteUrl(env, window) + "/" + StripLeadingSlash(path.GetOr(DefaultRedirectPath))
  }

  /** The `redirectTo` that `inviteUser` builds. */
  function InviteRedirect(env: Environment.ProcessEnv, window: Option<Environment.Location>): (r: string)
    ensures Seqs.StartsWith(r, Environment.GetSiteUrl(env, window))
    ensures r[|Environment.GetSiteUrl(env, window)|..] == "/auth/callback"
  {
    Environment.GetSiteUrl(env, window) + "/auth/callback"
  }

  /** The default redirect is the invitation callback. */
  lemma DefaultIsInviteCallback(env: Environment.ProcessEnv, window: Option<Environment.Location>)
    ensures GetRedirectUrl(env, window, None) == InviteRedirect(env, window)
  {
    var site := Environment.GetSiteUrl(env, window);
    assert StripLeadingSlash(DefaultRedirectPath) == DefaultRedirectPath;
    assert site + "/" + DefaultRedirectPath == site + "/auth/callback";
  }

  /** One leading slash makes no difference; a second one is kept. */
  lemma LeadingSlashIgnored(env: Environment.ProcessEnv, window: Option<Environment.Location>, path: string)
    ensures GetRedirectUrl(env, window, Some("/" + path)) == GetRedirectUrl(env, window, Some(path))
            || (|path| > 0 && path[0] == '/')
    ensures GetRedirectUrl(env, window, Some("//x")) == Environment.GetSiteUrl(env, window) + "//x"
  {
    assert ("/" + path)[1..] == path;
    assert StripLeadingSlash("//x") == "/x";
  }
}
