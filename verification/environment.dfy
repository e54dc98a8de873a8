/** Environment variables and the site URL (lib/env.ts). */
module Environment {
  import opened Wrappers
  import Seqs

  /** `process.env`, or `None` when `process` or `process.env` is undefined. */
  type ProcessEnv = Option<map<string, string>>

  /** `window.location` when a window exists. */
  datatype Location = Location(protocol: string, host: string)

  const SiteUrlVar: string := "NEXT_PUBLIC_SITE_URL"
  const AppUrlVar: string := "NEXT_PUBLIC_APP_URL"
  const VercelUrlVar: string := "NEXT_PUBLIC_VERCEL_URL"
  const DefaultSiteUrl: string := "https://mothapp.vercel.app"

  /** `getEnv(key, fallback)`: an unset or empty variable gives the fallback. */
  function GetEnv(env: ProcessEnv, key: string, fallback: string): (r: string)
    ensures env.Some? && key in env.value && env.value[key] != "" ==> r == env.value[key]
    ensures !(env.Some? && key in env.value && env.value[key] != "") ==> r == fallback
  {
    if env.Some? && key in env.value && env.value[key] != "" then env.value[key] else fallback
  }

  /** `getEnv(SITE) || getEnv(APP) || getEnv(VERCEL)`: the first non-empty one. */
  function ConfiguredUrl(env: ProcessEnv): (r: string)
    ensures GetEnv(env, SiteUrlVar, "") != "" ==> r == GetEnv(env, SiteUrlVar, "")
    ensures GetEnv(env, SiteUrlVar, "") == "" && GetEnv(env, AppUrlVar, "") != "" ==> r == GetEnv(env, AppUrlVar, "")
    ensures GetEnv(env, SiteUrlVar, "") == "" && GetEnv(env, AppUrlVar, "") == "" ==> r == GetEnv(env, VercelUrlVar, "")
  {
    var site := GetEnv(env, SiteUrlVar, "");
    var app := GetEnv(env, AppUrlVar, "");
    if site != "" then site else if app != "" then app else GetEnv(env, VercelUrlVar, "")
  }

  /** "Make sure it has a protocol": the test is only `startsWith("http")`. */
  function WithProtocol(url: string): (r: string)
    ensures Seqs.StartsWith(r, "http")
    ensures Seqs.StartsWith(url, "http") ==> r == url
    ensures !Seqs.StartsWith(url, "http") ==> r == "https://" + url
  {
    if Seqs.StartsWith(url, "http") then url else "https://" + url
  }

  /** Adding the protocol twice is the same as adding it once. */
  lemma WithProtocolIdempotent(url: string)
    ensures WithProtocol(WithProtocol(url)) == WithProtocol(url)
  {
  }

  /** `getSiteUrl`. */
  function GetSiteUrl(env: ProcessEnv, window: Option<Location>): (r: string)
    ensures ConfiguredUrl(env) != "" ==> r == WithProtocol(ConfiguredUrl(env))
    ensures ConfiguredUrl(env) == "" && window.Some? ==>
              r == window.value.protocol + "//" + window.value.host
    ensures ConfiguredUrl(env) == "" && window.None? ==> r == DefaultSiteUrl
  {
    var configured := ConfiguredUrl(env);
    if configured != "" then WithProtocol(configured)
    else if window.Some? then window.value.protocol + "//" + window.value.host
    else DefaultSiteUrl
  }

  /** A configured host whose name merely begins with "http" gets no scheme. */
  lemma HttpPrefixedHostLeftAlone(window: Option<Location>)
    ensures GetSiteUrl(Some(map[SiteUrlVar := "httpbin.org"]), window) == "httpbin.org"
    ensures GetSiteUrl(Some(map[VercelUrlVar := "moth.example"]), window) == "https://moth.example"
  {
    assert Seqs.StartsWith("httpbin.org", "http");
    assert "moth.example"[0] == 'm';
  }

  /** `isDevelopment`. */
  function IsDevelopment(env: ProcessEnv): (r: bool)
    ensures r <==> env.Some? && NodeEnvVar in env.value && env.value[NodeEnvVar] == "development"
  {
    GetEnv(env, NodeEnvVar, "") == "development"
  }

  /** `isProduction`. */
  function IsProduction(env: ProcessEnv): (r: bool)
    ensures r <==> env.Some? && NodeEnvVar in env.value && env.value[NodeEnvVar] == "production"
  {
    GetEnv(env, NodeEnvVar, "") == "production"
  }

  const NodeEnvVar: string := "NODE_ENV"

  /** The two modes exclude each other, and any other `NODE_ENV` is neither. */
  lemma ModesExclusive(env: ProcessEnv)
    ensures !(IsDevelopment(env) && IsProduction(env))
    ensures (env.Some? && NodeEnvVar in env.value && env.value[NodeEnvVar] != "development"
             && env.value[NodeEnvVar] != "production") ==> !IsDevelopment(env) && !IsProduction(env)
  {
  }
}
