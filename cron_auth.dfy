/** The shared-secret check at the top of both cron endpoints. */
module CronAuth {
  import opened Wrappers

  /**
   * `!secret || token !== secret` rejects: `secret` is the configured CRON_SECRET,
   * `token` the `secret` query parameter (None when absent).
   */
  function Authorized(secret: Option<string>, token: Option<string>): (ok: bool)
    ensures ok <==> secret.Some? && secret.value != "" && token == secret
    ensures ok ==> token.Some? && token.value != ""
  {
    !(secret.None? || secret.value == "" || token != secret)
  }
}
