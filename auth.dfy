/**
 * auth_utils.py: the API-token check of `require_bearer_token`, the
 * fail-closed loading of the token, and the missing-hash guard of
 * `verify_password`.  bcrypt is an opaque parameter and
 * `secrets.compare_digest` is plain equality.
 */
module Auth {
  import opened Wrappers
  import Strings

  /** The two secrets read from the environment at import time (lines 8-9). */
  datatype AuthConfig = AuthConfig(apiToken: string, adminHash: Option<string>)

  const MissingTokenMessage := "N8N_API_TOKEN is not set. Add it to .env and restart the server."

  /** Lines 8-9 and 24-25: the module refuses to load unless `N8N_API_TOKEN` is set and non-empty. */
  function LoadAuth(adminHashEnv: Option<string>, apiTokenEnv: Option<string>): (r: Result<AuthConfig, string>)
    ensures r.Failure? <==> apiTokenEnv.None? || apiTokenEnv.value == ""
    ensures r.Failure? ==> r.error == MissingTokenMessage
    ensures r.Success? ==> r.value.apiToken == apiTokenEnv.value && r.value.apiToken != "" && r.value.adminHash == adminHashEnv
  {
    if apiTokenEnv.None? || apiTokenEnv.value == "" then Failure(MissingTokenMessage)
    else Success(AuthConfig(apiTokenEnv.value, adminHashEnv))
  }

  /**
   * `verify_password` (lines 11-14): no configured hash, or an empty one,
   * rejects every password; otherwise bcrypt (`checkpw`) decides.
   */
  function VerifyPassword(cfg: AuthConfig, password: string, checkpw: (string, string) -> bool): (ok: bool)
    ensures cfg.adminHash.None? || cfg.adminHash.value == "" ==> !ok
    ensures ok ==> checkpw(password, cfg.adminHash.value)
  {
    if cfg.adminHash.None? || cfg.adminHash.value == "" then false
    else checkpw(password, cfg.adminHash.value)
  }

  const BearerScheme := "bearer"

  /**
   * Lines 38-41: the token an `Authorization` header offers, if it is
   * "<scheme> <rest>" with a scheme that lower-cases to "bearer".
   */
  function BearerCandidate(authorization: Option<string>): Option<string> {
    if authorization.None? || authorization.value == "" then None
    else
      var parts := Strings.SplitFirst(authorization.value, ' ');
      if |parts| == 2 && Strings.Lower(parts[0]) == BearerScheme then Some(Strings.Strip(parts[1])) else None
  }

  /** A well-formed header yields its stripped token, whatever the case of the scheme. */
  lemma BearerOfWellFormed(scheme: string, rest: string)
    requires ' ' !in scheme && Strings.Lower(scheme) == BearerScheme
    ensures BearerCandidate(Some(scheme + " " + rest)) == Some(Strings.Strip(rest))
  {
    Strings.SplitFirstOf(scheme, ' ', rest);
  }

  /** Any other first word, or a header without a space, yields nothing. */
  lemma BearerRejectsOtherSchemes(scheme: string, rest: string)
    requires ' ' !in scheme && Strings.Lower(scheme) != BearerScheme
    ensures BearerCandidate(Some(scheme + " " + rest)) == None
    ensures ' ' !in rest ==> BearerCandidate(Some(rest)) == None
  {
    Strings.SplitFirstOf(scheme, ' ', rest);
  }

  /** Lines 36-44: the header's candidate, or the stripped `X-API-Token` when the header gave none or an empty one. */
  function Candidate(authorization: Option<string>, xApiToken: Option<string>): (c: Option<string>)
    ensures var b := BearerCandidate(authorization);
      b.Some? && b.value != "" ==> c == b
    ensures var b := BearerCandidate(authorization);
      (b.None? || b.value == "") && xApiToken.Some? && xApiToken.value != "" ==> c == Some(Strings.Strip(xApiToken.value))
  {
    var bearer := BearerCandidate(authorization);
    if (bearer.None? || bearer.value == "") && xApiToken.Some? && xApiToken.value != "" then
      Some(Strings.Strip(xApiToken.value))
    else bearer
  }

  /** What the dependency answers: nothing (the request proceeds) or an HTTP error. */
  datatype Outcome = Accepted | Rejected(status: nat, detail: string, challenge: string)

  const Unauthorized := Rejected(401, "Invalid or missing token", "Bearer")

  /** `require_bearer_token` (lines 27-51). */
  function RequireBearerToken(cfg: AuthConfig, authorization: Option<string>, xApiToken: Option<string>): (o: Outcome)
    ensures o.Accepted? <==> Candidate(authorization, xApiToken) == Some(cfg.apiToken) && cfg.apiToken != ""
    ensures o.Rejected? ==> o == Unauthorized
  {
    var candidate := Candidate(authorization, xApiToken);
    if candidate.Some? && candidate.value != "" && candidate.value == cfg.apiToken then Accepted else Unauthorized
  }

  /** An accepted request presented the configured token in one of the two headers. */
  lemma AcceptedMeansToken(cfg: AuthConfig, authorization: Option<string>, xApiToken: Option<string>)
    requires RequireBearerToken(cfg, authorization, xApiToken).Accepted?
    ensures cfg.apiToken != ""
    ensures BearerCandidate(authorization) == Some(cfg.apiToken)
         || (xApiToken.Some? && Strings.Strip(xApiToken.value) == cfg.apiToken)
  {
  }

  /** When the `Authorization` header carries a non-empty candidate, `X-API-Token` plays no part. */
  lemma HeaderTakesPrecedence(cfg: AuthConfig, authorization: Option<string>, x1: Option<string>, x2: Option<string>)
    requires BearerCandidate(authorization).Some? && BearerCandidate(authorization).value != ""
    ensures RequireBearerToken(cfg, authorization, x1) == RequireBearerToken(cfg, authorization, x2)
  {
  }

  /** With no usable header, a correct `X-API-Token` is accepted (the token is never blank once stripped of nothing). */
  lemma FallbackAccepted(cfg: AuthConfig, authorization: Option<string>, x: string)
    requires cfg.apiToken != ""
    requires BearerCandidate(authorization).None? || BearerCandidate(authorization).value == ""
    requires Strings.Strip(x) == cfg.apiToken
    ensures RequireBearerToken(cfg, authorization, Some(x)).Accepted?
  {
  }

  /** A header "Bearer <token>" in any letter case is accepted, whatever `X-API-Token` says. */
  lemma BearerHeaderAccepted(cfg: AuthConfig, scheme: string, token: string, xApiToken: Option<string>)
    requires cfg.apiToken != "" && Strings.Strip(token) == cfg.apiToken
    requires ' ' !in scheme && Strings.Lower(scheme) == BearerScheme
    ensures RequireBearerToken(cfg, Some(scheme + " " + token), xApiToken).Accepted?
  {
    BearerOfWellFormed(scheme, token);
  }
}
