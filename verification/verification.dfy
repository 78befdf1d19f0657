/** The GET /webhook verification handshake (index.js:15-29). */
module Verification {
  import opened JsText
  import opened Messenger

  const SubscribeMode := "subscribe"

  /**
    * The answer to `GET /webhook?hub.mode=…&hub.verify_token=…&hub.challenge=…` when the
    * server's configured secret is `verifyToken`. An undefined challenge is sent as an empty body.
    */
  function VerifyWebhook(mode: Option<string>, token: Option<string>, challenge: Option<string>,
                         verifyToken: Option<string>): (r: HttpResponse)
    ensures r.code in {200, 400, 403}
    ensures r.code == 200 <==>
      Truthy(mode) && Truthy(token) && mode == Some(SubscribeMode) && token == verifyToken
    ensures r.code == 200 ==> r == Send(200, challenge.GetOr(""))
    ensures r.code == 403 <==>
      Truthy(mode) && Truthy(token) && !(mode == Some(SubscribeMode) && token == verifyToken)
    ensures r.code == 400 <==> !Truthy(mode) || !Truthy(token)
    ensures r.code != 200 ==> r.SendStatus?
  {
    if Truthy(mode) && Truthy(token) then
      if mode == Some(SubscribeMode) && token == verifyToken then
        Send(200, challenge.GetOr(""))
      else
        SendStatus(403)
    else
      SendStatus(400)
  }

  /** Lemma: the status never depends on the challenge; only a successful answer carries it. */
  lemma StatusIgnoresChallenge(mode: Option<string>, token: Option<string>, c1: Option<string>,
                               c2: Option<string>, verifyToken: Option<string>)
    ensures VerifyWebhook(mode, token, c1, verifyToken).code == VerifyWebhook(mode, token, c2, verifyToken).code
  {
  }

  /**
    * Lemma: when the secret is not configured, or is empty, no request verifies: each one is
    * rejected with 400 or 403.
    */
  lemma UnsetSecretNeverVerifies(mode: Option<string>, token: Option<string>, challenge: Option<string>,
                                 verifyToken: Option<string>)
    requires !Truthy(verifyToken)
    ensures VerifyWebhook(mode, token, challenge, verifyToken).code in {400, 403}
  {
  }
}
