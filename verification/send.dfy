/**
 * `sendMessage`: one POST of a whole message, wrapped as the JSON object
 * `{data: message}`, to the sender's outbox.
 */
module SingleSend {
  import opened Wrappers
  import opened Token
  import opened Http
  import opened Headers

  /**
   * The caller's parameters shared by the environment-keyed senders: base URL,
   * credentials, recipient, and whether the TLS agent is attached.
   */
  datatype Outbound = Outbound(url: string, mailboxId: string, password: string, target: string, tlsEnabled: bool)

  /**
   * `sendMessage`: the headers are built (and the token minted with UUID 0)
   * before the POST; a 202 returns the response, any other accepted status
   * ends the process, and a rejected one rejects the call.
   */
  function SendMessage(c: Outbound, message: string, env: map<string, string>, script: seq<Response>, fx: Effects): (r: Run<Response>)
    ensures |r.log| == 1 <==> SharedKeyVariable in env
    ensures |r.log| <= 1
    ensures r.outcome.Ok? <==> SharedKeyVariable in env && |script| > 0 && script[0].status == 202
    ensures r.outcome.Ok? ==> r.outcome.value == script[0]
    ensures r.outcome.Err? ==>
      || (SharedKeyVariable !in env && r.outcome.error == MissingSharedKey)
      || (|script| == 0 && r.outcome.error == NoResponse)
      || (|script| > 0 && !Accepted(script[0].status) && r.outcome.error == HttpStatus(script[0].status))
      || (|script| > 0 && Accepted(script[0].status) && script[0].status != 202
          && r.outcome.error == ProcessExit(script[0].status))
    ensures |r.log| == 1 ==>
      && r.log[0].verb == Post && r.log[0].url == OutboxUrl(c.url, c.mailboxId)
      && r.log[0].body == JsonData(message) && r.log[0].httpsAgent == c.tlsEnabled
      && Has(r.log[0].headers, "mex-from", c.mailboxId) && Has(r.log[0].headers, "mex-to", c.target)
      && "authorization" in r.log[0].headers
      && r.log[0].headers == OutboundSet(c.mailboxId, c.target, r.log[0].headers["authorization"])
  {
    match OutboundHeaders(c.mailboxId, c.password, c.target, env, fx.uuid(0), fx.now(0), fx.hmac)
    case None => Run([], Err(MissingSharedKey))
    case Some(h) =>
      var request := Request(Post, OutboxUrl(c.url, c.mailboxId), h, JsonData(message), c.tlsEnabled);
      if |script| == 0 then Run([request], Err(NoResponse))
      else if !Accepted(script[0].status) then Run([request], Err(HttpStatus(script[0].status)))
      else if script[0].status == 202 then Run([request], Ok(script[0]))
      else Run([request], Err(ProcessExit(script[0].status)))
  }

  /**
   * The POST is signed with the environment's shared key: its token reads
   * back as minted for the sender with UUID 0 and the clock's first reading.
   */
  lemma SendMessageToken(c: Outbound, message: string, env: map<string, string>, script: seq<Response>, fx: Effects)
    requires SharedKeyVariable in env && ColonFree(c.mailboxId) && ColonFree(fx.uuid(0))
    ensures |SendMessage(c, message, env, script, fx).log| == 1
    ensures ParseToken(SendMessage(c, message, env, script, fx).log[0].headers["authorization"])
            == Some(ExpectedToken(c.mailboxId, c.password, env[SharedKeyVariable], fx.uuid(0), fx.now(0), fx.hmac))
  {
    OutboundToken(c.mailboxId, c.password, c.target, env, fx.uuid(0), fx.now(0), fx.hmac);
  }
}
