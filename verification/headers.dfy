/**
 * The request header sets of the client. Each variant mints a fresh token with
 * the default nonce (a fresh UUID) and nonce count (0), and differs from the
 * others only in where the shared key comes from and which fixed keys it adds.
 */
module Headers {
  import opened Wrappers
  import opened Clock
  import opened Token
  import opened Http

  const Accept: string := "application/vnd.mesh.v2+json"
  const OsArchitecture: string := "x86_64"
  const OsName: string := "Linux"
  const OsVersion: string := "#44~18.04.2-Ubuntu"
  const ApiDocsVersion: string := "ApiDocs==0.0.1"
  const WorkflowId: string := "API-DOCS-TEST"
  const OctetStream: string := "application/octet-stream"
  const JsonType: string := "application/json"

  /** The environment variable the environment-keyed variants read the shared key from. */
  const SharedKeyVariable: string := "MESH_SHARED_KEY"

  /** The six keys of the shared header set. */
  const CanonicalKeys: set<string> := {"accept", "authorization", "mex-clientversion",
                                       "mex-osarchitecture", "mex-osname", "mex-osversion"}

  /** The twelve keys of the outbound header set; `content-type` and `Content-Type` are distinct keys. */
  const OutboundKeys: set<string> := {"accept", "authorization", "content-type", "mex-clientversion",
                                      "mex-from", "mex-to", "mex-workflowid", "mex-filename",
                                      "mex-osarchitecture", "mex-osname", "mex-osversion", "Content-Type"}

  /** The seven keys of the inbound header set. */
  const InboundKeys: set<string> := {"accept", "authorization", "mex-clientversion", "mex-osarchitecture",
                                     "mex-osname", "mex-osversion", "Content-Type"}

  /** The shared key as `process.env.MESH_SHARED_KEY` yields it: undefined when unset. */
  function EnvSharedKey(env: map<string, string>): (key: Option<string>)
    ensures key.Some? <==> SharedKeyVariable in env
    ensures key.Some? ==> key.value == env[SharedKeyVariable]
  {
    if SharedKeyVariable in env then Some(env[SharedKeyVariable]) else None
  }

  /** What the token inside a header set reads back as, for a given key. */
  function ExpectedToken(mailboxId: string, password: string, key: string, uuid: string, now: Instant, hmac: Hmac): TokenParts
  {
    var ts := MinuteStamp(IsoString(now));
    TokenParts(mailboxId, uuid, "0", ts, hmac(key, HmacMessage(mailboxId, uuid, 0, password, ts)))
  }

  /** The shared header set around a token: six keys, the client version taken from the package manifest. */
  function CanonicalSet(token: string, packageVersion: string): (h: HeaderMap)
    ensures h.Keys == CanonicalKeys
    ensures Has(h, "authorization", token) && Has(h, "accept", Accept)
    ensures Has(h, "mex-clientversion", "javascript-mesh-client==" + packageVersion)
    ensures Has(h, "mex-osarchitecture", OsArchitecture) && Has(h, "mex-osname", OsName) && Has(h, "mex-osversion", OsVersion)
  {
    map[
      "accept" := Accept,
      "authorization" := token,
      "mex-clientversion" := "javascript-mesh-client==" + packageVersion,
      "mex-osarchitecture" := OsArchitecture,
      "mex-osname" := OsName,
      "mex-osversion" := OsVersion
    ]
  }

  /**
   * `generateHeaders` of the shared header module: the canonical set around a
   * token minted with the defaults.
   */
  function CanonicalHeaders(mailboxId: string, password: string, sharedKey: Option<string>,
                            packageVersion: string, uuid: string, now: Instant, hmac: Hmac): (r: Option<HeaderMap>)
    ensures r.Some? <==> sharedKey.Some?
    ensures r.Some? ==> "authorization" in r.value && r.value == CanonicalSet(r.value["authorization"], packageVersion)
  {
    match Mint(mailboxId, password, sharedKey, None, None, uuid, now, hmac)
    case None => None
    case Some(token) => Some(CanonicalSet(token, packageVersion))
  }

  /**
   * The outbound header set around a token: it names the sending and
   * receiving mailboxes, and holds both `content-type` and the distinct key
   * `Content-Type`.
   */
  function OutboundSet(mailboxId: string, target: string, token: string): (h: HeaderMap)
    ensures h.Keys == OutboundKeys
    ensures Has(h, "authorization", token)
    ensures Has(h, "mex-from", mailboxId) && Has(h, "mex-to", target)
    ensures Has(h, "content-type", OctetStream) && Has(h, "Content-Type", JsonType)
    ensures Has(h, "accept", Accept) && Has(h, "mex-clientversion", ApiDocsVersion)
    ensures Has(h, "mex-workflowid", WorkflowId) && Has(h, "mex-filename", "None")
    ensures Has(h, "mex-osarchitecture", OsArchitecture) && Has(h, "mex-osname", OsName) && Has(h, "mex-osversion", OsVersion)
  {
    map[
      "accept" := Accept,
      "authorization" := token,
      "content-type" := OctetStream,
      "mex-clientversion" := ApiDocsVersion,
      "mex-from" := mailboxId,
      "mex-to" := target,
      "mex-workflowid" := WorkflowId,
      "mex-filename" := "None",
      "mex-osarchitecture" := OsArchitecture,
      "mex-osname" := OsName,
      "mex-osversion" := OsVersion,
      "Content-Type" := JsonType
    ]
  }

  /**
   * `generateHeaders` of the outbound module, and its private copy beside
   * `sendMessage`: the shared key comes from the environment.
   */
  function OutboundHeaders(mailboxId: string, password: string, target: string, env: map<string, string>,
                           uuid: string, now: Instant, hmac: Hmac): (r: Option<HeaderMap>)
    ensures r.Some? <==> SharedKeyVariable in env
    ensures r.Some? ==> "authorization" in r.value && r.value == OutboundSet(mailboxId, target, r.value["authorization"])
  {
    match Mint(mailboxId, password, EnvSharedKey(env), None, None, uuid, now, hmac)
    case None => None
    case Some(token) => Some(OutboundSet(mailboxId, target, token))
  }

  /**
   * The token of a canonical header set reads back as minted for the mailbox
   * with the given key, UUID and clock reading.
   */
  lemma CanonicalToken(mailboxId: string, password: string, key: string, packageVersion: string,
                       uuid: string, now: Instant, hmac: Hmac)
    requires ColonFree(mailboxId) && ColonFree(uuid)
    ensures var r := CanonicalHeaders(mailboxId, password, Some(key), packageVersion, uuid, now, hmac);
      && r.Some? && "authorization" in r.value
      && ParseToken(r.value["authorization"]) == Some(ExpectedToken(mailboxId, password, key, uuid, now, hmac))
  {
    MintDefaultsFields(mailboxId, password, key, uuid, now, hmac);
  }

  /**
   * The token of an outbound header set reads back as minted for the sending
   * mailbox with the environment's key, the given UUID and the clock reading.
   */
  lemma OutboundToken(mailboxId: string, password: string, target: string, env: map<string, string>,
                      uuid: string, now: Instant, hmac: Hmac)
    requires SharedKeyVariable in env && ColonFree(mailboxId) && ColonFree(uuid)
    ensures var r := OutboundHeaders(mailboxId, password, target, env, uuid, now, hmac);
      && r.Some? && "authorization" in r.value
      && ParseToken(r.value["authorization"]) == Some(ExpectedToken(mailboxId, password, env[SharedKeyVariable], uuid, now, hmac))
  {
    MintDefaultsFields(mailboxId, password, env[SharedKeyVariable], uuid, now, hmac);
  }

  /** The inbound header set around a token: seven keys. */
  function InboundSet(token: string): (h: HeaderMap)
    ensures h.Keys == InboundKeys
    ensures Has(h, "authorization", token) && Has(h, "accept", Accept) && Has(h, "Content-Type", JsonType)
    ensures Has(h, "mex-clientversion", ApiDocsVersion)
    ensures Has(h, "mex-osarchitecture", OsArchitecture) && Has(h, "mex-osname", OsName) && Has(h, "mex-osversion", OsVersion)
  {
    map[
      "accept" := Accept,
      "authorization" := token,
      "mex-clientversion" := ApiDocsVersion,
      "mex-osarchitecture" := OsArchitecture,
      "mex-osname" := OsName,
      "mex-osversion" := OsVersion,
      "Content-Type" := JsonType
    ]
  }

  /**
   * `generateHeaders` of the inbound and status-update modules (the two copies
   * are the same): the shared key is a positional argument.
   */
  function InboundHeaders(mailboxId: string, password: string, sharedKey: Option<string>,
                          uuid: string, now: Instant, hmac: Hmac): (r: Option<HeaderMap>)
    ensures r.Some? <==> sharedKey.Some?
    ensures r.Some? ==> "authorization" in r.value && r.value == InboundSet(r.value["authorization"])
  {
    match Mint(mailboxId, password, sharedKey, None, None, uuid, now, hmac)
    case None => None
    case Some(token) => Some(InboundSet(token))
  }

  /**
   * The token of an inbound header set reads back as minted for the mailbox
   * with the given key, UUID and clock reading.
   */
  lemma InboundToken(mailboxId: string, password: string, key: string, uuid: string, now: Instant, hmac: Hmac)
    requires ColonFree(mailboxId) && ColonFree(uuid)
    ensures var r := InboundHeaders(mailboxId, password, Some(key), uuid, now, hmac);
      && r.Some? && "authorization" in r.value
      && ParseToken(r.value["authorization"]) == Some(ExpectedToken(mailboxId, password, key, uuid, now, hmac))
  {
    MintDefaultsFields(mailboxId, password, key, uuid, now, hmac);
  }

  lemma MintDefaultsFields(mailboxId: string, password: string, key: string, uuid: string, now: Instant, hmac: Hmac)
    ensures Mint(mailboxId, password, Some(key), None, None, uuid, now, hmac).Some?
    ensures ColonFree(mailboxId) && ColonFree(uuid)
            ==> ParseToken(Mint(mailboxId, password, Some(key), None, None, uuid, now, hmac).value)
                == Some(ExpectedToken(mailboxId, password, key, uuid, now, hmac))
  {
    if ColonFree(mailboxId) && ColonFree(uuid) {
      MintFields(mailboxId, password, key, None, None, uuid, now, hmac);
    }
  }
}
