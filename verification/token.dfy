/**
 * The MESH authorisation token. The client carries five copies of
 * `generateToken` that differ only in where the shared key comes from; all of
 * them compute `Mint`, given the key they look up.
 */
module Token {
  import opened Wrappers
  import opened Text
  import opened Clock

  /** The authorisation scheme name, with the space that separates it from the mailbox id. */
  const Scheme: string := "NHSMESH "

  /** HMAC-SHA256 keyed by the first argument over the second, hex-encoded: a foreign call. */
  type Hmac = (string, string) -> string

  predicate ColonFree(s: string) { ':' !in s }

  /** The HMAC input: mailbox id, nonce, nonce count, password and timestamp, colon-joined. */
  function HmacMessage(mailboxId: string, nonce: string, nonceCount: nat, password: string, timestamp: string): (r: string)
    ensures r == mailboxId + ":" + nonce + ":" + NatToString(nonceCount) + ":" + password + ":" + timestamp
  {
    JoinFromFifth([mailboxId, nonce, NatToString(nonceCount), password, timestamp], ':');
    Join([mailboxId, nonce, NatToString(nonceCount), password, timestamp], ':')
  }

  /** The five colon-separated fields a token carries after the scheme. */
  datatype TokenParts = TokenParts(mailboxId: string, nonce: string, nonceCount: string, timestamp: string, digest: string)

  function Render(p: TokenParts): (r: string)
    ensures r == Scheme + p.mailboxId + ":" + p.nonce + ":" + p.nonceCount + ":" + p.timestamp + ":" + p.digest
  {
    JoinFromFifth([p.mailboxId, p.nonce, p.nonceCount, p.timestamp, p.digest], ':');
    Scheme + Join([p.mailboxId, p.nonce, p.nonceCount, p.timestamp, p.digest], ':')
  }

  /** Reads a token back into its fields; the digest is everything after the fourth colon. */
  function ParseToken(token: string): (r: Option<TokenParts>)
    ensures r.Some? ==> Render(r.value) == token
    ensures r.Some? ==> ColonFree(r.value.mailboxId) && ColonFree(r.value.nonce)
                        && ColonFree(r.value.nonceCount) && ColonFree(r.value.timestamp)
  {
    if |token| < |Scheme| || token[..|Scheme|] != Scheme then None
    else
      var body := token[|Scheme|..];
      var f := SplitOn(body, ':');
      if |f| < 5 then None
      else
        JoinSplit(body, ':');
        RenderFields(f);
        assert token == Scheme + body;
        Some(TokenParts(f[0], f[1], f[2], f[3], Join(f[4..], ':')))
  }

  /** Rendering the fields a split yields, the fifth holding the rest, joins the split back. */
  lemma RenderFields(f: seq<string>)
    requires |f| >= 5
    ensures Render(TokenParts(f[0], f[1], f[2], f[3], Join(f[4..], ':'))) == Scheme + Join(f, ':')
  {
    var parts := [f[0], f[1], f[2], f[3], Join(f[4..], ':')];
    assert parts[4..] == [Join(f[4..], ':')];
    JoinFromFifth(parts, ':');
    JoinFromFifth(f, ':');
    assert Join(parts, ':') == Join(f, ':');
  }

  /** Rendering and parsing are inverse when the first four fields hold no colon. */
  lemma ParseRender(p: TokenParts)
    requires ColonFree(p.mailboxId) && ColonFree(p.nonce) && ColonFree(p.nonceCount) && ColonFree(p.timestamp)
    ensures ParseToken(Render(p)) == Some(p)
  {
    var body := Join([p.mailboxId, p.nonce, p.nonceCount, p.timestamp, p.digest], ':');
    var t := Render(p);
    assert t[..|Scheme|] == Scheme && t[|Scheme|..] == body;
    var l3 := Join([p.timestamp, p.digest], ':');
    var l2 := Join([p.nonceCount, p.timestamp, p.digest], ':');
    var l1 := Join([p.nonce, p.nonceCount, p.timestamp, p.digest], ':');
    assert [p.timestamp, p.digest][1..] == [p.digest];
    assert Join([p.digest], ':') == p.digest;
    assert l3 == p.timestamp + [':'] + p.digest;
    assert [p.nonceCount, p.timestamp, p.digest][1..] == [p.timestamp, p.digest];
    assert l2 == p.nonceCount + [':'] + l3;
    assert [p.nonce, p.nonceCount, p.timestamp, p.digest][1..] == [p.nonceCount, p.timestamp, p.digest];
    assert l1 == p.nonce + [':'] + l2;
    assert [p.mailboxId, p.nonce, p.nonceCount, p.timestamp, p.digest][1..] == [p.nonce, p.nonceCount, p.timestamp, p.digest];
    assert body == p.mailboxId + [':'] + l1;
    SplitOnAppend(p.timestamp, p.digest, ':');
    SplitOnAppend(p.nonceCount, l3, ':');
    SplitOnAppend(p.nonce, l2, ':');
    SplitOnAppend(p.mailboxId, l1, ':');
    var f := SplitOn(body, ':');
    assert f == [p.mailboxId, p.nonce, p.nonceCount, p.timestamp] + SplitOn(p.digest, ':');
    assert f[4..] == SplitOn(p.digest, ':');
    JoinSplit(p.digest, ':');
  }

  /**
   * `generateToken`. A missing nonce defaults to the fresh UUID, a missing
   * nonce count to 0; the timestamp comes from the clock reading `now`. An
   * undefined key makes the HMAC call throw, which is the `None` result.
   */
  function Mint(mailboxId: string, password: string, key: Option<string>,
                nonce: Option<string>, nonceCount: Option<nat>,
                freshUuid: string, now: Instant, hmac: Hmac): (r: Option<string>)
    ensures r.Some? <==> key.Some?
    ensures r.Some? ==> |r.value| >= |Scheme| && r.value[..|Scheme|] == Scheme
  {
    match key
    case None => None
    case Some(k) =>
      var n := if nonce.Some? then nonce.value else freshUuid;
      var c := if nonceCount.Some? then nonceCount.value else 0;
      var ts := MinuteStamp(IsoString(now));
      Some(Render(TokenParts(mailboxId, n, NatToString(c), ts, hmac(k, HmacMessage(mailboxId, n, c, password, ts)))))
  }

  /** The nonce and nonce count a call to `Mint` ends up using. */
  function EffectiveNonce(nonce: Option<string>, freshUuid: string): string
  {
    if nonce.Some? then nonce.value else freshUuid
  }

  function EffectiveCount(nonceCount: Option<nat>): nat
  {
    if nonceCount.Some? then nonceCount.value else 0
  }

  /**
   * A minted token reads back as mailbox id, nonce, nonce count, minute
   * timestamp and the HMAC of the colon-joined input keyed by the shared key.
   */
  lemma MintFields(mailboxId: string, password: string, key: string,
                   nonce: Option<string>, nonceCount: Option<nat>,
                   freshUuid: string, now: Instant, hmac: Hmac)
    requires ColonFree(mailboxId) && ColonFree(EffectiveNonce(nonce, freshUuid))
    ensures
      var n, c := EffectiveNonce(nonce, freshUuid), EffectiveCount(nonceCount);
      var ts := MinuteStamp(IsoString(now));
      && Mint(mailboxId, password, Some(key), nonce, nonceCount, freshUuid, now, hmac).Some?
      && ParseToken(Mint(mailboxId, password, Some(key), nonce, nonceCount, freshUuid, now, hmac).value)
         == Some(TokenParts(mailboxId, n, NatToString(c), ts, hmac(key, HmacMessage(mailboxId, n, c, password, ts))))
  {
    var n, c := EffectiveNonce(nonce, freshUuid), EffectiveCount(nonceCount);
    var ts := MinuteStamp(IsoString(now));
    assert ColonFree(ts);
    assert ColonFree(NatToString(c));
    ParseRender(TokenParts(mailboxId, n, NatToString(c), ts, hmac(key, HmacMessage(mailboxId, n, c, password, ts))));
  }

  /** With the defaults, the token carries the fresh UUID as nonce and `0` as nonce count. */
  lemma MintDefaults(mailboxId: string, password: string, key: string, freshUuid: string, now: Instant, hmac: Hmac)
    requires ColonFree(mailboxId) && ColonFree(freshUuid)
    ensures ParseToken(Mint(mailboxId, password, Some(key), None, None, freshUuid, now, hmac).value).Some?
    ensures ParseToken(Mint(mailboxId, password, Some(key), None, None, freshUuid, now, hmac).value).value.nonce == freshUuid
    ensures ParseToken(Mint(mailboxId, password, Some(key), None, None, freshUuid, now, hmac).value).value.nonceCount == "0"
  {
    MintFields(mailboxId, password, key, None, None, freshUuid, now, hmac);
  }

  /**
   * The password only feeds the digest: tokens minted with two passwords agree
   * on every field but the digest.
   */
  lemma PasswordOnlyInDigest(mailboxId: string, pw1: string, pw2: string, key: string,
                             nonce: Option<string>, nonceCount: Option<nat>,
                             freshUuid: string, now: Instant, hmac: Hmac)
    requires ColonFree(mailboxId) && ColonFree(EffectiveNonce(nonce, freshUuid))
    ensures
      var p1 := ParseToken(Mint(mailboxId, pw1, Some(key), nonce, nonceCount, freshUuid, now, hmac).value);
      var p2 := ParseToken(Mint(mailboxId, pw2, Some(key), nonce, nonceCount, freshUuid, now, hmac).value);
      && p1.Some? && p2.Some?
      && p1.value.(digest := "") == p2.value.(digest := "")
  {
    MintFields(mailboxId, pw1, key, nonce, nonceCount, freshUuid, now, hmac);
    MintFields(mailboxId, pw2, key, nonce, nonceCount, freshUuid, now, hmac);
  }

  /** Tokens minted with distinct nonces are distinct, whatever the clock says. */
  lemma DistinctNoncesDistinctTokens(mailboxId: string, password: string, key: string,
                                     n1: string, n2: string, now1: Instant, now2: Instant, hmac: Hmac)
    requires ColonFree(mailboxId) && ColonFree(n1) && ColonFree(n2) && n1 != n2
    ensures Mint(mailboxId, password, Some(key), None, None, n1, now1, hmac)
            != Mint(mailboxId, password, Some(key), None, None, n2, now2, hmac)
  {
    MintFields(mailboxId, password, key, None, None, n1, now1, hmac);
    MintFields(mailboxId, password, key, None, None, n2, now2, hmac);
  }

  /**
   * The HMAC input splits back into mailbox id, nonce, nonce count, password and
   * timestamp, in that order, when none of the text fields holds a colon.
   */
  lemma HmacInputOrder(mailboxId: string, nonce: string, nonceCount: nat, password: string, now: Instant)
    requires ColonFree(mailboxId) && ColonFree(nonce) && ColonFree(password)
    ensures SplitOn(HmacMessage(mailboxId, nonce, nonceCount, password, MinuteStamp(IsoString(now))), ':')
            == [mailboxId, nonce, NatToString(nonceCount), password, MinuteStamp(IsoString(now))]
  {
    var ts := MinuteStamp(IsoString(now));
    var c := NatToString(nonceCount);
    assert ColonFree(ts);
    assert ColonFree(c);
    SplitJoin([mailboxId, nonce, c, password, ts], ':');
  }
}
