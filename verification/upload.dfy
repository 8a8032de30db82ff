/**
 * `sendChunkedMessage`: streams a file in `CHUNK_SIZE` pieces, gzips each and
 * POSTs them one at a time, the first to the outbox and every later one to
 * `outbox/{messageID}/{n}`, where `messageID` comes from the first response.
 */
module ChunkedUpload {
  import opened Wrappers
  import opened Text
  import opened Token
  import opened Http
  import opened Headers
  import opened Chunking

  /** The caller's parameters: base URL, credentials, recipient, and the version the headers report. */
  datatype Sender = Sender(url: string, mailboxId: string, password: string, sharedKey: Option<string>,
                           target: string, packageVersion: string)

  const UploadFileName: string := "message.txt.gz"

  /** The keys the uploader adds to the canonical set. */
  const TransferKeys: set<string> := {"content-type", "mex-from", "mex-to", "mex-workflowid", "mex-filename",
                                      "mex-chunk-range", "content-encoding"}

  /** The transfer metadata written over a header set, one assignment per key. */
  function TransferHeaders(h: HeaderMap, s: Sender, index: nat, total: nat): (r: HeaderMap)
    ensures r.Keys == h.Keys + TransferKeys
    ensures forall k :: k in h && k !in TransferKeys ==> k in r && r[k] == h[k]
    ensures "accept" in h ==> Has(r, "accept", h["accept"])
    ensures "authorization" in h ==> Has(r, "authorization", h["authorization"])
    ensures "mex-clientversion" in h ==> Has(r, "mex-clientversion", h["mex-clientversion"])
    ensures Has(r, "mex-chunk-range", ChunkRange(index + 1, total))
    ensures Has(r, "content-type", OctetStream)
    ensures Has(r, "content-encoding", "gzip")
    ensures Has(r, "mex-from", s.mailboxId)
    ensures Has(r, "mex-to", s.target)
    ensures Has(r, "mex-workflowid", WorkflowId)
    ensures Has(r, "mex-filename", UploadFileName)
  {
    h["content-type" := OctetStream]["mex-from" := s.mailboxId]["mex-to" := s.target]
     ["mex-workflowid" := WorkflowId]["mex-filename" := UploadFileName]
     ["mex-chunk-range" := ChunkRange(index + 1, total)]["content-encoding" := "gzip"]
  }

  /**
   * The headers of chunk `index` (0-based), given the shared key: a freshly
   * minted canonical set, extended with the transfer metadata and the range
   * `"{index+1}:{total}"`.
   */
  function ChunkHeaders(s: Sender, key: string, index: nat, total: nat, fx: Effects): (r: HeaderMap)
    ensures Has(r, "mex-chunk-range", ChunkRange(index + 1, total))
    ensures Has(r, "content-type", OctetStream)
    ensures Has(r, "content-encoding", "gzip")
    ensures Has(r, "mex-from", s.mailboxId)
    ensures Has(r, "mex-to", s.target)
    ensures Has(r, "mex-workflowid", WorkflowId)
    ensures Has(r, "mex-filename", UploadFileName)
    ensures Has(r, "accept", Accept)
    ensures Has(r, "mex-clientversion", "javascript-mesh-client==" + s.packageVersion)
    ensures r.Keys == CanonicalKeys + TransferKeys
    ensures "authorization" in r
  {
    var h := CanonicalHeaders(s.mailboxId, s.password, Some(key), s.packageVersion, fx.uuid(index), fx.now(index), fx.hmac).value;
    TransferHeaders(h, s, index, total)
  }

  /** The token of chunk `index`'s headers reads back as minted with `uuid(index)` and `now(index)`. */
  lemma ChunkToken(s: Sender, key: string, index: nat, total: nat, fx: Effects)
    requires ColonFree(s.mailboxId) && ColonFree(fx.uuid(index))
    ensures var r := ChunkHeaders(s, key, index, total, fx);
      "authorization" in r
      && ParseToken(r["authorization"]) == Some(ExpectedToken(s.mailboxId, s.password, key, fx.uuid(index), fx.now(index), fx.hmac))
  {
    CanonicalToken(s.mailboxId, s.password, key, s.packageVersion, fx.uuid(index), fx.now(index), fx.hmac);
  }

  /** The URL of chunk `index`: the outbox for the first, `outbox/{messageID}/{index+1}` after it. */
  function ChunkUrl(s: Sender, index: nat, messageId: Option<string>): (r: string)
    ensures OutboxUrl(s.url, s.mailboxId) <= r
    ensures r == OutboxUrl(s.url, s.mailboxId) <==> index == 0
  {
    if index == 0 then OutboxUrl(s.url, s.mailboxId)
    else OutboxChunkUrl(s.url, s.mailboxId, Interpolate(messageId), index + 1)
  }

  /** The POST of chunk `index`, carrying its gzipped bytes through the caller's agent. */
  function ChunkRequest(s: Sender, key: string, total: nat, fx: Effects, index: nat, chunk: Bytes, messageId: Option<string>): (r: Request)
    ensures r.verb == Post && r.httpsAgent && r.body == Octets(fx.gzip(chunk))
    ensures "mex-chunk-range" in r.headers && RangeTotal(r.headers["mex-chunk-range"]) == Some(total)
  {
    ChunkRangeTotal(s, key, index, total, fx);
    Request(Post, ChunkUrl(s, index, messageId), ChunkHeaders(s, key, index, total, fx), Octets(fx.gzip(chunk)), true)
  }

  /**
   * One pass of the loop builds its request from the shared key, the chunk
   * index, the chunk's bytes and the message id held at that point.
   */
  type Builder = (string, nat, Bytes, Option<string>) -> Request

  /** The message id once the response to chunk 0 is in: replaced only by a 202's `message_id`. */
  function IdAfterFirst(script: seq<Response>, messageId: Option<string>): Option<string>
  {
    if |script| > 0 && script[0].status == 202 then script[0].messageId else messageId
  }

  /**
   * The message id held when chunk `k` is sent by a loop entered at chunk
   * `start` holding `messageId`: only the response to chunk 0 can change it.
   */
  function HeldId(script: seq<Response>, messageId: Option<string>, start: nat, k: nat): Option<string>
  {
    if k == 0 || start > 0 then messageId else IdAfterFirst(script, messageId)
  }

  /** Request `j` got an answer, and axios accepts it. */
  predicate AcceptedAt(script: seq<Response>, j: nat)
  {
    j < |script| && Accepted(script[j].status)
  }

  /** Every chunk from `lo` to `hi` got an answer axios accepts. */
  ghost predicate AllAccepted(script: seq<Response>, lo: nat, hi: nat)
  {
    forall j: nat :: lo <= j < hi ==> AcceptedAt(script, j)
  }

  /** The request numbered `j` failed with error `e`. */
  ghost predicate FailedAt(script: seq<Response>, j: nat, e: Error)
  {
    || (j >= |script| && e == NoResponse)
    || (j < |script| && !Accepted(script[j].status) && e == HttpStatus(script[j].status))
  }

  /**
   * The loop from chunk `index` on, holding `messageId`. Response `j` of the
   * script answers the request of chunk `j`; a missing key throws before the
   * first request is built.
   */
  function SendFrom(chunks: seq<Bytes>, index: nat, key: Option<string>, messageId: Option<string>,
                    script: seq<Response>, build: Builder): (r: Run<Option<string>>)
    requires index <= |chunks|
    decreases |chunks| - index
    ensures index + |r.log| <= |chunks|
    ensures |r.log| > 0 ==> key.Some?
  {
    if index == |chunks| then Run([], Ok(messageId))
    else if key.None? then Run([], Err(MissingSharedKey))
    else
      var request := build(key.value, index, chunks[index], messageId);
      if index >= |script| then Run([request], Err(NoResponse))
      else if !Accepted(script[index].status) then Run([request], Err(HttpStatus(script[index].status)))
      else
        var id := if script[index].status == 202 && index == 0 then script[index].messageId else messageId;
        var rest := SendFrom(chunks, index + 1, key, id, script, build);
        Run([request] + rest.log, rest.outcome)
  }

  /**
   * How the loop from chunk `index` ends: it completes exactly when every
   * remaining chunk is accepted (and a key is there to sign them), having sent
   * each of them; otherwise it stops at the first request that fails, after
   * all earlier ones were accepted, or before any request when the key is missing.
   */
  lemma {:induction false} SendFromOutcome(chunks: seq<Bytes>, index: nat, key: Option<string>, messageId: Option<string>,
                                           script: seq<Response>, build: Builder)
    requires index <= |chunks|
    decreases |chunks| - index
    ensures var r := SendFrom(chunks, index, key, messageId, script, build);
      && (r.outcome.Ok? <==> (index == |chunks| || key.Some?) && AllAccepted(script, index, |chunks|))
      && (r.outcome.Ok? ==> index + |r.log| == |chunks|)
      && (r.outcome.Ok? ==> r.outcome.value == HeldId(script, messageId, index, |chunks|))
      && (r.outcome.Err? ==>
            || (key.None? && |r.log| == 0 && r.outcome.error == MissingSharedKey)
            || (|r.log| >= 1 && AllAccepted(script, index, index + |r.log| - 1)
                && FailedAt(script, index + |r.log| - 1, r.outcome.error)))
  {
    if index < |chunks| && key.Some? {
      if index >= |script| || !Accepted(script[index].status) {
        assert !AllAccepted(script, index, |chunks|) by {
          assert !AcceptedAt(script, index);
        }
      } else {
        var id := if script[index].status == 202 && index == 0 then script[index].messageId else messageId;
        SendFromOutcome(chunks, index + 1, key, id, script, build);
        var rest := SendFrom(chunks, index + 1, key, id, script, build);
        AcceptedStep(script, index, |chunks|);
        if rest.outcome.Err? && |rest.log| >= 1 {
          AcceptedStep(script, index, index + |rest.log|);
        }
      }
    }
  }

  /** An accepted range extends by one accepted chunk at its front. */
  lemma AcceptedStep(script: seq<Response>, lo: nat, hi: nat)
    requires lo < hi && lo < |script| && Accepted(script[lo].status)
    ensures AllAccepted(script, lo, hi) <==> AllAccepted(script, lo + 1, hi)
  {
    assert AcceptedAt(script, lo);
  }

  /**
   * The requests go out in chunk order, one per chunk, each built from its own
   * chunk and the message id held at that point.
   */
  lemma {:induction false} SendFromLog(chunks: seq<Bytes>, index: nat, key: Option<string>, messageId: Option<string>,
                                       script: seq<Response>, build: Builder, i: nat)
    requires index <= |chunks|
    requires i < |SendFrom(chunks, index, key, messageId, script, build).log|
    decreases |chunks| - index
    ensures index + i < |chunks| && key.Some?
    ensures SendFrom(chunks, index, key, messageId, script, build).log[i]
            == build(key.value, index + i, chunks[index + i], HeldId(script, messageId, index, index + i))
  {
    var request := build(key.value, index, chunks[index], messageId);
    if i > 0 {
      var id := if script[index].status == 202 && index == 0 then script[index].messageId else messageId;
      var rest := SendFrom(chunks, index + 1, key, id, script, build);
      assert SendFrom(chunks, index, key, messageId, script, build).log == [request] + rest.log;
      SendFromLog(chunks, index + 1, key, id, script, build, i - 1);
      assert HeldId(script, id, index + 1, index + i) == HeldId(script, messageId, index, index + i);
    }
  }

  /** The loop entered at chunk 0 with no id yet sends request `i` for chunk `i`. */
  lemma SendFromStart(chunks: seq<Bytes>, key: Option<string>, script: seq<Response>, build: Builder, i: nat)
    requires i < |SendFrom(chunks, 0, key, None, script, build).log|
    ensures i < |chunks| && key.Some?
    ensures SendFrom(chunks, 0, key, None, script, build).log[i] == build(key.value, i, chunks[i], HeldId(script, None, 0, i))
  {
    SendFromLog(chunks, 0, key, None, script, build, i);
  }

  /**
   * `sendChunkedMessage`: the chunk count is fixed from the file size before
   * the first request; the function itself returns nothing.
   */
  function SendChunkedMessage(s: Sender, file: Bytes, script: seq<Response>, fx: Effects): (r: Run<()>)
    ensures |r.log| <= CeilDiv(|file|, ChunkSize)
    ensures |r.log| > 0 ==> s.sharedKey.Some?
  {
    var total := CeilDiv(|file|, ChunkSize);
    var run := SendFrom(Split(file, ChunkSize), 0, s.sharedKey, None, script, Build(s, total, fx));
    Run(run.log, if run.outcome.Ok? then Ok(()) else Err(run.outcome.error))
  }

  function Build(s: Sender, total: nat, fx: Effects): Builder
  {
    (key: string, index: nat, chunk: Bytes, messageId: Option<string>) => ChunkRequest(s, key, total, fx, index, chunk, messageId)
  }

  /**
   * How an upload of `count` chunks ended: it completed exactly when there
   * was nothing to send, or the key was set and every chunk was accepted,
   * having sent them all; otherwise it stopped at the first failed request,
   * or before any request when the key was missing.
   */
  ghost predicate UploadEnded(r: Run<()>, count: nat, keySet: bool, script: seq<Response>)
  {
    && (r.outcome.Ok? <==> (count == 0 || keySet) && AllAccepted(script, 0, count))
    && (r.outcome.Ok? ==> |r.log| == count)
    && (r.outcome.Err? ==>
          || (!keySet && count > 0 && |r.log| == 0 && r.outcome.error == MissingSharedKey)
          || (|r.log| >= 1 && AllAccepted(script, 0, |r.log| - 1) && FailedAt(script, |r.log| - 1, r.outcome.error)))
  }

  /** A run that logs what the loop from chunk 0 logs, and ends as it ends, ended as an upload does. */
  lemma StartEnded(r: Run<()>, chunks: seq<Bytes>, key: Option<string>, script: seq<Response>, build: Builder)
    requires r.log == SendFrom(chunks, 0, key, None, script, build).log
    requires r.outcome.Ok? <==> SendFrom(chunks, 0, key, None, script, build).outcome.Ok?
    requires r.outcome.Err? ==> r.outcome.error == SendFrom(chunks, 0, key, None, script, build).outcome.error
    ensures UploadEnded(r, |chunks|, key.Some?, script)
  {
    SendFromOutcome(chunks, 0, key, None, script, build);
  }

  /**
   * How an upload ends, for its `ceil(size / CHUNK_SIZE)` chunks, none
   * exactly when the file is empty.
   */
  lemma SendChunkedOutcome(s: Sender, file: Bytes, script: seq<Response>, fx: Effects)
    ensures |file| == 0 <==> CeilDiv(|file|, ChunkSize) == 0
    ensures UploadEnded(SendChunkedMessage(s, file, script, fx), CeilDiv(|file|, ChunkSize), s.sharedKey.Some?, script)
  {
    SendChunkedIsLoop(s, file, script, fx);
    StartEnded(SendChunkedMessage(s, file, script, fx), Split(file, ChunkSize), s.sharedKey, script,
               Build(s, CeilDiv(|file|, ChunkSize), fx));
  }

  /** The upload is the loop over the file's chunks from chunk 0, with no id yet. */
  lemma SendChunkedIsLoop(s: Sender, file: Bytes, script: seq<Response>, fx: Effects)
    ensures var total := CeilDiv(|file|, ChunkSize);
      var run := SendFrom(Split(file, ChunkSize), 0, s.sharedKey, None, script, Build(s, total, fx));
      var r := SendChunkedMessage(s, file, script, fx);
      && r.log == run.log && (r.outcome.Ok? <==> run.outcome.Ok?)
      && (r.outcome.Err? ==> r.outcome.error == run.outcome.error)
      && |Split(file, ChunkSize)| == total
      && (|file| == 0 <==> total == 0)
  {
    CeilDivBounds(|file|, ChunkSize);
  }

  /** The upload's builder makes `ChunkRequest`s. */
  lemma BuildIs(s: Sender, total: nat, fx: Effects, key: string, index: nat, chunk: Bytes, messageId: Option<string>)
    ensures Build(s, total, fx)(key, index, chunk, messageId) == ChunkRequest(s, key, total, fx, index, chunk, messageId)
  {
  }

  /**
   * The range header of a chunk's headers reads back, with the download loop's
   * own `parseInt`, as the announced chunk count.
   */
  lemma ChunkRangeTotal(s: Sender, key: string, index: nat, total: nat, fx: Effects)
    ensures "mex-chunk-range" in ChunkHeaders(s, key, index, total, fx)
    ensures RangeTotal(ChunkHeaders(s, key, index, total, fx)["mex-chunk-range"]) == Some(total)
  {
    ChunkRangeRoundTrip(index + 1, total);
  }

  /**
   * When the first response is accepted without a 202, no id is captured and
   * the second chunk is posted to `outbox/undefined/2`.
   */
  lemma UndefinedMessageId(s: Sender, file: Bytes, script: seq<Response>, fx: Effects)
    requires 2 <= |SendChunkedMessage(s, file, script, fx).log|
    requires script[0].status != 202
    ensures SendChunkedMessage(s, file, script, fx).log[1].url == OutboxChunkUrl(s.url, s.mailboxId, "undefined", 2)
  {
    SendFromStart(Split(file, ChunkSize), s.sharedKey, script, Build(s, CeilDiv(|file|, ChunkSize), fx), 1);
    BuildIs(s, CeilDiv(|file|, ChunkSize), fx, s.sharedKey.value, 1, Split(file, ChunkSize)[1], HeldId(script, None, 0, 1));
  }

  /**
   * Request `i` of an upload goes to the outbox when it is chunk 1, and to
   * `outbox/{messageID}/{i+1}` after it, where the id is chunk 1's
   * `message_id` when its answer was a 202 and `undefined` otherwise.
   */
  lemma UploadUrls(s: Sender, file: Bytes, script: seq<Response>, fx: Effects, i: nat)
    requires i < |SendChunkedMessage(s, file, script, fx).log|
    ensures i == 0 ==> SendChunkedMessage(s, file, script, fx).log[i].url == OutboxUrl(s.url, s.mailboxId)
    ensures i > 0 ==> SendChunkedMessage(s, file, script, fx).log[i].url
                      == OutboxChunkUrl(s.url, s.mailboxId,
                                        if |script| > 0 && script[0].status == 202 then Interpolate(script[0].messageId) else "undefined",
                                        i + 1)
  {
    var chunks := Split(file, ChunkSize);
    SendFromStart(chunks, s.sharedKey, script, Build(s, CeilDiv(|file|, ChunkSize), fx), i);
    BuildIs(s, CeilDiv(|file|, ChunkSize), fx, s.sharedKey.value, i, chunks[i], HeldId(script, None, 0, i));
  }

  /** Request `i` of an upload carries the headers of chunk `i`, signed with the sender's key. */
  lemma UploadHeaders(s: Sender, file: Bytes, script: seq<Response>, fx: Effects, i: nat)
    requires i < |SendChunkedMessage(s, file, script, fx).log|
    ensures s.sharedKey.Some?
    ensures SendChunkedMessage(s, file, script, fx).log[i].headers == ChunkHeaders(s, s.sharedKey.value, i, CeilDiv(|file|, ChunkSize), fx)
  {
    var chunks := Split(file, ChunkSize);
    SendFromStart(chunks, s.sharedKey, script, Build(s, CeilDiv(|file|, ChunkSize), fx), i);
    BuildIs(s, CeilDiv(|file|, ChunkSize), fx, s.sharedKey.value, i, chunks[i], HeldId(script, None, 0, i));
  }

  /**
   * Every request is signed with its own token: with a UUID source that never
   * repeats, no two requests of an upload carry the same authorization.
   */
  lemma FreshTokens(s: Sender, file: Bytes, script: seq<Response>, fx: Effects, i: nat, j: nat)
    requires i < j < |SendChunkedMessage(s, file, script, fx).log|
    requires ColonFree(s.mailboxId) && ColonFree(fx.uuid(i)) && ColonFree(fx.uuid(j)) && fx.uuid(i) != fx.uuid(j)
    ensures var log := SendChunkedMessage(s, file, script, fx).log;
      && "authorization" in log[i].headers && "authorization" in log[j].headers
      && log[i].headers["authorization"] != log[j].headers["authorization"]
  {
    UploadHeaders(s, file, script, fx, i);
    UploadHeaders(s, file, script, fx, j);
    DistinctChunkTokens(s, s.sharedKey.value, CeilDiv(|file|, ChunkSize), fx, i, j);
  }

  /** Header sets built for distinct UUIDs carry distinct tokens, since the UUID is the token's nonce. */
  lemma DistinctChunkTokens(s: Sender, key: string, total: nat, fx: Effects, i: nat, j: nat)
    requires ColonFree(s.mailboxId) && ColonFree(fx.uuid(i)) && ColonFree(fx.uuid(j)) && fx.uuid(i) != fx.uuid(j)
    ensures "authorization" in ChunkHeaders(s, key, i, total, fx) && "authorization" in ChunkHeaders(s, key, j, total, fx)
    ensures ChunkHeaders(s, key, i, total, fx)["authorization"] != ChunkHeaders(s, key, j, total, fx)["authorization"]
  {
    ChunkToken(s, key, i, total, fx);
    ChunkToken(s, key, j, total, fx);
    var a := ChunkHeaders(s, key, i, total, fx)["authorization"];
    var b := ChunkHeaders(s, key, j, total, fx)["authorization"];
    assert ParseToken(a).value.nonce == fx.uuid(i);
    assert ParseToken(b).value.nonce == fx.uuid(j);
  }

  /**
   * With a decoder that undoes gzip, the bodies of a completed upload decode,
   * in order, to the chunks of the file, and so concatenate back to the file.
   */
  lemma SendChunkedRoundTrip(s: Sender, file: Bytes, script: seq<Response>, fx: Effects, ungzip: Bytes -> Bytes)
    requires forall b :: ungzip(fx.gzip(b)) == b
    requires SendChunkedMessage(s, file, script, fx).outcome.Ok?
    ensures Payloads(SendChunkedMessage(s, file, script, fx).log, ungzip) == Split(file, ChunkSize)
    ensures Concat(Payloads(SendChunkedMessage(s, file, script, fx).log, ungzip)) == file
  {
    var log := SendChunkedMessage(s, file, script, fx).log;
    var chunks := Split(file, ChunkSize);
    SendChunkedOutcome(s, file, script, fx);
    forall i | 0 <= i < |log|
      ensures Payloads(log, ungzip)[i] == chunks[i]
    {
      SendFromStart(chunks, s.sharedKey, script, Build(s, CeilDiv(|file|, ChunkSize), fx), i);
      BuildIs(s, CeilDiv(|file|, ChunkSize), fx, s.sharedKey.value, i, chunks[i], HeldId(script, None, 0, i));
    }
  }
}
