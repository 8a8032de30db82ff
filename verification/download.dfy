/**
 * `readMessage`: GETs the chunks of an inbound message one at a time, each
 * with fresh headers, appending every delivered body to the output file, and
 * stops after the chunk the range header names as the last.
 */
module ChunkedDownload {
  import opened Wrappers
  import opened Text
  import opened Token
  import opened Http
  import opened Headers

  /** The caller's parameters: base URL, credentials, the message, and the version the headers report. */
  datatype Reader = Reader(url: string, mailboxId: string, password: string, sharedKey: Option<string>,
                           messageId: string, packageVersion: string)

  /**
   * A download: the GETs it issued, the bytes written to the output file (also
   * when it fails part-way), and either the first chunk's response or the error.
   */
  datatype Download = Download(log: seq<Request>, output: Bytes, outcome: Result<Response, Error>)

  /** The statuses whose body is written: 200 and 206. */
  predicate Delivered(status: int)
  {
    status == 200 || status == 206
  }

  /**
   * The stop test after chunk `chunk` (1-based): no (or an empty) range header,
   * or one whose total, as `parseInt` reads it, is this chunk's number. A total
   * that reads as `NaN` never matches.
   */
  predicate IsLast(resp: Response, chunk: nat): (last: bool)
    ensures !Truthy(resp.chunkRange) ==> last
    ensures last && Truthy(resp.chunkRange) ==> ':' in resp.chunkRange.value
  {
    !Truthy(resp.chunkRange) || RangeTotal(resp.chunkRange.value) == Some(chunk)
  }

  /** One pass builds its GET for request `j`, or throws while signing it. */
  type Fetch = nat -> Option<Request>

  /** The loop's stop test on a delivered response and its chunk number. */
  type Stop = (Response, nat) -> bool

  /** The stop test of `readMessage`. */
  function LastChunk(): Stop
  {
    (resp: Response, chunk: nat) => IsLast(resp, chunk)
  }

  /** The GET of chunk `j + 1`, with canonical headers minted for request `j`. */
  function ChunkGet(rd: Reader, fx: Effects, j: nat): (r: Option<Request>)
    ensures r.Some? <==> rd.sharedKey.Some?
    ensures r.Some? ==>
      && r.value.verb == Get && r.value.url == InboxChunkUrl(rd.url, rd.mailboxId, rd.messageId, j + 1)
      && r.value.body == NoBody && r.value.httpsAgent
  {
    match CanonicalHeaders(rd.mailboxId, rd.password, rd.sharedKey, rd.packageVersion, fx.uuid(j), fx.now(j), fx.hmac)
    case None => None
    case Some(h) => Some(Request(Get, InboxChunkUrl(rd.url, rd.mailboxId, rd.messageId, j + 1), h, NoBody, true))
  }

  /**
   * The headers of GET `j` are the canonical set minted for request `j`, and
   * its token reads back as the reader's mailbox, key, `uuid(j)` and `now(j)`.
   */
  lemma ChunkGetHeaders(rd: Reader, fx: Effects, j: nat)
    requires rd.sharedKey.Some?
    ensures var r := ChunkGet(rd, fx, j);
      && r.Some? && r.value.headers.Keys == CanonicalKeys
      && r.value.headers == CanonicalHeaders(rd.mailboxId, rd.password, rd.sharedKey, rd.packageVersion,
                                             fx.uuid(j), fx.now(j), fx.hmac).value
    ensures ColonFree(rd.mailboxId) && ColonFree(fx.uuid(j)) ==>
      ParseToken(ChunkGet(rd, fx, j).value.headers["authorization"])
        == Some(ExpectedToken(rd.mailboxId, rd.password, rd.sharedKey.value, fx.uuid(j), fx.now(j), fx.hmac))
  {
    if ColonFree(rd.mailboxId) && ColonFree(fx.uuid(j)) {
      CanonicalToken(rd.mailboxId, rd.password, rd.sharedKey.value, rd.packageVersion, fx.uuid(j), fx.now(j), fx.hmac);
    }
  }

  /**
   * The loop from request `j` (chunk `j + 1`); response `j` answers request `j`,
   * and a script that runs out is a transport failure.
   */
  function ReadFrom(j: nat, script: seq<Response>, fetch: Fetch, stop: Stop): (r: Download)
    decreases |script| - j
    ensures |r.log| <= (if j <= |script| then |script| - j + 1 else 1)
  {
    match fetch(j)
    case None => Download([], [], Err(MissingSharedKey))
    case Some(request) =>
      if j >= |script| then Download([request], [], Err(NoResponse))
      else if !Accepted(script[j].status) then Download([request], [], Err(HttpStatus(script[j].status)))
      else if !Delivered(script[j].status) then Download([request], [], Err(UnexpectedStatus(script[j].status)))
      else if stop(script[j], j + 1) then Download([request], script[j].body, Ok(script[0]))
      else
        var rest := ReadFrom(j + 1, script, fetch, stop);
        Download([request] + rest.log, script[j].body + rest.output, rest.outcome)
  }

  /** The bodies of the responses, concatenated in order. */
  function Bodies(rs: seq<Response>): Bytes
  {
    if rs == [] then [] else rs[0].body + Bodies(rs[1..])
  }

  /** Response `j` was delivered and is not the last. */
  predicate ContinuesAt(script: seq<Response>, stop: Stop, j: nat)
  {
    j < |script| && Delivered(script[j].status) && !stop(script[j], j + 1)
  }

  /** Response `j` was delivered and is the last. */
  predicate LastAt(script: seq<Response>, stop: Stop, j: nat)
  {
    j < |script| && Delivered(script[j].status) && stop(script[j], j + 1)
  }

  ghost predicate AllContinue(script: seq<Response>, stop: Stop, lo: nat, hi: nat)
  {
    forall j: nat :: lo <= j < hi ==> ContinuesAt(script, stop, j)
  }

  /** Request `j` ended the download with `e`: no answer, rejected by axios, or a 2xx that is neither 200 nor 206. */
  ghost predicate ReadFailed(script: seq<Response>, j: nat, e: Error)
  {
    || (j >= |script| && e == NoResponse)
    || (j < |script| && !Accepted(script[j].status) && e == HttpStatus(script[j].status))
    || (j < |script| && Accepted(script[j].status) && !Delivered(script[j].status) && e == UnexpectedStatus(script[j].status))
  }

  /** A fetch that throws exactly when no key is set. */
  ghost predicate Signs(fetch: Fetch, keySet: bool)
  {
    forall j: nat :: fetch(j).Some? <==> keySet
  }

  /**
   * How a loop entered at request `j` ended with `r`: without a key, before any
   * request; otherwise after requests that were all delivered and not last
   * except the final one. It succeeds exactly when that final one was the last
   * chunk, and then returns the first chunk's response; otherwise the final
   * request failed. The output holds the bodies delivered, in order.
   */
  ghost predicate Ended(r: Download, script: seq<Response>, stop: Stop, j: nat, keySet: bool)
  {
    var n := |r.log|;
    && (!keySet ==> n == 0 && r.outcome == Err(MissingSharedKey) && r.output == [])
    && (keySet ==> n >= 1 && AllContinue(script, stop, j, j + n - 1))
    && (r.outcome.Ok? <==> keySet && n >= 1 && LastAt(script, stop, j + n - 1))
    && (keySet && r.outcome.Ok? ==> r.outcome.value == script[0] && r.output == Bodies(script[j..j + n]))
    && (keySet && r.outcome.Err? ==>
          && ReadFailed(script, j + n - 1, r.outcome.error)
          && j + n - 1 <= |script| && r.output == Bodies(script[j..j + n - 1]))
  }

  /** Every loop ends as `Ended` describes. */
  lemma {:induction false} ReadFromOutcome(j: nat, script: seq<Response>, fetch: Fetch, stop: Stop, keySet: bool)
    requires Signs(fetch, keySet) && j <= |script|
    decreases |script| - j
    ensures Ended(ReadFrom(j, script, fetch, stop), script, stop, j, keySet)
  {
    assert fetch(j).Some? <==> keySet;
    if keySet && j < |script| && Delivered(script[j].status) {
      if stop(script[j], j + 1) {
        assert script[j..j + 1] == [script[j]];
        assert Bodies(script[j..j + 1]) == script[j].body + Bodies([]);
      } else {
        ReadFromOutcome(j + 1, script, fetch, stop, keySet);
        ContinueEnded(j, script, fetch, stop);
      }
    } else if keySet && j < |script| {
      assert script[j..j] == [];
    }
  }

  /** A delivered response that is not the last passes the way the rest of the loop ends back to its own pass. */
  lemma ContinueEnded(j: nat, script: seq<Response>, fetch: Fetch, stop: Stop)
    requires fetch(j).Some? && ContinuesAt(script, stop, j)
    requires Ended(ReadFrom(j + 1, script, fetch, stop), script, stop, j + 1, true)
    ensures Ended(ReadFrom(j, script, fetch, stop), script, stop, j, true)
  {
    ReadFromContinues(j, script, fetch, stop);
    var rest := ReadFrom(j + 1, script, fetch, stop);
    var m := |rest.log|;
    ContinueStep(script, stop, j, j + m - 1);
    BodiesCons(script, j, if rest.outcome.Ok? then j + 1 + m else j + m);
  }

  /** A delivered response that is not the last adds its request and body in front of the rest of the loop. */
  lemma ReadFromContinues(j: nat, script: seq<Response>, fetch: Fetch, stop: Stop)
    requires fetch(j).Some? && ContinuesAt(script, stop, j)
    ensures var r := ReadFrom(j, script, fetch, stop); var rest := ReadFrom(j + 1, script, fetch, stop);
      && r.log == [fetch(j).value] + rest.log && r.output == script[j].body + rest.output
      && r.outcome == rest.outcome
  {
  }

  lemma BodiesCons(script: seq<Response>, lo: nat, hi: nat)
    requires lo < hi <= |script|
    ensures Bodies(script[lo..hi]) == script[lo].body + Bodies(script[lo + 1..hi])
  {
    assert script[lo..hi][1..] == script[lo + 1..hi];
  }

  /** A continuing response at the front extends a continuing range by one. */
  lemma ContinueStep(script: seq<Response>, stop: Stop, lo: nat, hi: nat)
    requires ContinuesAt(script, stop, lo) && lo <= hi
    ensures AllContinue(script, stop, lo, hi + 1) <==> AllContinue(script, stop, lo + 1, hi + 1)
  {
  }

  /**
   * The converse: when responses `j .. k - 1` continue and response `k` is
   * the last, the download succeeds after exactly those `k - j + 1` GETs.
   */
  lemma {:induction false} ReadStopsAtFirstLast(j: nat, k: nat, script: seq<Response>, fetch: Fetch, stop: Stop)
    requires Signs(fetch, true) && j <= k
    requires AllContinue(script, stop, j, k) && LastAt(script, stop, k)
    decreases k - j
    ensures var r := ReadFrom(j, script, fetch, stop);
      && r.outcome == Ok(script[0]) && |r.log| == k - j + 1 && r.output == Bodies(script[j..k + 1])
  {
    ReadFromOutcome(j, script, fetch, stop, true);
    assert fetch(j).Some?;
    if j < k {
      assert ContinuesAt(script, stop, j);
      ReadStopsAtFirstLast(j + 1, k, script, fetch, stop);
    }
  }

  /** The pass builder of `readMessage`. */
  function Fetcher(rd: Reader, fx: Effects): Fetch
  {
    (j: nat) => ChunkGet(rd, fx, j)
  }

  /** The fetch of `readMessage` throws exactly when no key is set, and pass `j` builds `ChunkGet(rd, fx, j)`. */
  lemma FetcherSigns(rd: Reader, fx: Effects)
    ensures Signs(Fetcher(rd, fx), rd.sharedKey.Some?)
    ensures forall j: nat :: Fetcher(rd, fx)(j) == ChunkGet(rd, fx, j)
  {
    forall j: nat
      ensures Fetcher(rd, fx)(j) == ChunkGet(rd, fx, j)
    {
    }
  }

  /** `readMessage`: chunks from 1, until the last one or the first failure. */
  function ReadMessage(rd: Reader, script: seq<Response>, fx: Effects): (r: Download)
    ensures |r.log| <= |script| + 1
  {
    ReadFrom(0, script, Fetcher(rd, fx), LastChunk())
  }

  /**
   * How a download ends, in both directions: it succeeds exactly when the key
   * is set and the responses run, delivered and not last, up to one that is
   * delivered and last, after one GET per response up to it; then it returns
   * the first chunk's response, and the output file holds the bodies in order.
   */
  lemma ReadMessageOutcome(rd: Reader, script: seq<Response>, fx: Effects)
    ensures Ended(ReadMessage(rd, script, fx), script, LastChunk(), 0, rd.sharedKey.Some?)
  {
    FetcherSigns(rd, fx);
    ReadFromOutcome(0, script, Fetcher(rd, fx), LastChunk(), rd.sharedKey.Some?);
  }

  /** A download succeeds after `k + 1` GETs when responses `0 .. k - 1` continue and response `k` is the last. */
  lemma ReadMessageStops(rd: Reader, script: seq<Response>, fx: Effects, k: nat)
    requires rd.sharedKey.Some? && AllContinue(script, LastChunk(), 0, k) && LastAt(script, LastChunk(), k)
    ensures var r := ReadMessage(rd, script, fx);
      r.outcome == Ok(script[0]) && |r.log| == k + 1 && r.output == Bodies(script[..k + 1])
  {
    FetcherSigns(rd, fx);
    ReadStopsAtFirstLast(0, k, script, Fetcher(rd, fx), LastChunk());
  }

  /**
   * Request `i` of a loop entered at `j` is what its pass `j + i` built; for
   * `readMessage` that is `ChunkGet(rd, fx, i)`, the GET of chunk `i + 1`
   * signed with the headers minted for request `i`.
   */
  lemma {:induction false} ReadFromRequest(j: nat, script: seq<Response>, fetch: Fetch, stop: Stop, i: nat)
    requires i < |ReadFrom(j, script, fetch, stop).log|
    decreases |script| - j
    ensures fetch(j + i).Some? && ReadFrom(j, script, fetch, stop).log[i] == fetch(j + i).value
  {
    assert fetch(j).Some?;
    if i > 0 {
      assert ContinuesAt(script, stop, j);
      ReadFromContinues(j, script, fetch, stop);
      ReadFromRequest(j + 1, script, fetch, stop, i - 1);
    }
  }

  /**
   * Responses whose range totals all read as `total`, such as the ranges
   * `"1:total"` to `"total:total"` an uploader of `total` chunks announces,
   * are read in exactly `total` GETs, and the output file is their bodies in
   * order.
   */
  lemma AnnouncedTotal(rd: Reader, script: seq<Response>, fx: Effects, total: nat)
    requires rd.sharedKey.Some? && 1 <= total <= |script|
    requires forall j :: 0 <= j < total ==>
               Delivered(script[j].status) && Truthy(script[j].chunkRange) && RangeTotal(script[j].chunkRange.value) == Some(total)
    ensures var r := ReadMessage(rd, script, fx);
      r.outcome == Ok(script[0]) && |r.log| == total && r.output == Bodies(script[..total])
  {
    var k := total - 1;
    TotalReached(script, total);
    ReadMessageStops(rd, script, fx, k);
    assert k + 1 == total;
  }

  /** Chunks before `total` continue and chunk `total` is the last when every total reads as `total`. */
  lemma TotalReached(script: seq<Response>, total: nat)
    requires 1 <= total <= |script|
    requires forall j :: 0 <= j < total ==>
               Delivered(script[j].status) && Truthy(script[j].chunkRange) && RangeTotal(script[j].chunkRange.value) == Some(total)
    ensures AllContinue(script, LastChunk(), 0, total - 1) && LastAt(script, LastChunk(), total - 1)
  {
    forall j: nat | j < total - 1
      ensures ContinuesAt(script, LastChunk(), j)
    {
      assert !IsLast(script[j], j + 1);
    }
    assert IsLast(script[total - 1], total);
  }

  /** A response carrying `"{chunk}:{total}"` is the last exactly when `chunk` is `total`. */
  lemma RangedChunk(resp: Response, chunk: nat, total: nat)
    requires resp.chunkRange == Some(ChunkRange(chunk, total))
    ensures IsLast(resp, chunk) <==> chunk == total
  {
    ChunkRangeRoundTrip(chunk, total);
    assert |ChunkRange(chunk, total)| > 0 by {
      assert ChunkRange(chunk, total) == NatToString(chunk) + ":" + NatToString(total);
    }
  }

  /** A range header without a `:` reads as `NaN`, so it never marks a last chunk. */
  lemma NoColonNeverLast(resp: Response, chunk: nat)
    requires resp.chunkRange.Some? && resp.chunkRange.value != "" && ':' !in resp.chunkRange.value
    ensures !IsLast(resp, chunk)
  {
    SplitOnNoSeparator(resp.chunkRange.value, ':');
  }

  /**
   * When every response is delivered but its range total reads as `NaN`, the
   * download never stops by itself: it asks for one chunk more than there are
   * answers and fails with the transport error.
   */
  lemma NaNRangeNeverStops(rd: Reader, script: seq<Response>, fx: Effects)
    requires rd.sharedKey.Some?
    requires forall j :: 0 <= j < |script| ==>
               Delivered(script[j].status) && Truthy(script[j].chunkRange) && RangeTotal(script[j].chunkRange.value) == None
    ensures var r := ReadMessage(rd, script, fx);
      r.outcome == Err(NoResponse) && |r.log| == |script| + 1 && r.output == Bodies(script)
  {
    ReadMessageOutcome(rd, script, fx);
    var r := ReadMessage(rd, script, fx);
    var n := |r.log|;
    assert n - 1 >= |script|;
    assert script[..n - 1] == script;
  }

  /**
   * When every response is delivered with a range total that reads as a
   * number below its own chunk's, the download never stops by itself: a
   * total already passed is never matched again.
   */
  lemma TotalBelowNeverStops(rd: Reader, script: seq<Response>, fx: Effects)
    requires rd.sharedKey.Some?
    requires forall j :: 0 <= j < |script| ==>
               Delivered(script[j].status) && Truthy(script[j].chunkRange)
               && RangeTotal(script[j].chunkRange.value).Some? && RangeTotal(script[j].chunkRange.value).value <= j
    ensures var r := ReadMessage(rd, script, fx);
      r.outcome == Err(NoResponse) && |r.log| == |script| + 1 && r.output == Bodies(script)
  {
    ReadMessageOutcome(rd, script, fx);
    var r := ReadMessage(rd, script, fx);
    var n := |r.log|;
    assert n - 1 >= |script|;
    assert script[..n - 1] == script;
  }
}
