/**
 * `sendMessageChunks`: packs a CSV stream into numbered chunk files, gzips
 * every file numbered below the module-wide counter `fileIndex`, and POSTs
 * the gzipped files in number order. The counter lives as long as the module,
 * so it is part of the state a call starts from and leaves behind.
 */
module ChunkFileUpload {
  import opened Wrappers
  import opened Text
  import opened Token
  import opened Http
  import opened Headers
  import opened CsvChunker
  import opened SingleSend

  /**
   * What the calls share: the module-level `fileIndex` (the number the next
   * chunk file gets) and the contents of `output/chunk_{n}.csv` and
   * `output/chunk_{n}.gzip`, by `n`.
   */
  datatype Workspace = Workspace(fileIndex: nat, csv: map<nat, Bytes>, gz: map<nat, Bytes>)

  /** The module as loaded, over an empty output directory. */
  const Fresh: Workspace := Workspace(1, map[], map[])

  /**
   * The chunking pipeline: every piece the read stream delivers passes through
   * `_transform`, which opens `chunk_{fileIndex}.csv` (and advances the counter)
   * when the piece starts a group, and appends it to the open file otherwise.
   */
  method WriteChunkFiles(w: Workspace, pieces: seq<Bytes>) returns (r: Workspace)
    ensures r.fileIndex == w.fileIndex + |Pack(pieces).groups|
    ensures r.gz == w.gz
    ensures Written(r.csv, w.fileIndex, Pack(pieces).groups)
    ensures Kept(r.csv, w.csv, w.fileIndex, r.fileIndex)
  {
    var c := Start;
    var csv: map<nat, Bytes> := w.csv;
    var index: nat := w.fileIndex;
    for i := 0 to |pieces|
      invariant c == Pack(pieces[..i])
      invariant index == w.fileIndex + |c.groups|
      invariant Written(csv, w.fileIndex, c.groups)
      invariant Kept(csv, w.csv, w.fileIndex, index)
    {
      var p := pieces[i];
      PackSnoc(pieces, i);
      if StartsGroup(c, p) {
        OpenedFileBytes(csv, w.fileIndex, index, c, p);
        KeptOpen(csv, w.csv, w.fileIndex, index, p);
        csv := csv[index := p];
        index := index + 1;
      } else {
        AppendedFileBytes(csv, w.fileIndex, index, c, p);
        KeptAppend(csv, w.csv, w.fileIndex, index, p);
        csv := csv[index - 1 := csv[index - 1] + p];
      }
      c := Transform(c, p);
    }
    assert pieces[..|pieces|] == pieces;
    r := Workspace(index, csv, w.gz);
  }

  lemma PackSnoc(pieces: seq<Bytes>, i: nat)
    requires i < |pieces|
    ensures Pack(pieces[..i + 1]) == Transform(Pack(pieces[..i]), pieces[i])
  {
    assert pieces[..i + 1][..i] == pieces[..i];
  }

  /** Files `base`, `base + 1`, ... hold the bytes of the groups, in order. */
  ghost predicate Written(csv: map<nat, Bytes>, base: nat, groups: seq<seq<Bytes>>)
  {
    forall k: nat :: k < |groups| ==> HoldsFile(csv, base, groups, k)
  }

  /** File `base + k` holds the bytes of group `k`. */
  predicate HoldsFile(csv: map<nat, Bytes>, base: nat, groups: seq<seq<Bytes>>, k: nat)
    requires k < |groups|
  {
    base + k in csv && csv[base + k] == FileBytes(groups, k)
  }

  lemma WrittenAt(csv: map<nat, Bytes>, base: nat, groups: seq<seq<Bytes>>, k: nat)
    requires Written(csv, base, groups) && k < |groups|
    ensures base + k in csv && csv[base + k] == FileBytes(groups, k)
  {
    assert HoldsFile(csv, base, groups, k);
  }

  /** Every file outside `base .. index - 1` is as it was in `before`. */
  ghost predicate Kept(csv: map<nat, Bytes>, before: map<nat, Bytes>, base: nat, index: nat)
  {
    forall n :: n in before && !(base <= n < index) ==> n in csv && csv[n] == before[n]
  }

  /** A piece that opens a file is that file's only content, and earlier files keep theirs. */
  lemma OpenedFileBytes(csv: map<nat, Bytes>, base: nat, index: nat, c: Chunker, p: Bytes)
    requires StartsGroup(c, p) && Written(csv, base, c.groups) && index == base + |c.groups|
    ensures Written(csv[index := p], base, Transform(c, p).groups)
  {
    var t := Transform(c, p);
    var n := |c.groups|;
    assert t.groups == c.groups + [[p]];
    assert t.groups[n] == [p];
    assert FileBytes(t.groups, n) == p by {
      ConcatCons(p, []);
      assert [p] + [] == [p];
    }
    var after := csv[index := p];
    forall k: nat | k < |t.groups|
      ensures HoldsFile(after, base, t.groups, k)
    {
      if k < n {
        assert t.groups[k] == c.groups[k];
        WrittenAt(csv, base, c.groups, k);
      }
    }
  }

  /** A piece appended to the open file extends that file's bytes by the piece. */
  lemma AppendedFileBytes(csv: map<nat, Bytes>, base: nat, index: nat, c: Chunker, p: Bytes)
    requires !StartsGroup(c, p) && Written(csv, base, c.groups) && index == base + |c.groups|
    ensures base < index && index - 1 in csv
    ensures Written(csv[index - 1 := csv[index - 1] + p], base, Transform(c, p).groups)
  {
    var t := Transform(c, p);
    var n := |c.groups|;
    var last := c.groups[n - 1];
    WrittenAt(csv, base, c.groups, n - 1);
    assert t.groups == c.groups[..n - 1] + [last + [p]];
    assert FileBytes(t.groups, n - 1) == FileBytes(c.groups, n - 1) + p by {
      assert (last + [p])[..|last|] == last;
    }
    var after := csv[index - 1 := csv[index - 1] + p];
    forall k: nat | k < |t.groups|
      ensures HoldsFile(after, base, t.groups, k)
    {
      if k < n - 1 {
        assert t.groups[k] == c.groups[k];
        WrittenAt(csv, base, c.groups, k);
      }
    }
  }

  lemma KeptOpen(csv: map<nat, Bytes>, before: map<nat, Bytes>, base: nat, index: nat, p: Bytes)
    requires Kept(csv, before, base, index) && base <= index
    ensures Kept(csv[index := p], before, base, index + 1)
  {
  }

  lemma KeptAppend(csv: map<nat, Bytes>, before: map<nat, Bytes>, base: nat, index: nat, p: Bytes)
    requires Kept(csv, before, base, index) && base < index && index - 1 in csv
    ensures Kept(csv[index - 1 := csv[index - 1] + p], before, base, index)
  {
  }

  /** Every file `chunk_{n}.csv` numbered below `upTo` has its gzip in `chunk_{n}.gzip`. */
  ghost predicate Zipped(csv: map<nat, Bytes>, gz: map<nat, Bytes>, upTo: nat, gzip: Bytes -> Bytes)
  {
    forall n :: 1 <= n < upTo && n in csv ==> n in gz && gz[n] == gzip(csv[n])
  }

  /**
   * Every `chunk_{n}.gzip` numbered below `upTo` whose `.csv` file is missing
   * is empty: the write stream creates or truncates it before the read fails.
   */
  ghost predicate Emptied(csv: map<nat, Bytes>, gz: map<nat, Bytes>, upTo: nat)
  {
    forall n :: 1 <= n < upTo && n !in csv ==> n in gz && gz[n] == []
  }

  /** Every `.gzip` file outside the gzip loop's range is as it was in `before`. */
  ghost predicate ZipKept(before: map<nat, Bytes>, gz: map<nat, Bytes>, upTo: nat)
  {
    forall n :: n in before && !(1 <= n < upTo) ==> n in gz && gz[n] == before[n]
  }

  /**
   * The gzip loop `for (i = 1; i < fileIndex; i++) await gzipFile(i)`: each
   * `chunk_{i}.gzip` becomes the gzip of `chunk_{i}.csv`. The pipeline opens
   * the `.gzip` file for writing even when the `.csv` file is missing, so
   * that file is left empty and `gzipFile` only logs the read error. The
   * count is the number of passes.
   */
  method GzipChunkFiles(w: Workspace, gzip: Bytes -> Bytes) returns (r: Workspace, count: nat)
    requires w.fileIndex >= 1
    ensures count + 1 == w.fileIndex
    ensures r.fileIndex == w.fileIndex && r.csv == w.csv
    ensures Zipped(w.csv, r.gz, w.fileIndex, gzip)
    ensures Emptied(w.csv, r.gz, w.fileIndex)
    ensures ZipKept(w.gz, r.gz, w.fileIndex)
    ensures forall n :: n in r.gz ==> n in w.gz || 1 <= n < w.fileIndex
  {
    var gz: map<nat, Bytes> := w.gz;
    count := 0;
    for i := 1 to w.fileIndex
      invariant count + 1 == i
      invariant Zipped(w.csv, gz, i, gzip)
      invariant Emptied(w.csv, gz, i)
      invariant ZipKept(w.gz, gz, i)
      invariant forall n :: n in gz ==> n in w.gz || 1 <= n < i
    {
      if i in w.csv {
        gz := gz[i := gzip(w.csv[i])];
      } else {
        gz := gz[i := []];
      }
      count := count + 1;
    }
    r := Workspace(w.fileIndex, w.csv, gz);
  }

  /**
   * `splitAndZipCsv`: the stream delivers `pieces` and then fails when
   * `readFails`; a failed pipeline rejects before anything is gzipped, and
   * the caller's `catch` leaves the file count at 0.
   */
  method SplitAndZipCsv(w: Workspace, pieces: seq<Bytes>, readFails: bool, gzip: Bytes -> Bytes)
    returns (r: Workspace, count: Option<nat>)
    requires w.fileIndex >= 1
    ensures r.fileIndex == w.fileIndex + |Pack(pieces).groups|
    ensures Written(r.csv, w.fileIndex, Pack(pieces).groups)
    ensures Kept(r.csv, w.csv, w.fileIndex, r.fileIndex)
    ensures readFails ==> count.None? && r.gz == w.gz
    ensures !readFails ==> count == Some(r.fileIndex - 1)
    ensures !readFails ==> Zipped(r.csv, r.gz, r.fileIndex, gzip)
    ensures !readFails ==> Emptied(r.csv, r.gz, r.fileIndex)
    ensures !readFails ==> AllFiles(r.gz, 0, r.fileIndex - 1)
    ensures !readFails ==> ZipKept(w.gz, r.gz, r.fileIndex)
    ensures !readFails ==> Zipped(w.csv, r.gz, w.fileIndex, gzip)
    ensures !readFails && w.fileIndex == Fresh.fileIndex ==> GzippedFiles(r.gz, Pack(pieces).groups, gzip)
  {
    var written := WriteChunkFiles(w, pieces);
    if readFails {
      r, count := written, None;
    } else {
      var n;
      r, n := GzipChunkFiles(written, gzip);
      count := Some(n);
      GzipFilesExist(r.csv, r.gz, r.fileIndex, gzip);
      OldFilesRegzipped(w, r, gzip);
      if w.fileIndex == Fresh.fileIndex {
        FreshFilesGzipped(r, Pack(pieces).groups, gzip);
      }
    }
  }

  /** The URL of a chunk: `outbox/{messageID}/{chunk}` once a truthy id is held, the outbox before. */
  function FileChunkUrl(c: Outbound, chunk: nat, messageId: Option<string>): (r: string)
    ensures OutboxUrl(c.url, c.mailboxId) <= r
    ensures r == OutboxUrl(c.url, c.mailboxId) <==> !Truthy(messageId)
  {
    if Truthy(messageId) then OutboxChunkUrl(c.url, c.mailboxId, messageId.value, chunk)
    else OutboxUrl(c.url, c.mailboxId)
  }

  /** The range and encoding keys written over a header set; every other key keeps its value. */
  function RangeHeaders(h: HeaderMap, chunk: nat, count: nat): (r: HeaderMap)
    ensures r.Keys == h.Keys + {"mex-chunk-range", "content-encoding"}
    ensures Has(r, "mex-chunk-range", ChunkRange(chunk, count)) && Has(r, "content-encoding", "gzip")
    ensures forall k :: k in h && k != "mex-chunk-range" && k != "content-encoding" ==> Has(r, k, h[k])
    ensures "authorization" in h ==> Has(r, "authorization", h["authorization"])
    ensures "mex-from" in h ==> Has(r, "mex-from", h["mex-from"])
    ensures "mex-to" in h ==> Has(r, "mex-to", h["mex-to"])
  {
    h["mex-chunk-range" := ChunkRange(chunk, count)]["content-encoding" := "gzip"]
  }

  /**
   * The request of pass `j` (chunk `j + 1`): fresh outbound headers with the
   * range `"{chunk}:{count}"` and `content-encoding: gzip` written over them,
   * and the gzipped file as body. Building the headers throws on a missing
   * key; `readFileSync` throws on a missing file.
   */
  function FileChunkRequest(c: Outbound, gz: map<nat, Bytes>, count: nat, env: map<string, string>, fx: Effects,
                            j: nat, messageId: Option<string>): (r: Result<Request, Error>)
    ensures r.Ok? <==> SharedKeyVariable in env && j + 1 in gz
    ensures SharedKeyVariable !in env ==> r == Err(MissingSharedKey)
    ensures SharedKeyVariable in env && j + 1 !in gz ==> r == Err(MissingFile(j + 1))
    ensures r.Ok? ==>
      && r.value.verb == Post && r.value.url == FileChunkUrl(c, j + 1, messageId)
      && r.value.body == Octets(gz[j + 1]) && r.value.httpsAgent == c.tlsEnabled
      && Has(r.value.headers, "mex-chunk-range", ChunkRange(j + 1, count))
      && Has(r.value.headers, "content-encoding", "gzip")
      && Has(r.value.headers, "mex-from", c.mailboxId) && Has(r.value.headers, "mex-to", c.target)
      && "authorization" in r.value.headers
  {
    var h := OutboundHeaders(c.mailboxId, c.password, c.target, env, fx.uuid(j), fx.now(j), fx.hmac);
    if h.None? then Err(MissingSharedKey)
    else if j + 1 !in gz then Err(MissingFile(j + 1))
    else Ok(Request(Post, FileChunkUrl(c, j + 1, messageId), RangeHeaders(h.value, j + 1, count), Octets(gz[j + 1]), c.tlsEnabled))
  }

  /** Each chunk's request is signed with its own pass's UUID and clock reading. */
  lemma FileChunkToken(c: Outbound, gz: map<nat, Bytes>, count: nat, env: map<string, string>, fx: Effects,
                       j: nat, messageId: Option<string>)
    requires FileChunkRequest(c, gz, count, env, fx, j, messageId).Ok?
    requires ColonFree(c.mailboxId) && ColonFree(fx.uuid(j))
    ensures var r := FileChunkRequest(c, gz, count, env, fx, j, messageId);
      && "authorization" in r.value.headers
      && ParseToken(r.value.headers["authorization"])
         == Some(ExpectedToken(c.mailboxId, c.password, env[SharedKeyVariable], fx.uuid(j), fx.now(j), fx.hmac))
  {
    OutboundToken(c.mailboxId, c.password, c.target, env, fx.uuid(j), fx.now(j), fx.hmac);
  }

  /** One pass of the loop builds its request (or throws) from the pass number and the id held. */
  type Prepare = (nat, Option<string>) -> Result<Request, Error>

  /** The id after the response of pass `j`: a held truthy id is kept, otherwise the 202's `message_id` replaces it. */
  function NextId(script: seq<Response>, messageId: Option<string>, j: nat): (r: Option<string>)
    ensures Truthy(messageId) ==> r == messageId
    ensures !Truthy(messageId) && j < |script| ==> r == script[j].messageId
    ensures r == messageId || (j < |script| && r == script[j].messageId)
  {
    if Truthy(messageId) || j >= |script| then messageId else script[j].messageId
  }

  /** The id held at pass `k` by a loop entered at pass `from` holding `messageId`. */
  function HeldId(script: seq<Response>, messageId: Option<string>, from: nat, k: nat): Option<string>
    decreases k - from
  {
    if k <= from then messageId else HeldId(script, NextId(script, messageId, from), from + 1, k)
  }

  /** Pass `j` was answered with 202. */
  predicate CreatedAt(script: seq<Response>, j: nat)
  {
    j < |script| && script[j].status == 202
  }

  /** Pass `j` of the loop entered at `from` builds its request and is answered with 202. */
  predicate PassOk(script: seq<Response>, messageId: Option<string>, from: nat, prepare: Prepare, j: nat)
  {
    prepare(j, HeldId(script, messageId, from, j)).Ok? && CreatedAt(script, j)
  }

  /** Every pass from `lo` to `hi` succeeds. */
  ghost predicate AllPass(script: seq<Response>, messageId: Option<string>, from: nat, prepare: Prepare, lo: nat, hi: nat)
  {
    forall j: nat :: lo <= j < hi ==> PassOk(script, messageId, from, prepare, j)
  }

  /** The response to pass `j` ended the call with `e`: none, rejected by axios, or a 2xx other than 202. */
  ghost predicate AnswerFailed(script: seq<Response>, j: nat, e: Error)
  {
    || (j >= |script| && e == NoResponse)
    || (j < |script| && !Accepted(script[j].status) && e == HttpStatus(script[j].status))
    || (j < |script| && Accepted(script[j].status) && script[j].status != 202 && e == ProcessExit(script[j].status))
  }

  /** The upload loop from pass `j` to `count`, holding `messageId`; response `j` answers pass `j`. */
  function UploadFrom(j: nat, count: nat, messageId: Option<string>, script: seq<Response>, prepare: Prepare): (r: Run<()>)
    requires j <= count
    decreases count - j
    ensures j + |r.log| <= count
  {
    if j == count then Run([], Ok(()))
    else match prepare(j, messageId)
      case Err(e) => Run([], Err(e))
      case Ok(request) =>
        if j >= |script| then Run([request], Err(NoResponse))
        else if !Accepted(script[j].status) then Run([request], Err(HttpStatus(script[j].status)))
        else if script[j].status != 202 then Run([request], Err(ProcessExit(script[j].status)))
        else
          var rest := UploadFrom(j + 1, count, NextId(script, messageId, j), script, prepare);
          Run([request] + rest.log, rest.outcome)
  }

  /**
   * How a loop run `r` from pass `j` ended, with `n` its number of requests:
   * it completed exactly when every pass built its request and was answered
   * 202, having sent one request per pass; otherwise it stopped at the first
   * pass that threw (sending nothing for it) or whose answer failed, after
   * every earlier pass succeeded.
   */
  ghost predicate Finished(r: Run<()>, j: nat, count: nat, messageId: Option<string>, script: seq<Response>, prepare: Prepare)
  {
    var n := |r.log|;
    && (r.outcome.Ok? <==> AllPass(script, messageId, j, prepare, j, count))
    && (r.outcome.Ok? ==> j + n == count)
    && (r.outcome.Err? ==>
          || (j + n < count && AllPass(script, messageId, j, prepare, j, j + n)
              && prepare(j + n, HeldId(script, messageId, j, j + n)) == Err(r.outcome.error))
          || (n >= 1 && AllPass(script, messageId, j, prepare, j, j + n - 1)
              && prepare(j + n - 1, HeldId(script, messageId, j, j + n - 1)).Ok?
              && AnswerFailed(script, j + n - 1, r.outcome.error)))
  }

  /** How the loop from pass `j` ends. */
  lemma {:induction false} UploadFromOutcome(j: nat, count: nat, messageId: Option<string>, script: seq<Response>, prepare: Prepare)
    requires j <= count
    decreases count - j
    ensures Finished(UploadFrom(j, count, messageId, script, prepare), j, count, messageId, script, prepare)
  {
    if j < count && prepare(j, messageId).Ok? && j < |script| && script[j].status == 202 {
      UploadFromOutcome(j + 1, count, NextId(script, messageId, j), script, prepare);
      PassFinished(j, count, messageId, script, prepare);
    } else if j < count {
      assert !PassOk(script, messageId, j, prepare, j);
    }
  }

  /** A pass answered 202 followed by a finished loop from the next pass is a finished loop. */
  lemma PassFinished(j: nat, count: nat, messageId: Option<string>, script: seq<Response>, prepare: Prepare)
    requires j < count && prepare(j, messageId).Ok? && j < |script| && script[j].status == 202
    requires Finished(UploadFrom(j + 1, count, NextId(script, messageId, j), script, prepare),
                      j + 1, count, NextId(script, messageId, j), script, prepare)
    ensures Finished(UploadFrom(j, count, messageId, script, prepare), j, count, messageId, script, prepare)
  {
    var id := NextId(script, messageId, j);
    var rest := UploadFrom(j + 1, count, id, script, prepare);
    var r := UploadFrom(j, count, messageId, script, prepare);
    var m := |rest.log|;
    assert |r.log| == m + 1 && r.outcome == rest.outcome;
    assert PassOk(script, messageId, j, prepare, j);
    AllPassStep(script, messageId, j, prepare, count);
    if rest.outcome.Err? {
      AllPassStep(script, messageId, j, prepare, j + 1 + m);
      assert HeldId(script, id, j + 1, j + 1 + m) == HeldId(script, messageId, j, j + 1 + m);
      if m >= 1 {
        AllPassStep(script, messageId, j, prepare, j + m);
        assert HeldId(script, id, j + 1, j + m) == HeldId(script, messageId, j, j + m);
      }
    }
  }

  /** How the loop entered at pass 0 with no id ends, with `n` its number of requests. */
  lemma UploadFromStartOutcome(count: nat, script: seq<Response>, prepare: Prepare)
    ensures var r := UploadFrom(0, count, None, script, prepare); var n := |r.log|;
      && (r.outcome.Ok? <==> AllPass(script, None, 0, prepare, 0, count))
      && (r.outcome.Ok? ==> n == count)
      && (r.outcome.Err? ==>
            || (n < count && AllPass(script, None, 0, prepare, 0, n)
                && prepare(n, HeldId(script, None, 0, n)) == Err(r.outcome.error))
            || (n >= 1 && AllPass(script, None, 0, prepare, 0, n - 1)
                && prepare(n - 1, HeldId(script, None, 0, n - 1)).Ok?
                && AnswerFailed(script, n - 1, r.outcome.error)))
  {
    UploadFromOutcome(0, count, None, script, prepare);
  }

  /** A range of passes that starts with a successful pass is that pass and the range the next loop sees. */
  lemma AllPassStep(script: seq<Response>, messageId: Option<string>, j: nat, prepare: Prepare, hi: nat)
    requires j < hi && PassOk(script, messageId, j, prepare, j)
    ensures AllPass(script, messageId, j, prepare, j, hi)
            <==> AllPass(script, NextId(script, messageId, j), j + 1, prepare, j + 1, hi)
  {
    var id, next := NextId(script, messageId, j), j + 1;
    if AllPass(script, messageId, j, prepare, j, hi) {
      forall k: nat | next <= k < hi
        ensures PassOk(script, id, next, prepare, k)
      {
        assert HeldId(script, messageId, j, k) == HeldId(script, id, next, k);
        assert PassOk(script, messageId, j, prepare, k);
      }
    }
    if AllPass(script, id, j + 1, prepare, j + 1, hi) {
      forall k: nat | j <= k < hi
        ensures PassOk(script, messageId, j, prepare, k)
      {
        if k > j {
          assert PassOk(script, id, j + 1, prepare, k);
          assert HeldId(script, messageId, j, k) == HeldId(script, id, j + 1, k);
        }
      }
    }
  }

  /** The loop's requests, one per pass, each built for its pass with the id held then. */
  lemma {:induction false} UploadFromLog(j: nat, count: nat, messageId: Option<string>, script: seq<Response>,
                                         prepare: Prepare, i: nat)
    requires j <= count
    requires i < |UploadFrom(j, count, messageId, script, prepare).log|
    decreases count - j
    ensures j + i < count
    ensures prepare(j + i, HeldId(script, messageId, j, j + i)).Ok?
    ensures UploadFrom(j, count, messageId, script, prepare).log[i] == prepare(j + i, HeldId(script, messageId, j, j + i)).value
  {
    if i > 0 {
      var id := NextId(script, messageId, j);
      UploadFromLog(j + 1, count, id, script, prepare, i - 1);
      assert HeldId(script, id, j + 1, j + i) == HeldId(script, messageId, j, j + i);
    }
  }

  /** Once a truthy id is held it is kept for the rest of the loop. */
  lemma {:induction false} HeldIdSticks(script: seq<Response>, messageId: Option<string>, from: nat, k: nat, k': nat)
    requires k <= k' && Truthy(HeldId(script, messageId, from, k))
    ensures HeldId(script, messageId, from, k') == HeldId(script, messageId, from, k)
    decreases k' - from
  {
    if from < k {
      HeldIdSticks(script, NextId(script, messageId, from), from + 1, k, k');
    } else if from < k' {
      HeldIdSticks(script, NextId(script, messageId, from), from + 1, from + 1, k');
    }
  }

  /** Without a truthy id at the start, the id held at pass `k` is the first truthy `message_id` among the earlier answers. */
  lemma {:induction false} HeldIdIsFirstTruthy(script: seq<Response>, messageId: Option<string>, from: nat, m: nat, k: nat)
    requires !Truthy(messageId) && from <= m < k && m < |script| && Truthy(script[m].messageId)
    requires forall n :: from <= n < m && n < |script| ==> !Truthy(script[n].messageId)
    ensures HeldId(script, messageId, from, k) == script[m].messageId
    decreases m - from
  {
    var id := NextId(script, messageId, from);
    if from < m {
      HeldIdIsFirstTruthy(script, id, from + 1, m, k);
    } else {
      HeldIdSticks(script, id, from + 1, from + 1, k);
    }
  }

  /** With no truthy `message_id` among the earlier answers, no truthy id is held. */
  lemma {:induction false} NoTruthyIdHeld(script: seq<Response>, messageId: Option<string>, from: nat, k: nat)
    requires !Truthy(messageId)
    requires forall n :: from <= n < k && n < |script| ==> !Truthy(script[n].messageId)
    ensures !Truthy(HeldId(script, messageId, from, k))
    decreases k - from
  {
    if from < k {
      NoTruthyIdHeld(script, NextId(script, messageId, from), from + 1, k);
    }
  }
  /** The loop entered at pass 0 with no id yet sends request `i` for pass `i`. */
  lemma UploadFromStart(count: nat, script: seq<Response>, prepare: Prepare, i: nat)
    requires i < |UploadFrom(0, count, None, script, prepare).log|
    ensures i < count && prepare(i, HeldId(script, None, 0, i)).Ok?
    ensures UploadFrom(0, count, None, script, prepare).log[i] == prepare(i, HeldId(script, None, 0, i)).value
  {
    UploadFromLog(0, count, None, script, prepare, i);
  }


  /** The pass builder of `sendMessageChunks` over the gzipped files and the count. */
  function Prepared(c: Outbound, gz: map<nat, Bytes>, count: nat, env: map<string, string>, fx: Effects): Prepare
  {
    (j: nat, messageId: Option<string>) => FileChunkRequest(c, gz, count, env, fx, j, messageId)
  }

  /** The upload loop of `sendMessageChunks`: chunks 1 to `count`, starting without an id. */
  function UploadChunkFiles(c: Outbound, gz: map<nat, Bytes>, count: nat, env: map<string, string>,
                            script: seq<Response>, fx: Effects): (r: Run<()>)
    ensures |r.log| <= count
  {
    UploadFrom(0, count, None, script, Prepared(c, gz, count, env, fx))
  }

  /**
   * `sendMessageChunks`: split and gzip, then upload every file the counter
   * covers. A failed split is only logged: nothing is sent and the call
   * resolves to undefined.
   */
  method SendMessageChunks(c: Outbound, w: Workspace, pieces: seq<Bytes>, readFails: bool, env: map<string, string>,
                           script: seq<Response>, fx: Effects) returns (after: Workspace, r: Run<()>)
    requires w.fileIndex >= 1
    ensures after.fileIndex == w.fileIndex + |Pack(pieces).groups|
    ensures Written(after.csv, w.fileIndex, Pack(pieces).groups)
    ensures Kept(after.csv, w.csv, w.fileIndex, after.fileIndex)
    ensures readFails ==> |r.log| == 0 && r.outcome.Ok? && after.gz == w.gz
    ensures !readFails ==> r == UploadChunkFiles(c, after.gz, after.fileIndex - 1, env, script, fx)
    ensures !readFails ==> Zipped(after.csv, after.gz, after.fileIndex, fx.gzip)
    ensures !readFails ==> Zipped(w.csv, after.gz, w.fileIndex, fx.gzip)
    ensures !readFails ==> AllFiles(after.gz, 0, after.fileIndex - 1)
    ensures !readFails && w.fileIndex == Fresh.fileIndex ==> after.fileIndex - 1 == |Pack(pieces).groups|
    ensures !readFails && w.fileIndex == Fresh.fileIndex ==> GzippedFiles(after.gz, Pack(pieces).groups, fx.gzip)
  {
    var count;
    after, count := SplitAndZipCsv(w, pieces, readFails, fx.gzip);
    if count.None? {
      r := Run([], Ok(()));
    } else {
      assert count.value == after.fileIndex - 1;
      r := UploadChunkFiles(c, after.gz, after.fileIndex - 1, env, script, fx);
    }
  }

  /** After the gzip loop every `.gzip` file below the counter exists, whether or not its `.csv` file did. */
  lemma GzipFilesExist(csv: map<nat, Bytes>, gz: map<nat, Bytes>, upTo: nat, gzip: Bytes -> Bytes)
    requires upTo >= 1 && Zipped(csv, gz, upTo, gzip) && Emptied(csv, gz, upTo)
    ensures AllFiles(gz, 0, upTo - 1)
  {
  }

  /** Files a previous call left below the counter are gzipped again, from their unchanged contents. */
  lemma OldFilesRegzipped(w: Workspace, after: Workspace, gzip: Bytes -> Bytes)
    requires w.fileIndex <= after.fileIndex
    requires Kept(after.csv, w.csv, w.fileIndex, after.fileIndex)
    requires Zipped(after.csv, after.gz, after.fileIndex, gzip)
    ensures Zipped(w.csv, after.gz, w.fileIndex, gzip)
  {
    forall n | 1 <= n < w.fileIndex && n in w.csv
      ensures n in after.gz && after.gz[n] == gzip(w.csv[n])
    {
      assert n in after.csv && after.csv[n] == w.csv[n];
    }
  }

  /** From a fresh module, file `n` is group `n - 1`, gzipped. */
  lemma FreshFilesGzipped(after: Workspace, groups: seq<seq<Bytes>>, gzip: Bytes -> Bytes)
    requires after.fileIndex == 1 + |groups| && Written(after.csv, 1, groups)
    requires Zipped(after.csv, after.gz, after.fileIndex, gzip)
    ensures GzippedFiles(after.gz, groups, gzip)
  {
    forall n | 1 <= n <= |groups|
      ensures n in after.gz && after.gz[n] == gzip(FileBytes(groups, n - 1))
    {
      WrittenAt(after.csv, 1, groups, n - 1);
    }
  }

  /** `output/chunk_{n}.gzip` is the gzip of file `n` of the groups, for every group. */
  ghost predicate GzippedFiles(gz: map<nat, Bytes>, groups: seq<seq<Bytes>>, gzip: Bytes -> Bytes)
  {
    forall n :: 1 <= n <= |groups| ==> n in gz && gz[n] == gzip(FileBytes(groups, n - 1))
  }

  /** Chunk `j + 1`'s file is on disk. */
  predicate FileAt(gz: map<nat, Bytes>, j: nat)
  {
    j + 1 in gz
  }

  ghost predicate AllFiles(gz: map<nat, Bytes>, lo: nat, hi: nat)
  {
    forall j: nat :: lo <= j < hi ==> FileAt(gz, j)
  }

  ghost predicate AllCreated(script: seq<Response>, lo: nat, hi: nat)
  {
    forall j: nat :: lo <= j < hi ==> CreatedAt(script, j)
  }

  /**
   * A pass builder that throws exactly when the key is unset or the pass's
   * file is missing, whatever id is held, with the error the source raises first.
   */
  ghost predicate ReadsFiles(prepare: Prepare, keySet: bool, gz: map<nat, Bytes>)
  {
    forall j: nat, messageId: Option<string> ::
      && (prepare(j, messageId).Ok? <==> keySet && FileAt(gz, j))
      && (prepare(j, messageId).Err? ==>
            prepare(j, messageId).error == (if keySet then MissingFile(j + 1) else MissingSharedKey))
  }

  /** The builder of `sendMessageChunks` is one such. */
  lemma PreparedReadsFiles(c: Outbound, gz: map<nat, Bytes>, count: nat, env: map<string, string>, fx: Effects)
    ensures ReadsFiles(Prepared(c, gz, count, env, fx), SharedKeyVariable in env, gz)
  {
    var prepare := Prepared(c, gz, count, env, fx);
    forall j: nat, messageId: Option<string>
      ensures prepare(j, messageId) == FileChunkRequest(c, gz, count, env, fx, j, messageId)
    {
    }
  }

  /** A pass succeeds when the key is set, its file is there, and its answer is 202. */
  lemma PassesAre(script: seq<Response>, prepare: Prepare, keySet: bool, gz: map<nat, Bytes>, lo: nat, hi: nat)
    requires ReadsFiles(prepare, keySet, gz)
    ensures AllPass(script, None, 0, prepare, lo, hi) <==> (hi <= lo || keySet) && AllFiles(gz, lo, hi) && AllCreated(script, lo, hi)
  {
    if AllPass(script, None, 0, prepare, lo, hi) {
      if lo < hi {
        assert PassOk(script, None, 0, prepare, lo);
      }
      forall j: nat | lo <= j < hi
        ensures FileAt(gz, j) && CreatedAt(script, j)
      {
        assert PassOk(script, None, 0, prepare, j);
      }
    }
    if (hi <= lo || keySet) && AllFiles(gz, lo, hi) && AllCreated(script, lo, hi) {
      forall j: nat | lo <= j < hi
        ensures PassOk(script, None, 0, prepare, j)
      {
        assert FileAt(gz, j) && CreatedAt(script, j);
      }
    }
  }

  /** How the loop over `count` files ends, for any builder that reads files as `sendMessageChunks` does. */
  lemma FilesOutcome(count: nat, script: seq<Response>, prepare: Prepare, keySet: bool, gz: map<nat, Bytes>)
    requires ReadsFiles(prepare, keySet, gz)
    ensures var r := UploadFrom(0, count, None, script, prepare); var n := |r.log|;
      && (r.outcome.Ok? <==> (count == 0 || keySet) && AllFiles(gz, 0, count) && AllCreated(script, 0, count))
      && (r.outcome.Ok? ==> n == count)
      && (r.outcome.Err? ==>
            || (!keySet && n == 0 && r.outcome.error == MissingSharedKey)
            || (keySet && n < count && AllFiles(gz, 0, n) && AllCreated(script, 0, n)
                && !FileAt(gz, n) && r.outcome.error == MissingFile(n + 1))
            || (keySet && n >= 1 && AllFiles(gz, 0, n) && AllCreated(script, 0, n - 1)
                && AnswerFailed(script, n - 1, r.outcome.error)))
  {
    var r := UploadFrom(0, count, None, script, prepare);
    var n := |r.log|;
    UploadFromStartOutcome(count, script, prepare);
    PassesAre(script, prepare, keySet, gz, 0, count);
    if r.outcome.Err? {
      if n < count && AllPass(script, None, 0, prepare, 0, n) && prepare(n, HeldId(script, None, 0, n)) == Err(r.outcome.error) {
        PassesAre(script, prepare, keySet, gz, 0, n);
      } else {
        PassesAre(script, prepare, keySet, gz, 0, n - 1);
        assert FileAt(gz, n - 1) && keySet by {
          assert prepare(n - 1, HeldId(script, None, 0, n - 1)).Ok?;
        }
        assert AllFiles(gz, 0, n) by {
          assert forall j: nat :: 0 <= j < n - 1 ==> FileAt(gz, j);
        }
      }
    }
  }

  /**
   * How an upload of `count` files ends: it completes exactly when the key is
   * set (or there is nothing to send), every file is on disk and every answer
   * is 202, having sent one request per file; otherwise it stops, after
   * earlier chunks all succeeded, at the first chunk that throws before
   * sending or whose answer fails.
   */
  lemma UploadChunkFilesOutcome(c: Outbound, gz: map<nat, Bytes>, count: nat, env: map<string, string>,
                                script: seq<Response>, fx: Effects)
    ensures var r := UploadChunkFiles(c, gz, count, env, script, fx); var n := |r.log|;
      && (r.outcome.Ok? <==> (count == 0 || SharedKeyVariable in env) && AllFiles(gz, 0, count) && AllCreated(script, 0, count))
      && (r.outcome.Ok? ==> n == count)
      && (r.outcome.Err? ==>
            || (SharedKeyVariable !in env && n == 0 && r.outcome.error == MissingSharedKey)
            || (SharedKeyVariable in env && n < count && AllFiles(gz, 0, n) && AllCreated(script, 0, n)
                && !FileAt(gz, n) && r.outcome.error == MissingFile(n + 1))
            || (SharedKeyVariable in env && n >= 1 && AllFiles(gz, 0, n) && AllCreated(script, 0, n - 1)
                && AnswerFailed(script, n - 1, r.outcome.error)))
  {
    PreparedReadsFiles(c, gz, count, env, fx);
    FilesOutcome(count, script, Prepared(c, gz, count, env, fx), SharedKeyVariable in env, gz);
  }

  /**
   * Request `i` of an upload is the POST of `output/chunk_{i+1}.gzip` with the
   * range `"{i+1}:{count}"`: to the outbox while
   * no truthy id is held, to `outbox/{id}/{i+1}` after.
   */
  lemma UploadChunkFilesRequest(c: Outbound, gz: map<nat, Bytes>, count: nat, env: map<string, string>,
                                script: seq<Response>, fx: Effects, i: nat)
    requires i < |UploadChunkFiles(c, gz, count, env, script, fx).log|
    ensures var q := UploadChunkFiles(c, gz, count, env, script, fx).log[i];
      && SharedKeyVariable in env && i < count && i + 1 in gz
      && q.verb == Post && q.url == FileChunkUrl(c, i + 1, HeldId(script, None, 0, i))
      && q.body == Octets(gz[i + 1]) && q.httpsAgent == c.tlsEnabled
      && Has(q.headers, "mex-chunk-range", ChunkRange(i + 1, count))
  {
    UploadFromStart(count, script, Prepared(c, gz, count, env, fx), i);
  }

  /**
   * The first truthy `message_id` answered is the one every later chunk is
   * posted under; while none has come, each chunk goes to the bare outbox
   * and starts a new message.
   */
  lemma UploadChunkFilesUrls(c: Outbound, gz: map<nat, Bytes>, count: nat, env: map<string, string>,
                             script: seq<Response>, fx: Effects, m: nat, i: nat)
    requires i < |UploadChunkFiles(c, gz, count, env, script, fx).log|
    ensures var q := UploadChunkFiles(c, gz, count, env, script, fx).log[i];
      && (m < i && m < |script| && Truthy(script[m].messageId)
          && (forall n :: 0 <= n < m ==> !Truthy(script[n].messageId))
          ==> q.url == OutboxChunkUrl(c.url, c.mailboxId, script[m].messageId.value, i + 1))
      && ((forall n :: 0 <= n < i && n < |script| ==> !Truthy(script[n].messageId))
          ==> q.url == OutboxUrl(c.url, c.mailboxId))
  {
    UploadChunkFilesRequest(c, gz, count, env, script, fx, i);
    if m < i && m < |script| && Truthy(script[m].messageId) && (forall n :: 0 <= n < m ==> !Truthy(script[n].messageId)) {
      HeldIdIsFirstTruthy(script, None, 0, m, i);
    }
    if forall n :: 0 <= n < i && n < |script| ==> !Truthy(script[n].messageId) {
      NoTruthyIdHeld(script, None, 0, i);
    }
  }

  /** A pass builder whose requests carry the pass's gzipped file as their body. */
  ghost predicate CarriesFiles(prepare: Prepare, gz: map<nat, Bytes>)
  {
    forall j: nat, messageId: Option<string> ::
      prepare(j, messageId).Ok? ==> j + 1 in gz && prepare(j, messageId).value.body == Octets(gz[j + 1])
  }

  lemma PreparedCarriesFiles(c: Outbound, gz: map<nat, Bytes>, count: nat, env: map<string, string>, fx: Effects)
    ensures CarriesFiles(Prepared(c, gz, count, env, fx), gz)
  {
    var prepare := Prepared(c, gz, count, env, fx);
    forall j: nat, messageId: Option<string>
      ensures prepare(j, messageId) == FileChunkRequest(c, gz, count, env, fx, j, messageId)
    {
    }
  }

  /** A completed loop sends every file once, in number order: request `i` carries file `i + 1`. */
  lemma FileSent(count: nat, script: seq<Response>, prepare: Prepare, keySet: bool, gz: map<nat, Bytes>,
                 ungzip: Bytes -> Bytes, i: nat)
    requires ReadsFiles(prepare, keySet, gz) && CarriesFiles(prepare, gz)
    requires UploadFrom(0, count, None, script, prepare).outcome.Ok? && i < count
    ensures |UploadFrom(0, count, None, script, prepare).log| == count
    ensures i + 1 in gz && Payloads(UploadFrom(0, count, None, script, prepare).log, ungzip)[i] == ungzip(gz[i + 1])
  {
    var log := UploadFrom(0, count, None, script, prepare).log;
    FilesOutcome(count, script, prepare, keySet, gz);
    UploadFromStart(count, script, prepare, i);
    var q := prepare(i, HeldId(script, None, 0, i));
    assert q.Ok? && log[i] == q.value;
    assert i + 1 in gz && q.value.body == Octets(gz[i + 1]);
  }

  /** A completed loop over the gzipped files of `groups` carries, decoded and in order, the files' bytes. */
  lemma FilesRoundTrip(groups: seq<seq<Bytes>>, script: seq<Response>, prepare: Prepare, keySet: bool, gz: map<nat, Bytes>,
                       gzip: Bytes -> Bytes, ungzip: Bytes -> Bytes)
    requires ReadsFiles(prepare, keySet, gz) && CarriesFiles(prepare, gz)
    requires GzippedFiles(gz, groups, gzip) && forall b :: ungzip(gzip(b)) == b
    requires UploadFrom(0, |groups|, None, script, prepare).outcome.Ok?
    ensures Payloads(UploadFrom(0, |groups|, None, script, prepare).log, ungzip) == Files(groups)
  {
    var log := UploadFrom(0, |groups|, None, script, prepare).log;
    FilesOutcome(|groups|, script, prepare, keySet, gz);
    forall i | 0 <= i < |log|
      ensures Payloads(log, ungzip)[i] == Files(groups)[i]
    {
      FileSent(|groups|, script, prepare, keySet, gz, ungzip, i);
      assert gz[i + 1] == gzip(FileBytes(groups, i));
    }
  }

  /**
   * With a decoder that undoes gzip, a completed upload from a fresh module
   * carries, in order, the chunk files of the stream, which spell the stream.
   */
  lemma FreshUploadRoundTrip(c: Outbound, pieces: seq<Bytes>, gz: map<nat, Bytes>, env: map<string, string>,
                             script: seq<Response>, fx: Effects, ungzip: Bytes -> Bytes)
    requires forall b :: ungzip(fx.gzip(b)) == b
    requires GzippedFiles(gz, Pack(pieces).groups, fx.gzip)
    requires UploadChunkFiles(c, gz, |Pack(pieces).groups|, env, script, fx).outcome.Ok?
    ensures Payloads(UploadChunkFiles(c, gz, |Pack(pieces).groups|, env, script, fx).log, ungzip) == Files(Pack(pieces).groups)
    ensures Concat(Payloads(UploadChunkFiles(c, gz, |Pack(pieces).groups|, env, script, fx).log, ungzip)) == Concat(pieces)
  {
    var groups := Pack(pieces).groups;
    var log := UploadChunkFiles(c, gz, |groups|, env, script, fx).log;
    PreparedReadsFiles(c, gz, |groups|, env, fx);
    PreparedCarriesFiles(c, gz, |groups|, env, fx);
    FilesRoundTrip(groups, script, Prepared(c, gz, |groups|, env, fx), SharedKeyVariable in env, gz, fx.gzip, ungzip);
    FilesSpellStream(pieces);
  }
}
