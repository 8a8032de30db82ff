/**
 * The transport seen by the transfer loops: requests as logged values,
 * responses as a scripted sequence, and the endpoint URLs of the exchange.
 */
module Http {
  import opened Wrappers
  import opened Text
  import opened Clock
  import Token

  newtype byte = x: int | 0 <= x < 256

  type Bytes = seq<byte>

  type HeaderMap = map<string, string>

  /** The header set holds `key`, with `value`. */
  predicate Has(h: HeaderMap, key: string, value: string)
  {
    key in h && h[key] == value
  }

  datatype Method = Get | Post

  /** A request body: nothing, raw octets, or the JSON object `{data: ...}`. */
  datatype Body = NoBody | Octets(bytes: Bytes) | JsonData(data: string)

  /** One HTTP call as issued; `httpsAgent` records whether the TLS agent was attached. */
  datatype Request = Request(verb: Method, url: string, headers: HeaderMap, body: Body, httpsAgent: bool)

  /**
   * One scripted answer: the status, the `mex-chunk-range` response header, the
   * body bytes and the `message_id` field of a JSON body.
   */
  datatype Response = Response(status: int, chunkRange: Option<string>, body: Bytes, messageId: Option<string>)

  /** The ways a transfer ends early. */
  datatype Error =
    | MissingSharedKey        // the HMAC call threw on an undefined key; no request was sent
    | NoResponse              // the transport produced no response (network failure, timeout)
    | HttpStatus(status: int) // axios rejected a status outside 2xx
    | UnexpectedStatus(status: int) // a 2xx status the code throws on
    | ProcessExit(status: int)      // a 2xx status the code answers with process.exit(1)
    | MissingFile(chunk: nat)       // readFileSync threw: the gzipped chunk file is not on disk

  /** A transfer: the requests it issued, in order, and how it ended. */
  datatype Run<T> = Run(log: seq<Request>, outcome: Result<T, Error>)

  /**
   * The foreign calls a transfer makes, indexed by the number of the header set
   * being built: a fresh UUID and a clock reading per header set, the HMAC
   * primitive, and gzip.
   */
  datatype Effects = Effects(uuid: nat -> string, now: nat -> Instant, hmac: Token.Hmac, gzip: Bytes -> Bytes)

  /** axios' default `validateStatus`: any other status rejects the request's promise. */
  predicate Accepted(status: int)
  {
    200 <= status < 300
  }

  function Concat(chunks: seq<Bytes>): Bytes
  {
    if chunks == [] then [] else Concat(chunks[..|chunks| - 1]) + chunks[|chunks| - 1]
  }

  lemma {:induction false} ConcatAppend(a: seq<Bytes>, b: seq<Bytes>)
    ensures Concat(a + b) == Concat(a) + Concat(b)
    decreases |b|
  {
    if b == [] {
      assert a + b == a;
    } else {
      var init, last := b[..|b| - 1], b[|b| - 1];
      assert (a + b)[..|a + b| - 1] == a + init;
      calc {
        Concat(a + b);
        Concat(a + init) + last;
        { ConcatAppend(a, init); }
        (Concat(a) + Concat(init)) + last;
        Concat(a) + (Concat(init) + last);
        Concat(a) + Concat(b);
      }
    }
  }

  lemma ConcatCons(x: Bytes, rest: seq<Bytes>)
    ensures Concat([x] + rest) == x + Concat(rest)
  {
    ConcatAppend([x], rest);
    assert Concat([x]) == Concat([]) + x;
  }

  /** The octets each request carried, decoded with `decode`; a request without octets contributes nothing. */
  function Payloads(log: seq<Request>, decode: Bytes -> Bytes): (p: seq<Bytes>)
    ensures |p| == |log|
    ensures forall i :: 0 <= i < |log| && log[i].body.Octets? ==> p[i] == decode(log[i].body.bytes)
  {
    seq(|log|, i requires 0 <= i < |log| => if log[i].body.Octets? then decode(log[i].body.bytes) else [])
  }

  function MailboxUrl(base: string, mailboxId: string): string
  {
    base + "/messageexchange/" + mailboxId
  }

  /** `POST {url}/messageexchange/{mailbox}/outbox`: creates a message or its first chunk. */
  function OutboxUrl(base: string, mailboxId: string): string
  {
    MailboxUrl(base, mailboxId) + "/outbox"
  }

  /** `POST .../outbox/{messageId}/{chunk}`: a later chunk of a message under upload. */
  function OutboxChunkUrl(base: string, mailboxId: string, messageId: string, chunk: nat): string
  {
    OutboxUrl(base, mailboxId) + "/" + messageId + "/" + NatToString(chunk)
  }

  /** `GET .../inbox/{messageId}/{chunk}`: one chunk of an inbound message. */
  function InboxChunkUrl(base: string, mailboxId: string, messageId: string, chunk: nat): string
  {
    MailboxUrl(base, mailboxId) + "/inbox/" + messageId + "/" + NatToString(chunk)
  }

  /** The last `/`-separated segment of a URL. */
  function LastSegment(url: string): string
  {
    var parts := SplitOn(url, '/');
    parts[|parts| - 1]
  }

  lemma SplitOnLast(prefix: string, last: string, sep: char)
    requires sep !in last
    ensures var parts := SplitOn(prefix + [sep] + last, sep); parts[|parts| - 1] == last
  {
    SplitOnLastRec(prefix, last, sep);
  }

  lemma {:induction false} SplitOnLastRec(prefix: string, last: string, sep: char)
    requires sep !in last
    ensures var parts := SplitOn(prefix + [sep] + last, sep); |parts| >= 2 && parts[|parts| - 1] == last
    decreases |prefix|
  {
    var s := prefix + [sep] + last;
    if prefix == [] {
      assert s == [sep] + last;
      assert s[1..] == last;
      SplitOnNoSeparator(last, sep);
    } else {
      assert s[1..] == prefix[1..] + [sep] + last;
      SplitOnLastRec(prefix[1..], last, sep);
    }
  }

  /** The chunk number is the last path segment of a chunk URL, and reads back with `parseInt`. */
  lemma ChunkNumberInUrl(base: string, mailboxId: string, messageId: string, chunk: nat)
    ensures LastSegment(OutboxChunkUrl(base, mailboxId, messageId, chunk)) == NatToString(chunk)
    ensures LastSegment(InboxChunkUrl(base, mailboxId, messageId, chunk)) == NatToString(chunk)
    ensures ParseInt(LastSegment(OutboxChunkUrl(base, mailboxId, messageId, chunk))) == Some(chunk)
  {
    var d := NatToString(chunk);
    assert '/' !in d by {
      forall i | 0 <= i < |d| ensures d[i] != '/' {
        assert IsDigit(d[i]);
      }
    }
    var p1 := OutboxUrl(base, mailboxId) + "/" + messageId;
    assert OutboxChunkUrl(base, mailboxId, messageId, chunk) == p1 + ['/'] + d;
    SplitOnLast(p1, d, '/');
    var p2 := MailboxUrl(base, mailboxId) + "/inbox/" + messageId;
    assert InboxChunkUrl(base, mailboxId, messageId, chunk) == p2 + ['/'] + d;
    SplitOnLast(p2, d, '/');
    ParseIntOfNatToString(chunk, "");
    assert d + "" == d;
  }

  /** The chunk-range header value `"{index}:{total}"`. */
  function ChunkRange(index: nat, total: nat): (r: string)
    ensures SplitOn(r, ':') == [NatToString(index), NatToString(total)]
  {
    DigitsSplit(NatToString(index), NatToString(total));
    NatToString(index) + ":" + NatToString(total)
  }

  /** Two digit strings joined by `:` split back into the two. */
  lemma DigitsSplit(a: string, b: string)
    requires AllDigits(a) && AllDigits(b)
    ensures SplitOn(a + ":" + b, ':') == [a, b]
  {
    assert ':' !in a by {
      forall i | 0 <= i < |a| ensures a[i] != ':' {
        assert IsDigit(a[i]);
      }
    }
    assert ':' !in b by {
      forall i | 0 <= i < |b| ensures b[i] != ':' {
        assert IsDigit(b[i]);
      }
    }
    assert a + ":" + b == Join([a, b], ':');
    SplitJoin([a, b], ':');
  }

  /** The total a chunk-range header announces: `parseInt(h.split(":")[1], 10)`; `None` is `NaN`. */
  function RangeTotal(header: string): (r: Option<int>)
    ensures r.Some? ==> ':' in header
  {
    match Field(header, ':', 1)
    case None => None
    case Some(f) =>
      assert ':' in header by {
        if ':' !in header { FieldOfSeparatorFree(header, ':'); }
      }
      ParseInt(f)
  }

  /** A chunk-range header built by the uploader reads back as its index and total. */
  lemma ChunkRangeRoundTrip(index: nat, total: nat)
    ensures SplitOn(ChunkRange(index, total), ':') == [NatToString(index), NatToString(total)]
    ensures RangeTotal(ChunkRange(index, total)) == Some(total)
  {
    var b := NatToString(total);
    ParseIntOfNatToString(total, "");
    assert b + "" == b;
  }
}
