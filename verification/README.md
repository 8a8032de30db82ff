# MESH client core, modelled in Dafny

This project models the sequential logic of a JavaScript client for MESH, the
NHS message-exchange service. The modelled logic sits underneath the HTTP calls:

- **Authorisation tokens and header sets.** `generateToken` cuts a
  minute-precision timestamp out of the ISO clock string. It joins
  `mailboxID:nonce:nonceCount:password:timestamp` as the HMAC input and renders
  `NHSMESH mailboxID:nonce:nonceCount:timestamp:hmac`. The five copies of
  `generateHeaders` wrap that token in a fixed header map. The copies differ in
  where the shared key comes from (a parameter or the `MESH_SHARED_KEY`
  environment variable) and in which keys they add. The model has one
  parameterised `Token.Mint` and three header sets:
  - canonical: six keys;
  - outbound: twelve keys, used by `post/` and `sendMessage`;
  - inbound: seven keys, used by `get/` and `put/`, whose two copies are the same.
- **`sendChunkedMessage`.** It fixes `ceil(size / CHUNK_SIZE)` chunks up front.
  It POSTs each gzipped 10 MiB slice with fresh headers and the range
  `i:total`. Chunk 1 goes to the outbox and later chunks go to
  `outbox/{messageID}/{i}`. The id is taken from the response to chunk 1 when
  that response is a 202.
- **`sendMessageChunks`.** The `CsvChunker` transform packs stream pieces
  greedily into numbered files of at most `CHUNK_SIZE` bytes, unless a
  single piece is larger. `splitAndZipCsv`
  gzips every file below the module-wide counter `fileIndex`. The upload loop
  POSTs the gzipped files in order. It holds the first truthy `message_id`
  answered. Any other 2xx answer ends the process, and a non-2xx answer
  rejects the call.
- **`readMessage`.** It GETs `inbox/{id}/{k}` for k = 1, 2, …, appends every
  200/206 body to the output, and stops at the chunk whose `mex-chunk-range`
  total (as `parseInt` reads it) is k, or at a response with no range header.
  It returns the first chunk's response, and throws on any other status.
- **`sendMessage`.** A single POST of `{data: message}` that returns the
  response on 202.

The network is a scripted `seq<Response>`: response `j` answers request `j`, and
a script that runs out is a transport failure. Each transfer is a pure function
that returns the log of requests it issued and its outcome. The file-based
upload is a method over a `Workspace` that stands for the module-wide counter
and the `output/` directory. The foreign calls are the fields of `Http.Effects`,
indexed by the number of the header set being built:
- UUID v4;
- the clock;
- HMAC-SHA256;
- gzip.

## Model

| member | source | states |
|---|---|---|
| Text.NatToString | src/post/send_chunked_message.js:268 | A number renders as a non-empty string of decimal digits that starts with `0` only for zero, so it has no leading zeros. |
| Text.NatToStringRoundTrip | src/post/send_chunked_message.js:268 | The decimal rendering a template literal gives a chunk number reads back as that number. |
| Text.ParseIntOfNatToString | src/get/read_message.js:68 | `parseInt(…, 10)` of a rendered number followed by a non-digit yields exactly that number. |
| Text.ParseIntNoDigits | src/get/read_message.js:68 | A field with no digit parses as `NaN`. |
| Text.SplitOn | src/get/read_message.js:68 | `split(":")` yields at least one piece, and no piece holds the separator. |
| Text.SplitJoin | src/headers/generate_headers.js:36 | Splitting a colon-joined list of colon-free fields on `:` gives back the fields. |
| Text.ParseInt | src/get/read_message.js:68 | `parseInt` yields a number only when the string holds a digit; otherwise it is `NaN`. |
| Clock.MinuteStampOfIso | src/headers/generate_headers.js:32-35 | For a well-formed instant the timestamp is exactly `YYYYMMDDHHMM`: 12 digits. |
| Clock.MinutePrecision | src/headers/generate_headers.js:32-35 | Two instants give the same timestamp if and only if they agree to the minute. Seconds and milliseconds never reach it. |
| Clock.Strip | src/headers/generate_headers.js:34 | The result holds none of `-`, `:`, `.`, `T` and `Z`. Every other character of the input is kept, and the result is no longer than the input. |
| Clock.MinuteStamp | src/headers/generate_headers.js:32-35 | The timestamp has at most 12 characters, and none of them is `-`, `:`, `.`, `T` or `Z`. |
| Clock.StripLayout | src/headers/generate_headers.js:34 | Removing `-:.TZ` from the ISO layout leaves its digit fields, concatenated in order. |
| Token.Mint | src/headers/generate_headers.js:23-44 | A token exists exactly when the shared key is defined; an undefined key makes the HMAC call throw. Every token starts with the scheme `NHSMESH `. |
| Token.HmacMessage | src/headers/generate_headers.js:36 | The HMAC input is `mailboxID:nonce:nonceCount:password:timestamp`, the count rendered in decimal. |
| Token.Render | src/headers/generate_headers.js:43 | The token is `NHSMESH mailboxID:nonce:nonceCount:timestamp:hmac`. |
| Token.ParseToken | src/headers/generate_headers.js:43 | A token that parses renders back to itself, and its first four fields are colon-free. With `ParseRender` the two are inverse. |
| Token.ParseRender | src/headers/generate_headers.js:43 | The token format parses back into mailbox id, nonce, nonce count, timestamp and digest when the first four are colon-free. |
| Token.MintFields | src/headers/generate_headers.js:27-43 | A minted token reads back as the mailbox id, the effective nonce and count, the minute timestamp, and the HMAC keyed by the shared key over the colon-joined input. |
| Token.MintDefaults | src/headers/generate_headers.js:27-28 | Without explicit values, the nonce is the fresh UUID and the nonce count is `0`. |
| Token.PasswordOnlyInDigest | src/headers/generate_headers.js:36-43 | Tokens minted with two passwords agree on every field except the digest, so the password appears only inside the HMAC input. |
| Token.DistinctNoncesDistinctTokens | src/headers/generate_headers.js:27-43 | Distinct nonces give distinct tokens, whatever the clock reads. |
| Token.HmacInputOrder | src/headers/generate_headers.js:36 | The HMAC input splits back into mailbox id, nonce, nonce count, password and timestamp, in that order. |
| Headers.EnvSharedKey | src/post/generate_headers.js:12 | The key is defined exactly when `MESH_SHARED_KEY` is set, and is then its value. |
| Headers.CanonicalSet | src/headers/generate_headers.js:63-70 | The map has exactly the six keys. `accept`, `mex-clientversion` and the three OS keys hold their fixed values, and `authorization` holds the token. |
| Headers.CanonicalHeaders | src/headers/generate_headers.js:57-72 | A header map exists exactly when the key is defined, and it is the six-key set around its own token. |
| Headers.CanonicalToken | src/headers/generate_headers.js:58-62 | The embedded token reads back as minted with the given key, the fresh UUID, count `0` and the clock's minute. |
| Headers.OutboundSet | src/post/generate_headers.js:30-47 | The map has exactly twelve keys. `content-type` and `Content-Type` are distinct keys. `mex-from` is the sender, `mex-to` is the target, and the remaining keys hold their fixed values. |
| Headers.OutboundHeaders | src/post/generate_headers.js:5-48 | A header map exists exactly when `MESH_SHARED_KEY` is set in the environment, and it is the twelve-key set around its own token. |
| Headers.OutboundToken | src/post/send_message.js:7-49 | In the environment-keyed copy, the token reads back as minted with the environment's key, the fresh UUID and count `0`. |
| Headers.InboundSet | src/get/generate_headers.js:28-40 | The map has exactly seven keys, including `Content-Type: application/json` and the client version `ApiDocs==0.0.1`. |
| Headers.InboundHeaders | src/put/generate_headers.js:28-40 | A header map exists exactly when the positional key is defined, and it is the seven-key set around its own token. |
| Headers.InboundToken | src/get/generate_headers.js:5-30 | The token reads back as minted with the positional key, the fresh UUID and count `0`. |
| Chunking.CeilDiv | src/post/send_chunked_message.js:253 | `Math.ceil(a / b)` is the count `r` with `a <= r * b < a + b`. |
| Chunking.CeilDivBounds | src/post/send_chunked_message.js:253 | `ceil(size / CHUNK_SIZE)` chunks cover the size, one chunk fewer would not, and the count is zero exactly for an empty file. |
| Chunking.Split | src/post/send_chunked_message.js:50-61 | The slices concatenate to the input. Each slice is non-empty and at most `CHUNK_SIZE` bytes, all but the last are full, and there are `ceil(len / CHUNK_SIZE)` of them. |
| Http.ChunkRange | src/post/send_chunked_message.js:268 | The range header `i:total` splits on `:` into the two rendered numbers. |
| Http.RangeTotal | src/get/read_message.js:68 | The total reads as a number only when the header holds a `:`. |
| Http.ChunkRangeRoundTrip | src/post/send_chunked_message.js:268 | The range header `i:total` splits back into its two numbers, and the downloader's reading of its total is `total`. |
| Http.ChunkNumberInUrl | src/post/send_chunked_message.js:274-276 | The last path segment of a chunk URL is the chunk number, and it parses back to that number. |
| ChunkedUpload.ChunkUrl | src/post/send_chunked_message.js:271-276 | Every chunk URL lies under the sender's outbox, and it is the bare outbox exactly for chunk 1. |
| ChunkedUpload.ChunkRequest | src/post/send_chunked_message.js:258-286 | A chunk's request is a POST through the agent of the gzipped chunk, and its range header's total reads back as the fixed total. |
| ChunkedUpload.TransferHeaders | src/post/send_chunked_message.js:263-269 | The seven transfer keys are written with their values, including the range `index+1:total`. Every other key keeps its value, and nothing is removed. |
| ChunkedUpload.ChunkHeaders | src/post/send_chunked_message.js:258-269 | Each chunk's headers are the six canonical keys plus the seven transfer keys, with the range `index+1:total`. |
| ChunkedUpload.ChunkToken | src/post/send_chunked_message.js:258-262 | Chunk `index` is signed with its own UUID and clock reading. |
| ChunkedUpload.SendFrom | src/post/send_chunked_message.js:257-298 | The loop never sends more requests than there are chunks left, and sends none without a key. |
| ChunkedUpload.SendFromOutcome | src/post/send_chunked_message.js:257-298 | The loop completes exactly when every request is accepted. Otherwise it stops at the first rejected or unanswered request, and no later chunk is sent. |
| ChunkedUpload.SendFromStart | src/post/send_chunked_message.js:271-286 | Request `i` is chunk `i`, built with the id held at that point. |
| ChunkedUpload.SendChunkedMessage | src/post/send_chunked_message.js:240-301 | There are at most `ceil(size / CHUNK_SIZE)` requests, and there are none when the key is undefined. |
| ChunkedUpload.SendChunkedOutcome | src/post/send_chunked_message.js:288-295 | The upload completes exactly when there is nothing to send, or the key is set and every chunk is accepted; then one request per chunk was sent. Otherwise it stops at the first failed request, after earlier ones were all accepted. |
| ChunkedUpload.UploadUrls | src/post/send_chunked_message.js:271-290 | Request 1 goes to the outbox. Request `i` after it goes to `outbox/{id}/{i+1}`, where the id is chunk 1's `message_id` when it was answered 202 and `undefined` otherwise. |
| ChunkedUpload.UploadHeaders | src/post/send_chunked_message.js:253-269 | Request `i` carries chunk `i`'s header set with the total fixed before the first send. |
| ChunkedUpload.FreshTokens | src/post/send_chunked_message.js:258-262 | Two requests of one upload, given distinct UUIDs, carry distinct tokens. |
| ChunkedUpload.ChunkRangeTotal | src/post/send_chunked_message.js:253-268 | Every chunk announces the same total, the one computed before the loop. |
| ChunkedUpload.UndefinedMessageId | src/post/send_chunked_message.js:271-290 | When the first answer is accepted but is not a 202, the id is never set and chunk 2 goes to `outbox/undefined/2`. |
| ChunkedUpload.SendChunkedRoundTrip | src/post/send_chunked_message.js:249-286 | With a decoder that undoes gzip, a completed upload's bodies decode, in order, to the file's slices, and their concatenation is the file. |
| CsvChunker.Transform | src/post/send_message_chunks.js:21-32 | The piece is written whole after everything written so far. It opens a new file exactly when it does not fit or no file is open, and `currentSize` restarts there. |
| CsvChunker.Pack | src/post/send_message_chunks.js:21-41 | The files hold exactly the pieces, in order: none is lost, split or repeated. |
| CsvChunker.PackGreedy | src/post/send_message_chunks.js:21-41 | The files spell the pieces in order, and no file has zero pieces. A file over `CHUNK_SIZE` holds a single piece. Every file but the last could not take the first piece of the next. |
| CsvChunker.GreedyUnique | src/post/send_message_chunks.js:22-31 | The transform's packing is the only packing with those properties. |
| CsvChunker.FilesSpellStream | src/post/send_message_chunks.js:26-31 | The chunk files, concatenated in number order, reproduce the stream. |
| CsvChunker.PackCount | src/post/send_message_chunks.js:22-27 | There are no more files than pieces, and no file exactly when the stream is empty. |
| CsvChunker.SmallStreamOneFile | src/post/send_message_chunks.js:22-31 | A non-empty stream that fits in `CHUNK_SIZE` makes exactly one file. |
| ChunkFileUpload.WriteChunkFiles | src/post/send_message_chunks.js:12-47 | The counter advances by the number of files. Files numbered from the old counter hold the packed groups, and files below it are untouched. |
| ChunkFileUpload.GzipChunkFiles | src/post/send_message_chunks.js:51-69 | Every `.csv` file below the counter gets its gzip in the `.gzip` file. A `.gzip` file below the counter whose `.csv` is missing is left empty, because the write stream opens it before the read fails. Every `.gzip` file outside that range is as it was. The count is one less than the counter. |
| ChunkFileUpload.SplitAndZipCsv | src/post/send_message_chunks.js:43-56 | The count is `fileIndex - 1`, so it also covers files left by earlier calls, and those are gzipped again. A `.gzip` file whose `.csv` is missing is left empty. From a fresh module the `.gzip` files are the gzipped groups. A failed read rejects before anything is gzipped. |
| ChunkFileUpload.OldFilesRegzipped | src/post/send_message_chunks.js:12-52 | Files an earlier call left below the counter are gzipped again from their unchanged contents. |
| ChunkFileUpload.FileChunkUrl | src/post/send_message_chunks.js:97-101 | Every chunk URL lies under the sender's outbox, and it is the bare outbox exactly when no truthy id is held. |
| ChunkFileUpload.RangeHeaders | src/post/send_message_chunks.js:108-109 | The range `chunk:count` and `content-encoding: gzip` are written over the header set, and every other key keeps its value. |
| ChunkFileUpload.FileChunkRequest | src/post/send_message_chunks.js:96-121 | A pass builds its request exactly when the key is set and its `.gzip` file exists, and otherwise it says which of the two throws. The request is the POST of that file with the range `chunk:count` to the URL the held id selects. |
| ChunkFileUpload.FileChunkToken | src/post/send_message_chunks.js:103-107 | Each chunk is signed with its own pass's UUID and clock reading. |
| ChunkFileUpload.UploadFrom | src/post/send_message_chunks.js:96-143 | The loop never sends more requests than there are passes left. |
| ChunkFileUpload.UploadFromOutcome | src/post/send_message_chunks.js:96-143 | The loop completes exactly when every pass builds its request and is answered 202. Otherwise it stops at the first pass that throws or whose answer fails. |
| ChunkFileUpload.NextId | src/post/send_message_chunks.js:127-131 | A held truthy id is kept. Otherwise the id becomes the answer's `message_id`, and it never comes from anywhere else. |
| ChunkFileUpload.HeldIdSticks | src/post/send_message_chunks.js:127-131 | Once a truthy id is held, it is never replaced. |
| ChunkFileUpload.HeldIdIsFirstTruthy | src/post/send_message_chunks.js:123-131 | The id held is the first truthy `message_id` answered. |
| ChunkFileUpload.UploadChunkFiles | src/post/send_message_chunks.js:96-143 | The upload sends at most one request per file. |
| ChunkFileUpload.UploadChunkFilesOutcome | src/post/send_message_chunks.js:96-143 | The upload completes exactly when the key is set (or there is nothing to send), every file exists and every answer is 202, with one request per file. Otherwise it names the first failing chunk and the reason. |
| ChunkFileUpload.UploadChunkFilesRequest | src/post/send_message_chunks.js:96-121 | Request `i` is the POST of file `i+1` with the range `i+1:count`, under the id held at that pass. |
| ChunkFileUpload.UploadChunkFilesUrls | src/post/send_message_chunks.js:96-101 | After the first truthy id, every chunk goes to `outbox/{id}/{chunk}`. Before it, every chunk goes to the bare outbox. |
| ChunkFileUpload.SendMessageChunks | src/post/send_message_chunks.js:71-145 | The counter and files change as `splitAndZipCsv` says. A failed split sends nothing and resolves. Otherwise the upload runs over `fileIndex - 1` files, and every `.gzip` file it reads exists. |
| ChunkFileUpload.FreshUploadRoundTrip | src/post/send_message_chunks.js:117-121 | With a decoder that undoes gzip, a completed upload from a fresh module carries the chunk files in order, and they spell the stream. |
| ChunkedDownload.ChunkGet | src/get/read_message.js:34-50 | The GET of chunk `j+1` targets `inbox/{id}/{j+1}` through the agent. It exists exactly when the key is defined. |
| ChunkedDownload.ChunkGetHeaders | src/get/read_message.js:34-38 | Each GET carries a freshly minted canonical header set, signed with its own UUID and clock reading. |
| ChunkedDownload.ReadFrom | src/get/read_message.js:33-77 | The loop issues at most one GET per remaining response, plus one. |
| ChunkedDownload.ReadFromOutcome | src/get/read_message.js:33-88 | Every GET before the final one was delivered and was not the last chunk. The download succeeds exactly when the final one was the last chunk, and otherwise fails with that GET's error. The output is the delivered bodies in order. |
| ChunkedDownload.ReadStopsAtFirstLast | src/get/read_message.js:65-71 | The converse: if responses up to `k` continue and response `k` is the last, the loop succeeds after exactly those GETs. |
| ChunkedDownload.ReadFromRequest | src/get/read_message.js:33-49 | GET `i` is the one pass `i` builds, for chunk `i+1`. |
| ChunkedDownload.ReadMessage | src/get/read_message.js:20-89 | There is at most one GET per scripted response, plus one. |
| ChunkedDownload.ReadMessageOutcome | src/get/read_message.js:51-88 | The download succeeds exactly when the key is set and a run of delivered, non-last chunks ends in a delivered last chunk. It then returns chunk 1's response, and the output is the bodies in order. Otherwise it fails with the final GET's error, keeping the bodies written before it. |
| ChunkedDownload.ReadMessageStops | src/get/read_message.js:65-71 | The download stops at the first last chunk, after exactly that many GETs. |
| ChunkedDownload.AnnouncedTotal | src/get/read_message.js:65-71 | Responses whose range totals all read as N, such as the ranges `1:N` … `N:N` an uploader announces, are read in exactly N GETs, and the output is their bodies in order. |
| ChunkedDownload.IsLast | src/get/read_message.js:65-71 | A response without a range header (or with an empty one) ends the download. A ranged response can end it only when its header holds a `:`. |
| ChunkedDownload.RangedChunk | src/get/read_message.js:65-69 | A response carrying `k:N` is the last for chunk `k` exactly when `k` is `N`, whatever its status. |
| ChunkedDownload.NoColonNeverLast | src/get/read_message.js:66-68 | A non-empty range header without a `:` reads as `NaN` and never marks a last chunk. |
| ChunkedDownload.NaNRangeNeverStops | src/get/read_message.js:33-71 | If every total reads as `NaN`, the loop never stops by itself: it asks for one chunk more than there are answers. |
| ChunkedDownload.TotalBelowNeverStops | src/get/read_message.js:33-71 | If every total reads as a number below its own chunk's, the loop never stops by itself: it asks for one chunk more than there are answers. |
| SingleSend.SendMessage | src/post/send_message.js:51-87 | One POST of `{data: message}` to the outbox, exactly when the environment holds the key. Its headers are the twelve-key outbound set around its token, with `mex-from` and `mex-to` set, and it attaches the agent only when TLS is enabled. It returns the response exactly on 202. Any other 2xx ends the process, and a non-2xx rejects. |
| SingleSend.SendMessageToken | src/post/send_message.js:7-30 | The POST's token reads back as minted with the environment's key, UUID 0 and the clock's first reading. |

## Left out

- HMAC-SHA256, UUID v4, `new Date()` and gzip are foreign calls. They are parameters (`Http.Effects`) and their internals are not modelled; round trips assume a decoder that undoes gzip.
- File and stream I/O (`fs` streams, `highWaterMark`, `pipeline`, `readFileSync`) is not modelled. The file content is a byte sequence, and the output directory is the `csv`/`gz` maps of the workspace.
- ChunkedUpload.SendChunkedMessage: the read stream is taken to deliver exactly the `CHUNK_SIZE` slices of the file. A stream error part-way through is not modelled.
- `process.exit`, logging and axios' error-shape branches all collapse into one `Http.Error` outcome each. `process.exit(1)` becomes `ProcessExit`.
- The branch of `compressAndSendChunk` that never settles when the headers are undefined (src/post/send_chunked_message.js:208-211) is left out. The model's headers are always defined when a request is built.
- Clock.MinuteStampOfIso: the timestamp is proved only for instants with a four-digit year and in-range fields. The six-digit years `toISOString` renders outside that range, calendar validity and the time zone are not modelled.
- ChunkedDownload.ReadMessage: the loop is bounded by the script. Asking for a response the script does not hold is a transport failure, so an endless download is seen as one GET past the end of the script.
- Numbers are unbounded integers. The precision JavaScript numbers lose above 2^53, in `parseInt` and in `Math.ceil(size / CHUNK_SIZE)`, is not modelled.
- ChunkFileUpload.SplitAndZipCsv: a failing read stream is the `readFails` flag and is taken to fail after all pieces are written. A failure part-way through is not modelled.
- ChunkFileUpload.GzipChunkFiles: a missing `.csv` file is the one gzip pipeline failure modelled; it leaves the `.gzip` file empty. A failure in the middle of the gzip stream, which would leave a partial file, is not modelled.
- A `null` JSON body on a 202, which makes `response.data["message_id"]` throw (src/post/send_chunked_message.js:289, src/post/send_message_chunks.js:129 and 139-141), is not modelled. A response's `message_id` is an optional string.
- A `zlib.gzip` error, which rejects `compressAndSendChunk` (src/post/send_chunked_message.js:204-206), is not modelled. Gzip is a total function.
- The unreachable `catch` of `sendMessage` (src/post/send_message.js:83-86) is left out. Nothing in its `try` block throws.
- Header keys are case-sensitive map keys, as the source's object literal has them. How axios merges `content-type` and `Content-Type` on the wire is not modelled.
- The TLS agent is a flag on each request. The agent's configuration and its being undefined are not modelled.
- `src/get/handshake.js`, `src/get/message_count.js` and `src/put/mark_as_read.js` are not part of this model. Each is a single request with no loop or state.
- Configuration and certificate loading, the service classes, the example scripts and `Promise.all` batching are not part of this model. They are I/O and orchestration around the modelled calls.
- The commented-out older `sendChunkedMessage` loop (src/post/send_chunked_message.js:79-176) is not modelled. Only its `splitIntoChunks` serves as the split definition.
