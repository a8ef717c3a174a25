# etag-cache in Dafny

A model of the core of etag-cache, a small Java library. It caches HTTP GET
responses on disk, keyed by the SHA-1 of the URL and validated with the
ETag / If-None-Match headers. The model has two parts:

- **EtagCache**. `getKey` pads the hex digest of a URL to a 40-character
  key. `get` turns a stored entry into a `CacheResponse`: the etag, the body,
  and the open snapshot that holds them. `put` wraps a 200 GET response in a
  `CacheStream`, which copies every byte read into a pending edit of the
  store. The stream commits the edit on `close` and aborts it when a copied
  write fails. The cache also keeps hit and miss counters.
- **CacheRequest**. It consults the cache once, when the request is
  finished (`closeOutput`), and sends the stored etag as If-None-Match. On a
  304 it serves the retained cached body and counts a hit. On a 200 it counts
  a miss and hands out the `put` wrapper. On every other status it releases
  the retained response; a transport failure keeps it.

Modules follow the program's structure:

| file | module | contents |
|---|---|---|
| prelude.dfy | `Prelude` | `Option`, `Io` (a value or an IOException), `byte` |
| keys.dfy | `Keys` | getKey's padding of the digest to a key |
| http.dfy | `Http` | the parts of an HTTP connection the cache reads |
| disk_cache.dfy | `DiskCache` | the store (DiskLruCache as EtagCache uses it): entries, edits in progress, open snapshots, current I/O faults |
| etag_cache.dfy | `Etag` | `CacheResponse`, `CacheStream`, `EtagCache` |
| cache_request.dfy | `Request` | `CacheRequest` and the buffered `body()` read |
| scenarios.dfy | `Scenarios` | the repository's test scenarios and the inputs behind the findings, as methods whose postconditions are what the tests observe |

How the environment is modelled:

- **Digest.** SHA-1 and `BigInteger.toString(16)` become a function
  parameter `digest: string -> Hashed`. `Hashed` is the set of canonical
  lowercase hex strings of at most 40 digits. `create` takes it as an
  `Option`, where None means that no SHA-1 implementation is available.
- **Store I/O errors.** Whether a store operation throws comes from the
  store's `faults` field. Whether a write copied into the cache fails, or
  whether the stream's `close` fails, is a parameter of that call.
- **The server.** It is a function from the If-None-Match value sent to
  the `Reply`: a status, an ETag header and a body. `None` stands for an
  exception: a status that cannot be read, or a body stream that cannot be
  opened.
- **Base class behaviour.** CacheRequest extends HttpRequest, which is not
  part of this model. Two of HttpRequest's behaviours are modelled as that
  library defines them, since neither appears in CacheRequest.java. First,
  `code()` finishes the request through `closeOutput()` before it reads the
  status. Second, `body()` reads `stream()` to its end through an 8192-byte
  buffer, then closes it and ignores a failing close. Which copies into the
  cache fail, and whether that close fails, are parameters of `Body`.

Below are the places where the code behaves otherwise than its Javadoc, its
tests or its callers suggest. The model follows the code in each of them,
with one exception: CacheRequest is built on the corrected `get` and `put`
of "## Findings", not on the as-written versions (see "## Left out").

- `code()` returns the raw status. A hit therefore reports 304, not 200, and
  `ok()` on it would be false. The tests expect `ok()` to be true on the
  second, cached request (EtagCacheTest.java:77), so they rely on a status
  translation that is not in CacheRequest.java:115-122.
- When the transport fails inside `code()`, the retained response keeps its
  snapshot open. Only a status other than 304 releases it.
- `disconnect()` releases the retained response, but it does not abort a
  `CacheStream` that is still being read.
- A `CacheStream.close()` whose underlying close throws has already set
  `done`. The editor stays pending and the key stays locked for editing.
- `CacheStream.close()` commits whatever has been read so far, even when
  the body was not read to its end (EtagCache.java:181-192). Put's Javadoc
  (EtagCache.java:285) describes a stream that is cached after it has been
  read. In the code, a reader that closes early leaves a truncated entry. The next
  request sends that entry's etag, gets a 304 and is served the truncated
  body. `Scenarios.TruncatedBodyServed` shows this.
- The hit/miss counters, `registerHit`, `registerMiss`, `resetStats` and
  `cached()` are not in the EtagCache.java text. The model takes them from
  their uses in CacheRequest.java:133-139 and EtagCacheTest.java.
  `cached()` is true once a body has been served from the cache.

## Model

| member | source | states |
|---|---|---|
| Keys.Zeros | lib/src/main/java/com/github/kevinsawicki/etag/EtagCache.java:214-215 | the padding is exactly `n` characters, each of them '0' |
| Keys.PadKey | lib/src/main/java/com/github/kevinsawicki/etag/EtagCache.java:209-216 | a key is always 40 characters; it ends with the digest and starts with zeros only; a 40-digit digest is the key itself; hex in gives hex out |
| Keys.PadKeyInjective | lib/src/main/java/com/github/kevinsawicki/etag/EtagCache.java:209-216 | padding is injective on canonical digests, so two digests never share a key (a consequence of the round trip) |
| Keys.Unpad | lib/src/main/java/com/github/kevinsawicki/etag/EtagCache.java:209-216 | the inverse of the padding: a suffix of the key with no leading zero unless it is the single digit "0" |
| Keys.UnpadZeros | lib/src/main/java/com/github/kevinsawicki/etag/EtagCache.java:209-216 | stripping any number of zeros put in front of a canonical digest gives the digest back |
| Keys.UnpadPadKey | lib/src/main/java/com/github/kevinsawicki/etag/EtagCache.java:209-216 | unpadding a key gives back exactly the digest it was made from |
| Etag.EtagCache.KeyOf | lib/src/main/java/com/github/kevinsawicki/etag/EtagCache.java:195-217 | getKey(String) is a 40-character hex key that ends with the URL's digest |
| Etag.EtagCache.Key | lib/src/main/java/com/github/kevinsawicki/etag/EtagCache.java:219-224 | a connection has a key exactly when it is HTTP, and that key is 40 hex characters |
| Etag.EtagCache.DistinctDigestsDistinctKeys | lib/src/main/java/com/github/kevinsawicki/etag/EtagCache.java:195-217 | URLs with different digests get different cache keys |
| Etag.EtagCache.constructor | lib/src/main/java/com/github/kevinsawicki/etag/EtagCache.java:244-249 | the cache opens a fresh store over the entries already on disk, with no edits or snapshots open and both counters at zero |
| Etag.EtagCache.Create | lib/src/main/java/com/github/kevinsawicki/etag/EtagCache.java:67-73 | null exactly when there is no digest or the store cannot be opened; otherwise a cache as the constructor builds it |
| Etag.EtagCache.IsCacheable | lib/src/main/java/com/github/kevinsawicki/etag/EtagCache.java:226-233 | only a GET answered with 200 is cacheable; a status that cannot be read counts as not cacheable |
| Etag.EtagCache.Lookup | lib/src/main/java/com/github/kevinsawicki/etag/EtagCache.java:257-282 | a response is found exactly when a snapshot is opened, the etag reads without fault and the entry has a non-empty etag and a body; it carries exactly the stored etag and body |
| Etag.EtagCache.GetAsWritten | lib/src/main/java/com/github/kevinsawicki/etag/EtagCache.java:257-282 | a snapshot is opened exactly when the connection is HTTP, the lookup does not throw and the key is stored; the response is non-null exactly when the lookup finds one; every null return after opening leaves the snapshot open |
| Etag.EtagCache.Get | lib/src/main/java/com/github/kevinsawicki/etag/EtagCache.java:257-282 | non-null exactly when the lookup finds a response, which holds the stored etag and body and the one snapshot it added; a null return leaves the open snapshots unchanged |
| Etag.EtagCache.PlanFor | lib/src/main/java/com/github/kevinsawicki/etag/EtagCache.java:290-344 | which path put takes: not keyed exactly for non-HTTP connections, uncacheable exactly for HTTP ones that are not a 200 GET; wrapping only a cacheable response with a body and a non-empty etag |
| Etag.EtagCache.PutAsWritten | lib/src/main/java/com/github/kevinsawicki/etag/EtagCache.java:290-344 | a wrapper exactly on the wrapped path; an uncacheable response removes the key unless remove throws; a failed etag write aborts the editor; a failed input/output open leaves the editor pending and the key locked |
| Etag.EtagCache.Put | lib/src/main/java/com/github/kevinsawicki/etag/EtagCache.java:290-344 | a wrapper exactly on the wrapped path: a fresh stream at position 0 over the network body, with a pending editor for the key holding the reply's etag; every null return leaves the edits in progress unchanged |
| Etag.EtagCache.RegisterHit | lib/src/main/java/com/github/kevinsawicki/etag/CacheRequest.java:133-135 | the hit count goes up by one |
| Etag.EtagCache.RegisterMiss | lib/src/main/java/com/github/kevinsawicki/etag/CacheRequest.java:138-139 | the miss count goes up by one |
| Etag.EtagCache.ResetStats | lib/src/test/java/com/github/kevinsawicki/etag/EtagCacheTest.java:169-171 | both counters are zero afterwards |
| Etag.CacheResponse.constructor | lib/src/main/java/com/github/kevinsawicki/etag/EtagCache.java:92-97 | the response holds the given etag, body and snapshot |
| Etag.CacheResponse.Close | lib/src/main/java/com/github/kevinsawicki/etag/EtagCache.java:99-101 | the response's snapshot is no longer open |
| Etag.CacheStream.constructor | lib/src/main/java/com/github/kevinsawicki/etag/EtagCache.java:130-137 | a new wrapper is at position 0 with its input and output open and the edit not done |
| Etag.CacheStream.Abort | lib/src/main/java/com/github/kevinsawicki/etag/EtagCache.java:139-155 | the first call closes the output and aborts the editor, which releases the key; a later call changes nothing |
| Etag.CacheStream.Read | lib/src/main/java/com/github/kevinsawicki/etag/EtagCache.java:157-167 | the reader gets the next network byte or -1 whether or not the copy succeeds; a byte read is appended to the pending edit, or a failed copy abandons the edit; at the end nothing about the edit changes |
| Etag.CacheStream.Chunk | lib/src/main/java/com/github/kevinsawicki/etag/EtagCache.java:169-171 | the count super.read returns: 0 for an empty request; -1 exactly at the end of a non-empty request; otherwise at least 1 and at most what was asked for and what is left, and exactly the smaller of those two when enough bytes have arrived |
| Etag.CacheStream.ReadInto | lib/src/main/java/com/github/kevinsawicki/etag/EtagCache.java:169-179 | the buffer receives the next network bytes at the offset and is unchanged elsewhere; those bytes are appended to the pending edit, or a failed copy abandons the edit |
| Etag.CacheStream.Close | lib/src/main/java/com/github/kevinsawicki/etag/EtagCache.java:181-192 | the first close commits the copied bytes under the editor's key with its etag and releases the key; a later close, or one whose underlying close throws, commits nothing |
| DiskCache.Store.constructor | lib/src/main/java/com/github/kevinsawicki/etag/EtagCache.java:248 | the store opens over the given entries with no edits, snapshots or faults |
| DiskCache.Store.Get | lib/src/main/java/com/github/kevinsawicki/etag/EtagCache.java:264 | an IOException on a lookup fault; null for an absent key; otherwise a fresh open snapshot of the stored entry |
| DiskCache.Store.Edit | lib/src/main/java/com/github/kevinsawicki/etag/EtagCache.java:309 | an IOException on an edit fault; null while the key is being edited; otherwise a fresh, empty, pending editor that locks the key |
| DiskCache.Store.Remove | lib/src/main/java/com/github/kevinsawicki/etag/EtagCache.java:297 | the entry is gone unless remove throws |
| DiskCache.Snapshot.GetString | lib/src/main/java/com/github/kevinsawicki/etag/EtagCache.java:272 | the stored etag, or an IOException on a read fault |
| DiskCache.Snapshot.Close | lib/src/main/java/com/github/kevinsawicki/etag/EtagCache.java:100 | the snapshot is no longer open |
| DiskCache.Editor.SetEtag | lib/src/main/java/com/github/kevinsawicki/etag/EtagCache.java:317 | value 0 becomes the etag unless the write throws |
| DiskCache.Editor.NewOutputStream | lib/src/main/java/com/github/kevinsawicki/etag/EtagCache.java:335 | value 1 is restarted empty unless opening it throws |
| DiskCache.Editor.Write | lib/src/main/java/com/github/kevinsawicki/etag/EtagCache.java:162 | the bytes are appended to value 1 |
| DiskCache.Editor.Commit | lib/src/main/java/com/github/kevinsawicki/etag/EtagCache.java:191 | the entry becomes the etag and the bytes written, and the key is released |
| DiskCache.Editor.Abort | lib/src/main/java/com/github/kevinsawicki/etag/EtagCache.java:151 | the edit is discarded and the key released |
| Request.CacheRequest.constructor | lib/src/main/java/com/github/kevinsawicki/etag/CacheRequest.java:72-77 | a new request has not consulted the cache, retains nothing and sends no If-None-Match |
| Request.CacheRequest.Get | lib/src/main/java/com/github/kevinsawicki/etag/CacheRequest.java:40-43 | a fresh GET request for the URL over the cache |
| Request.CacheRequest.CloseCacheResponse | lib/src/main/java/com/github/kevinsawicki/etag/CacheRequest.java:94-100 | the retained response's snapshot is closed and nothing is retained afterwards; with nothing retained, nothing changes |
| Request.CacheRequest.CloseOutput | lib/src/main/java/com/github/kevinsawicki/etag/CacheRequest.java:102-113 | the first call retains what get finds and sends its etag; later calls change neither the retained response nor the open snapshots |
| Request.CacheRequest.Code | lib/src/main/java/com/github/kevinsawicki/etag/CacheRequest.java:115-122 | the status is the server's raw answer to the If-None-Match sent; any status other than 304 releases the retained response and closes its snapshot and no other; a 304 or a transport failure keeps it, and the open snapshots gain only the one the first lookup opened |
| Request.CacheRequest.Disconnect | lib/src/main/java/com/github/kevinsawicki/etag/CacheRequest.java:124-129 | the retained response is released and nothing is retained afterwards |
| Request.CacheRequest.Stream | lib/src/main/java/com/github/kevinsawicki/etag/CacheRequest.java:131-148 | a cached body on a 304 with a retained response, counting one hit; on a 200, one miss and the put wrapper when put wraps; otherwise the network body; the key is removed only for an uncacheable 200; on every path but a hit or a transport failure the retained snapshot is closed and no other, while those two leave open only what the lookup opened |
| Request.CacheRequest.Forward | lib/src/main/java/com/github/kevinsawicki/etag/CacheRequest.java:138-147 | with a status and nothing retained: a 200 counts one miss and yields a fresh put wrapper over the reply body exactly when put wraps, locking the key; otherwise the network body when there is one; the key is removed only for an uncacheable 200; the open snapshots are unchanged |
| Request.CacheRequest.Body | lib/src/main/java/com/github/kevinsawicki/etag/CacheRequest.java:131-148 | the bytes the caller reads are the cached body on a hit and otherwise the network body, whatever copy or close fails; a wrapped 200 commits the reply's etag and body under the key exactly when no copy failed and the close succeeded; otherwise the entries are unchanged, and only a failed close leaves the key locked; apart from a hit or a transport failure, the retained response is released and exactly its snapshot closed |
| Request.ReadToEnd | lib/src/main/java/com/github/kevinsawicki/etag/EtagCache.java:169-192 | reading a fresh wrapper to its end through the buffer delivers exactly the network body under any pattern of failing copies; the first failed copy aborts the edit and nothing is committed; with no failed copy, a successful close commits the whole body with the etag, and a failed one leaves the editor pending and the key locked |
| Request.CacheRequest.Cached | lib/src/test/java/com/github/kevinsawicki/etag/EtagCacheTest.java:72-79 | cached() is true only on a request that has consulted the cache and sent an etag as If-None-Match |
| Scenarios.FirstRequest | lib/src/test/java/com/github/kevinsawicki/etag/EtagCacheTest.java:63-74 | on an empty cache: nothing found before, body "hello", not cached, 0 hits and 1 miss, and the entry stored under the URL's key |
| Scenarios.CachedRequest | lib/src/test/java/com/github/kevinsawicki/etag/EtagCacheTest.java:63-82 | with a server that honours the etag, the second request is a 304 served from the cache, with body "hello", 1 hit and 1 miss, and get still finds the entry |
| Scenarios.EtagIgnored | lib/src/test/java/com/github/kevinsawicki/etag/EtagCacheTest.java:106-125 | with a server that ignores the etag, both requests are misses (0 hits, 2 misses), not cached, and get still finds the entry |
| Scenarios.ResetStats | lib/src/test/java/com/github/kevinsawicki/etag/EtagCacheTest.java:153-171 | after a miss and a hit, resetStats brings both counters from 1 and 1 to 0 |
| Scenarios.ReadPastFailedMirror | lib/src/main/java/com/github/kevinsawicki/etag/EtagCache.java:157-192 | a copied write that fails mid-body aborts the edit, yet the reader still gets all of "hello", and the later close neither fails nor commits |
| Scenarios.ReadOneByteAndClose | lib/src/main/java/com/github/kevinsawicki/etag/EtagCache.java:157-192 | closing a fresh wrapper after one byte commits that single byte under the editor's key |
| Scenarios.CloseAfterFirstByte | lib/src/main/java/com/github/kevinsawicki/etag/EtagCache.java:181-192 | on an empty cache, a request whose reader closes after one byte of "hello" leaves the entry etag "1234" with body "h" |
| Scenarios.TruncatedBodyServed | lib/src/main/java/com/github/kevinsawicki/etag/EtagCache.java:181-192 | after that early close, the next request gets a 304 and is served the one-byte body from the cache |
| Scenarios.AbortedWrite | lib/src/main/java/com/github/kevinsawicki/etag/EtagCache.java:157-192 | after a failed copy, get finds no entry for the URL |
| Scenarios.PutAsWrittenLocksKey | lib/src/main/java/com/github/kevinsawicki/etag/EtagCache.java:327-338 | put as written, after a failed body-output open, refuses the same cacheable response once the fault is gone, and the key stays locked |
| Scenarios.PutRecoversAfterStreamFailure | lib/src/main/java/com/github/kevinsawicki/etag/EtagCache.java:327-338 | with the editor aborted on that path, the next put wraps the response |
| Scenarios.GetAsWrittenLeaksSnapshot | lib/src/main/java/com/github/kevinsawicki/etag/EtagCache.java:271-281 | get as written, on an entry with an empty etag, returns null and leaves one snapshot open |
| Scenarios.GetReleasesUnusableEntry | lib/src/main/java/com/github/kevinsawicki/etag/EtagCache.java:271-281 | with the snapshot closed on that path, get leaves no snapshot open |

## Left out

- SHA-1 and BigInteger: the digest is a function parameter of the cache, so the model proves nothing about SHA-1. The only digest property it uses is the canonical hex form of at most 40 digits.
- UTF-8 encoding of the URL: a Java string always encodes, so the unreachable `UnsupportedEncodingException` branch of getKey is not modelled.
- DiskLruCache internals: the journal, size-based eviction (`maxSize` is only recorded), both value indexes, and `flushToDisk` to another instance. Also left out: `remove` refusing to drop an entry whose edit is in progress, and IOExceptions thrown by `commit`.
- Snapshot.getInputStream: it never throws in the model. A `None` body in the store stands for the null stream that get checks for at EtagCache.java:274-276.
- The null check on the editor's output stream in put: a store that always hands out a stream never takes that branch.
- `synchronized` blocks and the stream's lock object: there is no concurrency in the model.
- HttpRequest: its transport, headers other than If-None-Match, gzip decoding and the other request factories (the `URL` overloads). Also left out: `ok()`, `notModified()` beyond `code()`, and the getters `getHits`/`getMisses`, as the fields are read directly.
- Etag.EtagCache.Create: requires a positive size. DiskLruCache rejects any other size with an unchecked exception, which is not modelled.
- Etag.CacheStream.ReadInto: requires `offset + count` to fit the buffer. Java throws IndexOutOfBoundsException otherwise, which is not modelled.
- Etag.CacheStream.Read: the input's own IOException is modelled only after the input is closed. A transport that fails in mid-read is not.
- DiskCache.Editor.Commit: requires a pending editor, and so do Abort, SetEtag, NewOutputStream and Write. DiskLruCache throws IllegalStateException otherwise, which is not modelled.
- Etag.CacheStream.Close: the underlying close that throws is a parameter. The network-side close itself is not modelled.
- Request.CacheRequest.Body: models HttpRequest.body() for what the cache observes, that is, the bytes and the commit. Charset decoding to a String is not modelled. A transport failure in mid-read is not modelled either.
- Request.CacheRequest.Body: built on the corrected put. As written, a failed body-output open would leave the key locked, so every later request for the URL would pass through uncached. Scenarios.PutAsWrittenLocksKey shows this at the level of put.
- Request.ReadToEnd: every read of the network stream is modelled as returning a full 8192-byte chunk (or the rest of the body), so copy number `i` always covers the bytes from `i * 8192`; a transport that delivers short reads is not covered.
- Request.CacheRequest.CloseOutput: built on the corrected get. As written, consulting an entry with an empty etag would leave one snapshot open, and the model does not state that leak at request level. Scenarios.GetAsWrittenLeaksSnapshot shows it at the level of get.
- Request.CacheRequest.Code: inherits CloseOutput's use of the corrected get, so it does not show the as-written snapshot leak.
- Request.CacheRequest.Stream: built on the corrected put, so its clause that a non-wrapped response leaves the edits in progress unchanged depends on that correction.
- Request.CacheRequest.Forward: built on the corrected put, like Stream, whose miss path it carries.

## Findings

| source | as written | input that shows it | evidently intended | confidence | as-written member | corrected member |
|---|---|---|---|---|---|---|
| lib/src/main/java/com/github/kevinsawicki/etag/EtagCache.java:271-281 | get returns null after opening a snapshot without closing it: when getString throws, when the etag is null or empty, or when the body stream is null | a stored entry whose etag is the empty string | every null return releases the snapshot it opened | not executed | Scenarios.GetAsWrittenLeaksSnapshot | Etag.EtagCache.Get |
| lib/src/main/java/com/github/kevinsawicki/etag/EtagCache.java:327-338 | put returns null without aborting the editor when getInputStream or newOutputStream throws, so the key stays locked and later puts of it return null | a cacheable 200 response while newOutputStream throws, then the same response again | the editor is aborted on those paths, as it is when set throws | not executed | Scenarios.PutAsWrittenLocksKey | Etag.EtagCache.Put |

CacheRequest uses the corrected `Get` and `Put`. The as-written versions,
`Etag.EtagCache.GetAsWritten` and `Etag.EtagCache.PutAsWritten`, are kept beside
them, and the corrected methods are defined by calling them and then releasing
what they left behind.
