/** The situations the repository's tests exercise, each run against a fresh
    cache over an empty store, with what the tests observe as postconditions;
    and the two inputs that show where get and put, as written, leak. */
module Scenarios {
  import opened Prelude
  import opened Keys
  import opened Http
  import opened DiskCache
  import opened Etag
  import opened Request

  const Tag: string := "1234"
  const Hello: seq<byte> := [104, 101, 108, 108, 111]

  /** Answers 304 to a request carrying If-None-Match "1234", else 200 with "hello". */
  function HonouringServer(header: Option<string>): Reply {
    if header == Some(Tag) then Reply(Some(HTTP_NOT_MODIFIED), Some(Tag), Some([]))
    else Reply(Some(HTTP_OK), Some(Tag), Some(Hello))
  }

  /** No copy into the cache fails. */
  function NoCopyFails(chunk: nat): bool {
    false
  }

  /** Answers 200 with "hello" whatever the request carries. */
  function IgnoringServer(header: Option<string>): Reply {
    Reply(Some(HTTP_OK), Some(Tag), Some(Hello))
  }

  /** The first request of a scenario, against a fresh cache over an empty
      store and a server that answers a request without If-None-Match with 200,
      etag "1234" and "hello": a miss that stores the response. */
  method FirstRequest(digest: Digest, url: string, server: Option<string> -> Reply)
    returns (cache: EtagCache, foundBefore: bool, body: Option<seq<byte>>, cached: bool)
    requires server(None) == Reply(Some(HTTP_OK), Some(Tag), Some(Hello))
    ensures fresh(cache) && fresh(cache.store) && cache.digest == digest
    ensures cache.store.entries == map[cache.KeyOf(url) := Entry(Some(Tag), Some(Hello))]
    ensures cache.store.editing == {} && cache.store.faults == NoFaults
    ensures !foundBefore && body == Some(Hello) && !cached && cache.hits == 0 && cache.misses == 1
  {
    cache := EtagCache.Create(Some(digest), Some(map[]), ONE_MB);
    var request := CacheRequest.Get(url, cache, server);
    var before := cache.Get(request.Exchange());
    foundBefore := before != null;
    var _ := request.Code();
    assert request.ifNoneMatch == None && request.response == null;
    assert cache.PlanFor(request.Exchange(), cache.store.faults, cache.store.editing) == Wrapped;
    body := request.Body(NoCopyFails, false);
    cached := request.Cached();
  }

  /** The server honours the etag: the first request is a miss that fills the
      cache, the second a hit served from it. The second status stays the raw
      304, so ok() on it would report false. */
  method CachedRequest(digest: Digest, url: string)
    returns (foundBefore: bool, hits1: nat, misses1: nat, cached1: bool, body1: Option<seq<byte>>,
             code2: Option<int>, hits2: nat, misses2: nat, cached2: bool, body2: Option<seq<byte>>,
             foundAfter: bool)
    ensures !foundBefore && body1 == Some(Hello) && !cached1 && hits1 == 0 && misses1 == 1
    ensures code2 == Some(HTTP_NOT_MODIFIED)
    ensures body2 == Some(Hello) && cached2 && hits2 == 1 && misses2 == 1 && foundAfter
  {
    var cache;
    cache, foundBefore, body1, cached1 := FirstRequest(digest, url, HonouringServer);
    hits1, misses1 := cache.hits, cache.misses;

    var request := CacheRequest.Get(url, cache, HonouringServer);
    assert request.Prospect() == Some((Tag, Hello));
    code2 := request.Code();
    assert request.ifNoneMatch == Some(Tag) && request.response != null;
    body2 := request.Body(NoCopyFails, false);
    cached2, hits2, misses2 := request.Cached(), cache.hits, cache.misses;
    var exchange := request.Exchange();
    assert cache.Lookup(exchange) == Some((Tag, Hello));
    var after := cache.Get(exchange);
    foundAfter := after != null;
  }

  /** The server ignores If-None-Match: both requests are misses, the hit count
      stays zero and the entry is rewritten each time. */
  method EtagIgnored(digest: Digest, url: string)
    returns (foundBefore: bool, hits1: nat, misses1: nat, cached1: bool, body1: Option<seq<byte>>,
             hits2: nat, misses2: nat, cached2: bool, body2: Option<seq<byte>>, foundAfter: bool)
    ensures !foundBefore && body1 == Some(Hello) && !cached1 && hits1 == 0 && misses1 == 1
    ensures body2 == Some(Hello) && !cached2 && hits2 == 0 && misses2 == 2 && foundAfter
  {
    var cache;
    cache, foundBefore, body1, cached1 := FirstRequest(digest, url, IgnoringServer);
    hits1, misses1 := cache.hits, cache.misses;

    var request := CacheRequest.Get(url, cache, IgnoringServer);
    assert request.Prospect() == Some((Tag, Hello));
    var _ := request.Code();
    assert request.ifNoneMatch == Some(Tag) && request.response == null;
    assert cache.PlanFor(request.Exchange(), cache.store.faults, cache.store.editing) == Wrapped;
    body2 := request.Body(NoCopyFails, false);
    cached2, hits2, misses2 := request.Cached(), cache.hits, cache.misses;
    assert cache.store.entries == map[cache.KeyOf(url) := Entry(Some(Tag), Some(Hello))];
    var exchange := request.Exchange();
    assert cache.Lookup(exchange) == Some((Tag, Hello));
    var after := cache.Get(exchange);
    foundAfter := after != null;
  }

  /** After a miss and a hit, resetStats() brings both counters back to zero. */
  method ResetStats(digest: Digest, url: string)
    returns (hits: nat, misses: nat, hitsAfterReset: nat, missesAfterReset: nat)
    ensures hits == 1 && misses == 1 && hitsAfterReset == 0 && missesAfterReset == 0
  {
    var cache := EtagCache.Create(Some(digest), Some(map[]), ONE_MB);
    var request := CacheRequest.Get(url, cache, HonouringServer);
    var _ := request.Body(NoCopyFails, false);
    request := CacheRequest.Get(url, cache, HonouringServer);
    var _ := request.Body(NoCopyFails, false);
    hits, misses := cache.hits, cache.misses;
    cache.ResetStats();
    hitsAfterReset, missesAfterReset := cache.hits, cache.misses;
  }

  /** Reads "hello" through a fresh cache stream whose second mirror write
      fails, then closes it: the reader gets every byte, the edit is aborted and
      the close neither fails nor commits. */
  method ReadPastFailedMirror(stream: CacheStream) returns (delivered: seq<byte>, closed: Io<()>)
    requires stream.Valid() && stream.network == Hello && stream.pos == 0
    requires !stream.inputClosed && stream.outputOpen && !stream.done
    modifies stream`pos, stream`done, stream`outputOpen, stream`inputClosed
    modifies stream.editor`state, stream.editor`written, stream.editor.store`editing, stream.editor.store`entries
    ensures delivered == Hello && closed == Ok(()) && stream.editor.state == Aborted
    ensures stream.editor.store.entries == old(stream.editor.store.entries)
  {
    var first := stream.Read(false);
    assert first == Ok(104) && stream.pos == 1;
    var second := stream.Read(true);
    assert second == Ok(101) && stream.pos == 2 && stream.done && stream.editor.state == Aborted;
    var buffer := new byte[BUFFER_SIZE];
    var rest := stream.ReadInto(buffer, 0, buffer.Length, buffer.Length, false);
    assert rest == Ok(3) && stream.pos == 5;
    assert buffer[0..3] == Hello[2..];
    var end := stream.Read(false);
    assert end == Ok(-1);
    delivered := [first.value as byte, second.value as byte] + buffer[0..rest.value];
    assert stream.done;
    closed := stream.Close(false);
  }

  /** A mirror write that fails in the middle of the body aborts the edit: the
      reader still gets every byte, closing afterwards commits nothing, and the
      store has no entry to hand out. */
  method AbortedWrite(digest: Digest, url: string)
    returns (delivered: seq<byte>, closed: Io<()>, aborted: bool, found: bool)
    ensures delivered == Hello && closed == Ok(()) && aborted && !found
  {
    var cache := EtagCache.Create(Some(digest), Some(map[]), ONE_MB);
    var request := CacheRequest.Get(url, cache, IgnoringServer);
    assert cache.PlanFor(request.Exchange(), cache.store.faults, cache.store.editing) == Wrapped;
    var body := request.Stream();
    assert body.Caching? && cache.store.entries == map[];
    var stream := body.stream;
    delivered, closed := ReadPastFailedMirror(stream);
    aborted := stream.editor.state == Aborted;
    assert cache.store.entries == map[];
    var exchange := request.Exchange();
    assert !cache.Opens(exchange);
    var lookup := cache.Get(exchange);
    assert !cache.Opens(exchange);
    found := lookup != null;
  }

  /** Against a fresh cache over an empty store, a first request whose reader
      closes the stream after one byte of "hello": that byte is committed as the
      entry, with the etag. */
  method CloseAfterFirstByte(digest: Digest, url: string) returns (cache: EtagCache, closed: Io<()>)
    ensures fresh(cache) && fresh(cache.store) && cache.digest == digest
    ensures cache.store.entries == map[cache.KeyOf(url) := Entry(Some(Tag), Some([104]))]
    ensures cache.store.editing == {} && cache.store.faults == NoFaults && closed == Ok(())
  {
    cache := EtagCache.Create(Some(digest), Some(map[]), ONE_MB);
    var request := CacheRequest.Get(url, cache, HonouringServer);
    assert cache.PlanFor(request.Exchange(), cache.store.faults, cache.store.editing) == Wrapped;
    var first := request.Stream();
    assert first.Caching? && cache.store.entries == map[];
    var stream := first.stream;
    assert stream.network == Hello && stream.editor.etag == Some(Tag);
    assert stream.editor.store == cache.store && stream.editor.key == cache.KeyOf(url);
    closed := ReadOneByteAndClose(stream);
    assert Hello[..1] == [104];
  }

  /** Reads one byte from a fresh cache stream, then closes it: the close commits
      that byte alone under the editor's key. */
  method ReadOneByteAndClose(stream: CacheStream) returns (closed: Io<()>)
    requires stream.Valid() && |stream.network| > 0 && stream.pos == 0
    requires !stream.inputClosed && stream.outputOpen && !stream.done && stream.editor.written == []
    modifies stream`pos, stream`done, stream`outputOpen, stream`inputClosed
    modifies stream.editor`state, stream.editor`written, stream.editor.store`editing, stream.editor.store`entries
    ensures closed == Ok(()) && stream.editor.state == Committed
    ensures stream.editor.store.entries ==
      old(stream.editor.store.entries)[stream.editor.key := Entry(stream.editor.etag, Some(stream.network[..1]))]
    ensures stream.editor.store.editing == old(stream.editor.store.editing) - {stream.editor.key}
  {
    var _ := stream.Read(false);
    assert stream.editor.written == stream.network[..1];
    closed := stream.Close(false);
  }

  /** A reader that closes the stream early commits a truncated entry: the next
      request sends its etag, gets a 304 and is served the one byte from the cache. */
  method TruncatedBodyServed(digest: Digest, url: string)
    returns (closed: Io<()>, body: Option<seq<byte>>, cached: bool)
    ensures closed == Ok(()) && body == Some([104]) && cached
  {
    var cache;
    cache, closed := CloseAfterFirstByte(digest, url);
    var request := CacheRequest.Get(url, cache, HonouringServer);
    assert request.Prospect() == Some((Tag, [104]));
    body := request.Body(NoCopyFails, false);
    cached := request.Cached();
  }

  /** As written, put leaves its editor pending when the body output cannot be
      opened: once the fault is gone, a cacheable response is still refused
      because the key is locked for editing. */
  method PutAsWrittenLocksKey(digest: Digest, url: string)
    returns (first: bool, second: bool, locked: bool)
    ensures !first && !second && locked
  {
    var cache := EtagCache.Create(Some(digest), Some(map[]), ONE_MB);
    var conn := Connection(true, url, METHOD_GET, IgnoringServer(None));
    cache.store.faults := NoFaults.(outputFails := true);
    var wrapper1, _ := cache.PutAsWritten(conn);
    cache.store.faults := NoFaults;
    var wrapper2, _ := cache.PutAsWritten(conn);
    first, second := wrapper1 != null, wrapper2 != null;
    locked := cache.KeyOf(url) in cache.store.editing;
  }

  /** With the editor aborted on that path, the next put of the same response
      is wrapped for caching. */
  method PutRecoversAfterStreamFailure(digest: Digest, url: string)
    returns (first: bool, second: bool)
    ensures !first && second
  {
    var cache := EtagCache.Create(Some(digest), Some(map[]), ONE_MB);
    var conn := Connection(true, url, METHOD_GET, IgnoringServer(None));
    cache.store.faults := NoFaults.(outputFails := true);
    var wrapper1 := cache.Put(conn);
    cache.store.faults := NoFaults;
    var wrapper2 := cache.Put(conn);
    first, second := wrapper1 != null, wrapper2 != null;
  }

  /** As written, get of an entry whose etag is empty returns null and leaves the
      snapshot it opened open, with no one holding it. */
  method GetAsWrittenLeaksSnapshot(digest: Digest, url: string)
    returns (found: bool, openSnapshots: nat)
    ensures !found && openSnapshots == 1
  {
    var disk := map[PadKey(digest(url)) := Entry(Some(""), Some(Hello))];
    var cache := EtagCache.Create(Some(digest), Some(disk), ONE_MB);
    var response, _ := cache.GetAsWritten(Connection(true, url, METHOD_GET, IgnoringServer(None)));
    found, openSnapshots := response != null, |cache.store.open|;
  }

  /** With the snapshot closed on that path, get of the same entry leaves nothing open. */
  method GetReleasesUnusableEntry(digest: Digest, url: string)
    returns (found: bool, openSnapshots: nat)
    ensures !found && openSnapshots == 0
  {
    var disk := map[PadKey(digest(url)) := Entry(Some(""), Some(Hello))];
    var cache := EtagCache.Create(Some(digest), Some(disk), ONE_MB);
    var response := cache.Get(Connection(true, url, METHOD_GET, IgnoringServer(None)));
    found, openSnapshots := response != null, |cache.store.open|;
  }
}
