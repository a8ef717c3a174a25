/** CacheRequest: one HTTP request that consults the cache before it is sent,
    adds If-None-Match, and serves the body from the cache on 304. */
module Request {
  import opened Prelude
  import opened Http
  import opened DiskCache
  import opened Etag

  /** The size of the buffer HttpRequest.body() reads through. */
  const BUFFER_SIZE: nat := 8192

  /** What stream() hands to the caller. */
  datatype Body =
    | FromCache(bytes: seq<byte>)      // hit: the body of the retained cache response
    | Caching(stream: CacheStream)     // miss: the network stream, mirrored into the cache
    | Network(bytes: seq<byte>)        // the network stream unchanged
    | Failed                           // the transport threw (HttpRequestException)

  class CacheRequest {
    const url: string
    const requestMethod: string
    const cache: EtagCache
    /** The server: its reply to a request carrying the given If-None-Match value. */
    const server: Option<string> -> Reply
    /** The cache response retained for a possible 304. */
    var response: CacheResponse?
    var etagAdded: bool
    /** The If-None-Match header of the outgoing request. */
    var ifNoneMatch: Option<string>
    /** What cached() reports: the body was served from the cache. */
    var fromCache: bool

    /** A retained response holds an open snapshot of this cache's store, and its
        etag is the validator that was sent; nothing is retained, no header set
        and nothing served from the cache before the cache has been consulted,
        and a body served from the cache was validated by an etag. */
    ghost predicate Valid()
      reads this, cache.store`open
    {
      && (!etagAdded ==> response == null && ifNoneMatch == None && !fromCache)
      && (fromCache ==> ifNoneMatch.Some?)
      && (response != null ==>
            && response.snapshot.store == cache.store && response.snapshot in cache.store.open
            && |response.eTag| > 0 && ifNoneMatch == Some(response.eTag))
    }

    constructor (url: string, requestMethod: string, cache: EtagCache, server: Option<string> -> Reply)
      ensures Valid()
      ensures this.url == url && this.requestMethod == requestMethod && this.cache == cache && this.server == server
      ensures response == null && !etagAdded && ifNoneMatch == None && !fromCache
    {
      this.url := url;
      this.requestMethod := requestMethod;
      this.cache := cache;
      this.server := server;
      response := null;
      etagAdded := false;
      ifNoneMatch := None;
      fromCache := false;
    }

    /** CacheRequest.get(url, cache): a GET request. */
    static method Get(url: string, cache: EtagCache, server: Option<string> -> Reply) returns (r: CacheRequest)
      ensures fresh(r) && r.Valid()
      ensures r.url == url && r.requestMethod == METHOD_GET && r.cache == cache && r.server == server
      ensures r.response == null && !r.etagAdded && r.ifNoneMatch == None && !r.fromCache
    {
      r := new CacheRequest(url, METHOD_GET, cache, server);
    }

    /** The connection as it stands: the server's reply depends on the header sent. */
    function Exchange(): Connection
      reads this`ifNoneMatch
    {
      Connection(true, url, requestMethod, server(ifNoneMatch))
    }

    /** The etag and body the request retains once the cache has been consulted. */
    function Prospect(): Option<(string, seq<byte>)>
      reads this`etagAdded, this`response, this`ifNoneMatch, cache.store`entries, cache.store`faults
    {
      if etagAdded then
        (if response != null then Some((response.eTag, response.body)) else None)
      else cache.Lookup(Exchange())
    }

    /** The If-None-Match value the request carries once the cache has been consulted. */
    function Validator(): Option<string>
      reads this`etagAdded, this`response, this`ifNoneMatch, cache.store`entries, cache.store`faults
    {
      if etagAdded then ifNoneMatch
      else
        var found := cache.Lookup(Exchange());
        if found.Some? then Some(found.value.0) else None
    }

    /** cached(): the body was served from the cache, which only happens after
        the cache was consulted and an etag was sent as If-None-Match. */
    function Cached(): (cached: bool)
      requires Valid()
      reads this, cache.store`open
      ensures cached ==> etagAdded && ifNoneMatch.Some?
    {
      fromCache
    }

    /** closeCacheResponse(): closes the retained response once and forgets it;
        with nothing retained it does nothing. */
    method CloseCacheResponse()
      requires Valid()
      modifies this`response, cache.store`open
      ensures Valid() && response == null
      ensures cache.store.open ==
        if old(response) != null then old(cache.store.open) - {old(response).snapshot}
        else old(cache.store.open)
    {
      if response == null {
        return;
      }
      response.Close();
      response := null;
    }

    /** closeOutput(): the first call looks the request up in the cache, retains
        what it finds and sends its etag as If-None-Match; later calls leave the
        cache and the header alone. */
    method CloseOutput()
      requires Valid()
      modifies this`etagAdded, this`response, this`ifNoneMatch, cache.store`open
      ensures Valid() && etagAdded
      ensures ifNoneMatch == old(Validator())
      ensures response != null <==> old(Prospect()).Some?
      ensures response != null ==> (response.eTag, response.body) == old(Prospect()).value
      ensures old(etagAdded) ==> response == old(response) && cache.store.open == old(cache.store.open)
      ensures !old(etagAdded) ==>
        && (response != null ==> fresh(response.snapshot))
        && cache.store.open == old(cache.store.open) + (if response != null then {response.snapshot} else {})
    {
      if !etagAdded {
        etagAdded := true;
        response := cache.Get(Exchange());
        if response != null {
          ifNoneMatch := Some(response.eTag);
        }
      }
    }

    /** code(): the raw status, after the request has been finished (HttpRequest
        closes its output first); any status other than 304 releases the retained
        response, and a transport failure leaves it retained. */
    method Code() returns (c: Option<int>)
      requires Valid()
      modifies this`etagAdded, this`response, this`ifNoneMatch, cache.store`open
      ensures Valid() && etagAdded
      ensures ifNoneMatch == old(Validator())
      ensures c == Exchange().reply.status
      ensures c.Some? && c.value != HTTP_NOT_MODIFIED ==>
        && response == null
        && cache.store.open ==
             if old(response) != null then old(cache.store.open) - {old(response).snapshot}
             else old(cache.store.open)
      ensures c.None? || c == Some(HTTP_NOT_MODIFIED) ==>
        && (response != null <==> old(Prospect()).Some?)
        && (response != null ==> (response.eTag, response.body) == old(Prospect()).value)
        && (old(etagAdded) ==> response == old(response))
        && cache.store.open ==
             old(cache.store.open) + (if !old(etagAdded) && response != null then {response.snapshot} else {})
    {
      CloseOutput();
      c := Exchange().reply.status;
      if c.Some? && c.value != HTTP_NOT_MODIFIED {
        CloseCacheResponse();
      }
    }

    /** disconnect(): always releases the retained response. */
    method Disconnect()
      requires Valid()
      modifies this`response, cache.store`open
      ensures Valid() && response == null
      ensures cache.store.open ==
        if old(response) != null then old(cache.store.open) - {old(response).snapshot}
        else old(cache.store.open)
    {
      CloseCacheResponse();
    }

    /** stream(): exactly one of three paths. Hit: a 304 with a retained response
        counts a hit and returns the cached body. Miss: a 200 counts a miss and
        returns the put wrapper when there is one. Otherwise the retained response
        is released and the network stream returned. */
    method Stream() returns (b: Body)
      requires Valid()
      modifies this`etagAdded, this`response, this`ifNoneMatch, this`fromCache, cache`hits, cache`misses, cache.store`open, cache.store`entries, cache.store`editing
      ensures Valid() && etagAdded
      ensures ifNoneMatch == old(Validator())
      ensures b.FromCache? <==> Exchange().reply.status == Some(HTTP_NOT_MODIFIED) && old(Prospect()).Some?
      ensures b.FromCache? ==>
        && b.bytes == old(Prospect()).value.1 && response != null && fromCache
        && cache.hits == old(cache.hits) + 1 && cache.misses == old(cache.misses)
      ensures Exchange().reply.status == Some(HTTP_OK) ==>
        cache.hits == old(cache.hits) && cache.misses == old(cache.misses) + 1
      ensures !b.FromCache? && Exchange().reply.status != Some(HTTP_OK) ==>
        cache.hits == old(cache.hits) && cache.misses == old(cache.misses)
      ensures !b.FromCache? ==> fromCache == old(fromCache)
      ensures b.Caching? <==>
        Exchange().reply.status == Some(HTTP_OK) &&
        cache.PlanFor(Exchange(), cache.store.faults, old(cache.store.editing)) == Wrapped
      ensures b.Caching? ==>
        && fresh(b.stream) && fresh(b.stream.editor) && b.stream.Valid()
        && b.stream.network == Exchange().reply.body.value
        && b.stream.pos == 0 && !b.stream.inputClosed && b.stream.outputOpen && !b.stream.done
        && b.stream.editor.store == cache.store && b.stream.editor.key == cache.KeyOf(url)
        && b.stream.editor.state == Pending && b.stream.editor.etag == Exchange().reply.etag
        && b.stream.editor.written == []
        && cache.store.editing == old(cache.store.editing) + {cache.KeyOf(url)}
      ensures !b.Caching? ==> cache.store.editing == old(cache.store.editing)
      ensures cache.store.entries ==
        if Exchange().reply.status == Some(HTTP_OK) && !cache.IsCacheable(Exchange()) && !cache.store.faults.removeFails
        then old(cache.store.entries) - {cache.KeyOf(url)} else old(cache.store.entries)
      ensures b.Network? <==>
        Exchange().reply.status.Some? && !b.FromCache? && !b.Caching? && Exchange().reply.body.Some?
      ensures b.Network? ==> b.bytes == Exchange().reply.body.value
      ensures Exchange().reply.status.Some? && !b.FromCache? ==> response == null
      ensures Exchange().reply.status.None? ==> b.Failed? && (response != null <==> old(Prospect()).Some?)
      ensures b.FromCache? || Exchange().reply.status.None? ==>
        cache.store.open ==
          old(cache.store.open) + (if !old(etagAdded) && response != null then {response.snapshot} else {})
      ensures !b.FromCache? && Exchange().reply.status.Some? ==>
        cache.store.open ==
          old(cache.store.open) - (if old(response) != null then {old(response).snapshot} else {})
    {
      var code := Code();
      if code.None? {
        return Failed;
      }
      if code.value == HTTP_NOT_MODIFIED && response != null {
        cache.RegisterHit();
        fromCache := true;
        return FromCache(response.body);
      }
      code := Code();
      b := Forward();
    }

    /** The rest of stream() once a status has arrived and no hit is possible,
        so nothing is retained: a 200 counts a miss and yields the put wrapper
        when there is one; otherwise the network body is returned. */
    method Forward() returns (b: Body)
      requires Valid() && etagAdded && response == null && Exchange().reply.status.Some?
      modifies this`response, cache`misses, cache.store`open, cache.store`entries, cache.store`editing
      ensures Valid() && response == null
      ensures cache.store.open == old(cache.store.open)
      ensures !b.FromCache?
      ensures cache.misses == old(cache.misses) + (if Exchange().reply.status == Some(HTTP_OK) then 1 else 0)
      ensures b.Caching? <==>
        Exchange().reply.status == Some(HTTP_OK) &&
        cache.PlanFor(Exchange(), cache.store.faults, old(cache.store.editing)) == Wrapped
      ensures b.Caching? ==>
        && fresh(b.stream) && fresh(b.stream.editor) && b.stream.Valid()
        && b.stream.network == Exchange().reply.body.value
        && b.stream.pos == 0 && !b.stream.inputClosed && b.stream.outputOpen && !b.stream.done
        && b.stream.editor.store == cache.store && b.stream.editor.key == cache.KeyOf(url)
        && b.stream.editor.state == Pending && b.stream.editor.etag == Exchange().reply.etag
        && b.stream.editor.written == []
        && cache.store.editing == old(cache.store.editing) + {cache.KeyOf(url)}
      ensures !b.Caching? ==> cache.store.editing == old(cache.store.editing)
      ensures cache.store.entries ==
        if Exchange().reply.status == Some(HTTP_OK) && !cache.IsCacheable(Exchange()) && !cache.store.faults.removeFails
        then old(cache.store.entries) - {cache.KeyOf(url)} else old(cache.store.entries)
      ensures b.Network? <==> !b.Caching? && Exchange().reply.body.Some?
      ensures b.Network? ==> b.bytes == Exchange().reply.body.value
    {
      if Exchange().reply.status == Some(HTTP_OK) {
        cache.RegisterMiss();
        var wrapper := cache.Put(Exchange());
        if wrapper != null {
          return Caching(wrapper);
        }
      }
      CloseCacheResponse();
      var body := Exchange().reply.body;
      if body.None? {
        return Failed;
      }
      return Network(body.value);
    }

    /** body(): reads the stream to its end through a buffer and closes it. Read
        number `i` of the copy into the cache fails when `copyFails(i)`, and the
        final close fails when `closeFails`; close failures are ignored, as
        HttpRequest does by default. The caller gets the same bytes whatever fails;
        a body read through a CacheStream is committed under the request's key
        with the reply's etag exactly when no copy failed and the close succeeded,
        and a failed close leaves the key locked for editing. */
    method Body(copyFails: nat -> bool, closeFails: bool) returns (r: Option<seq<byte>>)
      requires Valid()
      modifies this, cache`hits, cache`misses, cache.store`open, cache.store`entries, cache.store`editing
      ensures Valid() && etagAdded
      ensures ifNoneMatch == old(Validator())
      ensures Exchange().reply.status == Some(HTTP_NOT_MODIFIED) && old(Prospect()).Some? ==>
        && r == Some(old(Prospect()).value.1) && fromCache
        && cache.hits == old(cache.hits) + 1 && cache.misses == old(cache.misses)
        && cache.store.entries == old(cache.store.entries)
      ensures !(Exchange().reply.status == Some(HTTP_NOT_MODIFIED) && old(Prospect()).Some?) ==>
        && r == (if Exchange().reply.status.Some? then Exchange().reply.body else None)
        && fromCache == old(fromCache)
      ensures Exchange().reply.status == Some(HTTP_OK) ==>
        cache.hits == old(cache.hits) && cache.misses == old(cache.misses) + 1
      ensures Exchange().reply.status != Some(HTTP_OK) && !(Exchange().reply.status == Some(HTTP_NOT_MODIFIED) && old(Prospect()).Some?) ==>
        cache.hits == old(cache.hits) && cache.misses == old(cache.misses)
      ensures cache.store.editing ==
        if Exchange().reply.status == Some(HTTP_OK) &&
           cache.PlanFor(Exchange(), cache.store.faults, old(cache.store.editing)) == Wrapped &&
           !CopyFailed(copyFails, |Exchange().reply.body.value|) && closeFails
        then old(cache.store.editing) + {cache.KeyOf(url)} else old(cache.store.editing)
      ensures (Exchange().reply.status == Some(HTTP_OK) &&
               cache.PlanFor(Exchange(), cache.store.faults, old(cache.store.editing)) == Wrapped) ==>
        cache.store.entries ==
          if !CopyFailed(copyFails, |Exchange().reply.body.value|) && !closeFails
          then old(cache.store.entries)[cache.KeyOf(url) := Entry(Exchange().reply.etag, Exchange().reply.body)]
          else old(cache.store.entries)
      ensures !(Exchange().reply.status == Some(HTTP_OK) &&
                cache.PlanFor(Exchange(), cache.store.faults, old(cache.store.editing)) == Wrapped) ==>
        cache.store.entries ==
          if Exchange().reply.status == Some(HTTP_OK) && !cache.IsCacheable(Exchange()) && !cache.store.faults.removeFails
          then old(cache.store.entries) - {cache.KeyOf(url)} else old(cache.store.entries)
      ensures (Exchange().reply.status == Some(HTTP_NOT_MODIFIED) && old(Prospect()).Some?) ||
              Exchange().reply.status.None? ==>
        cache.store.open ==
          old(cache.store.open) + (if !old(etagAdded) && response != null then {response.snapshot} else {})
      ensures !(Exchange().reply.status == Some(HTTP_NOT_MODIFIED) && old(Prospect()).Some?) &&
              Exchange().reply.status.Some? ==>
        && response == null
        && cache.store.open ==
             old(cache.store.open) - (if old(response) != null then {old(response).snapshot} else {})
    {
      var b := Stream();
      match b
      case FromCache(bytes) =>
        r := Some(bytes);
      case Network(bytes) =>
        r := Some(bytes);
      case Failed =>
        r := None;
      case Caching(s) =>
        var bytes, _ := ReadToEnd(s, copyFails, closeFails);
        r := Some(bytes);
    }
  }

  /** Whether a copy into the cache fails while a body of `size` bytes is read
      through the buffer: read number `i` carries bytes exactly when
      `i * BUFFER_SIZE < size`. */
  predicate CopyFailed(copyFails: nat -> bool, size: nat) {
    exists i: nat | i < size && i * BUFFER_SIZE < size :: copyFails(i)
  }

  /** The loop of HttpRequest.body() over a CacheStream fresh from put: reads to
      the end through one buffer, copy number `i` failing when `copyFails(i)`,
      then closes. The reader gets the whole network body in every case; the
      edit is aborted by the first failed copy, committed by a successful close
      when no copy failed, and left pending by a failed close. */
  method ReadToEnd(s: CacheStream, copyFails: nat -> bool, closeFails: bool) returns (bytes: seq<byte>, closed: Io<()>)
    requires s.Valid() && s.pos == 0 && !s.inputClosed && s.outputOpen && !s.done
    requires s.editor.state == Pending && s.editor.written == []
    modifies s, s.editor, s.editor.store`entries, s.editor.store`editing
    ensures bytes == s.network && s.editor.etag == old(s.editor.etag)
    ensures CopyFailed(copyFails, |s.network|) ==>
      && closed == Ok(()) && s.editor.state == Aborted
      && s.editor.store.entries == old(s.editor.store.entries)
      && s.editor.store.editing == old(s.editor.store.editing) - {s.editor.key}
    ensures !CopyFailed(copyFails, |s.network|) && !closeFails ==>
      && closed == Ok(()) && s.editor.state == Committed
      && s.editor.store.entries == old(s.editor.store.entries)[s.editor.key := Entry(s.editor.etag, Some(s.network))]
      && s.editor.store.editing == old(s.editor.store.editing) - {s.editor.key}
    ensures !CopyFailed(copyFails, |s.network|) && closeFails ==>
      && closed == IoError && s.editor.state == Pending
      && s.editor.store.entries == old(s.editor.store.entries)
      && s.editor.store.editing == old(s.editor.store.editing)
  {
    var buffer := new byte[BUFFER_SIZE];
    bytes := [];
    var chunks: nat := 0;
    ghost var failed := false;
    while true
      modifies buffer, s, s.editor, s.editor.store`editing
      invariant s.Valid() && !s.inputClosed && s.editor.etag == old(s.editor.etag)
      invariant s.pos == if chunks * BUFFER_SIZE < |s.network| then chunks * BUFFER_SIZE else |s.network|
      invariant chunks == 0 || (chunks - 1) * BUFFER_SIZE < |s.network|
      invariant bytes == s.network[..s.pos]
      invariant failed <==> exists i: nat :: i < chunks && copyFails(i)
      invariant s.editor.store.entries == old(s.editor.store.entries)
      invariant failed ==>
        && s.done && s.editor.state == Aborted
        && s.editor.store.editing == old(s.editor.store.editing) - {s.editor.key}
      invariant !failed ==>
        && s.outputOpen && !s.done && s.editor.state == Pending
        && s.editor.store.editing == old(s.editor.store.editing)
      decreases |s.network| - s.pos
    {
      var read := s.ReadInto(buffer, 0, buffer.Length, buffer.Length, copyFails(chunks));
      if read.value == -1 {
        assert s.network[..s.pos] == s.network;
        break;
      }
      bytes := bytes + buffer[0..read.value];
      failed := failed || copyFails(chunks);
      chunks := chunks + 1;
    }
    assert failed <==> CopyFailed(copyFails, |s.network|);
    closed := s.Close(closeFails);
  }
}
