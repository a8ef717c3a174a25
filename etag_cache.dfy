/** EtagCache: cache keys, the front end over the store (get and put), the
    write-through CacheStream, the CacheResponse handed to requests, and the
    hit/miss statistics. */
module Etag {
  import opened Prelude
  import opened Keys
  import opened Http
  import opened DiskCache

  const ONE_MB: int := 1024 * 1024
  const FIVE_MB: int := 5 * ONE_MB
  const TEN_MB: int := 10 * ONE_MB

  /** SHA-1 of a URL's UTF-8 bytes, as BigInteger.toString(16) renders it. */
  type Digest = string -> Hashed

  /** How a call of `put` ends, decided by the connection and the store's state. */
  datatype PutStep =
    | NotKeyed       // not an HTTP connection
    | Uncacheable    // method is not GET or status is not 200: the key is removed
    | NoEtag         // no ETag header, or an empty one
    | EditFailed     // edit(key) threw
    | EditBusy       // edit(key) returned null: another edit of the key is in progress
    | SetFailed      // writing the etag threw: the editor is aborted
    | StreamFailed   // opening the network input or the body output threw
    | Wrapped        // a CacheStream is returned

  /** A response found in the cache: its etag, its body, and the snapshot it keeps open. */
  class CacheResponse {
    const eTag: string
    const body: seq<byte>
    const snapshot: Snapshot

    constructor (eTag: string, body: seq<byte>, snapshot: Snapshot)
      ensures this.eTag == eTag && this.body == body && this.snapshot == snapshot
    {
      this.eTag := eTag;
      this.body := body;
      this.snapshot := snapshot;
    }

    /** close(): releases the snapshot. */
    method Close()
      modifies snapshot.store`open
      ensures snapshot.store.open == old(snapshot.store.open) - {snapshot}
    {
      snapshot.Close();
    }
  }

  /** The network stream that mirrors every byte read into value 1 of a pending
      edit, and finishes that edit exactly once: commit on close, abort when a
      mirrored write fails. */
  class CacheStream {
    const editor: Editor
    /** The body the transport delivers, and how much of it has been read. */
    const network: seq<byte>
    var pos: nat
    var inputClosed: bool
    /** Whether the output stream to value 1 is still open. */
    var outputOpen: bool
    var done: bool

    /** Until the stream is done, and after a commit, value 1 holds exactly the
        bytes delivered so far; an aborted edit has its output closed. */
    ghost predicate Valid()
      reads this, editor
    {
      && pos <= |network|
      && (!done ==> editor.state == Pending)
      && (!outputOpen ==> done)
      && (editor.state == Committed ==> inputClosed)
      && (editor.state == Aborted ==> !outputOpen)
      && (!done || editor.state == Committed ==> editor.written == network[..pos])
    }

    constructor (input: seq<byte>, editor: Editor)
      requires editor.state == Pending && editor.written == []
      ensures Valid() && this.editor == editor && network == input
      ensures pos == 0 && !inputClosed && outputOpen && !done
    {
      this.editor := editor;
      network := input;
      pos := 0;
      inputClosed := false;
      outputOpen := true;
      done := false;
    }

    /** Nothing about the edit changed. */
    twostate predicate EditUntouched()
      reads this, editor, editor.store
    {
      && done == old(done) && outputOpen == old(outputOpen)
      && editor.state == old(editor.state) && editor.written == old(editor.written)
      && editor.store.editing == old(editor.store.editing)
    }

    /** abort() ran: the first call closes the output and aborts the editor, a
        later one does nothing. */
    twostate predicate EditAbandoned()
      reads this, editor, editor.store
    {
      && done && editor.written == old(editor.written)
      && if old(done) then
           outputOpen == old(outputOpen) && editor.state == old(editor.state) &&
           editor.store.editing == old(editor.store.editing)
         else
           !outputOpen && editor.state == Aborted &&
           editor.store.editing == old(editor.store.editing) - {editor.key}
    }

    /** abort(): the edit is given up, once. */
    method Abort()
      requires Valid()
      modifies this`done, this`outputOpen, editor`state, editor.store`editing
      ensures Valid() && EditAbandoned()
    {
      if done {
        return;
      }
      done := true;
      outputOpen := false;
      editor.Abort();
    }

    /** read(): the next byte, or -1 at the end; a byte read is mirrored into the
        cache, and a failing mirror write aborts the edit without changing what
        the reader gets. */
    method Read(writeFails: bool) returns (r: Io<int>)
      requires Valid()
      modifies this`pos, this`done, this`outputOpen, editor`state, editor`written, editor.store`editing
      ensures Valid() && inputClosed == old(inputClosed)
      ensures r == if inputClosed then IoError
                   else if old(pos) < |network| then Ok(network[old(pos)] as int)
                   else Ok(-1)
      ensures pos == if r.Ok? && r.value != -1 then old(pos) + 1 else old(pos)
      ensures !(r.Ok? && r.value != -1) ==> EditUntouched()
      ensures r.Ok? && r.value != -1 && old(outputOpen) && !writeFails ==>
        && done == old(done) && outputOpen && editor.state == old(editor.state)
        && editor.written == old(editor.written) + [network[old(pos)]]
        && editor.store.editing == old(editor.store.editing)
      ensures r.Ok? && r.value != -1 && !(old(outputOpen) && !writeFails) ==> EditAbandoned()
    {
      if inputClosed {
        return IoError;
      }
      var read: int := if pos < |network| then network[pos] as int else -1;
      if read != -1 {
        if outputOpen && !writeFails {
          editor.Write([read as byte]);
        } else {
          Abort();
        }
        assert network[..pos + 1] == network[..pos] + [network[pos]];
        pos := pos + 1;
      }
      return Ok(read);
    }

    /** How many bytes read(buffer, offset, count) returns when `ready` bytes
        have arrived and `left` remain: 0 for an empty request, -1 at the end,
        otherwise at least one and at most what was asked for and what is left. */
    static function Chunk(count: nat, ready: nat, left: nat): (n: int)
      ensures n == -1 <==> count > 0 && left == 0
      ensures n != -1 ==> 0 <= n <= count && n <= left
      ensures count > 0 && left > 0 ==> n >= 1
      ensures count > 0 && left > 0 && ready >= count ==> n == if left < count then left else count
    {
      if count == 0 then 0
      else if left == 0 then -1
      else
        var n := if ready < 1 then 1 else ready;
        var n := if count < n then count else n;
        if left < n then left else n
    }

    /** read(buffer, offset, count): copies the next bytes into the buffer and
        mirrors exactly those bytes into the cache; a failing mirror write aborts
        the edit without changing what the reader gets. */
    method ReadInto(buffer: array<byte>, offset: nat, count: nat, ready: nat, writeFails: bool) returns (r: Io<int>)
      requires Valid()
      requires offset + count <= buffer.Length
      modifies buffer, this`pos, this`done, this`outputOpen, editor`state, editor`written, editor.store`editing
      ensures Valid() && inputClosed == old(inputClosed)
      ensures r == if inputClosed then IoError else Ok(Chunk(count, ready, |network| - old(pos)))
      ensures pos == if r.Ok? && r.value > 0 then old(pos) + r.value else old(pos)
      ensures r.Ok? && r.value > 0 ==>
        && buffer[offset..offset + r.value] == network[old(pos)..pos]
        && buffer[..offset] == old(buffer[..offset])
        && buffer[offset + r.value..] == old(buffer[offset + r.value..])
      ensures !(r.Ok? && r.value > 0) ==> buffer[..] == old(buffer[..]) && EditUntouched()
      ensures r.Ok? && r.value > 0 && old(outputOpen) && !writeFails ==>
        && done == old(done) && outputOpen && editor.state == old(editor.state)
        && editor.written == old(editor.written) + network[old(pos)..pos]
        && editor.store.editing == old(editor.store.editing)
      ensures r.Ok? && r.value > 0 && !(old(outputOpen) && !writeFails) ==> EditAbandoned()
    {
      if inputClosed {
        return IoError;
      }
      var read := Chunk(count, ready, |network| - pos);
      if read > 0 {
        forall i | 0 <= i < read {
          buffer[offset + i] := network[pos + i];
        }
        assert buffer[offset..offset + read] == network[pos..pos + read];
        if outputOpen && !writeFails {
          editor.Write(buffer[offset..offset + read]);
        } else {
          Abort();
        }
        assert network[..pos + read] == network[..pos] + network[pos..pos + read];
        pos := pos + read;
      }
      return Ok(read);
    }

    /** close(): the first call closes the network stream and commits the edit;
        a later call does nothing. When closing the network stream throws, the
        call throws and the edit is neither committed nor aborted. */
    method Close(closeFails: bool) returns (r: Io<()>)
      requires Valid()
      modifies this`done, this`inputClosed, editor`state, editor.store`entries, editor.store`editing
      ensures Valid() && done
      ensures r == if !old(done) && closeFails then IoError else Ok(())
      ensures old(done) || closeFails ==>
        && inputClosed == old(inputClosed) && editor.state == old(editor.state)
        && editor.store.entries == old(editor.store.entries)
        && editor.store.editing == old(editor.store.editing)
      ensures !old(done) && !closeFails ==>
        && inputClosed && editor.state == Committed
        && editor.store.entries == old(editor.store.entries)[editor.key := Entry(editor.etag, Some(editor.written))]
        && editor.store.editing == old(editor.store.editing) - {editor.key}
    {
      if done {
        return Ok(());
      }
      done := true;
      if closeFails {
        return IoError;
      }
      inputClosed := true;
      editor.Commit();
      return Ok(());
    }
  }

  class EtagCache {
    const store: Store
    const digest: Digest
    var hits: nat
    var misses: nat

    /** The cache over a store taken on `disk`, the entries already committed there. */
    constructor (digest: Digest, disk: map<string, Entry>, maxSize: int)
      ensures this.digest == digest && fresh(store) && store.maxSize == maxSize
      ensures store.entries == disk && store.editing == {} && store.open == {} && store.faults == NoFaults
      ensures hits == 0 && misses == 0
    {
      this.digest := digest;
      store := new Store(disk, maxSize);
      hits := 0;
      misses := 0;
    }

    /** create(file, size): null when no SHA-1 implementation is available or the
        store cannot be taken (`disk` is None); DiskLruCache rejects a size that
        is not positive with an unchecked exception. */
    static method Create(digest: Option<Digest>, disk: Option<map<string, Entry>>, maxSize: int) returns (c: EtagCache?)
      requires maxSize > 0
      ensures c == null <==> digest.None? || disk.None?
      ensures c != null ==>
        && fresh(c) && fresh(c.store) && c.digest == digest.value
        && c.store.entries == disk.value && c.store.editing == {} && c.store.open == {}
        && c.store.faults == NoFaults && c.hits == 0 && c.misses == 0
    {
      if digest.None? || disk.None? {
        return null;
      }
      c := new EtagCache(digest.value, disk.value, maxSize);
    }

    /** getKey(String): the digest of the URL padded to a KeyLength hex key.
        (Encoding a Java string as UTF-8 cannot fail.) */
    function KeyOf(url: string): (key: string)
      ensures |key| == KeyLength && IsHex(key)
      ensures key[KeyLength - |digest(url)|..] == digest(url)
    {
      PadKey(digest(url))
    }

    /** getKey(URLConnection): only HTTP connections have a key. */
    function Key(conn: Connection): (key: Option<string>)
      ensures key.Some? <==> conn.isHttp
      ensures key.Some? ==> |key.value| == KeyLength && IsHex(key.value)
    {
      if conn.isHttp then Some(KeyOf(conn.url)) else None
    }

    /** URLs whose digests differ get different keys. */
    lemma DistinctDigestsDistinctKeys(u: string, v: string)
      requires digest(u) != digest(v)
      ensures KeyOf(u) != KeyOf(v)
    {
      if KeyOf(u) == KeyOf(v) {
        PadKeyInjective(digest(u), digest(v));
      }
    }

    /** isCacheable: a GET answered with exactly 200; a status that cannot be read
        counts as not cacheable. */
    predicate IsCacheable(conn: Connection): (cacheable: bool)
      ensures cacheable ==> conn.requestMethod == METHOD_GET && conn.reply.status == Some(HTTP_OK)
      ensures conn.reply.status.None? ==> !cacheable
    {
      conn.requestMethod == METHOD_GET && conn.reply.status == Some(HTTP_OK)
    }

    /** Whether `get` opens a snapshot for `conn`. */
    predicate Opens(conn: Connection)
      reads store`entries, store`faults
    {
      conn.isHttp && !store.faults.lookupFails && KeyOf(conn.url) in store.entries
    }

    /** An entry `get` can serve: a non-empty etag and a body. */
    static predicate Usable(entry: Entry) {
      entry.etag.Some? && |entry.etag.value| > 0 && entry.body.Some?
    }

    /** What `get` returns for `conn`: the etag and body of its entry, provided the
        store reads without fault and the entry has a non-empty etag and a body. */
    function Lookup(conn: Connection): (found: Option<(string, seq<byte>)>)
      reads store`entries, store`faults
      ensures found.Some? <==>
        Opens(conn) && !store.faults.readFails && Usable(store.entries[KeyOf(conn.url)])
      ensures found.Some? ==>
        && |found.value.0| > 0
        && store.entries[KeyOf(conn.url)] == Entry(Some(found.value.0), Some(found.value.1))
    {
      if !Opens(conn) || store.faults.readFails then None
      else
        var entry := store.entries[KeyOf(conn.url)];
        if Usable(entry) then Some((entry.etag.value, entry.body.value)) else None
    }

    /** get(connection) as written, also yielding the snapshot it opened: every
        path that returns null after opening a snapshot leaves it open. */
    method GetAsWritten(conn: Connection) returns (r: CacheResponse?, taken: Snapshot?)
      modifies store`open
      ensures taken == null <==> !Opens(conn)
      ensures taken == null ==> store.open == old(store.open)
      ensures taken != null ==> fresh(taken) && taken.store == store && store.open == old(store.open) + {taken}
      ensures r == null <==> Lookup(conn).None?
      ensures r != null ==> fresh(r) && r.snapshot == taken && (r.eTag, r.body) == Lookup(conn).value
    {
      var key := Key(conn);
      if key.None? {
        return null, null;
      }
      var snapshot := store.Get(key.value);
      if snapshot.IoError? || snapshot.value == null {
        return null, null;
      }
      taken := snapshot.value;
      var etag := taken.GetString();
      if etag.IoError? {
        return null, taken;
      }
      if etag.value.Some? && |etag.value.value| > 0 {
        var body := taken.values.body;
        if body.Some? {
          r := new CacheResponse(etag.value.value, body.value, taken);
          return r, taken;
        }
      }
      return null, taken;
    }

    /** get(connection), closing the snapshot on every path that returns null. */
    method Get(conn: Connection) returns (r: CacheResponse?)
      modifies store`open
      ensures r == null <==> Lookup(conn).None?
      ensures r == null ==> store.open == old(store.open)
      ensures r != null ==>
        && fresh(r) && fresh(r.snapshot) && r.snapshot.store == store
        && store.open == old(store.open) + {r.snapshot}
        && (r.eTag, r.body) == Lookup(conn).value
    {
      var taken;
      r, taken := GetAsWritten(conn);
      if r == null && taken != null {
        taken.Close();
      }
    }

    /** Which way `put` goes for `conn` against the store's current faults and edits in progress. */
    function PutPlan(conn: Connection): PutStep
      reads store`faults, store`editing
    {
      PlanFor(conn, store.faults, store.editing)
    }

    /** Which way `put` goes for `conn` when the store has `faults` and edits of
        the keys in `editing` are in progress. */
    function PlanFor(conn: Connection, faults: Faults, editing: set<string>): (step: PutStep)
      ensures step == NotKeyed <==> !conn.isHttp
      ensures step == Uncacheable <==> conn.isHttp && !IsCacheable(conn)
      ensures step == Wrapped ==>
        && conn.isHttp && IsCacheable(conn) && conn.reply.body.Some?
        && conn.reply.etag.Some? && |conn.reply.etag.value| > 0
    {
      if !conn.isHttp then NotKeyed
      else if !IsCacheable(conn) then Uncacheable
      else if conn.reply.etag.None? || |conn.reply.etag.value| == 0 then NoEtag
      else if faults.editFails then EditFailed
      else if KeyOf(conn.url) in editing then EditBusy
      else if faults.setFails then SetFailed
      else if conn.reply.body.None? || faults.outputFails then StreamFailed
      else Wrapped
    }

    /** put(connection) as written, also yielding the editor it opened: when the
        network input or the body output cannot be taken, the editor is left
        pending and the key stays locked for editing. */
    method PutAsWritten(conn: Connection) returns (r: CacheStream?, editor: Editor?)
      modifies store`entries, store`editing
      ensures r != null <==> old(PutPlan(conn)) == Wrapped
      ensures editor != null <==> old(PutPlan(conn)) in {SetFailed, StreamFailed, Wrapped}
      ensures store.entries ==
        if old(PutPlan(conn)) == Uncacheable && !store.faults.removeFails
        then old(store.entries) - {KeyOf(conn.url)} else old(store.entries)
      ensures editor == null || old(PutPlan(conn)) == SetFailed ==> store.editing == old(store.editing)
      ensures editor != null ==> fresh(editor) && editor.store == store && editor.key == KeyOf(conn.url)
      ensures old(PutPlan(conn)) == SetFailed ==> editor.state == Aborted
      ensures old(PutPlan(conn)) in {StreamFailed, Wrapped} ==>
        && editor.state == Pending && editor.etag == conn.reply.etag
        && store.editing == old(store.editing) + {KeyOf(conn.url)}
      ensures r != null ==>
        && fresh(r) && r.Valid() && r.editor == editor && r.network == conn.reply.body.value
        && r.pos == 0 && !r.inputClosed && r.outputOpen && !r.done && editor.written == []
    {
      var key := Key(conn);
      if key.None? {
        return null, null;
      }
      if !IsCacheable(conn) {
        var _ := store.Remove(key.value);
        return null, null;
      }
      var etag := conn.reply.etag;
      if etag.None? || |etag.value| == 0 {
        return null, null;
      }
      var edit := store.Edit(key.value);
      if edit.IoError? || edit.value == null {
        return null, null;
      }
      editor := edit.value;
      var stored := editor.SetEtag(etag.value);
      if stored.IoError? {
        editor.Abort();
        return null, editor;
      }
      var input := conn.reply.body;
      if input.None? {
        return null, editor;
      }
      var output := editor.NewOutputStream();
      if output.IoError? {
        return null, editor;
      }
      r := new CacheStream(input.value, editor);
    }

    /** put(connection), aborting the editor on every path that returns null after
        opening one, so a failed put never leaves the key locked. */
    method Put(conn: Connection) returns (r: CacheStream?)
      modifies store`entries, store`editing
      ensures r != null <==> old(PutPlan(conn)) == Wrapped
      ensures store.entries ==
        if old(PutPlan(conn)) == Uncacheable && !store.faults.removeFails
        then old(store.entries) - {KeyOf(conn.url)} else old(store.entries)
      ensures r == null ==> store.editing == old(store.editing)
      ensures r != null ==>
        && fresh(r) && fresh(r.editor) && r.Valid() && r.network == conn.reply.body.value
        && r.pos == 0 && !r.inputClosed && r.outputOpen && !r.done
        && r.editor.store == store && r.editor.key == KeyOf(conn.url)
        && r.editor.state == Pending && r.editor.etag == conn.reply.etag && r.editor.written == []
        && store.editing == old(store.editing) + {KeyOf(conn.url)}
    {
      var editor;
      r, editor := PutAsWritten(conn);
      if r == null && editor != null && editor.state == Pending {
        editor.Abort();
      }
    }

    /** registerHit(). */
    method RegisterHit()
      modifies this`hits
      ensures hits == old(hits) + 1
    {
      hits := hits + 1;
    }

    /** registerMiss(). */
    method RegisterMiss()
      modifies this`misses
      ensures misses == old(misses) + 1
    {
      misses := misses + 1;
    }

    /** resetStats(): both counters back to zero together. */
    method ResetStats()
      modifies this`hits, this`misses
      ensures hits == 0 && misses == 0
    {
      hits := 0;
      misses := 0;
    }
  }
}
