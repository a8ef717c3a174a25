/** The persistent store behind the cache (DiskLruCache opened with two values
    per entry), reduced to what EtagCache uses: a map from key to entry, the set
    of keys with an edit in progress, the read snapshots that are open, and which
    I/O operations currently fail. */
module DiskCache {
  import opened Prelude

  /** What the store holds under one key: value 0 (the etag) and value 1 (the
      body); a value that reads as null is None. */
  datatype Entry = Entry(etag: Option<string>, body: Option<seq<byte>>)

  /** Which of the store's I/O operations throw an IOException at present. */
  datatype Faults = Faults(
    lookupFails: bool,   // get(key)
    readFails: bool,     // Snapshot.getString
    removeFails: bool,   // remove(key)
    editFails: bool,     // edit(key)
    setFails: bool,      // Editor.set
    outputFails: bool    // Editor.newOutputStream
  )

  const NoFaults := Faults(false, false, false, false, false, false)

  /** An editor is pending until it is either committed or aborted. */
  datatype EditState = Pending | Committed | Aborted

  class Store {
    var entries: map<string, Entry>
    var editing: set<string>
    var open: set<Snapshot>
    var faults: Faults
    const maxSize: int

    /** Opens the store over the entries already committed at its location. */
    constructor (entries: map<string, Entry>, maxSize: int)
      ensures this.entries == entries && editing == {} && open == {}
      ensures faults == NoFaults && this.maxSize == maxSize
    {
      this.entries := entries;
      this.maxSize := maxSize;
      editing := {};
      open := {};
      faults := NoFaults;
    }

    /** get(key): a fresh open snapshot of the entry, null when the key is absent. */
    method Get(key: string) returns (r: Io<Snapshot?>)
      modifies this`open
      ensures faults.lookupFails ==> r == IoError && open == old(open)
      ensures !faults.lookupFails && key !in entries ==> r == Ok(null) && open == old(open)
      ensures !faults.lookupFails && key in entries ==>
        r.Ok? && r.value != null && fresh(r.value) && r.value.store == this &&
        r.value.values == entries[key] && open == old(open) + {r.value}
    {
      if faults.lookupFails {
        return IoError;
      }
      if key !in entries {
        return Ok(null);
      }
      var s := new Snapshot(this, entries[key]);
      open := open + {s};
      return Ok(s);
    }

    /** edit(key): a fresh editor, or null while another edit of the key is in progress. */
    method Edit(key: string) returns (r: Io<Editor?>)
      modifies this`editing
      ensures faults.editFails ==> r == IoError && editing == old(editing)
      ensures !faults.editFails && key in old(editing) ==> r == Ok(null) && editing == old(editing)
      ensures !faults.editFails && key !in old(editing) ==>
        r.Ok? && r.value != null && fresh(r.value) &&
        r.value.store == this && r.value.key == key && r.value.state == Pending &&
        r.value.etag == None && r.value.written == [] && editing == old(editing) + {key}
    {
      if faults.editFails {
        return IoError;
      }
      if key in editing {
        return Ok(null);
      }
      var e := new Editor(this, key);
      editing := editing + {key};
      return Ok(e);
    }

    /** remove(key): drops the entry; reports whether there was one. */
    method Remove(key: string) returns (r: Io<bool>)
      modifies this`entries
      ensures faults.removeFails ==> r == IoError && entries == old(entries)
      ensures !faults.removeFails ==> r == Ok(key in old(entries)) && entries == old(entries) - {key}
    {
      if faults.removeFails {
        return IoError;
      }
      r := Ok(key in entries);
      entries := entries - {key};
    }
  }

  /** A read view of one entry, holding the store open until it is closed. */
  class Snapshot {
    const store: Store
    const values: Entry

    constructor (store: Store, values: Entry)
      ensures this.store == store && this.values == values
    {
      this.store := store;
      this.values := values;
    }

    /** getString(0): the etag value. */
    method GetString() returns (r: Io<Option<string>>)
      ensures r == if store.faults.readFails then IoError else Ok(values.etag)
    {
      if store.faults.readFails {
        return IoError;
      }
      return Ok(values.etag);
    }

    /** close(): releases the snapshot; closing it again changes nothing. */
    method Close()
      modifies store`open
      ensures store.open == old(store.open) - {this}
    {
      store.open := store.open - {this};
    }
  }

  /** A write transaction on one key: value 0 is set directly, value 1 is written
      through an output stream; commit makes both visible, abort discards them.
      Calling commit or abort on an editor that is no longer pending is an error
      of the caller (DiskLruCache throws IllegalStateException). */
  class Editor {
    const store: Store
    const key: string
    var etag: Option<string>
    var written: seq<byte>
    var state: EditState

    constructor (store: Store, key: string)
      ensures this.store == store && this.key == key
      ensures etag == None && written == [] && state == Pending
    {
      this.store := store;
      this.key := key;
      etag := None;
      written := [];
      state := Pending;
    }

    /** set(0, value). */
    method SetEtag(value: string) returns (r: Io<()>)
      requires state == Pending
      modifies this`etag
      ensures store.faults.setFails ==> r == IoError && etag == old(etag)
      ensures !store.faults.setFails ==> r == Ok(()) && etag == Some(value)
    {
      if store.faults.setFails {
        return IoError;
      }
      etag := Some(value);
      return Ok(());
    }

    /** newOutputStream(1): opens value 1 for writing from its start. */
    method NewOutputStream() returns (r: Io<()>)
      requires state == Pending
      modifies this`written
      ensures store.faults.outputFails ==> r == IoError && written == old(written)
      ensures !store.faults.outputFails ==> r == Ok(()) && written == []
    {
      if store.faults.outputFails {
        return IoError;
      }
      written := [];
      return Ok(());
    }

    /** Appends bytes to value 1 through its output stream. */
    method Write(bytes: seq<byte>)
      requires state == Pending
      modifies this`written
      ensures written == old(written) + bytes
    {
      written := written + bytes;
    }

    /** commit(): the entry becomes visible with the values written. */
    method Commit()
      requires state == Pending
      modifies this`state, store`entries, store`editing
      ensures state == Committed
      ensures store.entries == old(store.entries)[key := Entry(etag, Some(written))]
      ensures store.editing == old(store.editing) - {key}
    {
      state := Committed;
      store.entries := store.entries[key := Entry(etag, Some(written))];
      store.editing := store.editing - {key};
    }

    /** abort(): the edit is discarded; the entry keeps its previous values. */
    method Abort()
      requires state == Pending
      modifies this`state, store`editing
      ensures state == Aborted
      ensures store.editing == old(store.editing) - {key}
    {
      state := Aborted;
      store.editing := store.editing - {key};
    }
  }
}
