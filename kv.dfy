/** The key-value store: a Cloudflare KV namespace (shared, flat string map)
    and the `KVStore` wrapper class around a handle to it. */
module Kv {
  import opened Wrappers

  /** What a namespace lookup yields: the value, or nothing. */
  function Lookup(entries: map<string, string>, key: string): (r: Option<string>)
    ensures r.Some? <==> key in entries
    ensures r.Some? ==> r.value == entries[key]
  {
    if key in entries then Some(entries[key]) else None
  }

  /** The backing namespace. Several `KVStore` objects may wrap the same one. */
  class Namespace {
    var entries: map<string, string>

    constructor (initial: map<string, string>)
      ensures entries == initial
    {
      entries := initial;
    }
  }

  /** The wrapper: its namespace handle is set once, by the constructor. */
  class KVStore {
    const ns: Namespace

    constructor (namespace: Namespace)
      ensures ns == namespace
    {
      ns := namespace;
    }

    /** `put` passes key and value through: only `key` changes, and it now maps to `value`. */
    method Put(key: string, value: string)
      modifies ns
      ensures ns.entries == old(ns.entries)[key := value]
      ensures Lookup(ns.entries, key) == Some(value)
      ensures forall k :: k != key ==> Lookup(ns.entries, k) == Lookup(old(ns.entries), k)
    {
      ns.entries := ns.entries[key := value];
    }

    /** `get` yields the stored value, or nothing (a null from the namespace
        is turned into `undefined`); it writes nothing. */
    method Get(key: string) returns (r: Option<string>)
      ensures r.Some? <==> key in ns.entries
      ensures r.Some? ==> r.value == ns.entries[key]
    {
      r := if key in ns.entries then Some(ns.entries[key]) else None;
    }

    /** `delete` passes the key through: `key` is gone and no other key changes. */
    method Delete(key: string)
      modifies ns
      ensures ns.entries == old(ns.entries) - {key}
      ensures Lookup(ns.entries, key) == None
      ensures forall k :: k != key ==> Lookup(ns.entries, k) == Lookup(old(ns.entries), k)
    {
      ns.entries := ns.entries - {key};
    }
  }

  /** A read after a write through two wrappers of one namespace sees the
      write; deleting afterwards makes the key read as missing. */
  method PutGetDelete(namespace: Namespace, key: string, value: string)
    returns (seen: Option<string>, afterDelete: Option<string>)
    modifies namespace
    ensures seen == Some(value) && afterDelete == None
    ensures forall k :: k != key ==> Lookup(namespace.entries, k) == Lookup(old(namespace.entries), k)
  {
    var writer := new KVStore(namespace);
    var reader := new KVStore(namespace);
    writer.Put(key, value);
    seen := reader.Get(key);
    reader.Delete(key);
    afterDelete := writer.Get(key);
  }
}
