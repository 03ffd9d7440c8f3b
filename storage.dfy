/**
 * The response store shared by every resource: `FileResponseReader` (one JSON file per key) and
 * `RedisResponseReader` (one pickled value per key) behind one abstract key-to-value map
 * (mock.py:63-93). What the real file system or server would do on a given key is fixed up
 * front by an `Environment`: which kind of store it is, which keys fail to read and with what
 * kind of exception, and which keys cannot be written.
 */
module Storage {

  import opened JsonValue

  datatype Kind = FileStorage | RedisStorage

  /** The exception a read raises: an `IOError` (`OSError`: missing file, permission denied),
   *  or anything else (malformed JSON in a file, a lost connection to the server). */
  datatype Fault = IOFault | OtherFault

  /** What `get` does: returns a value (JSON `null` standing for Python's `None`), or raises. */
  datatype ReadResult = Returned(value: Json) | Raised(fault: Fault)

  datatype Environment = Environment(
    kind: Kind,
    readFaults: map<string, Fault>,  // keys whose read raises, and what it raises
    writeFaults: set<string>         // keys whose write raises (e.g. a missing directory)
  )

  /** `get(key)` of either reader. A file store opens the file and so raises an `IOError` for a
   *  key that was never written; the key-value store returns `None` for it (mock.py:86-90). */
  function Lookup(env: Environment, entries: map<string, Json>, key: string): ReadResult
  {
    if key in env.readFaults then Raised(env.readFaults[key])
    else if key in entries then Returned(entries[key])
    else if env.kind == FileStorage then Raised(IOFault)
    else Returned(JNull)
  }

  /** The shared store: its contents change by `Set`, its environment never does. */
  class Store {
    const env: Environment
    var entries: map<string, Json>

    constructor (env: Environment, entries: map<string, Json>)
      ensures this.env == env && this.entries == entries
    {
      this.env := env;
      this.entries := entries;
    }

    /** `get(response_path)` */
    function Get(key: string): ReadResult
      reads this
    {
      Lookup(env, entries, key)
    }

    /** `set(key, value)`: overwrites the slot of `key` and no other, or raises (`ok` false)
     *  and leaves the store as it was. */
    method Set(key: string, value: Json) returns (ok: bool)
      modifies this
      ensures ok == (key !in env.writeFaults)
      ensures entries == if ok then old(entries)[key := value] else old(entries)
      ensures ok && key !in env.readFaults ==> Get(key) == Returned(value)
      ensures forall k :: k != key ==> Get(k) == old(Get(k))
    {
      ok := key !in env.writeFaults;
      if ok {
        entries := entries[key := value];
      }
    }
  }

  /** After `set(k, v)`, `get(k)` returns `v`, on both kinds of store, unless the key's reads
   *  are broken. */
  lemma ReadAfterWrite(env: Environment, entries: map<string, Json>, key: string, v: Json)
    requires key !in env.readFaults
    ensures Lookup(env, entries[key := v], key) == Returned(v)
  {
  }

  /** Writing one key does not change what any other key reads. */
  lemma WriteKeepsOtherKeys(env: Environment, entries: map<string, Json>, key: string, v: Json, other: string)
    requires other != key
    ensures Lookup(env, entries[key := v], other) == Lookup(env, entries, other)
  {
  }

  /** A key that holds nothing reads as `None` (key-value store) or as an `IOError` (file store),
   *  never as some other exception and never as a value other than `None`. */
  lemma AbsentKey(env: Environment, entries: map<string, Json>, key: string)
    requires key !in env.readFaults && key !in entries
    ensures env.kind == RedisStorage ==> Lookup(env, entries, key) == Returned(JNull)
    ensures env.kind == FileStorage ==> Lookup(env, entries, key) == Raised(IOFault)
  {
  }
}
