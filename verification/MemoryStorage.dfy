/**
 * `MemoryStorage`: a transaction buffers its writes and deletions over the records. It must look
 * like a plain map changed in order, install exactly that map, and install nothing when it throws.
 */
module MemoryStorage {
  import opened Prelude
  import opened RecordKeys

  datatype Op<V> = Get(key: Key) | Put(key: Key, value: V) | Delete(key: Key) | Scan(prefix: Key)
  datatype Seen<V> = Found(value: Option<V>) | Rows(rows: map<Key, V>) | Done

  // ---- the plain map ---------------------------------------------------------------------------

  function Lookup<V>(m: map<Key, V>, key: Key): Option<V> { if key in m then Some(m[key]) else None }

  function Under<V>(m: map<Key, V>, prefix: Key): map<Key, V> { map k | k in m && StartsWith(k, prefix) :: m[k] }

  function Change<V>(m: map<Key, V>, op: Op<V>): map<Key, V> {
    match op
    case Put(key, value) => m[key := value]
    case Delete(key) => m - {key}
    case _ => m
  }

  function See<V>(m: map<Key, V>, op: Op<V>): Seen<V> {
    match op
    case Get(key) => Found(Lookup(m, key))
    case Scan(prefix) => Rows(Under(m, prefix))
    case _ => Done
  }

  function Changes<V>(m: map<Key, V>, ops: seq<Op<V>>): map<Key, V> {
    if ops == [] then m else Change(Changes(m, ops[..|ops| - 1]), ops[|ops| - 1])
  }

  /** What a plain map answers to each operation in turn. */
  function Sees<V>(m: map<Key, V>, ops: seq<Op<V>>): seq<Seen<V>> {
    if ops == [] then [] else Sees(m, ops[..|ops| - 1]) + [See(Changes(m, ops[..|ops| - 1]), ops[|ops| - 1])]
  }

  // ---- the buffered transaction -------------------------------------------------------------------

  class Storage<V> {
    var records: map<Key, V>
    var changes: map<Key, V>
    var deleted: set<Key>

    constructor (records: map<Key, V>)
      ensures this.records == records && changes == map[] && deleted == {}
    {
      this.records, changes, deleted := records, map[], {};
    }

    ghost predicate Valid()
      reads this
    {
      changes.Keys !! deleted
    }

    /** The map the transaction shows. */
    ghost function View(): map<Key, V>
      reads this
    {
      records - deleted + changes
    }

    method Get(key: Key) returns (value: Option<V>)
      requires Valid()
      ensures value == Lookup(View(), key)
    {
      if key in deleted { return None; }
      if key in changes { return Some(changes[key]); }
      return if key in records then Some(records[key]) else None;
    }

    method Put(key: Key, value: V)
      requires Valid()
      modifies this`changes, this`deleted
      ensures Valid() && View() == old(View())[key := value]
    {
      changes, deleted := changes[key := value], deleted - {key};
    }

    method Delete(key: Key)
      requires Valid()
      modifies this`changes, this`deleted
      ensures Valid() && View() == old(View()) - {key}
    {
      changes, deleted := changes - {key}, deleted + {key};
    }

    /** The records, less the deleted, with the changes set over them, filtered by the prefix. */
    method Scan(prefix: Key) returns (rows: map<Key, V>)
      requires Valid()
      ensures rows == Under(View(), prefix)
    {
      var all := records;
      var left := deleted;
      while left != {}
        invariant left <= deleted && all == records - (deleted - left)
        decreases left
      {
        var key :| key in left;
        all, left := all - {key}, left - {key};
      }
      var puts := changes.Keys;
      while puts != {}
        invariant puts <= changes.Keys && all == records - deleted + (changes - puts)
        decreases puts
      {
        var key :| key in puts;
        all, puts := all[key := changes[key]], puts - {key};
      }
      assert changes - {} == changes;
      rows := map k | k in all && StartsWith(k, prefix) :: all[k];
    }

    method Install()
      requires Valid()
      modifies this
      ensures Valid() && records == old(View()) && changes == map[] && deleted == {}
    {
      records := records - deleted + changes;
      changes, deleted := map[], {};
    }

    /** One transaction: every answer is a plain map's, and success installs exactly that map. */
    method Transaction(ops: seq<Op<V>>, throws: bool) returns (seen: seq<Seen<V>>)
      requires changes == map[] && deleted == {}
      modifies this
      ensures changes == map[] && deleted == {}
      ensures seen == Sees(old(records), ops)
      ensures records == if throws then old(records) else Changes(old(records), ops)
    {
      seen := [];
      for i := 0 to |ops|
        invariant Valid() && records == old(records) && View() == Changes(old(records), ops[..i]) && seen == Sees(old(records), ops[..i])
      {
        assert ops[..i + 1][..i] == ops[..i];
        var answer: Seen<V> := Done;
        match ops[i] {
          case Get(key) => var value := Get(key); answer := Found(value);
          case Put(key, value) => Put(key, value);
          case Delete(key) => Delete(key);
          case Scan(prefix) => var rows := Scan(prefix); answer := Rows(rows);
        }
        seen := seen + [answer];
      }
      assert ops[..|ops|] == ops;
      if throws { changes, deleted := map[], {}; } else { Install(); }
    }
  }
}
