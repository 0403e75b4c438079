/**
 * The default key-value store that the two handlers share: one flat
 * namespace of keys mapping to stored bytes (here, the JSON text of a
 * record). The store engine itself is outside the model; what the handlers
 * rely on is how get, set, delete and get_keys answer.
 */
module KeyValue {
  import opened Wrappers

  /** NoSuchKey, or any other failure the store reports. */
  datatype StoreError = NoSuchKey | StoreFault

  /**
   * What the store holds and how it behaves: whether it can be opened at
   * all, its entries, and the keys whose access fails with a fault other
   * than NoSuchKey.
   */
  datatype Snapshot = Snapshot(available: bool, entries: map<string, string>, broken: set<string>)

  predicate Faulty(s: Snapshot, key: string) {
    !s.available || key in s.broken
  }

  /** store.get */
  function Lookup(s: Snapshot, key: string): Result<string, StoreError> {
    if Faulty(s, key) then Failure(StoreFault)
    else if key in s.entries then Success(s.entries[key])
    else Failure(NoSuchKey)
  }

  /** store.set: an existing key is overwritten. */
  function Put(s: Snapshot, key: string, value: string): (Result<(), StoreError>, Snapshot) {
    if Faulty(s, key) then (Failure(StoreFault), s)
    else (Success(()), s.(entries := s.entries[key := value]))
  }

  /** store.delete: removing a key that is not there succeeds and changes nothing. */
  function Remove(s: Snapshot, key: string): (Result<(), StoreError>, Snapshot) {
    if Faulty(s, key) then (Failure(StoreFault), s)
    else (Success(()), s.(entries := s.entries - {key}))
  }

  /** `keys` lists every key of `m` exactly once, in some order. */
  ghost predicate Enumerates(keys: seq<string>, m: map<string, string>) {
    && (forall i, j | 0 <= i < j < |keys| :: keys[i] != keys[j])
    && (forall k :: k in m <==> k in keys)
  }

  /** A listing of the keys has one position per stored key. */
  lemma {:induction false} EnumerationLength(keys: seq<string>, m: map<string, string>)
    requires Enumerates(keys, m)
    ensures |keys| == |m|
  {
    if keys == [] {
      assert m.Keys == {};
    } else {
      var k := keys[0];
      var m' := m - {k};
      forall x ensures x in m' <==> x in keys[1..] {
        if x in keys[1..] {
          var j :| 0 <= j < |keys[1..]| && keys[1..][j] == x;
          assert keys[j + 1] == x;
        }
        if x in m' {
          var j :| 0 <= j < |keys| && keys[j] == x;
          assert j != 0;
          assert keys[1..][j - 1] == x;
        }
      }
      EnumerationLength(keys[1..], m');
      assert m.Keys == m'.Keys + {k};
    }
  }

  /**
   * The store handle that a handler opens; its entries change in place.
   * Lookup, Put and Remove define the operations; the methods below are
   * their in-place form, each proved to agree with its function.
   */
  class Store {
    const available: bool
    const broken: set<string>
    var entries: map<string, string>

    constructor (available: bool, entries: map<string, string>, broken: set<string>)
      ensures View() == Snapshot(available, entries, broken)
    {
      this.available := available;
      this.entries := entries;
      this.broken := broken;
    }

    function View(): Snapshot
      reads this
    {
      Snapshot(available, entries, broken)
    }

    /** Store::open_default succeeds exactly when the store is available. */
    method Open() returns (ok: bool)
      ensures ok == View().available
    {
      ok := available;
    }

    method Get(key: string) returns (r: Result<string, StoreError>)
      ensures r == Lookup(View(), key)
    {
      if !available || key in broken {
        r := Failure(StoreFault);
      } else if key in entries {
        r := Success(entries[key]);
      } else {
        r := Failure(NoSuchKey);
      }
    }

    method Set(key: string, value: string) returns (r: Result<(), StoreError>)
      modifies this
      ensures (r, View()) == Put(old(View()), key, value)
    {
      if !available || key in broken {
        r := Failure(StoreFault);
      } else {
        entries := entries[key := value];
        r := Success(());
      }
    }

    method Delete(key: string) returns (r: Result<(), StoreError>)
      modifies this
      ensures (r, View()) == Remove(old(View()), key)
    {
      if !available || key in broken {
        r := Failure(StoreFault);
      } else {
        entries := entries - {key};
        r := Success(());
      }
    }

    /** store.get_keys: every key once, in an order the store does not specify. */
    method GetKeys() returns (keys: seq<string>)
      ensures Enumerates(keys, entries)
    {
      keys := [];
      var rest := entries.Keys;
      while rest != {}
        invariant forall k :: k in entries <==> k in keys || k in rest
        invariant forall i | 0 <= i < |keys| :: keys[i] !in rest
        invariant forall i, j | 0 <= i < j < |keys| :: keys[i] != keys[j]
        decreases |rest|
      {
        var k :| k in rest;
        keys := keys + [k];
        rest := rest - {k};
      }
    }
  }
}
