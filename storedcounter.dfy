/** The stored counter that hands out sector numbers: one `uint64` kept in a key-value datastore
    under a fixed key, uvarint-encoded, with `Next` (read, add one, write back), `Get` and `Set`
    (fast-forward, never rewind). Each operation runs under the counter's mutex in the source; here
    each method is one atomic step. */
module Storedcounter {
  import opened Primitives
  import opened Binary

  /** A datastore key (a path such as "/storage/nextid"). */
  type Key = string

  /** What the datastore reports: the key it was asked to `Get` is missing, or some other failure. */
  datatype StoreError = ErrNotFound | StoreFailure(reason: string)

  /** The failures the datastore's `Has`, `Get` and `Put` will report during one counter call,
      chosen by the caller: the store is a collaborator whose failures the model cannot see. */
  datatype Faults = Faults(has: Option<string>, get: Option<string>, put: Option<string>)

  const NoFaults := Faults(None, None, None)

  /** The counter's errors: a datastore error returned as it came, or a refused decrease. */
  datatype CounterError = Store(cause: StoreError) | InvalidDecrease(requested: uint64, current: uint64)

  function AsStoreError(fault: Option<string>): Option<StoreError>
  {
    match fault
    case None => None
    case Some(reason) => Some(StoreFailure(reason))
  }

  function AsCounterError(e: Option<StoreError>): Option<CounterError>
  {
    match e
    case None => None
    case Some(cause) => Some(Store(cause))
  }

  /** The datastore the counter persists to: a map from key to bytes shared with the rest of the
      node. Each operation either fails with the fault it is given, changing nothing, or does what
      a map does. */
  class Datastore {
    var entries: map<Key, seq<byte>>

    constructor (initial: map<Key, seq<byte>>)
      ensures entries == initial
    {
      entries := initial;
    }

    method Has(key: Key, fault: Option<string>) returns (has: bool, err: Option<StoreError>)
      ensures err == AsStoreError(fault)
      ensures has <==> fault.None? && key in entries
    {
      err := AsStoreError(fault);
      has := fault.None? && key in entries;
    }

    method Get(key: Key, fault: Option<string>) returns (value: seq<byte>, err: Option<StoreError>)
      ensures fault.Some? ==> err == AsStoreError(fault) && value == []
      ensures fault.None? && key in entries ==> err == None && value == entries[key]
      ensures fault.None? && key !in entries ==> err == Some(ErrNotFound) && value == []
    {
      if fault.Some? {
        return [], AsStoreError(fault);
      }
      if key in entries {
        return entries[key], None;
      }
      return [], Some(ErrNotFound);
    }

    method Put(key: Key, value: seq<byte>, fault: Option<string>) returns (err: Option<StoreError>)
      modifies this
      ensures err == AsStoreError(fault)
      ensures entries == if fault.None? then old(entries)[key := value] else old(entries)
    {
      err := AsStoreError(fault);
      if fault.None? {
        entries := entries[key := value];
      }
    }
  }

  /** The value the counter holds in `entries`: 0 when the key is absent, otherwise what
      `binary.Uvarint` reads from the stored bytes (the source discards its byte count, so bytes
      that do not decode read as 0). */
  function Current(entries: map<Key, seq<byte>>, name: Key): uint64
  {
    if name in entries then Uvarint(entries[name]).0 else 0
  }

  /** The value `Next` hands out: 0 for an absent key, otherwise the current value plus one in
      Go's wrapping `uint64` arithmetic. */
  function Successor(entries: map<Key, seq<byte>>, name: Key): uint64
  {
    if name in entries then (Current(entries, name) + 1) % TWO_TO_THE_64 else 0
  }

  /** The stored bytes, if any, are a complete uvarint: what every write of the counter leaves. */
  predicate WellFormed(entries: map<Key, seq<byte>>, name: Key)
  {
    name in entries ==> Uvarint(entries[name]).1 > 0
  }

  /** The datastore reads a call makes before it writes succeed: `Has`, and `Get` when the key
      is there. */
  predicate ReadsSucceed(entries: map<Key, seq<byte>>, name: Key, faults: Faults)
  {
    faults.has.None? && (name in entries ==> faults.get.None?)
  }

  /** The error a call reports when one of its reads fails. */
  function ReadError(entries: map<Key, seq<byte>>, name: Key, faults: Faults): Option<CounterError>
  {
    if faults.has.Some? then AsCounterError(AsStoreError(faults.has))
    else if name in entries then AsCounterError(AsStoreError(faults.get))
    else None
  }

  /** After the counter writes `v`, it holds `v`, and the write leaves a well-formed entry. */
  lemma CurrentAfterWrite(entries: map<Key, seq<byte>>, name: Key, v: uint64)
    ensures Current(entries[name := Encode(v)], name) == v
    ensures WellFormed(entries[name := Encode(v)], name)
  {
    UvarintEncode(v, []);
    assert Encode(v) + [] == Encode(v);
  }

  /** Successive `Next` calls give consecutive values: after `Next` has stored what it returned,
      the following `Next` returns that value plus one (wrapping at 2^64). */
  lemma NextAfterNext(entries: map<Key, seq<byte>>, name: Key)
    ensures
      var v := Successor(entries, name);
      Successor(entries[name := Encode(v)], name) == (v + 1) % TWO_TO_THE_64
  {
    CurrentAfterWrite(entries, name, Successor(entries, name));
  }

  /** The values that `k` fault-free `Next` calls return, in order, starting from `entries`. */
  function NextValues(entries: map<Key, seq<byte>>, name: Key, k: nat): (vs: seq<uint64>)
    ensures |vs| == k
    decreases k
  {
    if k == 0 then []
    else
      var v := Successor(entries, name);
      [v] + NextValues(entries[name := Encode(v)], name, k - 1)
  }

  /** No repeats and no gaps: the j-th of a run of `Next` calls returns the first value plus j
      (wrapping at 2^64), so the values strictly increase as long as they stay below 2^64. */
  lemma {:induction false} NextValuesConsecutive(entries: map<Key, seq<byte>>, name: Key, k: nat, j: nat)
    requires j < k
    ensures NextValues(entries, name, k)[j] == (Successor(entries, name) + j) % TWO_TO_THE_64
    decreases k
  {
    if j > 0 {
      var v := Successor(entries, name);
      var next := entries[name := Encode(v)];
      NextAfterNext(entries, name);
      NextValuesConsecutive(next, name, k - 1, j - 1);
      assert NextValues(entries, name, k)[j] == NextValues(next, name, k - 1)[j - 1];
      WrapAdd(v, j);
    }
  }

  /** Adding one and then j - 1 more, each wrapping at 2^64, is adding j and wrapping once. */
  lemma WrapAdd(v: uint64, j: nat)
    requires j > 0
    ensures ((v + 1) % TWO_TO_THE_64 + (j - 1)) % TWO_TO_THE_64 == (v + j) % TWO_TO_THE_64
  {
  }

  /** A counter kept in `ds` under the key `name`. */
  class StoredCounter {
    const ds: Datastore
    const name: Key

    /** `New(ds, name)`: a counter over an existing datastore and key. */
    constructor New(ds: Datastore, name: Key)
      ensures this.ds == ds && this.name == name
    {
      this.ds := ds;
      this.name := name;
    }

    /** Hands out the next sector number and persists it: 0 when nothing is stored yet, the
        stored value plus one otherwise. A failed read returns 0 and the error and writes
        nothing; the value is returned together with the error of the final `Put`. No other key
        of the datastore changes. */
    method Next(faults: Faults) returns (next: uint64, err: Option<CounterError>)
      modifies ds
      ensures !ReadsSucceed(old(ds.entries), name, faults) ==>
                && next == 0
                && err == ReadError(old(ds.entries), name, faults) && err.Some?
                && ds.entries == old(ds.entries)
      ensures ReadsSucceed(old(ds.entries), name, faults) ==>
                && next == Successor(old(ds.entries), name)
                && err == AsCounterError(AsStoreError(faults.put))
                && ds.entries == if faults.put.None? then old(ds.entries)[name := Encode(next)]
                                 else old(ds.entries)
      ensures err.None? ==> Current(ds.entries, name) == next && WellFormed(ds.entries, name)
      ensures old(WellFormed(ds.entries, name)) ==> WellFormed(ds.entries, name)
    {
      var has, hasErr := ds.Has(name, faults.has);
      if hasErr.Some? {
        return 0, AsCounterError(hasErr);
      }
      next := 0;
      if has {
        var curBytes, getErr := ds.Get(name, faults.get);
        if getErr.Some? {
          return 0, AsCounterError(getErr);
        }
        var (cur, _) := Uvarint(curBytes);
        next := (cur + 1) % TWO_TO_THE_64;
      }
      var buf := new byte[MaxVarintLen64];
      EncodeLength(next);
      var size := PutUvarint(buf, next);
      var putErr := ds.Put(name, buf[..size], faults.put);
      err := AsCounterError(putErr);
      CurrentAfterWrite(old(ds.entries), name, next);
    }

    /** The current value, without writing: 0 when nothing is stored, otherwise the decoded
        stored value; 0 and the error when a read fails. */
    method Get(faults: Faults) returns (cur: uint64, err: Option<CounterError>)
      ensures !ReadsSucceed(ds.entries, name, faults) ==>
                cur == 0 && err == ReadError(ds.entries, name, faults) && err.Some?
      ensures ReadsSucceed(ds.entries, name, faults) ==> cur == Current(ds.entries, name) && err == None
    {
      var has, hasErr := ds.Has(name, faults.has);
      if hasErr.Some? {
        return 0, AsCounterError(hasErr);
      }
      if !has {
        return 0, None;
      }
      var curBytes, getErr := ds.Get(name, faults.get);
      if getErr.Some? {
        return 0, AsCounterError(getErr);
      }
      var (v, _) := Uvarint(curBytes);
      return v, None;
    }

    /** Fast-forwards the counter to `sectorNum`: refused with `InvalidDecrease`, store
        unchanged, when a stored value is greater; otherwise `sectorNum` is written (equal is
        allowed). A failed read returns its error and writes nothing. */
    method Set(sectorNum: uint64, faults: Faults) returns (err: Option<CounterError>)
      modifies ds
      ensures !ReadsSucceed(old(ds.entries), name, faults) ==>
                err == ReadError(old(ds.entries), name, faults) && err.Some? && ds.entries == old(ds.entries)
      ensures ReadsSucceed(old(ds.entries), name, faults) && name in old(ds.entries)
              && Current(old(ds.entries), name) > sectorNum ==>
                && err == Some(InvalidDecrease(sectorNum, Current(old(ds.entries), name)))
                && ds.entries == old(ds.entries)
      ensures ReadsSucceed(old(ds.entries), name, faults)
              && (name in old(ds.entries) ==> Current(old(ds.entries), name) <= sectorNum) ==>
                && err == AsCounterError(AsStoreError(faults.put))
                && ds.entries == if faults.put.None? then old(ds.entries)[name := Encode(sectorNum)]
                                 else old(ds.entries)
      ensures err.None? ==> Current(ds.entries, name) == sectorNum && WellFormed(ds.entries, name)
      ensures Current(old(ds.entries), name) <= Current(ds.entries, name)
      ensures old(WellFormed(ds.entries, name)) ==> WellFormed(ds.entries, name)
    {
      var has, hasErr := ds.Has(name, faults.has);
      if hasErr.Some? {
        return AsCounterError(hasErr);
      }
      if has {
        var curBytes, getErr := ds.Get(name, faults.get);
        if getErr.Some? {
          return AsCounterError(getErr);
        }
        var (cur, _) := Uvarint(curBytes);
        if cur > sectorNum {
          return Some(InvalidDecrease(sectorNum, cur));
        }
      }
      var buf := new byte[MaxVarintLen64];
      EncodeLength(sectorNum);
      var size := PutUvarint(buf, sectorNum);
      var putErr := ds.Put(name, buf[..size], faults.put);
      err := AsCounterError(putErr);
      CurrentAfterWrite(old(ds.entries), name, sectorNum);
    }
  }

  /** The counter's life from an empty store: `Next` gives 0, then 1; `Set(5)` succeeds; `Set(3)`
      is refused and the value stays 5; `Next` then gives 6. */
  method EmptyStoreScenario(name: Key) returns (first: uint64, second: uint64, setFive: Option<CounterError>,
                                                setThree: Option<CounterError>, afterSet: uint64)
    ensures first == 0 && second == 1
    ensures setFive == None && setThree == Some(InvalidDecrease(3, 5))
    ensures afterSet == 6
  {
    var ds := new Datastore(map[]);
    var sc := new StoredCounter.New(ds, name);
    var err;
    first, err := sc.Next(NoFaults);
    second, err := sc.Next(NoFaults);
    setFive := sc.Set(5, NoFaults);
    setThree := sc.Set(3, NoFaults);
    afterSet, err := sc.Next(NoFaults);
  }
}
