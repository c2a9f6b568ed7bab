/**
  The array-backed containers of `util/sync.go`. `SyncSlice` and `CallbackRegistry` are the same
  code over a Go slice: a backing array, of which the first `len` elements are in use. Appending
  reuses spare capacity, removing shifts in place, clearing keeps the array; so what matters beside
  the contents is that no snapshot ever shares the backing array.
 */
module Slices {
  import opened Wrappers

  /** `append(s[:i], s[i+1:]...)` as a value */
  function RemoveAt<T>(s: seq<T>, index: int): seq<T> {
    if 0 <= index < |s| then s[..index] + s[index + 1..] else s
  }

  /** A valid index: that element goes and no other, the order stays. Any other index: nothing happens. */
  lemma RemovesOne<T>(s: seq<T>, index: int)
    ensures !(0 <= index < |s|) ==> RemoveAt(s, index) == s
    ensures 0 <= index < |s| ==> |RemoveAt(s, index)| == |s| - 1
    ensures 0 <= index < |s| ==>
              forall k :: 0 <= k < |s| - 1 ==> RemoveAt(s, index)[k] == if k < index then s[k] else s[k + 1]
  {
  }

  class SyncSlice<T(0)> {
    var data: array<T>
    var len: nat

    ghost predicate Valid()
      reads this
    {
      len <= data.Length
    }

    ghost function Elements(): seq<T>
      requires Valid()
      reads this, data
    {
      data[..len]
    }

    constructor ()
      ensures Valid() && fresh(data) && Elements() == []
    {
      data := new T[0];
      len := 0;
    }

    method Append(value: T)
      requires Valid()
      modifies this, data
      ensures Valid() && (data == old(data) || fresh(data))
      ensures Elements() == old(Elements()) + [value]
    {
      if len == data.Length {
        var capacity: nat :| capacity > len; // the growth policy of the Go runtime is unspecified
        var bigger := new T[capacity];
        forall i | 0 <= i < len {
          bigger[i] := data[i];
        }
        data := bigger;
      }
      data[len] := value;
      len := len + 1;
    }

    method Get(index: int) returns (r: Option<T>)
      requires Valid()
      ensures r == if 0 <= index < |Elements()| then Some(Elements()[index]) else None
    {
      if index < 0 || index >= len {
        return None;
      }
      r := Some(data[index]);
    }

    /** A copy of the elements; nil when there are none. */
    method GetAll() returns (all: array?<T>)
      requires Valid()
      ensures all == null <==> Elements() == []
      ensures all != null ==> fresh(all) && all[..] == Elements()
    {
      if len == 0 {
        return null;
      }
      all := new T[len];
      forall i | 0 <= i < len {
        all[i] := data[i];
      }
    }

    method Clear()
      requires Valid()
      modifies this`len
      ensures Valid() && Elements() == []
    {
      len := 0;
    }

    /** Shifts the elements behind `index` down by one, in place. */
    method Remove(index: int) returns (removed: bool)
      requires Valid()
      modifies this`len, data
      ensures Valid()
      ensures removed == (0 <= index < |old(Elements())|)
      ensures Elements() == RemoveAt(old(Elements()), index)
    {
      if index < 0 || index >= len {
        return false;
      }
      var i := index;
      while i + 1 < len
        invariant index <= i < len == old(len)
        invariant forall k :: 0 <= k < index || i < k < len ==> data[k] == old(data[k])
        invariant forall k :: index <= k < i ==> data[k] == old(data[k + 1])
      {
        data[i] := data[i + 1];
        i := i + 1;
      }
      len := len - 1;
      removed := true;
      assert Elements() == RemoveAt(old(Elements()), index);
    }
  }

  // ---- Snapshots over whole runs ----

  datatype Operation<T> = Append(value: T) | Remove(index: int) | Clear

  function Apply<T>(s: seq<T>, op: Operation<T>): seq<T> {
    match op
    case Append(value) => s + [value]
    case Remove(index) => RemoveAt(s, index)
    case Clear => []
  }

  /** The contents after the first `n` operations. */
  function Replay<T>(s: seq<T>, ops: seq<Operation<T>>, n: nat): seq<T>
    requires n <= |ops|
    decreases n
  {
    if n == 0 then s else Replay(Apply(s, ops[0]), ops[1..], n - 1)
  }

  /** `snapshot` is what `GetAll` returns for the contents `s`. */
  ghost predicate Shows<T>(snapshot: array?<T>, s: seq<T>)
    reads snapshot
  {
    if s == [] then snapshot == null else snapshot != null && snapshot[..] == s
  }

  /** A snapshot, then one operation. */
  method Observe<T(0)>(s: SyncSlice<T>, op: Operation<T>) returns (snapshot: array?<T>)
    requires s.Valid()
    modifies s, s.data
    ensures s.Valid() && (s.data == old(s.data) || fresh(s.data))
    ensures s.Elements() == Apply(old(s.Elements()), op)
    ensures Shows(snapshot, old(s.Elements()))
    ensures snapshot != null ==> fresh(snapshot) && snapshot != s.data
  {
    snapshot := s.GetAll();
    match op
    case Append(value) => s.Append(value);
    case Remove(index) => var _ := s.Remove(index);
    case Clear => s.Clear();
  }

  /** Any list of operations, with a snapshot taken before each: the buffer always holds what the
      plain sequence would, and at the end every snapshot still holds what it held when taken,
      however often the backing array was shifted, truncated and refilled since. */
  method Run<T(0)>(s: SyncSlice<T>, ops: seq<Operation<T>>) returns (snapshots: seq<array?<T>>)
    requires s.Valid()
    modifies s, s.data
    ensures s.Valid() && (s.data == old(s.data) || fresh(s.data))
    ensures s.Elements() == Replay(old(s.Elements()), ops, |ops|)
    ensures |snapshots| == |ops|
    ensures forall k :: 0 <= k < |ops| ==> Shows(snapshots[k], Replay(old(s.Elements()), ops, k))
    decreases |ops|
  {
    if ops == [] {
      return [];
    }
    var first := Observe(s, ops[0]);
    var rest := Run(s, ops[1..]);
    snapshots := [first] + rest;
  }
}
