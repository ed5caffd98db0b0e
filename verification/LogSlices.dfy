/**
 The log buffer in memory.  A Go slice is a window on a backing array; append writes into the array while
 there is room beyond the window, and DrainEntries hands out windows on the very array that later appends
 write to.
 */
module LogSlices {
  import opened Wrappers
  import opened Logger

  /** A batch handed out: a window, and (for the proof) what it showed at that moment. */
  datatype Batch = Batch(arr: array<Entry>, off: nat, len: nat, shown: seq<Entry>) {
    /** The window still shows what it showed when it was handed out. */
    ghost predicate Intact()
      reads arr
    {
      off + len <= arr.Length && arr[off..off + len] == shown
    }
  }

  lemma SplitWindow(a: array<Entry>, off: nat, len: nat, n: nat)
    requires off + len <= a.Length && n <= len
    ensures a[off..off + len][..n] == a[off..off + n]
    ensures a[off..off + len][n..] == a[off + n..off + len]
  {
  }

  class LogBuffer {
    var sequence: nat
    var arr: array?<Entry>  // the array behind the slice `entries`; null when the slice is nil
    var off: nat
    var len: nat
    ghost var batches: set<Batch>  // every batch returned so far

    ghost predicate Window()
      reads this
    {
      && (arr == null ==> off == 0 && len == 0)
      && (arr != null ==> off + len <= arr.Length)
      && len <= MAX_ENTRIES
    }

    /** Every batch is intact, and none reaches into the part of its array that appends still write to. */
    ghost predicate Valid()
      reads this, set b | b in batches :: b.arr
    {
      && Window()
      && (forall b | b in batches :: b.Intact())
      && (forall b | b in batches && b.arr == arr :: b.off + b.len <= off)
    }

    ghost function Contents(): seq<Entry>
      requires Window()
      reads this, arr
    {
      if arr == null then [] else arr[off..off + len]
    }

    constructor ()
      ensures Valid() && Contents() == [] && sequence == 0 && batches == {}
    {
      sequence, arr, off, len, batches := 0, null, 0, 0, {};
    }

    /** Go's append of one element; spare is the extra capacity the runtime allots when it has to reallocate. */
    method AppendEntry(e: Entry, spare: nat)
      requires Valid() && len < MAX_ENTRIES
      modifies this`arr, this`off, this`len, if arr == null then {} else {arr}
      ensures Valid()
      ensures Contents() == old(Contents()) + [e]
    {
      if arr != null && off + len < arr.Length {
        arr[off + len] := e;
      } else {
        var grown := new Entry[len + 1 + spare];
        forall i | 0 <= i < len {
          grown[i] := arr[off + i];
        }
        grown[len] := e;
        arr, off := grown, 0;
      }
      len := len + 1;
    }

    /** buffer, for goroutine g.  Whatever was handed out before stays as it was. */
    method Buffer(g: nat, spare: nat)
      requires Valid()
      modifies this, if arr == null then {} else {arr}
      ensures Valid() && batches == old(batches)
      ensures forall b | b in batches :: b.Intact()
      ensures sequence == old(sequence) + 1
      ensures Contents() == Append(old(Contents()), Entry(old(sequence) + 1, g))
    {
      sequence := sequence + 1;
      MakeSpace();
      AppendEntry(Entry(sequence, g), spare);
    }

    /** entries[1:] when the buffer is full. */
    method MakeSpace()
      requires Valid()
      modifies this`off, this`len
      ensures Valid() && len < MAX_ENTRIES
      ensures Contents() == if |old(Contents())| >= MAX_ENTRIES then old(Contents())[1..] else old(Contents())
    {
      if len >= MAX_ENTRIES {
        off, len := off + 1, len - 1;
      }
    }

    /** out := entries; entries = nil */
    method DrainAll() returns (out: Batch)
      requires Valid() && arr != null
      modifies this`arr, this`off, this`len, this`batches
      ensures Valid() && batches == old(batches) + {out}
      ensures out.arr == old(arr) && out.len == old(len) && out.shown == old(Contents()) && Contents() == []
    {
      out := Batch(arr, off, len, arr[off..off + len]);
      batches := batches + {out};
      arr, off, len := null, 0, 0;
    }

    /** out := entries[:max]; entries = entries[max:] */
    method DrainSome(max: nat) returns (out: Batch)
      requires Valid() && arr != null && max <= len
      modifies this`off, this`len, this`batches
      ensures Valid() && batches == old(batches) + {out}
      ensures out.arr == arr && out.len == max && out.shown == old(Contents())[..max] && Contents() == old(Contents())[max..]
    {
      SplitWindow(arr, off, len, max);
      out := Batch(arr, off, max, arr[off..off + max]);
      batches := batches + {out};
      off, len := off + max, len - max;
    }

    /**
     DrainEntries; None for a nil slice.  The batch is a window on the buffer's own array, and stays as it is
     from now on.
     */
    method DrainEntries(max: int) returns (out: Option<Batch>)
      requires Valid()
      modifies this`arr, this`off, this`len, this`batches
      ensures Valid() && batches == old(batches) + if out.Some? then {out.value} else {}
      ensures forall b | b in batches :: b.Intact()
      ensures out.Some? <==> old(arr) != null
      ensures out.Some? ==> out.value.arr == old(arr)
      ensures out.Some? ==> out.value.len == if 0 < max < |old(Contents())| then max else |old(Contents())|
      ensures var n := DrainCount(|old(Contents())|, max);
        && (if out.Some? then out.value.shown else []) == old(Contents())[..n]
        && Contents() == old(Contents())[n..]
    {
      if arr == null {
        return None;
      }
      var b;
      if max <= 0 || len <= max {
        b := DrainAll();
      } else {
        b := DrainSome(max);
      }
      out := Some(b);
    }
  }
}
