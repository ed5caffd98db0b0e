/** The offline store as the agent runs it: one object over one directory, every method under its lock. */
module Cache {
  import opened CacheSpec

  /** Of the first i entries, those of kind k. */
  function Matching(entries: seq<File>, i: nat, k: Kind): seq<File>
    requires i <= |entries|
  {
    if i == 0 then [] else Matching(entries, i - 1, k) + if entries[i - 1].kind == k then [entries[i - 1]] else []
  }

  /** Of the first i entries, the others. */
  function Others(entries: seq<File>, i: nat, k: Kind): seq<File>
    requires i <= |entries|
  {
    if i == 0 then [] else Others(entries, i - 1, k) + if entries[i - 1].kind == k then [] else [entries[i - 1]]
  }

  lemma {:induction false} OthersDiffer(entries: seq<File>, i: nat, k: Kind)
    requires i <= |entries|
    ensures forall g | g in Others(entries, i, k) :: g.kind != k
  {
    if i > 0 {
      OthersDiffer(entries, i - 1, k);
    }
  }

  /** os.Remove passes over files of other names. */
  lemma {:induction false} RemoveAfter(kept: seq<File>, f: File, rest: seq<File>)
    requires forall g | g in kept :: g.kind != f.kind
    ensures Remove(kept + ([f] + rest), f) == kept + rest
  {
    var files := kept + ([f] + rest);
    if kept == [] {
      assert files == [f] + rest && kept + rest == rest;
      assert files[1..] == rest;
    } else {
      assert files[0] == kept[0];
      assert files[1..] == kept[1..] + ([f] + rest);
      RemoveAfter(kept[1..], f, rest);
      assert kept + rest == [kept[0]] + (kept[1..] + rest);
    }
  }

  /** The directory when popKind has dealt with i entries. */
  function Left(entries: seq<File>, i: nat, k: Kind): seq<File>
    requires i <= |entries|
  {
    Others(entries, i, k) + entries[i..]
  }

  lemma LeftStarts(entries: seq<File>, k: Kind)
    ensures Left(entries, 0, k) == entries
  {
  }

  lemma MatchingStep(entries: seq<File>, i: nat, k: Kind)
    requires i < |entries|
    ensures Matching(entries, i + 1, k) == if entries[i].kind == k then Matching(entries, i, k) + [entries[i]] else Matching(entries, i, k)
  {
  }

  lemma LeftStep(entries: seq<File>, i: nat, k: Kind)
    requires i < |entries|
    ensures Left(entries, i + 1, k) == if entries[i].kind == k then Remove(Left(entries, i, k), entries[i]) else Left(entries, i, k)
  {
    assert entries[i..] == [entries[i]] + entries[i + 1..];
    if entries[i].kind == k {
      OthersDiffer(entries, i, k);
      RemoveAfter(Others(entries, i, k), entries[i], entries[i + 1..]);
    } else {
      Associative(Others(entries, i, k), [entries[i]], entries[i + 1..]);
    }
  }

  lemma TakeStep(entries: seq<File>, i: nat, k: Kind, m: int)
    requires i < |entries| && m > 0
    ensures entries[i..] == [entries[i]] + entries[i + 1..]
    ensures entries[i].kind == k ==>
      Take(entries[i..], k, m) == ([entries[i]] + Take(entries[i + 1..], k, m - 1).0, Take(entries[i + 1..], k, m - 1).1)
    ensures entries[i].kind != k ==>
      Take(entries[i..], k, m) == (Take(entries[i + 1..], k, m).0, [entries[i]] + Take(entries[i + 1..], k, m).1)
  {
    assert entries[i..][1..] == entries[i + 1..];
  }

  /** After i entries of the listing, popKind has taken out and passed over kept. */
  ghost predicate Progress(entries: seq<File>, i: nat, k: Kind, max: int, out: seq<File>, kept: seq<File>)
    requires i <= |entries|
  {
    var ahead := Take(entries[i..], k, max - |out|);
    Take(entries, k, max) == (out + ahead.0, kept + ahead.1)
  }

  lemma ProgressStarts(entries: seq<File>, k: Kind, max: int)
    ensures Progress(entries, 0, k, max, [], [])
  {
    assert entries[0..] == entries;
    var ahead := Take(entries, k, max);
    assert [] + ahead.0 == ahead.0 && [] + ahead.1 == ahead.1;
  }

  lemma ProgressEnds(entries: seq<File>, i: nat, k: Kind, max: int, out: seq<File>, kept: seq<File>)
    requires i <= |entries| && Progress(entries, i, k, max, out, kept)
    requires i == |entries| || |out| >= max
    ensures Take(entries, k, max) == (out, kept + entries[i..])
  {
    assert Take(entries[i..], k, max - |out|) == ([], entries[i..]);
    assert out + [] == out;
  }

  lemma ProgressTaken(entries: seq<File>, i: nat, k: Kind, max: int, out: seq<File>, kept: seq<File>)
    requires i < |entries| && |out| < max && entries[i].kind == k && Progress(entries, i, k, max, out, kept)
    ensures Progress(entries, i + 1, k, max, out + [entries[i]], kept)
  {
    TakeStep(entries, i, k, max - |out|);
    Associative(out, [entries[i]], Take(entries[i + 1..], k, max - |out| - 1).0);
  }

  lemma ProgressPassed(entries: seq<File>, i: nat, k: Kind, max: int, out: seq<File>, kept: seq<File>)
    requires i < |entries| && |out| < max && entries[i].kind != k && Progress(entries, i, k, max, out, kept)
    ensures Progress(entries, i + 1, k, max, out, kept + [entries[i]])
  {
    TakeStep(entries, i, k, max - |out|);
    Associative(kept, [entries[i]], Take(entries[i + 1..], k, max - |out|).1);
  }

  lemma {:induction false} ProgressAt(entries: seq<File>, i: nat, k: Kind, max: int)
    requires i <= |entries| && (i > 0 ==> |Matching(entries, i - 1, k)| < max)
    ensures Progress(entries, i, k, max, Matching(entries, i, k), Others(entries, i, k))
  {
    if i == 0 {
      ProgressStarts(entries, k, max);
    } else {
      var out, kept := Matching(entries, i - 1, k), Others(entries, i - 1, k);
      ProgressAt(entries, i - 1, k, max);
      if entries[i - 1].kind == k {
        ProgressTaken(entries, i - 1, k, max, out, kept);
        assert Others(entries, i, k) == kept + [] == kept;
      } else {
        ProgressPassed(entries, i - 1, k, max, out, kept);
        assert Matching(entries, i, k) == out + [] == out;
      }
    }
  }

  /** Where the loop of popKind stops, it has done what Take says. */
  lemma LoopTakes(entries: seq<File>, i: nat, k: Kind, max: int, out: seq<File>, files: seq<File>)
    requires i <= |entries| && (i > 0 ==> |Matching(entries, i - 1, k)| < max)
    requires i == |entries| || |out| >= max
    requires out == Matching(entries, i, k) && files == Left(entries, i, k)
    ensures Take(entries, k, max) == (out, files)
  {
    ProgressAt(entries, i, k, max);
    ProgressEnds(entries, i, k, max, out, Others(entries, i, k));
  }

  lemma {:induction false} TakeKeepsListed(files: seq<File>, k: Kind, max: int)
    requires Listed(files)
    ensures Listed(Take(files, k, max).1)
    ensures forall g | g in Take(files, k, max).1 :: g in files
  {
    if files != [] && max > 0 {
      var m := if files[0].kind == k then max - 1 else max;
      TakeKeepsListed(files[1..], k, m);
      ghost var rest := Take(files[1..], k, m).1;
      forall g | g in rest ensures NameLess(files[0], g) {
        assert g in files[1..];
      }
      assert forall j | 0 <= j < |rest| :: rest[j] in rest;
    }
  }

  /** What popKind's loop holds after i entries: taken so far, the directory, and the bytes taken. */
  function Popped(entries: seq<File>, i: nat, k: Kind): (seq<File>, seq<File>, int)
    requires i <= |entries|
  {
    if i == 0 then ([], entries, 0)
    else
      var (out, files, spent) := Popped(entries, i - 1, k);
      var f := entries[i - 1];
      if f.kind == k then (out + [f], Remove(files, f), spent + f.size) else (out, files, spent)
  }

  lemma {:induction false} PoppedOut(entries: seq<File>, i: nat, k: Kind)
    requires i <= |entries|
    ensures Popped(entries, i, k).0 == Matching(entries, i, k)
  {
    if i > 0 {
      PoppedOut(entries, i - 1, k);
      MatchingStep(entries, i - 1, k);
    }
  }

  lemma {:induction false} PoppedLeft(entries: seq<File>, i: nat, k: Kind)
    requires i <= |entries|
    ensures Popped(entries, i, k).1 == Left(entries, i, k)
  {
    if i == 0 {
      LeftStarts(entries, k);
    } else {
      PoppedLeft(entries, i - 1, k);
      LeftStep(entries, i - 1, k);
    }
  }

  lemma {:induction false} PoppedSpent(entries: seq<File>, i: nat, k: Kind)
    requires i <= |entries|
    ensures Popped(entries, i, k).2 == Sum(Popped(entries, i, k).0)
  {
    if i > 0 {
      var out := Popped(entries, i - 1, k).0;
      PoppedSpent(entries, i - 1, k);
      if entries[i - 1].kind == k {
        SumConcat(out, [entries[i - 1]]);
      }
    }
  }

  lemma PoppedMeans(entries: seq<File>, i: nat, k: Kind)
    requires i <= |entries|
    ensures Popped(entries, i, k) == (Matching(entries, i, k), Left(entries, i, k), Sum(Matching(entries, i, k)))
  {
    PoppedOut(entries, i, k);
    PoppedLeft(entries, i, k);
    PoppedSpent(entries, i, k);
  }

  /** The loop went on to its last entry because there were fewer than max taken then. */
  lemma RoomBefore(entries: seq<File>, i: nat, k: Kind, max: int)
    requires 0 < i <= |entries|
    requires |Matching(entries, i, k)| < max || (|Matching(entries, i, k)| == max && entries[i - 1].kind == k)
    ensures |Matching(entries, i - 1, k)| < max
  {
    MatchingStep(entries, i - 1, k);
  }

  lemma PoppedTakes(entries: seq<File>, i: nat, k: Kind, max: int, out: seq<File>, files: seq<File>, spent: int)
    requires i <= |entries| && (out, files, spent) == Popped(entries, i, k)
    requires |out| < max || i == 0 || (|out| == max && entries[i - 1].kind == k)
    requires i == |entries| || |out| >= max
    ensures (out, files) == Take(entries, k, max) && spent == Sum(out)
  {
    PoppedMeans(entries, i, k);
    if i > 0 {
      RoomBefore(entries, i, k, max);
    }
    LoopTakes(entries, i, k, max, out, files);
  }

  lemma PopTakes(st: Store, i: nat, k: Kind, max: int, indexOk: bool, after: Store, out: seq<File>)
    requires Listed(st.files) && i <= |st.files|
    requires (out, after.files, st.written - after.written) == Popped(st.files, i, k)
    requires |out| < max || i == 0 || (|out| == max && st.files[i - 1].kind == k)
    requires i == |st.files| || |out| >= max
    requires after.index == if indexOk then after.written else st.index
    ensures (after, out) == Pop(st, k, max, indexOk)
    ensures Listed(after.files)
  {
    PoppedTakes(st.files, i, k, max, out, after.files, st.written - after.written);
    TakeKeepsListed(st.files, k, max);
  }

  lemma {:induction false} WriteKeepsListed(files: seq<File>, f: File)
    requires Listed(files)
    ensures Listed(Write(files, f))
  {
    if files != [] && !NameLess(f, files[0]) && !SameName(f, files[0]) {
      var w := Write(files[1..], f);
      WriteKeepsListed(files[1..], f);
      forall g | g in w ensures NameLess(files[0], g) {
        WriteMembers(files[1..], f, g);
      }
    }
  }

  /** The store once room was made, and whether there is room. */
  function Cleared(st: Store, size: nat, max: int): (Store, bool) {
    var room := MakeRoom(st.files, st.written, size, max);
    (Roomy(st, room), room.fits)
  }

  /** The store without its oldest file. */
  function DroppedOldest(st: Store): Store
    requires st.files != []
  {
    var o := Oldest(st.files);
    st.(files := Without(st.files, o), written := st.written - st.files[o].size)
  }

  lemma RoomStep(files: seq<File>, written: int, size: nat, max: int, o: nat, r: Room, rest: Room)
    requires files != [] && written + size > max && o == Oldest(files)
    requires r == MakeRoom(files, written, size, max)
    requires rest == MakeRoom(Without(files, o), written - files[o].size, size, max)
    ensures r == Room([files[o]] + rest.dropped, rest.kept, rest.fits)
  {
  }

  lemma RoomySum(st: Store, o: nat, r: Room, rest: Room)
    requires o < |st.files| && r == Room([st.files[o]] + rest.dropped, rest.kept, rest.fits)
    ensures Roomy(st, r) == Roomy(Store(Without(st.files, o), st.written - st.files[o].size, st.index), rest)
  {
    ConsFacts(st.files[o], rest.dropped, Logs);
  }

  lemma ClearedStep(st: Store, size: nat, max: int)
    requires st.files != [] && st.written + size > max
    ensures Cleared(st, size, max) == Cleared(DroppedOldest(st), size, max)
  {
    var o := Oldest(st.files);
    var r := MakeRoom(st.files, st.written, size, max);
    var rest := MakeRoom(Without(st.files, o), st.written - st.files[o].size, size, max);
    RoomStep(st.files, st.written, size, max, o, r, rest);
    RoomySum(st, o, r, rest);
  }

  lemma ClearedEnds(st: Store, size: nat, max: int)
    ensures st.written + size <= max ==> Cleared(st, size, max) == (st, true)
    ensures st.written + size > max && st.files == [] ==> Cleared(st, size, max) == (st, false)
  {
  }

  lemma PushIsCleared(st: Store, max: int, e: Entry)
    ensures var (st', fits) := Cleared(st, e.file.size, max); Push(st, max, e) == Place(st', fits, e)
  {
  }

  class Cache {
    const maxBytes: int
    var files: seq<File>  // the directory, in listing order
    var written: int
    var index: int        // index.json; 0 stands for a missing or unreadable one

    function Model(): Store
      reads this
    {
      Store(files, written, index)
    }

    constructor New(files: seq<File>, index: int, maxSizeMB: int)
      ensures Model() == Reopen(Store(files, 0, index))
      ensures maxBytes == (if maxSizeMB <= 0 then 50 else maxSizeMB) * 0x10_0000
    {
      this.files := files;
      this.index := index;
      written := index;
      maxBytes := (if maxSizeMB <= 0 then 50 else maxSizeMB) * 1024 * 1024;
    }

    method DropOldest() returns (dropped: bool)
      modifies this`files, this`written
      ensures dropped == (old(files) != [])
      ensures dropped ==> Model() == DroppedOldest(old(Model()))
      ensures !dropped ==> files == old(files) && written == old(written)
    {
      var entries := files;
      var oldest: int := -1;
      for i := 0 to |entries|
        invariant -1 <= oldest < i
        invariant i > 0 ==> oldest >= 0
        invariant forall j | 0 <= j < i :: entries[oldest].mtime <= entries[j].mtime
        invariant forall j | 0 <= j < oldest :: entries[oldest].mtime < entries[j].mtime
      {
        if oldest == -1 || entries[i].mtime < entries[oldest].mtime {
          oldest := i;
        }
      }
      if oldest == -1 {
        return false;
      }
      assert oldest == Oldest(entries);
      files := Without(entries, oldest);
      written := written - entries[oldest].size;
      return true;
    }

    /** Push's loop: drop the oldest file until size more bytes fit the budget. */
    method MakeRoomFor(size: nat) returns (fits: bool)
      requires Listed(files)
      modifies this`files, this`written
      ensures (Model(), fits) == Cleared(old(Model()), size, maxBytes)
      ensures Listed(files)
    {
      ghost var goal := Cleared(Model(), size, maxBytes);
      while written + size > maxBytes
        invariant Listed(files) && index == old(index)
        invariant Cleared(Model(), size, maxBytes) == goal
        decreases |files|
      {
        ClearedEnds(Model(), size, maxBytes);
        if files != [] {
          OldestListed(files);
          ClearedStep(Model(), size, maxBytes);
        }
        var dropped := DropOldest();
        if !dropped {
          return false;
        }
      }
      ClearedEnds(Model(), size, maxBytes);
      fits := true;
    }

    /** The rest of Push, once room was made or could not be made. */
    method PlaceEntry(e: Entry, fits: bool) returns (r: PushResult)
      requires Listed(files)
      modifies this`files, this`written, this`index
      ensures (Model(), r) == Place(old(Model()), fits, e)
      ensures Listed(files)
    {
      if !fits {
        return Full;
      }
      if !e.writeOk {
        return WriteFailed;
      }
      WriteKeepsListed(files, e.file);
      files := Write(files, e.file);
      written := written + e.file.size;
      if !e.indexOk {
        return IndexFailed;
      }
      index := written;
      return Stored;
    }

    method Push(e: Entry) returns (r: PushResult)
      requires Listed(files)
      modifies this`files, this`written, this`index
      ensures (Model(), r) == CacheSpec.Push(old(Model()), maxBytes, e)
      ensures Listed(files)
    {
      PushIsCleared(Model(), maxBytes, e);
      var fits := MakeRoomFor(e.file.size);
      r := PlaceEntry(e, fits);
    }

    lemma OldestListed(files: seq<File>)
      requires Listed(files)
      ensures files != [] ==> Listed(Without(files, Oldest(files)))
    {
      if files != [] {
        OldestIsFirstByAge(files);
      }
    }

    /** popKind; of the entries it returns, the source hands over the bodies. */
    method PopKind(kind: Kind, max: int, indexOk: bool) returns (out: seq<File>)
      requires Listed(files)
      modifies this`files, this`written, this`index
      ensures (Model(), out) == Pop(old(Model()), kind, max, indexOk)
      ensures Listed(files)
    {
      var entries := files;
      ghost var st := Model();
      out := [];
      var i := 0;
      while i < |entries| && |out| < max
        invariant 0 <= i <= |entries| && index == st.index
        invariant (out, files, st.written - written) == Popped(entries, i, kind)
        invariant |out| < max || i == 0 || (|out| == max && entries[i - 1].kind == kind)
      {
        var f := entries[i];
        if f.kind == kind {
          files := Remove(files, f);
          written := written - f.size;
          out := out + [f];
        }
        i := i + 1;
      }
      if indexOk {
        index := written;
      }
      PopTakes(st, i, kind, max, indexOk, Model(), out);
    }
  }
}
