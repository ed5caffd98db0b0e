/**
 The log buffer under concurrency.  A call of buffer draws its sequence number before it takes the lock, and
 appends after; DrainEntries runs under the lock.  Any number of goroutines interleave.
 */
module Logger {

  /** A log line: its sequence number, and the goroutine that wrote it. */
  datatype Entry = Entry(num: nat, author: nat)

  const MAX_ENTRIES := 1000

  /** The critical section of buffer: at most MAX_ENTRIES lines, the oldest goes first. */
  function Append(entries: seq<Entry>, e: Entry): seq<Entry> {
    (if |entries| >= MAX_ENTRIES then entries[1..] else entries) + [e]
  }

  /** How many lines DrainEntries(max) returns. */
  function DrainCount(buffered: nat, max: int): nat {
    if max <= 0 || buffered <= max then buffered else max
  }

  /** An entry that left the buffer, drained or dropped from its head. */
  datatype Exit = Exit(entry: Entry, drained: bool)

  /** pending maps a goroutine between its two steps to the number it drew; left lists departures in order. */
  datatype State = State(sequence: nat, pending: map<nat, nat>, entries: seq<Entry>, left: seq<Exit>)

  datatype Event = Draw(g: nat) | Enter(g: nat) | Drain(max: int)

  function Leave(entries: seq<Entry>, drained: bool): seq<Exit> {
    seq(|entries|, i requires 0 <= i < |entries| => Exit(entries[i], drained))
  }

  function Next(s: State, ev: Event): State {
    match ev
    case Draw(g) =>
      if g in s.pending then s
      else s.(sequence := s.sequence + 1, pending := s.pending[g := s.sequence + 1])
    case Enter(g) =>
      if g !in s.pending then s
      else
        var dropped := if |s.entries| >= MAX_ENTRIES then s.entries[..1] else [];
        State(s.sequence, s.pending - {g}, Append(s.entries, Entry(s.pending[g], g)), s.left + Leave(dropped, false))
    case Drain(max) =>
      var n := DrainCount(|s.entries|, max);
      s.(entries := s.entries[n..], left := s.left + Leave(s.entries[..n], true))
  }

  function Exec(events: seq<Event>): State {
    if events == [] then State(0, map[], [], []) else Next(Exec(events[..|events| - 1]), events[|events| - 1])
  }

  /** Everything that ever entered the buffer, in order: what left it, then what is in it. */
  function Trail(s: State): seq<Entry> {
    seq(|s.left|, i requires 0 <= i < |s.left| => s.left[i].entry) + s.entries
  }

  /** Only Enter extends the trail; leaving the buffer does not reorder it. */
  lemma TrailGrows(s: State, ev: Event)
    ensures Trail(Next(s, ev)) == Trail(s) +
      if ev.Enter? && ev.g in s.pending then [Entry(s.pending[ev.g], ev.g)] else []
  {
    var s' := Next(s, ev);
    if ev.Drain? {
      var n := DrainCount(|s.entries|, ev.max);
      assert s.entries == s.entries[..n] + s.entries[n..];
    }
  }

  /** Numbers drawn so far: those that entered the buffer and those still pending are distinct and below sequence. */
  ghost predicate Distinct(t: seq<Entry>, pending: map<nat, nat>, sequence: nat) {
    && (forall i | 0 <= i < |t| :: 1 <= t[i].num <= sequence)
    && (forall g | g in pending :: 1 <= pending[g] <= sequence)
    && (forall i, j | 0 <= i < j < |t| :: t[i].num != t[j].num)
    && (forall i, g | 0 <= i < |t| && g in pending :: t[i].num != pending[g])
    && (forall g, h | g in pending && h in pending && g != h :: pending[g] != pending[h])
    && |t| + |pending| == sequence
  }

  /** A goroutine's own numbers enter in increasing order, and the one it holds is its largest. */
  ghost predicate InAuthorOrder(t: seq<Entry>, pending: map<nat, nat>) {
    && (forall i, j | 0 <= i < j < |t| && t[i].author == t[j].author :: t[i].num < t[j].num)
    && (forall i | 0 <= i < |t| && t[i].author in pending :: t[i].num < pending[t[i].author])
  }

  ghost predicate Inv(s: State) {
    |s.entries| <= MAX_ENTRIES && Distinct(Trail(s), s.pending, s.sequence) && InAuthorOrder(Trail(s), s.pending)
  }

  lemma OneLessPending(pending: map<nat, nat>, g: nat)
    requires g in pending
    ensures |pending - {g}| == |pending| - 1
  {
    assert (pending - {g}).Keys == pending.Keys - {g};
  }

  lemma EnterKeepsDistinct(t: seq<Entry>, pending: map<nat, nat>, sequence: nat, g: nat)
    requires Distinct(t, pending, sequence) && g in pending
    ensures Distinct(t + [Entry(pending[g], g)], pending - {g}, sequence)
  {
    OneLessPending(pending, g);
  }

  lemma EnterKeepsAuthorOrder(t: seq<Entry>, pending: map<nat, nat>, g: nat)
    requires InAuthorOrder(t, pending) && g in pending
    ensures InAuthorOrder(t + [Entry(pending[g], g)], pending - {g})
  {
    var t' := t + [Entry(pending[g], g)];
    forall i, j | 0 <= i < j < |t'| && t'[i].author == t'[j].author ensures t'[i].num < t'[j].num {
      assert t'[i] == t[i];
    }
    assert forall i | 0 <= i < |t| :: t'[i] == t[i];
  }

  lemma DrawKeepsBoth(t: seq<Entry>, pending: map<nat, nat>, sequence: nat, g: nat)
    requires Distinct(t, pending, sequence) && InAuthorOrder(t, pending) && g !in pending
    ensures Distinct(t, pending[g := sequence + 1], sequence + 1) && InAuthorOrder(t, pending[g := sequence + 1])
  {
    assert pending[g := sequence + 1].Keys == pending.Keys + {g};
  }

  lemma EnterKeepsInv(s: State, g: nat)
    requires Inv(s) && g in s.pending
    ensures Inv(Next(s, Enter(g)))
  {
    TrailGrows(s, Enter(g));
    EnterKeepsDistinct(Trail(s), s.pending, s.sequence, g);
    EnterKeepsAuthorOrder(Trail(s), s.pending, g);
  }

  lemma DrawLeavesTheTrail(s: State, g: nat)
    requires g !in s.pending
    ensures Trail(Next(s, Draw(g))) == Trail(s)
  {
  }

  lemma DrawKeepsInv(s: State, g: nat)
    requires Inv(s) && g !in s.pending
    ensures Inv(Next(s, Draw(g)))
  {
    var t := Trail(s);
    DrawLeavesTheTrail(s, g);
    DrawKeepsBoth(t, s.pending, s.sequence, g);
    assert Inv(Next(s, Draw(g))) by {
      assert Next(s, Draw(g)).pending == s.pending[g := s.sequence + 1];
    }
  }

  lemma NextKeepsInv(s: State, ev: Event)
    requires Inv(s)
    ensures Inv(Next(s, ev))
  {
    match ev
    case Draw(g) => if g !in s.pending { DrawKeepsInv(s, g); }
    case Enter(g) => if g in s.pending { EnterKeepsInv(s, g); }
    case Drain(max) =>
      TrailGrows(s, ev);
      assert Trail(Next(s, ev)) == Trail(s);
  }

  lemma {:induction false} ReachableInv(events: seq<Event>)
    ensures Inv(Exec(events))
  {
    if events != [] {
      ReachableInv(events[..|events| - 1]);
      NextKeepsInv(Exec(events[..|events| - 1]), events[|events| - 1]);
    }
  }

  // ----- What it means -----

  function Drained(s: State): set<nat> { set i | 0 <= i < |s.left| && s.left[i].drained :: s.left[i].entry.num }
  function Dropped(s: State): set<nat> { set i | 0 <= i < |s.left| && !s.left[i].drained :: s.left[i].entry.num }
  function Buffered(s: State): set<nat> { set i | 0 <= i < |s.entries| :: s.entries[i].num }

  function UpTo(n: nat): (s: set<nat>)
    ensures forall i :: i in s <==> 1 <= i <= n
    ensures |s| == n
  {
    if n == 0 then {} else UpTo(n - 1) + {n}
  }

  function Numbers(t: seq<Entry>): set<nat> { set i | 0 <= i < |t| :: t[i].num }

  /** Distinct numbers are as many as the entries that carry them. */
  lemma {:induction false} NumbersOfTrail(t: seq<Entry>)
    requires forall i, j | 0 <= i < j < |t| :: t[i].num != t[j].num
    ensures |Numbers(t)| == |t|
  {
    if t != [] {
      var n := |t| - 1;
      NumbersOfTrail(t[..n]);
      assert Numbers(t) == Numbers(t[..n]) + {t[n].num};
      assert t[n].num !in Numbers(t[..n]);
    }
  }

  function Values(p: map<nat, nat>): set<nat> { set g | g in p :: p[g] }

  lemma {:induction false} NumbersOfPending(p: map<nat, nat>)
    requires forall g, h | g in p && h in p && g != h :: p[g] != p[h]
    ensures |Values(p)| == |p|
  {
    if p == map[] {
      assert Values(p) == {};
    } else {
      var k :| k in p;
      var q := p - {k};
      NumbersOfPending(q);
      assert p.Keys == q.Keys + {k};
      assert Values(p) == Values(q) + {p[k]};
      assert p[k] !in Values(q);
      assert |p| == |q| + 1;
    }
  }

  lemma SubsetOfSameSize(a: set<nat>, b: set<nat>)
    requires a <= b && |a| == |b|
    ensures a == b
  {
    if a != b {
      var x :| x in b && x !in a;
      SubsetSize(a, b - {x});
    }
  }

  lemma {:induction false} SubsetSize(a: set<nat>, b: set<nat>)
    requires a <= b
    ensures |a| <= |b|
  {
    if a != {} {
      var x :| x in a;
      SubsetSize(a - {x}, b - {x});
    }
  }

  /**
   No line is lost silently or twice.  In every interleaving, the numbers drained, dropped, buffered and
   pending are disjoint, and together they are exactly 1 to sequence; and the buffer stays bounded.
   */
  lemma EveryNumberInOnePlace(events: seq<Event>)
    ensures var s := Exec(events);
      && Drained(s) !! Dropped(s) !! Buffered(s) !! Values(s.pending)
      && Drained(s) + Dropped(s) + Buffered(s) + Values(s.pending) == UpTo(s.sequence)
      && |s.entries| <= MAX_ENTRIES
  {
    ReachableInv(events);
    InvGivesPlaces(Exec(events));
  }

  lemma InvGivesPlaces(s: State)
    requires Inv(s)
    ensures Drained(s) !! Dropped(s) !! Buffered(s) !! Values(s.pending)
    ensures Drained(s) + Dropped(s) + Buffered(s) + Values(s.pending) == UpTo(s.sequence)
  {
    var entered, held := Numbers(Trail(s)), Values(s.pending);
    PlacesAreDisjoint(s);
    PlacesCover(s);
    assert entered !! held && entered <= UpTo(s.sequence) && held <= UpTo(s.sequence);
    NumbersOfTrail(Trail(s));
    NumbersOfPending(s.pending);
    assert |entered + held| == s.sequence;
    SubsetOfSameSize(entered + held, UpTo(s.sequence));
  }

  lemma PlacesAreDisjoint(s: State)
    requires Distinct(Trail(s), s.pending, s.sequence)
    ensures Drained(s) * Dropped(s) == {}
    ensures (Drained(s) + Dropped(s)) * Buffered(s) == {}
  {
    var t, k := Trail(s), |s.left|;
    forall n | n in Drained(s) ensures n !in Dropped(s) {
      var i :| 0 <= i < k && s.left[i].drained && s.left[i].entry.num == n;
      forall j | 0 <= j < k && s.left[j].entry.num == n ensures j == i {
        assert t[i].num == t[j].num;
      }
    }
    forall n | n in Buffered(s) ensures n !in Drained(s) + Dropped(s) {
      var j :| 0 <= j < |s.entries| && s.entries[j].num == n;
      forall i | 0 <= i < k ensures s.left[i].entry.num != n {
        assert t[i].num != t[k + j].num;
      }
    }
  }

  lemma PlacesCover(s: State)
    ensures Numbers(Trail(s)) == Drained(s) + Dropped(s) + Buffered(s)
  {
    var t, k := Trail(s), |s.left|;
    forall n | n in Numbers(t) ensures n in Drained(s) + Dropped(s) + Buffered(s) {
      var i :| 0 <= i < |t| && t[i].num == n;
      if i >= k {
        assert s.entries[i - k].num == n;
      } else {
        assert s.left[i].entry.num == n;
      }
    }
    forall n | n in Buffered(s) ensures n in Numbers(t) {
      var i :| 0 <= i < |s.entries| && s.entries[i].num == n;
      assert t[k + i].num == n;
    }
    forall n | n in Drained(s) + Dropped(s) ensures n in Numbers(t) {
      var i :| 0 <= i < k && s.left[i].entry.num == n;
      assert t[i].num == n;
    }
  }

  /** Each goroutine's lines leave the buffer in the order it wrote them, although lines of different goroutines may not. */
  lemma OwnLinesLeaveInOrder(events: seq<Event>, i: nat, j: nat)
    requires i < j < |Exec(events).left|
    requires Exec(events).left[i].entry.author == Exec(events).left[j].entry.author
    ensures Exec(events).left[i].entry.num < Exec(events).left[j].entry.num
  {
    ReachableInv(events);
    var s := Exec(events);
    assert Trail(s)[i] == s.left[i].entry && Trail(s)[j] == s.left[j].entry;
  }

  /** A drain takes the oldest lines, all of them or as many as asked for, and marks them drained. */
  lemma DrainTakesTheOldest(s: State, max: int)
    ensures var s' := Next(s, Drain(max));
      && |s.entries| - |s'.entries| == (if 0 < max < |s.entries| then max else |s.entries|)
      && s'.entries == s.entries[|s.entries| - |s'.entries|..]
      && |s'.left| == |s.left| + (|s.entries| - |s'.entries|)
      && forall i | |s.left| <= i < |s'.left| :: s'.left[i] == Exit(s.entries[i - |s.left|], true)
  {
  }

  /** A line goes to the end of the buffer; only when 1000 lines are there already is one dropped, the oldest. */
  lemma DropsOnlyWhenFull(s: State, g: nat)
    requires g in s.pending
    ensures var s' := Next(s, Enter(g));
      && s'.entries != [] && s'.entries[|s'.entries| - 1] == Entry(s.pending[g], g)
      && (|s.entries| < 1000 ==> |s'.entries| == |s.entries| + 1 && s'.left == s.left)
      && (|s.entries| >= 1000 ==> |s'.entries| == |s.entries| && s'.left == s.left + [Exit(s.entries[0], false)])
  {
    if |s.entries| >= 1000 {
      assert Leave(s.entries[..1], false) == [Exit(s.entries[0], false)];
    }
  }

  // ----- When all lines stand in numeric order -----

  /** The lines stand in numeric order, and every number still pending is larger. */
  ghost predicate Ordered(t: seq<Entry>, pending: map<nat, nat>) {
    && (forall i, j | 0 <= i < j < |t| :: t[i].num < t[j].num)
    && (forall i, g | 0 <= i < |t| && g in pending :: t[i].num < pending[g])
  }

  /** g holds the smallest number that is pending. */
  predicate IsNext(pending: map<nat, nat>, g: nat)
    requires g in pending
  {
    forall h | h in pending && h != g :: pending[g] < pending[h]
  }

  /** Whoever entered the buffer held the smallest number pending at that moment. */
  predicate Orderly(events: seq<Event>) {
    if events == [] then true
    else
      var init, ev := events[..|events| - 1], events[|events| - 1];
      Orderly(init) && (ev.Enter? && ev.g in Exec(init).pending ==> IsNext(Exec(init).pending, ev.g))
  }

  lemma EnterOrders(t: seq<Entry>, pending: map<nat, nat>, g: nat)
    requires g in pending
    ensures Ordered(t + [Entry(pending[g], g)], pending - {g}) <==> Ordered(t, pending) && IsNext(pending, g)
  {
    var t', pending' := t + [Entry(pending[g], g)], pending - {g};
    assert forall i | 0 <= i < |t| :: t'[i] == t[i];
    if Ordered(t', pending') {
      forall h | h in pending && h != g ensures pending[g] < pending[h] {
        assert h in pending' && t'[|t|].num < pending'[h];
      }
      forall i, h | 0 <= i < |t| && h in pending ensures t[i].num < pending[h] {
        assert h == g || h in pending';
        assert t'[i].num < t'[|t|].num;
      }
    }
  }

  lemma DrawOrders(t: seq<Entry>, pending: map<nat, nat>, sequence: nat, g: nat)
    requires Distinct(t, pending, sequence) && g !in pending
    ensures Ordered(t, pending[g := sequence + 1]) <==> Ordered(t, pending)
  {
    var pending' := pending[g := sequence + 1];
    if Ordered(t, pending') {
      forall i, h | 0 <= i < |t| && h in pending ensures t[i].num < pending[h] {
        assert h in pending' && pending'[h] == pending[h];
      }
    }
  }

  /** Lines are in numeric order, and stay below all pending numbers, exactly after the orderly runs. */
  lemma {:induction false} OrderedExactly(events: seq<Event>)
    ensures Ordered(Trail(Exec(events)), Exec(events).pending) <==> Orderly(events)
  {
    if events != [] {
      var init, ev := events[..|events| - 1], events[|events| - 1];
      var s := Exec(init);
      OrderedExactly(init);
      TrailGrows(s, ev);
      if ev.Enter? && ev.g in s.pending {
        EnterOrders(Trail(s), s.pending, ev.g);
      } else {
        assert Trail(Next(s, ev)) == Trail(s) + [] == Trail(s);
        if ev.Draw? && ev.g !in s.pending {
          ReachableInv(init);
          DrawOrders(Trail(s), s.pending, s.sequence, ev.g);
        }
      }
    }
  }

  /** Once nothing is pending, the lines of all goroutines together are in numeric order exactly if the run was orderly. */
  lemma AllLinesInOrderExactly(events: seq<Event>)
    requires Exec(events).pending == map[]
    ensures (forall i, j | 0 <= i < j < |Trail(Exec(events))| :: Trail(Exec(events))[i].num < Trail(Exec(events))[j].num)
       <==> Orderly(events)
  {
    OrderedExactly(events);
  }

  /** A run that is not: goroutine 2 overtakes goroutine 1 between the two steps. */
  lemma StrangersMayOvertake()
    ensures Exec([Draw(1), Draw(2), Enter(2), Enter(1)]).entries == [Entry(2, 2), Entry(1, 1)]
  {
    var es := [Draw(1), Draw(2), Enter(2), Enter(1)];
    assert es[..3] == [Draw(1), Draw(2), Enter(2)] && es[..3][..2] == [Draw(1), Draw(2)];
    assert es[..3][..2][..1] == [Draw(1)] && es[..3][..2][..1][..0] == [];
    assert Exec(es[..3][..2][..1][..0]) == State(0, map[], [], []);
    assert Exec(es[..3][..2][..1]) == State(1, map[1 := 1], [], []);
    assert Exec(es[..3][..2]) == State(2, map[1 := 1, 2 := 2], [], []);
    assert Leave([], false) == [];
    assert Exec(es[..3]) == State(2, map[1 := 1], [Entry(2, 2)], []);
  }
}
