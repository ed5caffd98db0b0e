/** The fingerprint of an agent list: a canonical form, although the sort that makes it is not stable. */
module Fingerprint {
  import opened Strings

  datatype Agent = Agent(id: string, name: string)

  /** A snapshot entry: the id and name, trimmed. */
  datatype Item = Item(id: string, name: string)

  /** The order of sort.Slice: by id, then by name. */
  predicate Before(a: Item, b: Item) {
    if a.id == b.id then Less(a.name, b.name) else Less(a.id, b.id)
  }

  ghost predicate Sorted(items: seq<Item>) {
    forall i, j | 0 <= i < j < |items| :: !Before(items[j], items[i])
  }

  function Snapshot(agents: seq<Agent>): seq<Item> {
    if agents == [] then []
    else
      var a := agents[|agents| - 1];
      Snapshot(agents[..|agents| - 1]) + if Trim(a.id) == "" then [] else [Item(Trim(a.id), Trim(a.name))]
  }

  lemma BeforeIsTotal(a: Item, b: Item)
    ensures Before(a, b) || a == b || Before(b, a)
    ensures !(Before(a, b) && Before(b, a)) && !Before(a, a)
  {
    LessTrichotomy(a.id, b.id);
    LessTrichotomy(a.name, b.name);
    LessTrichotomy(a.name, a.name);
  }

  lemma BeforeIsTransitive(a: Item, b: Item, c: Item)
    requires Before(a, b) && Before(b, c)
    ensures Before(a, c)
  {
    LessTrichotomy(a.id, b.id);
    LessTrichotomy(b.id, c.id);
    if a.id == b.id && b.id == c.id {
      LessTransitive(a.name, b.name, c.name);
    } else if a.id != b.id && b.id != c.id {
      LessTransitive(a.id, b.id, c.id);
      LessTrichotomy(a.id, c.id);
    }
  }

  lemma NothingBeforeFirst(a: seq<Item>, x: Item)
    requires Sorted(a) && x in a
    ensures !Before(x, a[0])
  {
    BeforeIsTotal(x, x);
  }

  lemma RestOfMultiset(a: seq<Item>)
    requires a != []
    ensures multiset(a[1..]) == multiset(a) - multiset{a[0]}
  {
    assert a == [a[0]] + a[1..];
  }

  /** Sorting has one answer: two sorted arrangements of the same items are equal. */
  lemma {:induction false} SortedIsUnique(a: seq<Item>, b: seq<Item>)
    requires Sorted(a) && Sorted(b) && multiset(a) == multiset(b)
    ensures a == b
  {
    assert |a| == |multiset(a)| == |multiset(b)| == |b|;
    if a != [] {
      assert a[0] == b[0] by {
        assert a[0] in multiset(b) && b[0] in multiset(a);
        NothingBeforeFirst(a, b[0]);
        NothingBeforeFirst(b, a[0]);
        BeforeIsTotal(a[0], b[0]);
      }
      RestOfMultiset(a);
      RestOfMultiset(b);
      SortedIsUnique(a[1..], b[1..]);
      assert a == [a[0]] + a[1..];
    }
  }

  /** sort.Slice: some sorted arrangement of the items. */
  method SortSlice(items: seq<Item>) returns (sorted: seq<Item>)
    ensures Sorted(sorted) && multiset(sorted) == multiset(items)
  {
    sorted := [];
    for n := 0 to |items|
      invariant Sorted(sorted) && multiset(sorted) == multiset(items[..n])
    {
      assert items[..n + 1] == items[..n] + [items[n]];
      sorted := Insert(sorted, items[n]);
    }
    assert items[..|items|] == items;
  }

  method Insert(sorted: seq<Item>, x: Item) returns (r: seq<Item>)
    requires Sorted(sorted)
    ensures Sorted(r) && multiset(r) == multiset(sorted) + multiset{x}
  {
    var i := |sorted|;
    while i > 0 && Before(x, sorted[i - 1])
      invariant 0 <= i <= |sorted|
      invariant forall k | i <= k < |sorted| :: Before(x, sorted[k])
    {
      i := i - 1;
    }
    r := sorted[..i] + [x] + sorted[i..];
    assert sorted == sorted[..i] + sorted[i..];
    InsertKeepsSorted(sorted, x, i);
  }

  lemma InsertKeepsSorted(sorted: seq<Item>, x: Item, i: nat)
    requires Sorted(sorted) && i <= |sorted|
    requires forall k | i <= k < |sorted| :: Before(x, sorted[k])
    requires i > 0 ==> !Before(x, sorted[i - 1])
    ensures Sorted(sorted[..i] + [x] + sorted[i..])
  {
    forall k | 0 <= k < i ensures !Before(x, sorted[k]) {
      if Before(x, sorted[k]) && k < i - 1 {
        BeforeIsTotal(sorted[k], sorted[i - 1]);
        if Before(sorted[k], sorted[i - 1]) {
          BeforeIsTransitive(x, sorted[k], sorted[i - 1]);
        }
      }
    }
    forall k | i <= k < |sorted| ensures !Before(sorted[k], x) {
      BeforeIsTotal(x, sorted[k]);
    }
  }

  // ----- What the snapshot holds, told by the agents -----

  /** The agents with this trimmed id and trimmed name. */
  function Named(agents: seq<Agent>, id: string, name: string): set<nat> {
    set k: nat | k < |agents| && Trim(agents[k].id) == id && Trim(agents[k].name) == name
  }

  /** How many agents an item stands for; none if its id is empty. */
  function Times(agents: seq<Agent>, x: Item): nat {
    if x.id == "" then 0 else |Named(agents, x.id, x.name)|
  }

  ghost predicate HasId(agents: seq<Agent>) {
    exists k :: 0 <= k < |agents| && Trim(agents[k].id) != ""
  }

  /** The two lists have the same non-empty ids with the same names, as often each. */
  ghost predicate SameAgents(a: seq<Agent>, b: seq<Agent>) {
    forall x: Item :: Times(a, x) == Times(b, x)
  }

  /** How often an item is in the snapshot. */
  function Occurs(x: Item, agents: seq<Agent>): nat {
    multiset(Snapshot(agents))[x]
  }

  lemma NamedGrows(agents: seq<Agent>, a: Agent, id: string, name: string)
    ensures |Named(agents + [a], id, name)| ==
      |Named(agents, id, name)| + if Trim(a.id) == id && Trim(a.name) == name then 1 else 0
  {
    var before, after := Named(agents, id, name), Named(agents + [a], id, name);
    if Trim(a.id) == id && Trim(a.name) == name {
      assert after == before + {|agents|};
    } else {
      assert after == before;
    }
  }

  lemma OccursGrows(agents: seq<Agent>, a: Agent, x: Item)
    ensures Occurs(x, agents + [a]) ==
      Occurs(x, agents) + if Trim(a.id) != "" && x == Item(Trim(a.id), Trim(a.name)) then 1 else 0
  {
    assert (agents + [a])[..|agents|] == agents;
  }

  /** An item is in the snapshot exactly as often as there are agents with its id and name. */
  lemma {:induction false} SnapshotCounts(agents: seq<Agent>, x: Item)
    ensures Occurs(x, agents) == Times(agents, x)
  {
    if agents == [] {
      assert Named(agents, x.id, x.name) == {};
    } else {
      var init, a := agents[..|agents| - 1], agents[|agents| - 1];
      SnapshotCounts(init, x);
      NamedGrows(init, a, x.id, x.name);
      OccursGrows(init, a, x);
      assert agents == init + [a];
    }
  }

  lemma CountsOfAgent(agents: seq<Agent>, k: nat)
    requires k < |agents| && Trim(agents[k].id) != ""
    ensures Times(agents, Item(Trim(agents[k].id), Trim(agents[k].name))) > 0
  {
    assert k in Named(agents, Trim(agents[k].id), Trim(agents[k].name));
  }

  lemma CountedHasId(agents: seq<Agent>, x: Item)
    requires Times(agents, x) > 0
    ensures HasId(agents)
  {
    var k :| k in Named(agents, x.id, x.name);
  }

  lemma EmptySnapshot(agents: seq<Agent>)
    ensures Snapshot(agents) == [] <==> !HasId(agents)
  {
    if Snapshot(agents) != [] {
      SnapshotCounts(agents, Snapshot(agents)[0]);
      CountedHasId(agents, Snapshot(agents)[0]);
    } else if HasId(agents) {
      var k :| 0 <= k < |agents| && Trim(agents[k].id) != "";
      CountsOfAgent(agents, k);
      SnapshotCounts(agents, Item(Trim(agents[k].id), Trim(agents[k].name)));
      assert false;
    }
  }

  // ----- The fingerprint -----

  /** A sorted list that holds every item as often as the agents have it. */
  ghost predicate Arranges(sorted: seq<Item>, agents: seq<Agent>) {
    Sorted(sorted) && forall x: Item :: multiset(sorted)[x] == Times(agents, x)
  }

  /** A fingerprint of these agents, from whatever sorted arrangement the sort came up with. */
  ghost predicate IsFingerprint(agents: seq<Agent>, digest: seq<Item> -> string, fp: string) {
    if HasId(agents) then exists sorted :: Arranges(sorted, agents) && fp == digest(sorted) else fp == ""
  }

  lemma SortedSnapshotArranges(sorted: seq<Item>, agents: seq<Agent>)
    requires Sorted(sorted) && multiset(sorted) == multiset(Snapshot(agents))
    ensures Arranges(sorted, agents)
  {
    forall x: Item ensures multiset(sorted)[x] == Times(agents, x) {
      SnapshotCounts(agents, x);
      assert Occurs(x, agents) == multiset(Snapshot(agents))[x];
    }
  }

  /** AgentsFingerprint; digest stands for the SHA-1 of the JSON text. */
  method AgentsFingerprint(agents: seq<Agent>, digest: seq<Item> -> string) returns (fingerprint: string)
    ensures IsFingerprint(agents, digest, fingerprint)
  {
    EmptySnapshot(agents);
    if |agents| == 0 {
      return "";
    }
    var snapshot: seq<Item> := [];
    for i := 0 to |agents|
      invariant snapshot == Snapshot(agents[..i])
    {
      assert agents[..i + 1][..i] == agents[..i];
      var id := Trim(agents[i].id);
      if id == "" {
        continue;
      }
      snapshot := snapshot + [Item(id, Trim(agents[i].name))];
    }
    assert agents[..|agents|] == agents;
    if |snapshot| == 0 {
      return "";
    }
    var sorted := SortSlice(snapshot);
    fingerprint := digest(sorted);
    SortedSnapshotArranges(sorted, agents);
  }

  /**
   The sorted snapshots of two agent lists are equal if and only if the lists have the same trimmed, non-empty
   ids with the same trimmed names, as often each.
   */
  lemma CanonicalForm(a: seq<Agent>, b: seq<Agent>, sortedA: seq<Item>, sortedB: seq<Item>)
    requires Arranges(sortedA, a) && Arranges(sortedB, b)
    ensures sortedA == sortedB <==> SameAgents(a, b)
  {
    if SameAgents(a, b) {
      assert multiset(sortedA) == multiset(sortedB) by {
        forall x: Item ensures multiset(sortedA)[x] == multiset(sortedB)[x] {
          assert Times(a, x) == Times(b, x);
        }
      }
      SortedIsUnique(sortedA, sortedB);
    } else {
      var x :| Times(a, x) != Times(b, x);
      assert multiset(sortedA)[x] != multiset(sortedB)[x];
    }
  }

  lemma SameAgentsHaveIds(a: seq<Agent>, b: seq<Agent>)
    requires SameAgents(a, b) && HasId(a)
    ensures HasId(b)
  {
    var k :| 0 <= k < |a| && Trim(a[k].id) != "";
    CountsOfAgent(a, k);
    CountedHasId(b, Item(Trim(a[k].id), Trim(a[k].name)));
  }

  lemma WithoutIdsTheSame(a: seq<Agent>, b: seq<Agent>)
    requires !HasId(a) && !HasId(b)
    ensures SameAgents(a, b)
  {
    forall x: Item ensures Times(a, x) == Times(b, x) {
      if Times(a, x) > 0 {
        CountedHasId(a, x);
      }
      if Times(b, x) > 0 {
        CountedHasId(b, x);
      }
    }
  }

  /** So fingerprints agree exactly when the agents do, if the digest is injective and never empty. */
  lemma FingerprintsAgree(a: seq<Agent>, b: seq<Agent>, digest: seq<Item> -> string, fpA: string, fpB: string)
    requires IsFingerprint(a, digest, fpA) && IsFingerprint(b, digest, fpB)
    requires forall s :: digest(s) != ""
    requires forall s, t :: digest(s) == digest(t) ==> s == t
    ensures fpA == fpB <==> SameAgents(a, b)
  {
    if SameAgents(a, b) {
      SameFingerprint(a, b, digest, fpA, fpB);
    } else if HasId(a) && HasId(b) {
      var sortedA :| Arranges(sortedA, a) && fpA == digest(sortedA);
      var sortedB :| Arranges(sortedB, b) && fpB == digest(sortedB);
      CanonicalForm(a, b, sortedA, sortedB);
    } else if !HasId(a) && !HasId(b) {
      WithoutIdsTheSame(a, b);
    }
  }

  lemma SameAgentsSymmetric(a: seq<Agent>, b: seq<Agent>)
    requires SameAgents(a, b)
    ensures SameAgents(b, a)
  {
    forall x: Item ensures Times(b, x) == Times(a, x) {
      assert Times(a, x) == Times(b, x);
    }
  }

  /** In one direction any digest will do. */
  lemma SameFingerprint(a: seq<Agent>, b: seq<Agent>, digest: seq<Item> -> string, fpA: string, fpB: string)
    requires IsFingerprint(a, digest, fpA) && IsFingerprint(b, digest, fpB)
    requires SameAgents(a, b)
    ensures fpA == fpB
  {
    if HasId(a) {
      SameAgentsHaveIds(a, b);
      var sortedA :| Arranges(sortedA, a) && fpA == digest(sortedA);
      var sortedB :| Arranges(sortedB, b) && fpB == digest(sortedB);
      CanonicalForm(a, b, sortedA, sortedB);
    } else if HasId(b) {
      SameAgentsSymmetric(a, b);
      SameAgentsHaveIds(b, a);
    }
  }

  // ----- Reordering -----

  lemma {:induction false} SnapshotConcat(a: seq<Agent>, b: seq<Agent>)
    ensures Snapshot(a + b) == Snapshot(a) + Snapshot(b)
  {
    if b == [] {
      assert a + b == a;
    } else {
      var n := |b| - 1;
      assert (a + b)[..|a + b| - 1] == a + b[..n];
      SnapshotConcat(a, b[..n]);
    }
  }

  lemma OccursConcat(x: Item, a: seq<Agent>, b: seq<Agent>)
    ensures Occurs(x, a + b) == Occurs(x, a) + Occurs(x, b)
  {
    SnapshotConcat(a, b);
  }

  lemma OccursBetween(x: Item, p: seq<Agent>, m: seq<Agent>, q: seq<Agent>)
    ensures Occurs(x, p + (m + q)) == Occurs(x, p + q) + Occurs(x, m)
  {
    OccursConcat(x, p, m + q);
    OccursConcat(x, m, q);
    OccursConcat(x, p, q);
  }

  lemma Around(a: seq<Agent>, i: nat)
    requires i < |a|
    ensures a == a[..i] + ([a[i]] + a[i + 1..])
  {
  }

  lemma OneMore(a: seq<Agent>, i: nat, rest: seq<Agent>)
    requires i < |a| && rest == a[..i] + a[i + 1..]
    ensures multiset(a) == multiset(rest) + multiset{a[i]}
  {
    assert a == (a[..i] + [a[i]]) + a[i + 1..];
  }

  lemma OccursWithout(x: Item, a: seq<Agent>, i: nat, rest: seq<Agent>)
    requires i < |a| && rest == a[..i] + a[i + 1..]
    ensures Occurs(x, a) == Occurs(x, rest) + Occurs(x, [a[i]])
  {
    Around(a, i);
    OccursBetween(x, a[..i], [a[i]], a[i + 1..]);
  }

  lemma CancelOne(a: multiset<Agent>, b: multiset<Agent>, x: Agent)
    requires a + multiset{x} == b + multiset{x}
    ensures a == b
  {
    assert a == (a + multiset{x}) - multiset{x};
    assert b == (b + multiset{x}) - multiset{x};
  }

  lemma RestsAgree(a: seq<Agent>, b: seq<Agent>, i: nat, restA: seq<Agent>, restB: seq<Agent>)
    requires multiset(a) == multiset(b) && a != [] && i < |b| && b[i] == a[0]
    requires restA == a[..0] + a[1..] && restB == b[..i] + b[i + 1..]
    ensures multiset(restA) == multiset(restB) && |restA| < |a|
  {
    OneMore(a, 0, restA);
    OneMore(b, i, restB);
    CancelOne(multiset(restA), multiset(restB), a[0]);
  }

  lemma FindsFirst(a: seq<Agent>, b: seq<Agent>) returns (i: nat)
    requires multiset(a) == multiset(b) && a != []
    ensures i < |b| && b[i] == a[0]
  {
    assert a[0] in multiset(b);
    i :| 0 <= i < |b| && b[i] == a[0];
  }

  lemma NothingLeft(b: seq<Agent>)
    requires multiset([]) == multiset(b)
    ensures b == []
  {
    assert |multiset(b)| == 0;
  }

  lemma {:induction false} OccursInPermutation(x: Item, a: seq<Agent>, b: seq<Agent>)
    requires multiset(a) == multiset(b)
    ensures Occurs(x, a) == Occurs(x, b)
    decreases |a|
  {
    if a == [] {
      NothingLeft(b);
    } else {
      var i := FindsFirst(a, b);
      var restA, restB := a[..0] + a[1..], b[..i] + b[i + 1..];
      RestsAgree(a, b, i, restA, restB);
      OccursInPermutation(x, restA, restB);
      OccursWithout(x, a, 0, restA);
      OccursWithout(x, b, i, restB);
    }
  }

  lemma SameAfterReordering(a: seq<Agent>, b: seq<Agent>)
    requires multiset(a) == multiset(b)
    ensures SameAgents(a, b)
  {
    forall x: Item ensures Times(a, x) == Times(b, x) {
      OccursInPermutation(x, a, b);
      SnapshotCounts(a, x);
      SnapshotCounts(b, x);
    }
  }

  /** Reordering the agents leaves the fingerprint alone, whatever the digest. */
  lemma InvariantUnderReordering(a: seq<Agent>, b: seq<Agent>, digest: seq<Item> -> string, fpA: string, fpB: string)
    requires multiset(a) == multiset(b)
    requires IsFingerprint(a, digest, fpA) && IsFingerprint(b, digest, fpB)
    ensures fpA == fpB
  {
    SameAfterReordering(a, b);
    SameFingerprint(a, b, digest, fpA, fpB);
  }
}
