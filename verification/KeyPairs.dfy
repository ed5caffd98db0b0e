/**
 What becomes of a matching key pair whatever the node id file says.  With key files the pair survives every
 run; with the Keychain it survives exactly when the directory names a node whose item leaves nothing to make.
 */
module KeyPairs {
  import opened Wrappers
  import opened Strings
  import opened Identity

  /** The slot holds a private key, and it matches the public key file. */
  predicate PairIn(d: Disk, slot: string) {
    && slot in d.privs && d.privs[slot].Encodes?
    && d.pubFile.Some? && d.pubFile.value.Encodes?
    && KeysMatch(d.privs[slot].key, d.pubFile.value.key)
  }

  /** d' still has what d had in the slot and in the public key file. */
  predicate SamePair(d: Disk, d': Disk, slot: string)
    requires slot in d.privs
  {
    slot in d'.privs && d'.privs[slot] == d.privs[slot] && d'.pubFile == d.pubFile
  }

  // ----- Key files -----

  const KEY_FILE := FileStore.Slot("")

  lemma StepKeepsPair(s: State, p: nat, c: Choice)
    requires UpToDate(FileStore, s.disk, s.PcOf(p)) && PairIn(s.disk, KEY_FILE)
    ensures SamePair(s.disk, Step(FileStore, s, p, c).disk, KEY_FILE)
  {
  }

  /** A matching pair of key files is never overwritten, even beside a missing or blank node id. */
  lemma {:induction false} FilePairSurvives(d: Disk, events: seq<Event>, more: seq<Event>)
    requires PairIn(Exec(FileStore, Initial(d), events).disk, KEY_FILE)
    ensures SamePair(Exec(FileStore, Initial(d), events).disk, Exec(FileStore, Initial(d), events + more).disk, KEY_FILE)
  {
    if more == [] {
      assert events + more == events;
    } else {
      var init, e := more[..|more| - 1], more[|more| - 1];
      var s := Exec(FileStore, Initial(d), events + init);
      assert (events + more)[..|events + more| - 1] == events + init;
      FilePairSurvives(d, events, init);
      ReachableInv(FileStore, d, events + init);
      assert UpToDate(FileStore, s.disk, s.PcOf(e.p));
      if e.Run? {
        StepKeepsPair(s, e.p, e.choice);
      }
    }
  }

  // ----- The Keychain -----

  /** The directory names a node and has both its keys: there is nothing to make, even if they cannot be parsed. */
  predicate Settled(ks: KeyStore, d: Disk) {
    d.StoredNodeId().Some? &&
    var id := d.StoredNodeId().value;
    Broken(ks, d, id) || DiskIdentity(ks, d).Some?
  }

  predicate SettledPc(ks: KeyStore, d: Disk, id: string, pc: Pc) {
    match pc
    case HasNodeId(i) => i == id
    case LoadedPriv(i, priv) => i == id && priv == d.StoredPriv(ks.Slot(id))
    case _ => pc.Start? || pc.Locked? || pc.Unlocking? || pc.Done? || pc.Crashed?
  }

  /** No run changes anything in a settled directory. */
  lemma {:induction false} SettledNeverChanges(ks: KeyStore, d: Disk, id: string, events: seq<Event>)
    requires Settled(ks, d) && d.StoredNodeId() == Some(id)
    ensures Exec(ks, Initial(d), events).disk == d
    ensures forall p: nat :: SettledPc(ks, d, id, Exec(ks, Initial(d), events).PcOf(p))
  {
    if events != [] {
      var init, e := events[..|events| - 1], events[|events| - 1];
      SettledNeverChanges(ks, d, id, init);
      var s := Exec(ks, Initial(d), init);
      var s' := Next(ks, s, e);
      assert SettledPc(ks, d, id, s.PcOf(e.p));
      forall p: nat ensures SettledPc(ks, d, id, s'.PcOf(p)) {
        assert SettledPc(ks, d, id, s.PcOf(p));
      }
    }
  }

  /** Every run from this directory leaves the pair alone. */
  ghost predicate PairSurvives(ks: KeyStore, d: Disk, slot: string)
    requires slot in d.privs
  {
    forall events :: SamePair(d, Exec(ks, Initial(d), events).disk, slot)
  }

  /** One call, alone in the critical section. */
  function Alone(d: Disk, pc: Pc): State {
    State(d, Some(0), map[0 := pc])
  }

  lemma Extend(ks: KeyStore, d: Disk, events: seq<Event>, c: Choice, at: State, next: State) returns (events': seq<Event>)
    requires Exec(ks, Initial(d), events) == at && Step(ks, at, 0, c) == next
    ensures Exec(ks, Initial(d), events') == next
  {
    events' := events + [Run(0, c)];
    assert events'[..|events|] == events;
  }

  lemma {:induction false} LongerThanAll(m: set<string>) returns (n: nat)
    ensures forall x | x in m :: |x| < n
  {
    if m == {} {
      n := 0;
    } else {
      var x :| x in m;
      n := LongerThanAll(m - {x});
      n := if |x| < n then n else |x| + 1;
    }
  }

  /** There is always an id without a Keychain item. */
  lemma UnusedId(m: set<string>) returns (u: Uuid)
    ensures u !in m
  {
    var n := LongerThanAll(m);
    var s := seq(n + 1, _ => 'u');
    assert |s| == n + 1 && s[0] == s[n] == 'u';
    u := s;
  }

  /** The first half of a call: it ends up with the stored node id, or with a fresh one. */
  lemma GetsNodeId(ks: KeyStore, d: Disk, c: Choice) returns (events: seq<Event>, d': Disk, id: string)
    requires c.ok
    ensures Exec(ks, Initial(d), events) == Alone(d', HasNodeId(id))
    ensures d'.privs == d.privs && d'.pubFile == d.pubFile
    ensures id == match d.StoredNodeId() case Some(i) => i case None => c.uuid
  {
    assert Exec(ks, Initial(d), []) == Initial(d);
    events := Extend(ks, d, [], c, Initial(d), Alone(d, Locked));
    match d.StoredNodeId() {
      case Some(i) =>
        d', id := d, i;
        events := Extend(ks, d, events, c, Alone(d, Locked), Alone(d, HasNodeId(i)));
      case None =>
        d', id := d.(nodeFile := Some(c.uuid + "\n")), c.uuid;
        events := Extend(ks, d, events, c, Alone(d, Locked), Alone(d, NoNodeId));
        events := Extend(ks, d, events, c, Alone(d, NoNodeId), Alone(d', HasNodeId(id)));
    }
  }

  /** With no matching item under its id, the call decides to make a key. */
  lemma DecidesToMake(d0: Disk, start: seq<Event>, d: Disk, id: string, c: Choice) returns (events: seq<Event>)
    requires Exec(Keychain, Initial(d0), start) == Alone(d, HasNodeId(id)) && c.ok
    requires d.pubFile.Some? && d.pubFile.value.Encodes?
    requires id in d.privs ==> d.privs[id].Encodes? && !KeysMatch(d.privs[id].key, d.pubFile.value.key)
    ensures Exec(Keychain, Initial(d0), events) == Alone(d, Generated(id, c.key))
  {
    var priv := d.StoredPriv(id);
    events := Extend(Keychain, d0, start, c, Alone(d, HasNodeId(id)), Alone(d, LoadedPriv(id, priv)));
    events := Extend(Keychain, d0, events, c, Alone(d, LoadedPriv(id, priv)), Alone(d, MustGenerate(id)));
    events := Extend(Keychain, d0, events, c, Alone(d, MustGenerate(id)), Alone(d, Generated(id, c.key)));
  }

  /** Saving it replaces the public key file. */
  lemma SavesKeys(d0: Disk, start: seq<Event>, d: Disk, id: string, c: Choice) returns (events: seq<Event>)
    requires Exec(Keychain, Initial(d0), start) == Alone(d, Generated(id, c.key)) && c.ok
    ensures Exec(Keychain, Initial(d0), events).disk.pubFile == Some(Encodes(c.key.pub))
  {
    var cleared := d.(privs := d.privs - {id});
    var saved := cleared.(privs := cleared.privs[id := Encodes(c.key)]);
    events := Extend(Keychain, d0, start, c, Alone(d, Generated(id, c.key)), Alone(cleared, SlotCleared(id, c.key)));
    events := Extend(Keychain, d0, events, c, Alone(cleared, SlotCleared(id, c.key)), Alone(saved, PrivSaved(id, c.key)));
    events := Extend(Keychain, d0, events, c, Alone(saved, PrivSaved(id, c.key)),
      Step(Keychain, Alone(saved, PrivSaved(id, c.key)), 0, c));
  }

  /** From a directory that is not settled, one undisturbed call replaces the pair. */
  lemma PairReplaced(d: Disk, slot: string) returns (events: seq<Event>)
    requires PairIn(d, slot) && !Settled(Keychain, d)
    ensures !SamePair(d, Exec(Keychain, Initial(d), events).disk, slot)
  {
    var pub := d.pubFile.value.key;
    var u := UnusedId(d.privs.Keys);
    var c := Choice(true, false, u, PrivateKey(PublicKey(pub.n + 1, pub.e), 0));
    var d', id;
    events, d', id := GetsNodeId(Keychain, d, c);
    events := DecidesToMake(d, events, d', id, c);
    events := SavesKeys(d, events, d', id, c);
  }

  /** A pair whose private key is in the Keychain survives every run exactly from a settled directory. */
  lemma KeychainPairSurvivesExactly(d: Disk, slot: string)
    requires PairIn(d, slot)
    ensures PairSurvives(Keychain, d, slot) <==> Settled(Keychain, d)
  {
    if Settled(Keychain, d) {
      forall events ensures SamePair(d, Exec(Keychain, Initial(d), events).disk, slot) {
        SettledNeverChanges(Keychain, d, d.StoredNodeId().value, events);
      }
    } else {
      var events := PairReplaced(d, slot);
      assert !SamePair(d, Exec(Keychain, Initial(d), events).disk, slot);
    }
  }

  /** For instance: the node id file is missing, and the public key file of the old node is replaced. */
  lemma BlankNodeIdExample(priv: PrivateKey)
    ensures var d := Disk(None, map["old" := Encodes(priv)], Some(Encodes(priv.pub)));
      PairIn(d, "old") && !PairSurvives(Keychain, d, "old")
  {
    var d := Disk(None, map["old" := Encodes(priv)], Some(Encodes(priv.pub)));
    KeychainPairSurvivesExactly(d, "old");
  }
}
