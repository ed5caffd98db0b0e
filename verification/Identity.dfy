/**
 The identity creation protocol.  Any number of calls of LoadOrCreate, from any number of processes, run
 on one directory; each is a sequence of steps, and a call may crash between any two of them.

 Assumed: a file that exists can be read, a file write either lands whole or not at all (it may still
 report an error), flock excludes, and PEM encoding round-trips.
 */
module Identity {
  import opened Wrappers
  import opened Strings

  datatype PublicKey = PublicKey(n: nat, e: nat)
  datatype PrivateKey = PrivateKey(pub: PublicKey, d: nat)

  /** A key file, as the PEM parser sees it. */
  datatype Pem<K> = Malformed | Encodes(key: K)

  /** What a successful call returns. */
  datatype NodeIdentity = NodeIdentity(nodeId: string, priv: PrivateKey, pub: PublicKey)

  /** Where private keys live: one file, or the macOS Keychain with one item per node id. */
  datatype KeyStore = FileStore | Keychain {
    function Slot(nodeId: string): string {
      if this == FileStore then "private.key" else nodeId
    }
  }

  datatype Disk = Disk(nodeFile: Option<string>, privs: map<string, Pem<PrivateKey>>, pubFile: Option<Pem<PublicKey>>) {
    /** The node id a reader finds: the trimmed file content, unless that is empty. */
    function StoredNodeId(): Option<string> {
      if nodeFile.Some? && Trim(nodeFile.value) != "" then Some(Trim(nodeFile.value)) else None
    }

    function StoredPriv(slot: string): Option<Pem<PrivateKey>> {
      if slot in privs then Some(privs[slot]) else None
    }
  }

  /** VerifyKeyPair: the moduli and the exponents agree. */
  predicate KeysMatch(priv: PrivateKey, pub: PublicKey) {
    priv.pub.n == pub.n && priv.pub.e == pub.e
  }

  /** The complete identity that a directory holds, if its three parts are there and match. */
  function DiskIdentity(ks: KeyStore, d: Disk): Option<NodeIdentity> {
    match (d.StoredNodeId(), d.pubFile)
    case (Some(id), Some(Encodes(pub))) =>
      (match d.StoredPriv(ks.Slot(id))
       case Some(Encodes(priv)) => if KeysMatch(priv, pub) then Some(NodeIdentity(id, priv, pub)) else None
       case _ => None)
    case _ => None
  }

  /** Both key files are there, but one cannot be parsed. */
  predicate Broken(ks: KeyStore, d: Disk, nodeId: string) {
    && d.StoredPriv(ks.Slot(nodeId)).Some?
    && d.pubFile.Some?
    && (d.StoredPriv(ks.Slot(nodeId)) == Some(Malformed) || d.pubFile == Some(Malformed))
  }

  /** uuid.New().String(): never empty, no white space. */
  type Uuid = s: string | s != "" && Trimmed(s) witness "u"

  /** Where one call of LoadOrCreate stands, with the locals it still needs. */
  datatype Pc =
    | Start
    | Locked
    | NoNodeId
    | HasNodeId(id: string)
    | LoadedPriv(id: string, priv: Option<Pem<PrivateKey>>)
    | MustGenerate(id: string)
    | Generated(id: string, key: PrivateKey)
    | SlotCleared(id: string, key: PrivateKey)
    | PrivSaved(id: string, key: PrivateKey)
    | Unlocking(result: Option<NodeIdentity>)
    | Done(result: Option<NodeIdentity>)
    | Crashed

  predicate HoldsLock(pc: Pc) {
    !pc.Start? && !pc.Done? && !pc.Crashed?
  }

  /** The call has settled on its return value, and it is a success. */
  predicate Succeeds(pc: Pc, r: NodeIdentity) {
    pc == Unlocking(Some(r)) || pc == Done(Some(r))
  }

  /** How one step turns out: whether it reports success, whether a failed write landed, what was drawn. */
  datatype Choice = Choice(ok: bool, landed: bool, uuid: Uuid, key: PrivateKey)

  datatype Event = Run(p: nat, choice: Choice) | Crash(p: nat)

  datatype State = State(disk: Disk, lock: Option<nat>, pcs: map<nat, Pc>) {
    function PcOf(p: nat): Pc { if p in pcs then pcs[p] else Start }

    function Goto(p: nat, pc: Pc): State { this.(pcs := pcs[p := pc]) }
  }

  /** The step that call p takes next.  A step that cannot happen leaves the state alone. */
  function Step(ks: KeyStore, s: State, p: nat, c: Choice): State {
    var d := s.disk;
    match s.PcOf(p)
    case Start =>  // mkdir, open and flock
      if !c.ok then s.Goto(p, Done(None))
      else if s.lock.Some? then s  // blocked in flock
      else s.Goto(p, Locked).(lock := Some(p))
    case Locked =>
      s.Goto(p, match d.StoredNodeId() case Some(id) => HasNodeId(id) case None => NoNodeId)
    case NoNodeId =>
      var s' := if c.ok || c.landed then s.(disk := d.(nodeFile := Some(c.uuid + "\n"))) else s;
      s'.Goto(p, if c.ok then HasNodeId(c.uuid) else Unlocking(None))
    case HasNodeId(id) =>
      s.Goto(p, LoadedPriv(id, d.StoredPriv(ks.Slot(id))))
    case LoadedPriv(id, priv) =>
      if priv.None? || d.pubFile.None? then s.Goto(p, MustGenerate(id))
      else if priv.value.Malformed? || d.pubFile.value.Malformed? then s.Goto(p, Unlocking(None))
      else if !KeysMatch(priv.value.key, d.pubFile.value.key) then s.Goto(p, MustGenerate(id))
      else s.Goto(p, Unlocking(Some(NodeIdentity(id, priv.value.key, d.pubFile.value.key))))
    case MustGenerate(id) =>
      s.Goto(p, if c.ok then Generated(id, c.key) else Unlocking(None))
    case Generated(id, key) =>  // the Keychain first deletes the old item and ignores the outcome
      if ks == Keychain && c.ok then s.Goto(p, SlotCleared(id, key)).(disk := d.(privs := d.privs - {id}))
      else s.Goto(p, SlotCleared(id, key))
    case SlotCleared(id, key) =>
      var slot := ks.Slot(id);
      var taken := ks == Keychain && slot in d.privs;  // AddItem refuses a duplicate
      var s' := if !taken && (c.ok || c.landed) then s.(disk := d.(privs := d.privs[slot := Encodes(key)])) else s;
      s'.Goto(p, if !taken && c.ok then PrivSaved(id, key) else Unlocking(None))
    case PrivSaved(id, key) =>
      var s' := if c.ok || c.landed then s.(disk := d.(pubFile := Some(Encodes(key.pub)))) else s;
      s'.Goto(p, if c.ok then Unlocking(Some(NodeIdentity(id, key, key.pub))) else Unlocking(None))
    case Unlocking(r) => s.Goto(p, Done(r)).(lock := None)
    case Done(_) => s
    case Crashed => s
  }

  function Next(ks: KeyStore, s: State, e: Event): State {
    match e
    case Run(p, c) => Step(ks, s, p, c)
    case Crash(p) =>  // the operating system drops the lock of a dead process
      if s.PcOf(p).Done? then s
      else s.Goto(p, Crashed).(lock := if s.lock == Some(p) then None else s.lock)
  }

  function Exec(ks: KeyStore, s: State, events: seq<Event>): State {
    if events == [] then s
    else Next(ks, Exec(ks, s, events[..|events| - 1]), events[|events| - 1])
  }

  /** A directory in any condition whatever, with no call under way. */
  function Initial(d: Disk): State { State(d, None, map[]) }

  // ----- What holds in every reachable state -----

  /** What the lock holder remembers is still what the disk says. */
  predicate UpToDate(ks: KeyStore, d: Disk, pc: Pc) {
    match pc
    case NoNodeId => d.StoredNodeId() == None
    case HasNodeId(id) => d.StoredNodeId() == Some(id)
    case LoadedPriv(id, priv) => d.StoredNodeId() == Some(id) && priv == d.StoredPriv(ks.Slot(id))
    case MustGenerate(id) => d.StoredNodeId() == Some(id) && DiskIdentity(ks, d) == None
    case Generated(id, _) => d.StoredNodeId() == Some(id) && DiskIdentity(ks, d) == None
    case SlotCleared(id, _) => d.StoredNodeId() == Some(id) && DiskIdentity(ks, d) == None
    case PrivSaved(id, key) => d.StoredNodeId() == Some(id) && d.StoredPriv(ks.Slot(id)) == Some(Encodes(key))
    case Unlocking(Some(r)) => DiskIdentity(ks, d) == Some(r)
    case Done(Some(r)) => DiskIdentity(ks, d) == Some(r)
    case _ => true
  }

  ghost predicate Inv(ks: KeyStore, s: State) {
    && (forall p: nat :: HoldsLock(s.PcOf(p)) <==> s.lock == Some(p))
    && (forall p: nat :: UpToDate(ks, s.disk, s.PcOf(p)))
  }

  /** Writing a fresh node id stores exactly that id. */
  lemma FreshNodeIdReadsBack(d: Disk, id: Uuid)
    ensures d.(nodeFile := Some(id + "\n")).StoredNodeId() == Some(id)
  {
    assert id + "\n" == "" + id + "\n";
    TrimUnique("", id, "\n");
  }

  /** The mover stays up to date, and its step never replaces an identity that the disk already holds. */
  lemma StepKeepsIdentity(ks: KeyStore, s: State, p: nat, c: Choice)
    requires UpToDate(ks, s.disk, s.PcOf(p))
    ensures UpToDate(ks, Step(ks, s, p, c).disk, Step(ks, s, p, c).PcOf(p))
    ensures DiskIdentity(ks, s.disk).Some? ==> DiskIdentity(ks, Step(ks, s, p, c).disk) == DiskIdentity(ks, s.disk)
  {
    if s.PcOf(p).NoNodeId? {
      FreshNodeIdReadsBack(s.disk, c.uuid);
    }
  }

  lemma NextKeepsInv(ks: KeyStore, s: State, e: Event)
    requires Inv(ks, s)
    ensures Inv(ks, Next(ks, s, e))
    ensures DiskIdentity(ks, s.disk).Some? ==> DiskIdentity(ks, Next(ks, s, e).disk) == DiskIdentity(ks, s.disk)
  {
    var s' := Next(ks, s, e);
    var p := e.p;
    assert UpToDate(ks, s.disk, s.PcOf(p));
    assert HoldsLock(s.PcOf(p)) <==> s.lock == Some(p);
    if e.Run? {
      StepKeepsIdentity(ks, s, p, e.choice);
    }
    forall q: nat
      ensures UpToDate(ks, s'.disk, s'.PcOf(q))
      ensures HoldsLock(s'.PcOf(q)) <==> s'.lock == Some(q)
    {
      assert UpToDate(ks, s.disk, s.PcOf(q));
      assert HoldsLock(s.PcOf(q)) <==> s.lock == Some(q);
      if q != p {
        assert s'.PcOf(q) == s.PcOf(q);
        if s'.disk != s.disk {
          assert HoldsLock(s.PcOf(p)) && !HoldsLock(s.PcOf(q));
        }
      }
    }
  }

  lemma {:induction false} ReachableInv(ks: KeyStore, d: Disk, events: seq<Event>)
    ensures Inv(ks, Exec(ks, Initial(d), events))
  {
    if events != [] {
      var n := |events| - 1;
      ReachableInv(ks, d, events[..n]);
      NextKeepsInv(ks, Exec(ks, Initial(d), events[..n]), events[n]);
    }
  }

  lemma {:induction false} ExecConcat(ks: KeyStore, s: State, first: seq<Event>, more: seq<Event>)
    ensures Exec(ks, s, first + more) == Exec(ks, Exec(ks, s, first), more)
  {
    if more == [] {
      assert first + more == first;
    } else {
      var n := |more| - 1;
      assert (first + more)[..|first + more| - 1] == first + more[..n];
      ExecConcat(ks, s, first, more[..n]);
    }
  }

  /**
   Agreement.  Whatever the directory held at first, however the calls interleave and wherever they
   crash: all calls that succeed return one node id and one key pair, and the pair matches.
   */
  lemma Agreement(ks: KeyStore, d: Disk, events: seq<Event>, p: nat, q: nat, a: NodeIdentity, b: NodeIdentity)
    requires Exec(ks, Initial(d), events).PcOf(p) == Done(Some(a))
    requires Exec(ks, Initial(d), events).PcOf(q) == Done(Some(b))
    ensures a == b && KeysMatch(a.priv, a.pub) && a.nodeId != ""
  {
    var s := Exec(ks, Initial(d), events);
    ReachableInv(ks, d, events);
    assert UpToDate(ks, s.disk, s.PcOf(p)) && UpToDate(ks, s.disk, s.PcOf(q));
  }

  /** A complete identity on disk is never replaced, by any continuation of any run. */
  lemma {:induction false} NeverOverwritten(ks: KeyStore, d: Disk, events: seq<Event>, more: seq<Event>)
    requires DiskIdentity(ks, Exec(ks, Initial(d), events).disk).Some?
    ensures DiskIdentity(ks, Exec(ks, Initial(d), events + more).disk)
         == DiskIdentity(ks, Exec(ks, Initial(d), events).disk)
  {
    if more == [] {
      assert events + more == events;
    } else {
      var n := |more| - 1;
      assert (events + more)[..|events + more| - 1] == events + more[..n];
      var s := Exec(ks, Initial(d), events + more[..n]);
      assert Exec(ks, Initial(d), events + more) == Next(ks, s, more[n]);
      NeverOverwritten(ks, d, events, more[..n]);
      ReachableInv(ks, d, events + more[..n]);
      NextKeepsInv(ks, s, more[n]);
    }
  }

  /** At most one call is inside the critical section. */
  lemma MutualExclusion(ks: KeyStore, d: Disk, events: seq<Event>, p: nat, q: nat)
    requires HoldsLock(Exec(ks, Initial(d), events).PcOf(p)) && HoldsLock(Exec(ks, Initial(d), events).PcOf(q))
    ensures p == q
  {
    ReachableInv(ks, d, events);
    var s := Exec(ks, Initial(d), events);
    assert s.lock == Some(p) && s.lock == Some(q);
  }

  // ----- A key file that cannot be parsed is never repaired -----

  predicate StuckPc(ks: KeyStore, d: Disk, id: string, pc: Pc) {
    match pc
    case HasNodeId(i) => i == id
    case LoadedPriv(i, priv) => i == id && priv == d.StoredPriv(ks.Slot(id))
    case Unlocking(r) => r == None
    case Done(r) => r == None
    case _ => pc.Start? || pc.Locked? || pc.Crashed?
  }

  /**
   A parse failure is returned, not repaired: when the directory names a node and one of its two key
   files is malformed, no call ever succeeds and the directory never changes.
   */
  lemma {:induction false} BrokenStaysBroken(ks: KeyStore, d: Disk, id: string, events: seq<Event>)
    requires d.StoredNodeId() == Some(id) && Broken(ks, d, id)
    ensures Exec(ks, Initial(d), events).disk == d
    ensures forall p: nat :: StuckPc(ks, d, id, Exec(ks, Initial(d), events).PcOf(p))
  {
    if events != [] {
      var n := |events| - 1;
      BrokenStaysBroken(ks, d, id, events[..n]);
      var s := Exec(ks, Initial(d), events[..n]);
      var s' := Next(ks, s, events[n]);
      assert StuckPc(ks, d, id, s.PcOf(events[n].p));
      forall p: nat ensures StuckPc(ks, d, id, s'.PcOf(p)) {
        assert StuckPc(ks, d, id, s.PcOf(p));
      }
    }
  }

  // ----- The call as the source writes it -----

  /** The outcomes one call meets, step by step. */
  datatype Script = Script(open: Choice, writeId: Choice, generate: Choice, clear: Choice, savePriv: Choice, writePub: Choice) {
    predicate AllOk() {
      open.ok && writeId.ok && generate.ok && clear.ok && savePriv.ok && writePub.ok
    }
  }

  /** An identity directory on which nobody else is working. */
  class IdentityDir {
    const store: KeyStore
    var disk: Disk

    constructor (store: KeyStore, disk: Disk)
      ensures this.store == store && this.disk == disk
    {
      this.store := store;
      this.disk := disk;
    }

    /** The run from d0 has led to the present disk, with call p alone in the critical section, at pc. */
    ghost predicate At(d0: Disk, events: seq<Event>, p: nat, pc: Pc)
      reads this
    {
      Exec(store, Initial(d0), events) == State(disk, Some(p), map[p := pc])
    }

    /** Append one step of call p to the run. */
    ghost method Follow(d0: Disk, events: seq<Event>, p: nat, c: Choice, before: State) returns (events': seq<Event>)
      requires Exec(store, Initial(d0), events) == before && before.pcs == map[p := before.PcOf(p)]
      ensures var after := Step(store, before, p, c);
        Exec(store, Initial(d0), events') == State(after.disk, after.lock, map[p := after.PcOf(p)])
    {
      events' := events + [Run(p, c)];
      assert events'[..|events|] == events;
      var after := Step(store, before, p, c);
      assert after.pcs == map[p := after.PcOf(p)];
    }

    method LoadOrCreateNodeId(p: nat, io: Script, ghost d0: Disk, ghost before: seq<Event>)
      returns (nodeId: Option<string>, ghost events: seq<Event>)
      requires At(d0, before, p, Locked)
      modifies this
      ensures At(d0, events, p, if nodeId.Some? then HasNodeId(nodeId.value) else Unlocking(None))
      ensures disk.privs == old(disk).privs && disk.pubFile == old(disk).pubFile
      ensures nodeId.Some? ==> disk.StoredNodeId() == nodeId
      ensures old(disk).StoredNodeId().Some? ==> nodeId == old(disk).StoredNodeId() && disk == old(disk)
      ensures old(disk).StoredNodeId().None? ==> nodeId == if io.writeId.ok then Some(io.writeId.uuid) else None
    {
      events := Follow(d0, before, p, io.open, State(disk, Some(p), map[p := Locked]));
      if disk.StoredNodeId().Some? {
        return disk.StoredNodeId(), events;
      }
      events := Follow(d0, events, p, io.writeId, State(disk, Some(p), map[p := NoNodeId]));
      if io.writeId.ok || io.writeId.landed {
        FreshNodeIdReadsBack(disk, io.writeId.uuid);
        disk := disk.(nodeFile := Some(io.writeId.uuid + "\n"));
      }
      nodeId := if io.writeId.ok then Some(io.writeId.uuid) else None;
    }

    /** SavePrivateKey of either key store; the Keychain first deletes the item it is about to add. */
    method SavePrivateKey(id: string, key: PrivateKey, p: nat, io: Script, ghost d0: Disk, ghost before: seq<Event>)
      returns (ok: bool, ghost events: seq<Event>)
      requires At(d0, before, p, Generated(id, key))
      modifies this
      ensures At(d0, events, p, if ok then PrivSaved(id, key) else Unlocking(None))
      ensures disk.nodeFile == old(disk).nodeFile && disk.pubFile == old(disk).pubFile
      ensures ok ==> disk.StoredPriv(store.Slot(id)) == Some(Encodes(key))
      ensures io.AllOk() ==> ok
    {
      events := Follow(d0, before, p, io.clear, State(disk, Some(p), map[p := Generated(id, key)]));
      if store == Keychain && io.clear.ok {
        disk := disk.(privs := disk.privs - {id});
      }
      events := Follow(d0, events, p, io.savePriv, State(disk, Some(p), map[p := SlotCleared(id, key)]));
      var taken := store == Keychain && id in disk.privs;
      if !taken && (io.savePriv.ok || io.savePriv.landed) {
        disk := disk.(privs := disk.privs[store.Slot(id) := Encodes(key)]);
      }
      ok := !taken && io.savePriv.ok;
    }

    method GenerateAndSave(id: string, p: nat, io: Script, ghost d0: Disk, ghost before: seq<Event>)
      returns (result: Option<NodeIdentity>, ghost events: seq<Event>)
      requires At(d0, before, p, MustGenerate(id)) && disk.StoredNodeId() == Some(id)
      modifies this
      ensures At(d0, events, p, Unlocking(result))
      ensures result.Some? ==> DiskIdentity(store, disk) == result
      ensures io.AllOk() ==> result.Some?
    {
      events := Follow(d0, before, p, io.generate, State(disk, Some(p), map[p := MustGenerate(id)]));
      if !io.generate.ok {
        return None, events;
      }
      var key := io.generate.key;
      var saved;
      saved, events := SavePrivateKey(id, key, p, io, d0, events);
      if !saved {
        return None, events;
      }
      events := Follow(d0, events, p, io.writePub, State(disk, Some(p), map[p := PrivSaved(id, key)]));
      if io.writePub.ok || io.writePub.landed {
        disk := disk.(pubFile := Some(Encodes(key.pub)));
      }
      result := if io.writePub.ok then Some(NodeIdentity(id, key, key.pub)) else None;
    }

    method LoadOrGenerateKeys(id: string, p: nat, io: Script, ghost d0: Disk, ghost before: seq<Event>)
      returns (result: Option<NodeIdentity>, ghost events: seq<Event>)
      requires At(d0, before, p, HasNodeId(id)) && disk.StoredNodeId() == Some(id)
      modifies this
      ensures At(d0, events, p, Unlocking(result))
      ensures result.Some? ==> DiskIdentity(store, disk) == result
      ensures io.AllOk() ==> (result.None? <==> Broken(store, old(disk), id))
    {
      var priv := disk.StoredPriv(store.Slot(id));
      events := Follow(d0, before, p, io.open, State(disk, Some(p), map[p := HasNodeId(id)]));
      events := Follow(d0, events, p, io.open, State(disk, Some(p), map[p := LoadedPriv(id, priv)]));
      if priv.Some? && disk.pubFile.Some? {
        if priv.value.Malformed? || disk.pubFile.value.Malformed? {
          return None, events;
        }
        var pub := disk.pubFile.value.key;
        if KeysMatch(priv.value.key, pub) {
          return Some(NodeIdentity(id, priv.value.key, pub)), events;
        }
      }
      result, events := GenerateAndSave(id, p, io, d0, events);
    }

    /**
     LoadOrCreate, undisturbed.  Its effect is a run of the step system above, so Agreement speaks about
     it; and when no operation fails, it fails only on a key file it cannot parse.
     */
    method LoadOrCreate(p: nat, io: Script) returns (result: Option<NodeIdentity>, ghost events: seq<Event>)
      modifies this
      ensures Exec(store, Initial(old(disk)), events) == State(disk, None, map[p := Done(result)])
      ensures result.Some? ==> DiskIdentity(store, disk) == result
      ensures io.AllOk() ==>
        (result.None? <==>
          Broken(store, old(disk), if old(disk).StoredNodeId().Some? then old(disk).StoredNodeId().value else io.writeId.uuid))
    {
      ghost var d0 := disk;
      result := None;
      events := [Run(p, io.open)];
      assert events[..0] == [] && Exec(store, Initial(d0), []) == Initial(d0);
      if !io.open.ok {
        return;
      }
      var nodeId;
      nodeId, events := LoadOrCreateNodeId(p, io, d0, events);
      if nodeId.Some? {
        result, events := LoadOrGenerateKeys(nodeId.value, p, io, d0, events);
      }
      events := Follow(d0, events, p, io.open, State(disk, Some(p), map[p := Unlocking(result)]));
    }
  }
}
