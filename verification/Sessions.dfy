/** Which session describes an agent: the fold over sessions, and what it amounts to. */
module Sessions {
  import opened Wrappers
  import opened Strings

  datatype Session = Session(agentId: string, key: string, model: string, tokens: string)

  datatype Agent = Agent(id: string, name: string, bootstrap: string, sessions: int, active: string,
                         sessionModel: string, sessionTokens: string)

  predicate IsMain(s: Session) {
    HasSuffix(s.key, ":main")
  }

  /** preferSessionSnapshot */
  predicate Prefer(candidate: Session, existing: Session) {
    if IsMain(candidate) != IsMain(existing) then IsMain(candidate) else existing.key == ""
  }

  /** One step of the fold over sessions, for one agent. */
  function Fold(existing: Option<Session>, last: Session, id: string): Option<Session> {
    if last.agentId != "" && last.agentId == id && (existing.None? || Prefer(last, existing.value)) then Some(last) else existing
  }

  /** The session that the fold leaves for an agent. */
  function Best(sessions: seq<Session>, id: string): Option<Session> {
    if sessions == [] then None
    else Fold(Best(sessions[..|sessions| - 1], id), sessions[|sessions| - 1], id)
  }

  /** Session i belongs to the agent. */
  predicate Belongs(sessions: seq<Session>, id: string, i: nat)
    requires i < |sessions|
  {
    id != "" && sessions[i].agentId == id
  }

  ghost predicate FirstMain(sessions: seq<Session>, id: string, i: nat)
    requires i < |sessions|
  {
    IsMain(sessions[i]) && forall j | 0 <= j < i && Belongs(sessions, id, j) :: !IsMain(sessions[j])
  }

  ghost predicate NoMain(sessions: seq<Session>, id: string) {
    forall j | 0 <= j < |sessions| && Belongs(sessions, id, j) :: !IsMain(sessions[j])
  }

  ghost predicate FirstKeyed(sessions: seq<Session>, id: string, i: nat)
    requires i < |sessions|
  {
    sessions[i].key != "" && forall j | 0 <= j < i && Belongs(sessions, id, j) :: sessions[j].key == ""
  }

  ghost predicate LastOfUnkeyed(sessions: seq<Session>, id: string, i: nat)
    requires i < |sessions|
  {
    && (forall j | 0 <= j < |sessions| && Belongs(sessions, id, j) :: sessions[j].key == "")
    && (forall j | i < j < |sessions| :: !Belongs(sessions, id, j))
  }

  /** Session i is the agent's first main session; failing that its first with a key; failing that its last. */
  ghost predicate Chosen(sessions: seq<Session>, id: string, i: nat)
    requires i < |sessions|
  {
    Belongs(sessions, id, i) &&
    (|| FirstMain(sessions, id, i)
     || (NoMain(sessions, id) && FirstKeyed(sessions, id, i))
     || LastOfUnkeyed(sessions, id, i))
  }

  /** The agent's choice survives a later session that is not preferred to it. */
  lemma StaysChosen(init: seq<Session>, last: Session, id: string, i: nat)
    requires i < |init| && Chosen(init, id, i)
    requires last.agentId == id ==> !Prefer(last, init[i])
    ensures Chosen(init + [last], id, i)
  {
    MainHasKey(last);
    assert forall j | 0 <= j < |init| :: Belongs(init + [last], id, j) == Belongs(init, id, j);
    if LastOfUnkeyed(init, id, i) {
      assert LastOfUnkeyed(init + [last], id, i);
    } else if FirstMain(init, id, i) {
      assert FirstMain(init + [last], id, i);
    } else {
      assert NoMain(init + [last], id) && FirstKeyed(init + [last], id, i);
    }
  }

  /** A preferred session takes its place. */
  lemma LastIsChosen(init: seq<Session>, last: Session, id: string, i: nat)
    requires i < |init| && Chosen(init, id, i)
    requires last.agentId == id && Prefer(last, init[i])
    ensures Chosen(init + [last], id, |init|)
  {
    MainHasKey(last);
    MainHasKey(init[i]);
    assert forall j | 0 <= j < |init| :: Belongs(init + [last], id, j) == Belongs(init, id, j);
    if IsMain(last) {
      assert FirstMain(init + [last], id, |init|);
    } else if last.key != "" {
      assert NoMain(init + [last], id) && FirstKeyed(init + [last], id, |init|);
    } else {
      assert LastOfUnkeyed(init + [last], id, |init|);
    }
  }

  lemma OnlyOneIsChosen(init: seq<Session>, last: Session, id: string)
    requires id != "" && last.agentId == id && forall j | 0 <= j < |init| :: !Belongs(init, id, j)
    ensures Chosen(init + [last], id, |init|)
  {
    assert forall j | 0 <= j < |init| :: Belongs(init + [last], id, j) == Belongs(init, id, j);
    if IsMain(last) {
      assert FirstMain(init + [last], id, |init|);
    } else if last.key != "" {
      assert NoMain(init + [last], id) && FirstKeyed(init + [last], id, |init|);
    } else {
      assert LastOfUnkeyed(init + [last], id, |init|);
    }
  }

  ghost predicate NoneBelong(sessions: seq<Session>, id: string) {
    forall j | 0 <= j < |sessions| :: !Belongs(sessions, id, j)
  }

  /** Index i describes what the fold picked. */
  ghost predicate Picks(sessions: seq<Session>, id: string, best: Option<Session>, i: nat) {
    if best.None? then NoneBelong(sessions, id)
    else i < |sessions| && best.value == sessions[i] && Chosen(sessions, id, i)
  }

  lemma PicksStep(init: seq<Session>, last: Session, id: string, best: Option<Session>, i: nat) returns (k: nat)
    requires Picks(init, id, best, i)
    ensures Picks(init + [last], id, Fold(best, last, id), k)
  {
    k := i;
    if best.None? {
      if id != "" && last.agentId == id {
        k := |init|;
        OnlyOneIsChosen(init, last, id);
      } else {
        assert forall j | 0 <= j < |init| :: Belongs(init + [last], id, j) == Belongs(init, id, j);
      }
    } else if last.agentId == id && Prefer(last, best.value) {
      k := |init|;
      LastIsChosen(init, last, id, i);
    } else {
      StaysChosen(init, last, id, i);
    }
  }

  /** The fold picks the chosen session, and nothing exactly when the agent has no session. */
  lemma {:induction false} BestIsChosen(sessions: seq<Session>, id: string) returns (i: nat)
    ensures Best(sessions, id).None? <==> NoneBelong(sessions, id)
    ensures Best(sessions, id).Some? ==> i < |sessions| && Best(sessions, id).value == sessions[i] && Chosen(sessions, id, i)
  {
    i := 0;
    if sessions != [] {
      var n := |sessions| - 1;
      i := BestIsChosen(sessions[..n], id);
      i := PicksStep(sessions[..n], sessions[n], id, Best(sessions[..n], id), i);
      assert sessions == sessions[..n] + [sessions[n]];
    }
  }

  /** A main session is one whose key ends in ":main". */
  lemma MainKeys(s: Session)
    ensures IsMain(s) <==> exists p :: s.key == p + ":main"
  {
    HasSuffixMeans(s.key, ":main");
  }

  /** The description is unambiguous. */
  lemma ChosenIsUnique(sessions: seq<Session>, id: string, i: nat, j: nat)
    requires i < |sessions| && j < |sessions| && Chosen(sessions, id, i) && Chosen(sessions, id, j)
    ensures i == j
  {
    MainHasKey(sessions[i]);
    MainHasKey(sessions[j]);
  }

  lemma MainHasKey(s: Session)
    ensures IsMain(s) ==> s.key != ""
  {
  }

  /** Only empty session fields are filled. */
  function Annotated(a: Agent, best: Option<Session>): Agent {
    if best.None? then a
    else a.(sessionModel := if a.sessionModel == "" then Trim(best.value.model) else a.sessionModel,
            sessionTokens := if a.sessionTokens == "" then Trim(best.value.tokens) else a.sessionTokens)
  }

  /** Session k gives the agent what it lacks: its model to an empty model field, its tokens to an empty tokens field. */
  ghost predicate FilledFrom(was: Agent, now: Agent, s: Session) {
    && now.sessionModel == (if was.sessionModel != "" then was.sessionModel else Trim(s.model))
    && now.sessionTokens == (if was.sessionTokens != "" then was.sessionTokens else Trim(s.tokens))
  }

  /** The agent's session fields come from its chosen session, if it has one, and nothing else changes. */
  ghost predicate Described(sessions: seq<Session>, was: Agent, now: Agent) {
    && now.id == was.id && now.name == was.name && now.bootstrap == was.bootstrap
    && now.sessions == was.sessions && now.active == was.active
    && if NoneBelong(sessions, was.id) then now == was
       else exists k :: 0 <= k < |sessions| && Chosen(sessions, was.id, k) && FilledFrom(was, now, sessions[k])
  }

  lemma AnnotatedIsDescribed(sessions: seq<Session>, was: Agent)
    ensures Described(sessions, was, Annotated(was, Best(sessions, was.id)))
  {
    var k := BestIsChosen(sessions, was.id);
    if Best(sessions, was.id).Some? {
      assert Chosen(sessions, was.id, k) && FilledFrom(was, Annotated(was, Best(sessions, was.id)), sessions[k]);
    }
  }

  /** The loop over agents, in place. */
  method FillFields(sessions: seq<Session>, best: map<string, Session>, agents: array<Agent>)
    requires forall id :: id in best <==> Best(sessions, id).Some?
    requires forall id | id in best :: Best(sessions, id) == Some(best[id])
    modifies agents
    ensures forall i | 0 <= i < agents.Length :: agents[i] == Annotated(old(agents[i]), Best(sessions, old(agents[i]).id))
  {
    for i := 0 to agents.Length
      invariant forall k | 0 <= k < i :: agents[k] == Annotated(old(agents[k]), Best(sessions, old(agents[k]).id))
      invariant forall k | i <= k < agents.Length :: agents[k] == old(agents[k])
    {
      if agents[i].id in best {
        var s := best[agents[i].id];
        if agents[i].sessionModel == "" {
          agents[i] := agents[i].(sessionModel := Trim(s.model));
        }
        if agents[i].sessionTokens == "" {
          agents[i] := agents[i].(sessionTokens := Trim(s.tokens));
        }
      }
    }
  }

  /** annotateAgentsWithSessions; without sessions in the status output, those of the sessions command are used. */
  method AnnotateAgents(fromStatus: seq<Session>, fromCommand: seq<Session>, agents: array<Agent>)
    modifies agents
    ensures var sessions := if fromStatus != [] then fromStatus else fromCommand;
      forall i | 0 <= i < agents.Length :: Described(sessions, old(agents[i]), agents[i])
  {
    var sessions := if fromStatus != [] then fromStatus else fromCommand;
    var best: map<string, Session> := map[];
    for n := 0 to |sessions|
      invariant forall id :: id in best <==> Best(sessions[..n], id).Some?
      invariant forall id | id in best :: Best(sessions[..n], id) == Some(best[id])
    {
      var s := sessions[n];
      assert sessions[..n + 1][..n] == sessions[..n];
      if s.agentId != "" && (s.agentId !in best || Prefer(s, best[s.agentId])) {
        best := best[s.agentId := s];
      }
    }
    assert sessions[..|sessions|] == sessions;
    FillFields(sessions, best, agents);
    forall i | 0 <= i < agents.Length ensures Described(sessions, old(agents[i]), agents[i]) {
      AnnotatedIsDescribed(sessions, old(agents[i]));
    }
  }
}
