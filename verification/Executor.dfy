/**
 Command execution: which outcome each command type ends in, and how the reply of an agent is dug out of
 the JSON it prints.  External programs are inputs; the JSON decoder is a parameter.
 */
module Executor {
  import opened Wrappers
  import opened Strings
  import opened JsonValue
  import ConfigFile

  predicate IsContainer(v: Json) {
    v.JObj? || v.JArr?
  }

  const STRUCTURED_KEYS := ["payloads", "messages", "choices"]
  const TEXT_KEYS := ["reply", "message", "output", "result", "content", "text"]
  const WRAPPER_KEYS := ["data", "response", "assistant", "payload", "result"]
  const LISTED_KEYS := STRUCTURED_KEYS + TEXT_KEYS + WRAPPER_KEYS

  const MAX_DEPTH := 8

  /**
   Whether a value holds a reply, without saying which: some path of at most MAX_DEPTH steps leads to a string
   that is not blank, where a step from an object to a field outside the lists must lead to a container.
   */
  ghost predicate HasReply(v: Json, depth: nat)
    decreases if depth > MAX_DEPTH then 0 else MAX_DEPTH + 1 - depth
  {
    depth <= MAX_DEPTH &&
    match v
    case JStr(s) => !Blank(s)
    case JArr(items) => exists i :: 0 <= i < |items| && HasReply(items[i], depth + 1)
    case JObj(fields) =>
      exists k :: k in fields && (k in LISTED_KEYS || IsContainer(fields[k])) && HasReply(fields[k], depth + 1)
    case _ => false
  }

  /** Key k is the first of the listed keys under which there is a reply. */
  ghost predicate FirstKey(fields: map<string, Json>, depth: nat, i: nat)
    requires i < |LISTED_KEYS|
  {
    && LISTED_KEYS[i] in fields && HasReply(fields[LISTED_KEYS[i]], depth + 1)
    && forall j | 0 <= j < i && LISTED_KEYS[j] in fields :: !HasReply(fields[LISTED_KEYS[j]], depth + 1)
  }

  /** No listed key of the object leads to a reply. */
  ghost predicate NoneListed(fields: map<string, Json>, depth: nat) {
    forall k | k in LISTED_KEYS && k in fields :: !HasReply(fields[k], depth + 1)
  }

  /** r is a reply that some visiting order of the objects in v finds. */
  ghost predicate Finds(decode: string -> Option<Json>, v: Json, depth: nat, r: string)
    decreases if depth > MAX_DEPTH then 0 else MAX_DEPTH + 1 - depth
  {
    depth <= MAX_DEPTH &&
    match v
    case JStr(s) =>
      var t := Trim(s);
      if t == "" then false
      else if decode(t).Some? && HasReply(decode(t).value, depth + 1) then Finds(decode, decode(t).value, depth + 1, r)
      else r == t
    case JArr(items) =>
      exists i ::
        && 0 <= i < |items| && Finds(decode, items[i], depth + 1, r)
        && forall j | 0 <= j < i :: !HasReply(items[j], depth + 1)
    case JObj(fields) =>
      || (exists i :: 0 <= i < |LISTED_KEYS| && FirstKey(fields, depth, i) && Finds(decode, fields[LISTED_KEYS[i]], depth + 1, r))
      || (NoneListed(fields, depth) && exists k :: k in fields && IsContainer(fields[k]) && Finds(decode, fields[k], depth + 1, r))
    case _ => false
  }

  /** A text that is no JSON with a reply of its own inside, as far as the depth limit lets one look. */
  ghost predicate IsPlain(decode: string -> Option<Json>, r: string, depth: nat) {
    decode(r).None? || !HasReply(decode(r).value, depth + 1)
  }

  /** A reply is found one step further down, or it is the string at hand. */
  lemma FindsStep(decode: string -> Option<Json>, v: Json, depth: nat, r: string) returns (next: Option<Json>)
    requires Finds(decode, v, depth, r)
    ensures depth <= MAX_DEPTH
    ensures next.Some? ==> Finds(decode, next.value, depth + 1, r)
    ensures next.Some? && HasReply(next.value, depth + 1) ==> HasReply(v, depth)
    ensures next.None? ==> r != "" && Trimmed(r) && HasReply(v, depth)
    ensures next.None? ==> IsPlain(decode, r, depth)
  {
    if v.JStr? {
      next := FoundInString(decode, v.s, depth, r);
    } else if v.JArr? {
      var i :| 0 <= i < |v.items| && Finds(decode, v.items[i], depth + 1, r);
      next := Some(v.items[i]);
    } else {
      var k := FoundUnder(decode, v.fields, depth, r);
      next := Some(v.fields[k]);
    }
  }

  /** Whatever the order, a reply found is trimmed and not empty, and it was there to find. */
  lemma {:induction false} FoundReplies(decode: string -> Option<Json>, v: Json, depth: nat, r: string)
    requires Finds(decode, v, depth, r)
    ensures r != "" && Trimmed(r) && HasReply(v, depth)
    decreases MAX_DEPTH - depth
  {
    var next := FindsStep(decode, v, depth, r);
    if next.Some? {
      FoundReplies(decode, next.value, depth + 1, r);
      assert HasReply(next.value, depth + 1);
    }
    assert HasReply(v, depth);
  }

  /** JSON within strings is unpacked: a reply found is the innermost text. */
  lemma {:induction false} FoundIsPlain(decode: string -> Option<Json>, v: Json, depth: nat, r: string) returns (at: nat)
    requires Finds(decode, v, depth, r)
    ensures depth <= at <= MAX_DEPTH && IsPlain(decode, r, at)
    decreases MAX_DEPTH - depth
  {
    at := depth;
    var next := FindsStep(decode, v, depth, r);
    if next.Some? {
      at := FoundIsPlain(decode, next.value, depth + 1, r);
    }
  }

  /** The first element of an array that holds a reply answers for the array. */
  lemma FirstElementAnswers(decode: string -> Option<Json>, items: seq<Json>, depth: nat, i: nat, r: string)
    requires Finds(decode, JArr(items), depth, r)
    requires i < |items| && HasReply(items[i], depth + 1) && forall j | 0 <= j < i :: !HasReply(items[j], depth + 1)
    ensures Finds(decode, items[i], depth + 1, r)
  {
    var k :| 0 <= k < |items| && Finds(decode, items[k], depth + 1, r) && forall j | 0 <= j < k :: !HasReply(items[j], depth + 1);
    FoundReplies(decode, items[k], depth + 1, r);
  }

  /** The first of the listed keys that holds a reply answers for the object, whatever else is in it. */
  lemma FirstListedKeyAnswers(decode: string -> Option<Json>, fields: map<string, Json>, depth: nat, i: nat, r: string)
    requires Finds(decode, JObj(fields), depth, r)
    requires i < |LISTED_KEYS| && LISTED_KEYS[i] in fields && HasReply(fields[LISTED_KEYS[i]], depth + 1)
    requires forall j | 0 <= j < i && LISTED_KEYS[j] in fields :: !HasReply(fields[LISTED_KEYS[j]], depth + 1)
    ensures Finds(decode, fields[LISTED_KEYS[i]], depth + 1, r)
  {
    assert FirstKey(fields, depth, i);
    assert !NoneListed(fields, depth);
    var k :| 0 <= k < |LISTED_KEYS| && FirstKey(fields, depth, k) && Finds(decode, fields[LISTED_KEYS[k]], depth + 1, r);
    OneFirstKey(fields, depth, i, k);
  }

  /** A string field of an object answers exactly under a listed key; a container is searched under any key. */
  lemma WhereRepliesAre(k: string, s: string, v: Json, depth: nat)
    requires depth < 8
    ensures HasReply(JObj(map[k := JStr(s)]), depth) <==> k in LISTED_KEYS && !Blank(s)
    ensures v.JArr? || v.JObj? ==> (HasReply(JObj(map[k := v]), depth) <==> HasReply(v, depth + 1))
    ensures HasReply(JArr([v]), depth) <==> HasReply(v, depth + 1)
  {
    var o, a := map[k := JStr(s)], map[k := v];
    assert o[k] == JStr(s) && a[k] == v && [v][0] == v;
    assert HasReply(JStr(s), depth + 1) == !Blank(s);
  }

  /** Nine levels can hold a reply, the tenth none. */
  lemma DepthLimit(s: string, v: Json)
    ensures HasReply(JStr(s), 8) <==> !Blank(s)
    ensures !HasReply(v, 9)
  {
  }

  lemma OneFirstKey(fields: map<string, Json>, depth: nat, i: nat, k: nat)
    requires i < |LISTED_KEYS| && k < |LISTED_KEYS| && FirstKey(fields, depth, i) && FirstKey(fields, depth, k)
    ensures i == k
  {
  }

  lemma FoundInString(decode: string -> Option<Json>, s: string, depth: nat, r: string) returns (next: Option<Json>)
    requires Finds(decode, JStr(s), depth, r)
    ensures !Blank(s)
    ensures next.Some? ==> Finds(decode, next.value, depth + 1, r)
    ensures next.None? ==> r == Trim(s) && r != "" && Trimmed(r) && IsPlain(decode, r, depth)
  {
    TrimEmptyIffBlank(s);
    var _, _ := TrimSplit(s);
    var d := decode(Trim(s));
    next := if d.Some? && HasReply(d.value, depth + 1) then d else None;
  }

  lemma FoundUnder(decode: string -> Option<Json>, fields: map<string, Json>, depth: nat, r: string) returns (k: string)
    requires Finds(decode, JObj(fields), depth, r)
    ensures k in fields && (k in LISTED_KEYS || IsContainer(fields[k])) && Finds(decode, fields[k], depth + 1, r)
  {
    if i :| 0 <= i < |LISTED_KEYS| && FirstKey(fields, depth, i) && Finds(decode, fields[LISTED_KEYS[i]], depth + 1, r) {
      k := LISTED_KEYS[i];
    } else {
      k :| k in fields && IsContainer(fields[k]) && Finds(decode, fields[k], depth + 1, r);
    }
  }

  /** The answer of findReplyString: a reply that can be found, or empty when there is none. */
  ghost predicate Answers(decode: string -> Option<Json>, v: Json, depth: nat, r: string) {
    if HasReply(v, depth) then Finds(decode, v, depth, r) else r == ""
  }

  /** For every visiting order: empty exactly when the value holds no reply, and trimmed. */
  lemma AnswerIsEmptyOrProper(decode: string -> Option<Json>, v: Json, depth: nat, r: string)
    requires Answers(decode, v, depth, r)
    ensures r == "" <==> !HasReply(v, depth)
    ensures Trimmed(r)
  {
    if HasReply(v, depth) {
      FoundReplies(decode, v, depth, r);
    }
  }

  lemma FindsUnderKey(decode: string -> Option<Json>, fields: map<string, Json>, depth: nat, i: nat, r: string)
    requires depth <= MAX_DEPTH && i < |LISTED_KEYS| && FirstKey(fields, depth, i)
    requires Finds(decode, fields[LISTED_KEYS[i]], depth + 1, r)
    ensures Finds(decode, JObj(fields), depth, r)
  {
  }

  lemma KeyAt(keys: seq<string>, from: nat, i: nat)
    requires i < |keys| && from + |keys| <= |LISTED_KEYS| && LISTED_KEYS[from..from + |keys|] == keys
    ensures LISTED_KEYS[from + i] == keys[i]
  {
    assert LISTED_KEYS[from..from + |keys|][i] == LISTED_KEYS[from + i];
  }

  /** One of the loops over listed keys; from is where its keys stand among all the listed ones. */
  method TryKeys(decode: string -> Option<Json>, fields: map<string, Json>, keys: seq<string>, depth: nat, ghost from: nat)
    returns (r: string)
    requires depth <= MAX_DEPTH && from + |keys| <= |LISTED_KEYS| && LISTED_KEYS[from..from + |keys|] == keys
    requires forall j | 0 <= j < from && LISTED_KEYS[j] in fields :: !HasReply(fields[LISTED_KEYS[j]], depth + 1)
    ensures r != "" ==> Finds(decode, JObj(fields), depth, r)
    ensures r == "" ==> forall j | 0 <= j < from + |keys| && LISTED_KEYS[j] in fields :: !HasReply(fields[LISTED_KEYS[j]], depth + 1)
    decreases MAX_DEPTH + 1 - depth, 0
  {
    for i := 0 to |keys|
      invariant forall j | 0 <= j < from + i && LISTED_KEYS[j] in fields :: !HasReply(fields[LISTED_KEYS[j]], depth + 1)
    {
      var k := keys[i];
      KeyAt(keys, from, i);
      if k in fields {
        r := FindReplyString(decode, fields[k], depth + 1);
        AnswerIsEmptyOrProper(decode, fields[k], depth + 1, r);
        if r != "" {
          assert FirstKey(fields, depth, from + i);
          FindsUnderKey(decode, fields, depth, from + i, r);
          return;
        }
      }
    }
    r := "";
  }

  /** findReplyString.  Any field may come next in its last loop; the answer is one of those that some order finds. */
  method FindReplyString(decode: string -> Option<Json>, v: Json, depth: nat) returns (r: string)
    ensures Answers(decode, v, depth, r)
    decreases if depth > MAX_DEPTH then 0 else MAX_DEPTH + 1 - depth, 2
  {
    r := "";
    if depth > MAX_DEPTH {
      return;
    }
    match v {
      case JStr(s) => r := FindInString(decode, s, depth);
      case JObj(fields) => r := FindInObject(decode, fields, depth);
      case JArr(items) => r := FindInArray(decode, items, depth);
      case _ =>
    }
  }

  lemma AnswerOfString(decode: string -> Option<Json>, s: string, depth: nat, r: string)
    requires depth <= MAX_DEPTH
    requires r ==
      if Trim(s) == "" || decode(Trim(s)).None? || !HasReply(decode(Trim(s)).value, depth + 1) then Trim(s) else r
    requires Trim(s) != "" && decode(Trim(s)).Some? && HasReply(decode(Trim(s)).value, depth + 1) ==>
      Finds(decode, decode(Trim(s)).value, depth + 1, r)
    ensures Answers(decode, JStr(s), depth, r)
  {
    TrimEmptyIffBlank(s);
  }

  method FindInString(decode: string -> Option<Json>, s: string, depth: nat) returns (r: string)
    requires depth <= MAX_DEPTH
    ensures Answers(decode, JStr(s), depth, r)
    decreases MAX_DEPTH + 1 - depth, 1
  {
    var t := Trim(s);
    r := t;
    if t != "" && decode(t).Some? {
      r := FindReplyString(decode, decode(t).value, depth + 1);
      AnswerIsEmptyOrProper(decode, decode(t).value, depth + 1, r);
      if r == "" {
        r := t;
      }
    }
    AnswerOfString(decode, s, depth, r);
  }

  method FindInArray(decode: string -> Option<Json>, items: seq<Json>, depth: nat) returns (r: string)
    requires depth <= MAX_DEPTH
    ensures Answers(decode, JArr(items), depth, r)
    decreases MAX_DEPTH + 1 - depth, 1
  {
    for i := 0 to |items|
      invariant forall j | 0 <= j < i :: !HasReply(items[j], depth + 1)
    {
      r := FindReplyString(decode, items[i], depth + 1);
      AnswerIsEmptyOrProper(decode, items[i], depth + 1, r);
      if r != "" {
        return;
      }
    }
    r := "";
  }

  /** The last resort of findReplyString: the containers among the fields, in any order. */
  method TryContainers(decode: string -> Option<Json>, fields: map<string, Json>, depth: nat) returns (r: string)
    requires depth <= MAX_DEPTH && NoneListed(fields, depth)
    ensures r != "" ==> Finds(decode, JObj(fields), depth, r)
    ensures r == "" ==> forall k | k in fields && IsContainer(fields[k]) :: !HasReply(fields[k], depth + 1)
    decreases MAX_DEPTH + 1 - depth, 0
  {
    var rest := fields.Keys;
    while rest != {}
      invariant rest <= fields.Keys
      invariant forall k | k in fields && k !in rest && IsContainer(fields[k]) :: !HasReply(fields[k], depth + 1)
      decreases rest
    {
      var k :| k in rest;
      rest := rest - {k};
      if IsContainer(fields[k]) {
        r := FindReplyString(decode, fields[k], depth + 1);
        AnswerIsEmptyOrProper(decode, fields[k], depth + 1, r);
        if r != "" {
          return;
        }
      }
    }
    r := "";
  }

  method FindInObject(decode: string -> Option<Json>, fields: map<string, Json>, depth: nat) returns (r: string)
    requires depth <= MAX_DEPTH
    ensures Answers(decode, JObj(fields), depth, r)
    decreases MAX_DEPTH + 1 - depth, 1
  {
    r := TryKeys(decode, fields, STRUCTURED_KEYS, depth, 0);
    if r == "" {
      r := TryKeys(decode, fields, TEXT_KEYS, depth, 3);
    }
    if r == "" {
      r := TryKeys(decode, fields, WRAPPER_KEYS, depth, 9);
    }
    if r == "" {
      AllKeysTried(fields, depth);
      r := TryContainers(decode, fields, depth);
    }
    if r != "" {
      FoundReplies(decode, JObj(fields), depth, r);
    }
  }

  lemma AllKeysTried(fields: map<string, Json>, depth: nat)
    requires forall j | 0 <= j < |LISTED_KEYS| && LISTED_KEYS[j] in fields :: !HasReply(fields[LISTED_KEYS[j]], depth + 1)
    ensures NoneListed(fields, depth)
  {
    forall k | k in LISTED_KEYS && k in fields ensures !HasReply(fields[k], depth + 1) {
      var j :| 0 <= j < |LISTED_KEYS| && LISTED_KEYS[j] == k;
    }
  }

  /** The reply in a CLI output that is not blank: one found in its JSON, or else the whole trimmed output. */
  ghost predicate IsReplyIn(decode: string -> Option<Json>, trimmedOut: string, r: string) {
    var payload := decode(trimmedOut);
    if payload.Some? && HasReply(payload.value, 0) then Finds(decode, payload.value, 0, r) else r == trimmedOut
  }

  /** extractAgentReply: never empty unless its input is blank, and always trimmed. */
  method ExtractAgentReply(decode: string -> Option<Json>, out: string) returns (r: string)
    ensures r == "" <==> Blank(out)
    ensures Trimmed(r)
    ensures !Blank(out) ==> IsReplyIn(decode, Trim(out), r)
  {
    var t := Trim(out);
    TrimEmptyIffBlank(out);
    var _, _ := TrimSplit(out);
    if t == "" {
      return t;
    }
    if decode(t).Some? {
      var v := FindReplyString(decode, decode(t).value, 0);
      AnswerIsEmptyOrProper(decode, decode(t).value, 0, v);
      if v != "" {
        return v;
      }
    }
    return t;
  }

  // ----- Execution -----

  type FinalStatus = s: int | s == 2 || s == 3 witness 2

  datatype Result = Result(status: FinalStatus, output: string)

  /** A finished external program: what it printed, and whether it failed. */
  datatype Run = Run(printed: string, failed: bool)

  /** execMessage, given the message parameter ("" if it is absent or no string) and what the CLI does. */
  method ExecMessage(decode: string -> Option<Json>, message: string, cli: Run) returns (r: Result)
    ensures r.status == 3 <==> Blank(message) || (cli.failed && Blank(cli.printed))
    ensures r.status == 2 ==> Trimmed(r.output) && (r.output == "" <==> Blank(cli.printed))
    ensures r.status == 2 && !Blank(cli.printed) ==> IsReplyIn(decode, Trim(cli.printed), r.output)
  {
    TrimEmptyIffBlank(message);
    if Trim(message) == "" {
      return Result(3, "");
    }
    var out := Trim(cli.printed);  // runCLI
    TrimEmptyIffBlank(cli.printed);
    TrimEmptyIffBlank(out);
    var _, _ := TrimSplit(cli.printed);
    TrimOfTrimmed(out);
    if cli.failed && out == "" {
      return Result(3, "");
    }
    var reply := ExtractAgentReply(decode, out);
    if reply != "" {
      return Result(2, reply);
    }
    // An empty reply means an empty output, so the source's second failure branch is never taken.
    assert !cli.failed;
    return Result(2, out);
  }

  /** Everything a command may run into. */
  datatype World = World(
    codec: Codec,
    action: string,            // the "action" parameter, "" if absent
    content: string,           // the "content" parameter
    launch: Run,               // the launchctl call that decides
    configIO: ConfigFile.IO,
    config: ConfigFile.Files,
    cli: Run,                  // the openclaw call
    secondProbe: Run)

  /** The commands that run the CLI once and answer with its output. */
  predicate RunsCli(commandType: string, action: string) {
    || commandType in {"openclaw_agents", "openclaw_doctor", "openclaw_logs", "openclaw_security"}
    || (commandType == "openclaw_update" && action in {"", "check", "apply"})
    || (commandType == "openclaw_sessions" && action in {"", "list", "cleanup"})
    || (commandType == "openclaw_gateway" && action in {"", "status", "health", "restart"})
  }

  predicate UsesLaunchctl(commandType: string) {
    commandType in {"openclaw_start", "openclaw_stop", "openclaw_restart", "openclaw_status"}
  }

  /** When a command of a given type ends in status 3. */
  predicate Fails(commandType: string, message: string, w: World) {
    var cliFails := w.cli.failed && Blank(w.cli.printed);
    if UsesLaunchctl(commandType) then w.launch.failed
    else if commandType == "openclaw_config" then
      !ConfigFile.Succeeds(w.codec, ConfigFile.Command(w.action, w.content), w.configIO, w.config)
    else if RunsCli(commandType, w.action) then cliFails
    else if commandType == "openclaw_probe" then Blank(w.cli.printed) && Blank(w.secondProbe.printed)
    else if commandType == "openclaw_message" then Blank(message) || cliFails
    else true
  }

  /** The command types and actions that Execute knows. */
  predicate Known(commandType: string, action: string) {
    || UsesLaunchctl(commandType) || RunsCli(commandType, action)
    || commandType in {"openclaw_config", "openclaw_probe", "openclaw_message"}
  }

  /** When nothing goes wrong, every known command ends in status 2. */
  lemma NothingFails(commandType: string, message: string, w: World)
    requires Known(commandType, w.action) && !Blank(message)
    requires !w.launch.failed && !w.cli.failed && !Blank(w.secondProbe.printed)
    requires ConfigFile.Succeeds(w.codec, ConfigFile.Command(w.action, w.content), w.configIO, w.config)
    ensures !Fails(commandType, message, w)
  {
  }

  /** When everything goes wrong, or the command is unknown, it ends in status 3. */
  lemma EverythingFails(commandType: string, message: string, w: World)
    requires !Known(commandType, w.action) ||
      (w.launch.failed && w.cli.failed && Blank(w.cli.printed) && Blank(w.secondProbe.printed)
       && !ConfigFile.Succeeds(w.codec, ConfigFile.Command(w.action, w.content), w.configIO, w.config))
    ensures Fails(commandType, message, w)
  {
  }

  /** Whatever the CLI printed rescues a command that runs it, even if it failed. */
  lemma OutputRescues(commandType: string, message: string, w: World)
    requires RunsCli(commandType, w.action) || commandType == "openclaw_probe" || (commandType == "openclaw_message" && !Blank(message))
    requires !Blank(w.cli.printed)
    ensures !Fails(commandType, message, w)
  {
  }

  /** Each command depends on its own program only. */
  lemma OnlyItsOwnProgramMatters(commandType: string, message: string, w: World, w': World)
    requires w'.action == w.action
    requires UsesLaunchctl(commandType) ==> w'.launch.failed == w.launch.failed
    requires RunsCli(commandType, w.action) || commandType in {"openclaw_probe", "openclaw_message"} ==> w'.cli == w.cli
    requires commandType == "openclaw_probe" ==> w'.secondProbe == w.secondProbe
    requires commandType == "openclaw_config" ==>
      w'.codec == w.codec && w'.content == w.content && w'.configIO == w.configIO && w'.config == w.config
    ensures Fails(commandType, message, w') == Fails(commandType, message, w)
  {
  }

  /** The common tail of the commands that run the CLI once. */
  method CliResult(cli: Run) returns (r: Result)
    ensures r.status == 3 <==> cli.failed && Blank(cli.printed)
    ensures r.status == 2 ==> r.output == Trim(cli.printed)
  {
    TrimEmptyIffBlank(cli.printed);
    var out := Trim(cli.printed);
    if cli.failed && out == "" {
      return Result(3, "");
    }
    return Result(2, out);
  }

  method ExecProbe(gateway: Run, channels: Run) returns (r: Result)
    ensures r.status == 3 <==> Blank(gateway.printed) && Blank(channels.printed)
  {
    TrimEmptyIffBlank(gateway.printed);
    TrimEmptyIffBlank(channels.printed);
    r := Result(if Trim(gateway.printed) == "" && Trim(channels.printed) == "" then 3 else 2, "");
  }

  /**
   Execute: always status 2 or 3, and 3 exactly under the conditions above.  Only config touches the
   configuration file; CLI commands answer with what the CLI printed, messages with the reply in it.
   */
  method Execute(commandType: string, message: string, w: World) returns (r: Result, config: ConfigFile.Files)
    ensures r.status == 3 <==> Fails(commandType, message, w)
    ensures config == if commandType == "openclaw_config"
      then ConfigFile.After(w.codec, ConfigFile.Command(w.action, w.content), w.configIO, w.config) else w.config
    ensures RunsCli(commandType, w.action) && r.status == 2 ==> r.output == Trim(w.cli.printed)
    ensures commandType == "openclaw_message" && r.status == 2 && !Blank(w.cli.printed) ==>
      IsReplyIn(w.codec.decode, Trim(w.cli.printed), r.output)
  {
    config := w.config;
    var ran := CliResult(w.cli);
    var unknown := Result(3, "");
    if commandType == "openclaw_start" || commandType == "openclaw_stop" || commandType == "openclaw_restart" || commandType == "openclaw_status" {
      r := Result(if w.launch.failed then 3 else 2, "");
    } else if commandType == "openclaw_config" {
      var reply;
      reply, config := ConfigFile.ExecConfig(w.codec, ConfigFile.Command(w.action, w.content), w.configIO, w.config);
      r := Result(if reply.ok then 2 else 3, reply.output);
    } else if commandType == "openclaw_agents" || commandType == "openclaw_doctor" || commandType == "openclaw_logs" || commandType == "openclaw_security" {
      r := ran;
    } else if commandType == "openclaw_update" {
      r := if w.action == "" || w.action == "check" || w.action == "apply" then ran else unknown;
    } else if commandType == "openclaw_sessions" {
      r := if w.action == "" || w.action == "list" || w.action == "cleanup" then ran else unknown;
    } else if commandType == "openclaw_gateway" {
      r := if w.action == "" || w.action == "status" || w.action == "health" || w.action == "restart" then ran else unknown;
    } else if commandType == "openclaw_probe" {
      r := ExecProbe(w.cli, w.secondProbe);
    } else if commandType == "openclaw_message" {
      r := ExecMessage(w.codec.decode, message, w.cli);
    } else {
      r := unknown;
    }
  }
}
