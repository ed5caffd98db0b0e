/**
 The configuration file as the config command reads, checks and rewrites it.

 Assumed: a file write lands whole or not at all, although one that fails may have landed.
 */
module ConfigFile {
  import opened Wrappers
  import opened Strings
  import opened JsonValue

  /** The texts of the file and of its latest backup. */
  datatype Files = Files(config: Option<string>, backup: Option<string>)

  /** The path that was resolved, and how each access to the file system turns out. */
  datatype IO = IO(path: string, readOk: bool, backupOk: bool, mkdirOk: bool, writeOk: bool, landed: bool)

  datatype Command = Command(action: string, content: string)

  datatype Reply = Reply(ok: bool, output: string)

  predicate Resolved(io: IO) {
    !Blank(io.path)
  }

  /** The text that a read gets. */
  function Readable(f: Files, io: IO): Option<string> {
    if io.readOk then f.config else None
  }

  predicate IsJson(codec: Codec, text: Option<string>) {
    text.Some? && codec.decode(text.value).Some?
  }

  /** This command writes a new file: the text is the content, decoded and encoded again. */
  function Rewrites(codec: Codec, cmd: Command, io: IO): Option<string> {
    if Resolved(io) && cmd.action == "write" && cmd.content != "" && codec.decode(cmd.content).Some?
       && io.mkdirOk && (io.writeOk || io.landed)
    then Some(codec.encode(codec.decode(cmd.content).value)) else None
  }

  /** The files after the command. */
  function After(codec: Codec, cmd: Command, io: IO, f: Files): Files {
    var attempted := Resolved(io) && cmd.action == "write" && cmd.content != "" && codec.decode(cmd.content).Some?;
    Files(
      if Rewrites(codec, cmd, io).Some? then Rewrites(codec, cmd, io) else f.config,
      if attempted && io.backupOk && Readable(f, io).Some? then Readable(f, io) else f.backup)
  }

  /** When the command succeeds: a write that landed with no error, or a read or check that finds JSON. */
  predicate Succeeds(codec: Codec, cmd: Command, io: IO, f: Files) {
    if cmd.action == "write" then io.writeOk && Rewrites(codec, cmd, io).Some?
    else Resolved(io) && (cmd.action == "" || cmd.action == "read" || cmd.action == "validate") && IsJson(codec, Readable(f, io))
  }

  /** execConfig */
  method ExecConfig(codec: Codec, cmd: Command, io: IO, f: Files) returns (r: Reply, after: Files)
    ensures r.ok <==> Succeeds(codec, cmd, io, f)
    ensures after == After(codec, cmd, io, f)
    ensures r.ok && (cmd.action == "" || cmd.action == "read") ==> f.config == Some(r.output)
  {
    after := f;
    TrimEmptyIffBlank(io.path);
    if Trim(io.path) == "" {
      return Reply(false, ""), after;
    }
    var action := cmd.action;
    if action == "" {
      action := "read";
    }
    if action == "read" {
      var data := Readable(f, io);
      if data.None? {
        return Reply(false, ""), after;
      }
      return Reply(codec.decode(data.value).Some?, data.value), after;
    }
    if action == "write" {
      if cmd.content == "" {
        return Reply(false, ""), after;
      }
      var parsed := codec.decode(cmd.content);
      if parsed.None? {
        return Reply(false, ""), after;
      }
      var data := Readable(f, io);
      if data.Some? && io.backupOk {
        after := after.(backup := data);
      }
      if !io.mkdirOk {
        return Reply(false, ""), after;
      }
      var formatted := codec.encode(parsed.value);
      if io.writeOk || io.landed {
        after := after.(config := Some(formatted));
      }
      if !io.writeOk {
        return Reply(false, ""), after;
      }
      return Reply(true, "config updated successfully"), after;
    }
    if action == "validate" {
      var data := Readable(f, io);
      if data.None? {
        return Reply(false, ""), after;
      }
      return if codec.decode(data.value).Some? then Reply(true, "config is valid json") else Reply(false, data.value), after;
    }
    return Reply(false, ""), after;
  }

  // ----- Runs of config commands -----

  datatype Step = Step(cmd: Command, io: IO)

  function Exec(codec: Codec, f: Files, steps: seq<Step>): Files {
    if steps == [] then f
    else
      var last := steps[|steps| - 1];
      After(codec, last.cmd, last.io, Exec(codec, f, steps[..|steps| - 1]))
  }

  /** The content of the last command of the run that rewrote the file, if there is one. */
  function LastContent(codec: Codec, steps: seq<Step>): Option<string> {
    if steps == [] then None
    else
      var last := steps[|steps| - 1];
      if Rewrites(codec, last.cmd, last.io).Some? then Some(last.cmd.content) else LastContent(codec, steps[..|steps| - 1])
  }

  /** After any run the file holds the value of the last content that reached it, and otherwise its first text. */
  lemma {:induction false} FileHoldsTheLastContent(codec: Codec, f: Files, steps: seq<Step>)
    requires RoundTrips(codec)
    ensures var last, now := LastContent(codec, steps), Exec(codec, f, steps).config;
      if last.None? then now == f.config
      else now.Some? && codec.decode(last.value).Some? && codec.decode(now.value) == codec.decode(last.value)
  {
    if steps != [] {
      FileHoldsTheLastContent(codec, f, steps[..|steps| - 1]);
    }
  }

  /** So a file that is JSON stays JSON, through refused and failing commands alike. */
  lemma StaysJson(codec: Codec, f: Files, steps: seq<Step>)
    requires RoundTrips(codec) && IsJson(codec, f.config)
    ensures IsJson(codec, Exec(codec, f, steps).config)
  {
    FileHoldsTheLastContent(codec, f, steps);
  }

  /** A refused command leaves the file alone, unless its write failed after it had landed. */
  lemma RefusedLeavesTheFile(codec: Codec, cmd: Command, io: IO, f: Files)
    requires !Succeeds(codec, cmd, io, f) && !io.landed
    ensures After(codec, cmd, io, f).config == f.config
  {
  }

  /** A successful write is read back: the next read succeeds, and what it returns decodes to the content's value. */
  lemma WriteIsReadBack(codec: Codec, content: string, io: IO, f: Files, readIO: IO)
    requires RoundTrips(codec) && Succeeds(codec, Command("write", content), io, f)
    requires Resolved(readIO) && readIO.readOk
    ensures var after := After(codec, Command("write", content), io, f);
      && Succeeds(codec, Command("read", ""), readIO, after)
      && codec.decode(after.config.value) == codec.decode(content)
  {
    var step := Step(Command("write", content), io);
    assert [step][..0] == [];
    assert Exec(codec, f, [step]) == After(codec, step.cmd, step.io, f);
    assert LastContent(codec, [step]) == Some(content);
    FileHoldsTheLastContent(codec, f, [step]);
  }

  /** A write of JSON text succeeds whenever the file system lets it, and is refused when the text is empty or no JSON. */
  lemma GoodWriteSucceeds(codec: Codec, content: string, io: IO, f: Files)
    requires Resolved(io) && io.mkdirOk && io.writeOk
    ensures Succeeds(codec, Command("write", content), io, f) <==> content != "" && codec.decode(content).Some?
  {
  }

  /** A read or a check succeeds exactly on a readable file of JSON text, and changes nothing. */
  lemma ReadSucceedsExactly(codec: Codec, action: string, content: string, io: IO, f: Files)
    requires action == "" || action == "read" || action == "validate"
    ensures Succeeds(codec, Command(action, content), io, f) <==>
      Resolved(io) && io.readOk && f.config.Some? && codec.decode(f.config.value).Some?
    ensures After(codec, Command(action, content), io, f) == f
  {
  }

  /** Any other action is refused and changes nothing. */
  lemma UnknownActionIsRefused(codec: Codec, cmd: Command, io: IO, f: Files)
    requires cmd.action != "" && cmd.action != "read" && cmd.action != "validate" && cmd.action != "write"
    ensures !Succeeds(codec, cmd, io, f) && After(codec, cmd, io, f) == f
  {
  }

  /** A write that replaces the file keeps the text it replaced, if that could be read and backed up. */
  lemma ReplacedTextIsKept(codec: Codec, cmd: Command, io: IO, f: Files)
    requires After(codec, cmd, io, f).config != f.config && f.config.Some? && io.readOk && io.backupOk
    ensures After(codec, cmd, io, f).backup == f.config
  {
  }
}
