/** The pod agent's command line: global flags, a command, and the flags that the command defines. */
module AgentCommand {
  import opened Model
  import opened Seqs
  import opened Strings

  const REGISTER := "register"
  const THREAT_SCAN := "threat-scan"
  const FILE_PATHS := "register-file-paths"
  const IGNORE_PATHS := "register-file-ignore-paths"
  const REGISTER_RULES := "register-rules"
  const INTERVAL := "file-validation-interval"

  datatype Flag = Flag(name: string, value: string)

  function Print(f: Flag): string {
    "--" + f.name + "=" + f.value
  }

  function PrintAll(flags: seq<Flag>): seq<string> {
    if flags == [] then [] else [Print(flags[0])] + PrintAll(flags[1..])
  }

  lemma {:induction false} PrintAppend(a: seq<Flag>, b: seq<Flag>)
    ensures PrintAll(a + b) == PrintAll(a) + PrintAll(b)
  {
    if a == [] {
      assert a + b == b;
    } else {
      PrintAppend(a[1..], b);
      assert (a + b)[1..] == a[1..] + b;
      Associate([Print(a[0])], PrintAll(a[1..]), PrintAll(b));
    }
  }

  /** Reads `--name=value`, the one form in which the webhook writes flags. */
  function ParseFlag(arg: string): Option<Flag> {
    if !("--" <= arg) then None
    else
      var i := Index(arg[2..], "=");
      if i <= 0 || arg[2] == '-' then None else Some(Flag(arg[2..2 + i], arg[3 + i..]))
  }

  predicate Wellformed(f: Flag) {
    f.name != "" && f.name[0] != '-' && '=' !in f.name
  }

  lemma PrintedIsParsed(f: Flag)
    requires Wellformed(f)
    ensures ParseFlag(Print(f)) == Some(f)
  {
    var rest := f.name + "=" + f.value;
    FirstIndex(f.name, '=', f.value);
    assert Print(f)[2..] == rest;
    assert Print(f)[2] == rest[0] == f.name[0];
    assert Print(f)[2..2 + |f.name|] == f.name;
    assert Print(f)[3 + |f.name|..] == f.value;
  }

  /** The flags a command takes: the global ones, those of both commands, and those of its own. */
  function Defined(command: string): set<string> {
    {"log-level", "log-formatter", "host", "port", "pod-labels-file", "pod-name", "pod-uid", "namespace", INTERVAL}
    + if command == REGISTER then {REGISTER_RULES, FILE_PATHS, IGNORE_PATHS} else {}
  }

  /** `isDuration` tells the texts that Go reads as durations. */
  predicate Accepts(command: string, isDuration: string -> bool, f: Flag) {
    f.name in Defined(command) && (f.name == INTERVAL ==> isDuration(f.value))
  }

  /** The values of flags by name; a later one overrides. */
  function Values(flags: seq<Flag>): map<string, string> {
    if flags == [] then map[]
    else
      var last := flags[|flags| - 1];
      Values(flags[..|flags| - 1])[last.name := last.value]
  }

  function ParseFlags(command: string, isDuration: string -> bool, args: seq<string>): Option<map<string, string>> {
    if args == [] then Some(map[])
    else
      var before := ParseFlags(command, isDuration, args[..|args| - 1]);
      var last := ParseFlag(args[|args| - 1]);
      if before.None? || last.None? || !Accepts(command, isDuration, last.value) then None
      else Some(before.value[last.value.name := last.value.value])
  }

  /** Flags that were printed are read back, exactly if the command accepts them all. */
  lemma {:induction false} PrintedAreParsed(command: string, isDuration: string -> bool, flags: seq<Flag>)
    requires forall f :: f in flags ==> Wellformed(f)
    ensures ParseFlags(command, isDuration, PrintAll(flags))
            == if forall f :: f in flags ==> Accepts(command, isDuration, f) then Some(Values(flags)) else None
  {
    if flags != [] {
      var n := |flags| - 1;
      var before, last := flags[..n], flags[n];
      assert flags == before + [last];
      PrintedAreParsed(command, isDuration, before);
      PrintAppend(before, [last]);
      assert PrintAll([last]) == [Print(last)];
      assert PrintAll(flags)[..|PrintAll(flags)| - 1] == PrintAll(before);
      PrintedIsParsed(last);
    }
  }

  lemma {:induction false} ValuesAppend(a: seq<Flag>, b: seq<Flag>)
    ensures Values(a + b) == Values(a) + Values(b)
  {
    if b == [] {
      assert a + b == a;
    } else {
      var n := |b| - 1;
      ValuesAppend(a, b[..n]);
      assert (a + b)[..|a| + n] == a + b[..n] && (a + b)[|a| + n] == b[n];
      PutLast(Values(a), Values(b[..n]), b[n].name, b[n].value);
    }
  }

  /** A flag that no later one overrides has its value. */
  lemma {:induction false} LastHolds(flags: seq<Flag>, i: nat)
    requires i < |flags| && forall j :: i < j < |flags| ==> flags[j].name != flags[i].name
    ensures flags[i].name in Values(flags) && Values(flags)[flags[i].name] == flags[i].value
  {
    if i < |flags| - 1 {
      LastHolds(flags[..|flags| - 1], i);
    }
  }

  datatype CommandLine = CommandLine(command: string, values: map<string, string>)
  {
    function Value(name: string, default: string): string {
      if name in values then values[name] else default
    }
  }

  /** Where the command stands: at the first argument that is no flag. */
  function CommandAt(args: seq<string>): nat {
    if args == [] || !("-" <= args[0]) then 0 else 1 + CommandAt(args[1..])
  }

  predicate LogsKnown(line: CommandLine) {
    && line.Value("log-level", "info") in {"debug", "info", "warn", "warning", "error", "fatal"}
    && line.Value("log-formatter", "text") in {"json", "text"}
  }

  /** What a command makes of its flags. */
  function ParseFor(command: string, isDuration: string -> bool, args: seq<string>): Option<CommandLine> {
    var values := ParseFlags(command, isDuration, args);
    if values.None? || !LogsKnown(CommandLine(command, values.value)) then None
    else Some(CommandLine(command, values.value))
  }

  /** What the agent makes of its arguments: nothing if there is no such command, if a flag is unknown to
      it or has an unusable value, or if the log settings are none of those known. */
  function ParseCommandLine(isDuration: string -> bool, args: seq<string>): Option<CommandLine> {
    var i := CommandAt(args);
    if i < |args| && (args[i] == REGISTER || args[i] == THREAT_SCAN)
    then ParseFor(args[i], isDuration, args[..i] + args[i + 1..])
    else None
  }

  /** A flag, a command and more flags, as printed, are read back exactly if the command accepts them. */
  lemma PrintedLineIsParsed(isDuration: string -> bool, first: Flag, command: string, flags: seq<Flag>)
    requires command == REGISTER || command == THREAT_SCAN
    requires first.name == "log-formatter" && forall f :: f in flags ==> Wellformed(f)
    requires forall f :: f in flags ==> f.name != "log-formatter" && f.name != "log-level"
    ensures ParseCommandLine(isDuration, [Print(first), command] + PrintAll(flags))
            == if first.value in {"json", "text"} && forall f :: f in flags ==> Accepts(command, isDuration, f)
               then Some(CommandLine(command, Values([first] + flags))) else None
  {
    CommandStandsSecond(Print(first), command, PrintAll(flags));
    assert [Print(first)] + PrintAll(flags) == PrintAll([first] + flags) by {
      assert ([first] + flags)[0] == first && ([first] + flags)[1..] == flags;
    }
    PrintedForIsParsed(isDuration, first, command, flags);
  }

  lemma PrintedForIsParsed(isDuration: string -> bool, first: Flag, command: string, flags: seq<Flag>)
    requires first.name == "log-formatter" && forall f :: f in flags ==> Wellformed(f)
    requires forall f :: f in flags ==> f.name != "log-formatter" && f.name != "log-level"
    ensures ParseFor(command, isDuration, PrintAll([first] + flags))
            == if first.value in {"json", "text"} && forall f :: f in flags ==> Accepts(command, isDuration, f)
               then Some(CommandLine(command, Values([first] + flags))) else None
  {
    var all := [first] + flags;
    assert forall f :: f in all <==> f == first || f in flags;
    assert Wellformed(first) && Accepts(command, isDuration, first) by {
      FormatterIsAccepted(first, command, isDuration);
    }
    PrintedAreParsed(command, isDuration, all);
    FormatterDecides(command, first, flags);
  }

  lemma FormatterIsAccepted(f: Flag, command: string, isDuration: string -> bool)
    requires f.name == "log-formatter"
    ensures Wellformed(f) && Accepts(command, isDuration, f)
  {
    assert f.name[0] != INTERVAL[0];
  }

  lemma FormatterDecides(command: string, first: Flag, flags: seq<Flag>)
    requires first.name == "log-formatter"
    requires forall f :: f in flags ==> f.name != "log-formatter" && f.name != "log-level"
    ensures LogsKnown(CommandLine(command, Values([first] + flags))) <==> first.value in {"json", "text"}
  {
    LogSettings(first, flags);
  }

  lemma CommandStandsSecond(first: string, command: string, rest: seq<string>)
    requires "-" <= first && (command == REGISTER || command == THREAT_SCAN)
    ensures var args := [first, command] + rest;
            CommandAt(args) == 1 && args[1] == command && args[..1] == [first] && args[2..] == rest
  {
    var args := [first, command] + rest;
    assert args[1..][0] == command && command[0] != '-';
    assert CommandAt(args[1..]) == 0;
  }

  lemma LogSettings(first: Flag, flags: seq<Flag>)
    requires first.name == "log-formatter"
    requires forall f :: f in flags ==> f.name != "log-formatter" && f.name != "log-level"
    ensures var values := Values([first] + flags);
            "log-level" !in values && "log-formatter" in values && values["log-formatter"] == first.value
  {
    ValuesAppend([first], flags);
    ValuesNames(flags);
    assert [first][..0] == [];
    assert Values([first]) == map["log-formatter" := first.value];
  }

  lemma {:induction false} ValuesNames(flags: seq<Flag>)
    ensures forall n :: n in Values(flags) <==> exists f :: f in flags && f.name == n
  {
    if flags != [] {
      var n := |flags| - 1;
      ValuesNames(flags[..n]);
      assert flags == flags[..n] + [flags[n]];
    }
  }
}
