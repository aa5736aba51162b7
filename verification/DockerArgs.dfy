/**
  The option check of src/docker_args.rs, against the flag parser that Docker uses for
  exec, run and create: options first, and everything after the first operand belongs to
  the container's command.

  `Parse` is that parser, written from its rules, over Docker's own table of options. That has
  the wrapper's options and also those that choose another target, which the wrapper must not
  let by.
 */
module DockerArgs {
  import opened Outcomes
  import opened DockerFlags

  datatype Refusal =
    | NoCommand | BadCommand | TargetOverride | MisplacedSubcommand | BuilderOverride | Ambiguous
    | UnsupportedLong(name: string) | UnsupportedShort(letter: char) | NeedsValue | HostOverride | ContextOverride

  const TARGETS: set<string> := {"--context", "--host", "--config"}

  const BOOLEANS: set<string> := {"debug", "help", "version", "detach", "interactive", "tty", "privileged"}

  const VALUES: set<string> := {"log-level", "detach-keys", "env", "env-file", "user", "workdir"}

  const CREATE_BOOLEANS: set<string> := {
    "disable-content-trust", "init", "no-healthcheck", "oom-kill-disable", "publish-all", "quiet", "read-only",
    "rm", "sig-proxy", "use-api-socket"
  }

  const VALUES_A_TO_C: set<string> := {
    "add-host", "annotation", "attach", "blkio-weight", "blkio-weight-device", "cap-add", "cap-drop",
    "cgroup-parent", "cgroupns", "cidfile", "cpu-count", "cpu-percent", "cpu-period", "cpu-quota",
    "cpu-rt-period", "cpu-rt-runtime", "cpu-shares", "cpus", "cpuset-cpus", "cpuset-mems"
  }

  const VALUES_D_TO_G: set<string> := {
    "device", "device-cgroup-rule", "device-read-bps", "device-read-iops", "device-write-bps",
    "device-write-iops", "dns", "dns-option", "dns-search", "domainname", "entrypoint", "expose", "gpus",
    "group-add"
  }

  const VALUES_H_TO_L: set<string> := {
    "health-cmd", "health-interval", "health-retries", "health-start-interval", "health-start-period",
    "health-timeout", "hostname", "io-maxbandwidth", "io-maxiops", "ip", "ip6", "ipc", "isolation", "label",
    "label-file", "link", "link-local-ip", "log-driver", "log-opt"
  }

  const VALUES_M_TO_R: set<string> := {
    "mac-address", "memory", "memory-reservation", "memory-swap", "memory-swappiness", "mount", "name",
    "network", "network-alias", "oom-score-adj", "pid", "pids-limit", "platform", "publish", "pull", "restart",
    "runtime"
  }

  const VALUES_S_TO_Z: set<string> := {
    "security-opt", "shm-size", "stop-signal", "stop-timeout", "storage-opt", "sysctl", "tmpfs", "ulimit",
    "userns", "uts", "volume", "volume-driver", "volumes-from"
  }

  predicate CreateValue(name: string) {
    || name in VALUES_A_TO_C || name in VALUES_D_TO_G || name in VALUES_H_TO_L
    || name in VALUES_M_TO_R || name in VALUES_S_TO_Z
  }

  /** `long_option` */
  function LongArity(name: string, command: Command): Option<Arity> {
    if name in BOOLEANS then Some(Boolean)
    else if name in VALUES then Some(Value)
    else if command == Exec then None
    else if name in CREATE_BOOLEANS then Some(Boolean)
    else if CreateValue(name) then Some(Value)
    else None
  }

  /** The table in `short_options`. */
  function ShortArity(c: char, command: Command): Option<Arity> {
    if c in {'d', 'i', 't', 'D'} then Some(Boolean)
    else if command == Exec then
      if c in {'h', 'v'} then Some(Boolean) else if c in {'e', 'u', 'w', 'l'} then Some(Value) else None
    else if c in {'P', 'q'} then Some(Boolean)
    else if c in {'a', 'c', 'e', 'h', 'l', 'm', 'p', 'u', 'v', 'w'} then Some(Value)
    else None
  }

  /** The text before the first '='. */
  function NameOf(s: string): string {
    if s == "" || s[0] == '=' then "" else [s[0]] + NameOf(s[1..])
  }

  predicate IsOperand(s: string) {
    s == "--" || s == "-" || s == "" || s[0] != '-'
  }

  predicate StartsWithDash(s: string) {
    s != "" && s[0] == '-'
  }

  predicate IsLong(s: string) {
    |s| > 2 && s[0] == '-' && s[1] == '-'
  }

  // ----- The reference parser -----

  datatype Flag = Long(name: string) | Short(letter: char)
  datatype Parsed = Parsed(flags: seq<Flag>, operand: nat)

  /** A cluster of short options: the options, and whether the last one needs the next argument. */
  function ParseShorts(shorts: string, command: Command): Option<(seq<Flag>, bool)> {
    if shorts == "" then Some(([], false)) else
      var arity := ShortFlag(shorts[0], command);
      var flag := Short(shorts[0]);
      if arity.None? then None
      else if |shorts| > 2 && shorts[1] == '=' then Some(([flag], false))
      else if arity == Some(Boolean) then
        var rest := ParseShorts(shorts[1..], command);
        if rest.None? then None else Some(([flag] + rest.value.0, rest.value.1))
      else Some(([flag], |shorts| == 1))
  }

  /** The options from argument `i` on, and the position of the operand. */
  function Parse(args: seq<string>, i: nat, command: Command): (r: Option<Parsed>)
    requires i <= |args|
    decreases |args| - i
  {
    if i == |args| || IsOperand(args[i]) then Some(Parsed([], i))
    else if IsLong(args[i]) then
      var body := args[i][2..];
      var name := NameOf(body);
      var arity := LongFlag(name, command);
      if body[0] == '-' || body[0] == '=' || arity.None? then None
      else if name != body || arity == Some(Boolean) then Onward(args, i, 1, [Long(name)], command)
      else Onward(args, i, 2, [Long(name)], command)
    else
      var shorts := ParseShorts(args[i][1..], command);
      if shorts.None? then None
      else Onward(args, i, if shorts.value.1 then 2 else 1, shorts.value.0, command)
  }

  function Onward(args: seq<string>, i: nat, n: nat, flags: seq<Flag>, command: Command): Option<Parsed>
    requires i < |args| && n > 0
    decreases |args| - i, 0
  {
    if i + n > |args| then None else
      var rest := Parse(args, i + n, command);
      if rest.None? then None else Some(Parsed(flags + rest.value.flags, rest.value.operand))
  }

  predicate ChoosesTarget(f: Flag, command: Command) {
    if f.Long? then f.name in TARGET
    else Shorthand(f.letter, command).Some? && Shorthand(f.letter, command).value in TARGET
  }

  // ----- The wrapper's check -----

  /** `short_options`, from letter `k` on: how many arguments the cluster takes. */
  function ShortTaken(short: string, k: nat, last: bool, command: Command): (r: Result<nat, Refusal>)
    ensures r.Ok? ==> 1 <= r.value <= if last then 1 else 2
    decreases |short| - k
  {
    if k >= |short| then Ok(1)
    else if short[k] == 'H' then Err(HostOverride)
    else if short[k] == 'c' && command == Exec then Err(ContextOverride)
    else
      var arity := ShortArity(short[k], command);
      if arity.None? then Err(UnsupportedShort(short[k]))
      else if arity == Some(Value) then
        if k + 1 < |short| then Ok(1) else if last then Err(NeedsValue) else Ok(2)
      else if k + 1 < |short| && short[k + 1] == '=' then Ok(1)
      else ShortTaken(short, k + 1, last, command)
  }

  /** How many arguments the option at `i` takes. */
  function Taken(args: seq<string>, i: nat, command: Command): (r: Result<nat, Refusal>)
    requires i < |args| && !IsOperand(args[i])
    ensures r.Ok? ==> r.value > 0 && i + r.value <= |args|
  {
    if IsLong(args[i]) then
      var body := args[i][2..];
      var name := NameOf(body);
      var arity := LongArity(name, command);
      if arity.None? then Err(UnsupportedLong(name))
      else if arity == Some(Boolean) || name != body then Ok(1)
      else if i + 1 < |args| then Ok(2) else Err(NeedsValue)
    else ShortTaken(args[i], 1, i + 1 == |args|, command)
  }

  /** Where the check of the options from `i` on stops. */
  function Checked(args: seq<string>, i: nat, command: Command): (r: Result<nat, Refusal>)
    requires i <= |args|
    ensures r.Ok? ==> i <= r.value <= |args|
    decreases |args| - i
  {
    if i == |args| || IsOperand(args[i]) then Ok(i) else
      var taken :- Taken(args, i, command);
      Checked(args, i + taken, command)
  }

  /** Where a command's own arguments start. */
  function OptionsAt(args: seq<string>): nat {
    if |args| > 1 && args[0] == "container" then 2 else 1
  }

  function CommandOf(args: seq<string>): string
    requires args != []
  {
    if |args| > 1 && args[0] == "container" then args[1] else args[0]
  }

  function KindOf(command: string): Option<Command> {
    if command == "exec" then Some(Exec) else if command == "run" || command == "create" then Some(Create) else None
  }

  predicate NamesTarget(s: string) {
    NameOf(s) in TARGETS
  }

  predicate IsBuilder(s: string) {
    s == "--builder" || "--builder=" <= s
  }

  predicate IsAmbiguous(s: string) {
    |s| > 0 && s[0] == '-' && !(|s| > 1 && s[1] == '-') && ('c' in s || 'H' in s)
  }

  /** What the check of a command other than exec, run and create refuses, in order. */
  function OtherRefusal(args: seq<string>, i: nat): Option<Refusal>
    decreases |args| - i
  {
    if i >= |args| then None
    else if IsBuilder(args[i]) then Some(BuilderOverride)
    else if IsAmbiguous(args[i]) then Some(Ambiguous)
    else OtherRefusal(args, i + 1)
  }

  /** The first target name in the arguments. */
  predicate AnyTarget(args: seq<string>, i: nat)
    decreases |args| - i
  {
    i < |args| && (NamesTarget(args[i]) || AnyTarget(args, i + 1))
  }

  /** The verdict, with the position of the operand where there is one to find. */
  function Verdict(args: seq<string>): Result<Option<nat>, Refusal> {
    if args == [] then Err(NoCommand)
    else if args[0] == "" || args[0][0] == '-' || args[0] == "context" then Err(BadCommand)
    else if AnyTarget(args, 0) then Err(TargetOverride)
    else if args[0] == "container" && |args| == 1 then Ok(None)
    else if args[0] == "container" && args[1] != "" && args[1][0] == '-' then Err(MisplacedSubcommand)
    else if KindOf(CommandOf(args)).Some? then
      var operand := Checked(args, OptionsAt(args), KindOf(CommandOf(args)).value);
      if operand.Err? then Err(operand.error) else Ok(Some(operand.value))
    else
      var refusal := OtherRefusal(args, OptionsAt(args));
      if refusal.Some? then Err(refusal.value) else Ok(None)
  }

  // ----- The methods -----

  method ShortOptions(args: seq<string>, index: nat, command: Command) returns (r: Result<nat, Refusal>)
    requires index < |args| && !IsOperand(args[index]) && !IsLong(args[index])
    ensures r == Taken(args, index, command)
  {
    var short := args[index];
    for k := 1 to |short|
      invariant Taken(args, index, command) == ShortTaken(short, k, index + 1 == |args|, command)
    {
      if short[k] == 'H' {
        return Err(HostOverride);
      }
      if short[k] == 'c' && command != Create {
        return Err(ContextOverride);
      }
      var arity := ShortArity(short[k], command);
      if arity.None? {
        return Err(UnsupportedShort(short[k]));
      }
      if arity == Some(Value) {
        if k + 1 == |short| {
          return if index + 1 < |args| then Ok(2) else Err(NeedsValue);
        }
        return Ok(1);
      }
      if k + 1 < |short| && short[k + 1] == '=' {
        return Ok(1);
      }
    }
    return Ok(1);
  }

  method LongOption(args: seq<string>, index: nat, command: Command) returns (r: Result<nat, Refusal>)
    requires index < |args| && IsLong(args[index])
    ensures r == Taken(args, index, command)
  {
    hide LongArity;
    var long := args[index][2..];
    var name := NameOf(long);
    var arity := LongArity(name, command);
    if arity.None? {
      return Err(UnsupportedLong(name));
    }
    if arity == Some(Boolean) || name != long {
      return Ok(1);
    }
    return if index + 1 < |args| then Ok(2) else Err(NeedsValue);
  }

  /** `validate_container_options` on the arguments from `start` on. */
  method ValidateContainerOptions(args: seq<string>, start: nat, command: Command) returns (r: Result<nat, Refusal>)
    requires start <= |args|
    ensures r == Checked(args, start, command)
  {
    hide Taken, IsLong;
    var index := start;
    while index < |args|
      invariant index <= |args| && Checked(args, start, command) == Checked(args, index, command)
    {
      if IsOperand(args[index]) {
        return Ok(index);
      }
      var taken;
      if IsLong(args[index]) {
        taken := LongOption(args, index, command);
      } else {
        taken := ShortOptions(args, index, command);
      }
      if taken.Err? {
        return Err(taken.error);
      }
      index := index + taken.value;
    }
    return Ok(index);
  }

  /** `validate` */
  method Validate(args: seq<string>) returns (r: Result<Option<nat>, Refusal>)
    ensures r == Verdict(args)
  {
    hide Checked, NamesTarget, IsBuilder, IsAmbiguous;
    if args == [] {
      return Err(NoCommand);
    }
    if args[0] == "" || args[0][0] == '-' || args[0] == "context" {
      return Err(BadCommand);
    }
    for i := 0 to |args|
      invariant AnyTarget(args, 0) <==> AnyTarget(args, i)
    {
      if NamesTarget(args[i]) {
        return Err(TargetOverride);
      }
    }
    var command, start := args[0], 1;
    if command == "container" {
      if |args| == 1 {
        return Ok(None);
      }
      if args[1] != "" && args[1][0] == '-' {
        return Err(MisplacedSubcommand);
      }
      command, start := args[1], 2;
    }
    if command == "exec" || command == "run" || command == "create" {
      var operand := ValidateContainerOptions(args, start, if command == "exec" then Exec else Create);
      return if operand.Err? then Err(operand.error) else Ok(Some(operand.value));
    }
    for i := start to |args|
      invariant OtherRefusal(args, start) == OtherRefusal(args, i)
    {
      if IsBuilder(args[i]) {
        return Err(BuilderOverride);
      }
      if IsAmbiguous(args[i]) {
        return Err(Ambiguous);
      }
    }
    return Ok(None);
  }

  // ----- The tables -----

  lemma CreateValuesAgree(name: string)
    ensures CreateValue(name) <==> IsCreateValue(name)
  {
  }

  /** The wrapper knows Docker's options, without those that choose a target. */
  lemma TablesAgree(name: string, command: Command)
    ensures LongArity(name, command) == if name in TARGET then None else LongFlag(name, command)
  {
    hide CreateValue, IsCreateValue;
    CreateValuesAgree(name);
    NoCreateTarget(name);
  }

  lemma NoCreateTarget(name: string)
    ensures name in TARGET ==> !CreateValue(name)
  {
  }

  lemma ShortTablesAgree(c: char, command: Command)
    ensures ChoosesTarget(Short(c), command) <==> c == 'H' || (c == 'c' && command == Exec)
    ensures !ChoosesTarget(Short(c), command) ==> ShortArity(c, command) == ShortFlag(c, command)
    ensures ChoosesTarget(Short(c), command) ==> ShortFlag(c, command) == Some(Value)
  {
  }

  // ----- Agreement with the reference parser -----

  /** A cluster of boolean letters with a single '=' at its very end; the reference parser takes that for an option. */
  predicate Dangling(short: string, k: nat, command: Command)
    decreases |short| - k
  {
    && k + 1 < |short| && ShortArity(short[k], command) == Some(Boolean)
    && if short[k + 1] == '=' then k + 2 == |short| else Dangling(short, k + 1, command)
  }

  /** One of the options that are checked from `i` on dangles. */
  predicate AnyDangling(args: seq<string>, i: nat, command: Command)
    requires i <= |args|
    decreases |args| - i
  {
    && i < |args| && !IsOperand(args[i]) && Taken(args, i, command).Ok?
    && (|| (!IsLong(args[i]) && Dangling(args[i], 1, command))
        || AnyDangling(args, i + Taken(args, i, command).value, command))
  }

  predicate NoTarget(flags: seq<Flag>, command: Command) {
    forall f :: f in flags ==> !ChoosesTarget(f, command)
  }

  lemma {:induction false} ShortsAgree(short: string, k: nat, last: bool, command: Command)
    requires k <= |short| && ShortTaken(short, k, last, command).Ok?
    ensures var p := ParseShorts(short[k..], command);
            && (p.Some? <==> !Dangling(short, k, command))
            && (p.Some? ==>
                  NoTarget(p.value.0, command) && (p.value.1 <==> ShortTaken(short, k, last, command) == Ok(2)))
    decreases |short| - k
  {
    if k < |short| {
      hide ShortArity, ShortFlag, ChoosesTarget;
      ShortTablesAgree(short[k], command);
      var shorts := short[k..];
      assert shorts[1..] == short[k + 1..];
      assert |shorts| > 1 ==> shorts[1] == short[k + 1];
      if ShortArity(short[k], command) == Some(Boolean) {
        if k + 1 < |short| && short[k + 1] == '=' {
          if k + 2 == |short| {
            assert short[k + 1..] == "=";
          }
        } else {
          ShortsAgree(short, k + 1, last, command);
        }
      }
    }
  }

  lemma NameOfLong(s: string)
    requires IsLong(s)
    ensures NameOf(s) == "--" + NameOf(s[2..])
  {
    assert s[1..][1..] == s[2..];
    assert NameOf(s[1..]) == "-" + NameOf(s[2..]);
  }

  /** No option name is empty or begins with a dash. */
  lemma TableNames(name: string, command: Command)
    requires LongArity(name, command).Some?
    ensures name != "" && name[0] != '-'
  {
  }

  lemma LongAgrees(s: string, command: Command)
    requires IsLong(s) && !NamesTarget(s) && LongArity(NameOf(s[2..]), command).Some?
    ensures s[2] != '-' && s[2] != '='
    ensures LongFlag(NameOf(s[2..]), command) == LongArity(NameOf(s[2..]), command)
    ensures !ChoosesTarget(Long(NameOf(s[2..])), command)
  {
    NameOfLong(s);
    TableNames(NameOf(s[2..]), command);
    TablesAgree(NameOf(s[2..]), command);
    hide LongArity, LongFlag;
    var name := NameOf(s[2..]);
    assert "--" + "context" == "--context" && "--" + "host" == "--host" && "--" + "config" == "--config";
  }

  lemma {:induction false} TargetsOnward(args: seq<string>, i: nat, j: nat)
    requires i <= j <= |args| && !AnyTarget(args, i)
    ensures !AnyTarget(args, j)
    decreases j - i
  {
    if i < j {
      TargetsOnward(args, i + 1, j);
    }
  }

  lemma {:induction false} AgreesFrom(args: seq<string>, i: nat, command: Command)
    requires i <= |args| && Checked(args, i, command).Ok? && !AnyTarget(args, i)
    ensures var p := Parse(args, i, command);
            && (p.Some? <==> !AnyDangling(args, i, command))
            && (p.Some? ==> p.value.operand == Checked(args, i, command).value && NoTarget(p.value.flags, command))
    decreases |args| - i
  {
    hide LongArity, LongFlag, NamesTarget, ShortTaken, ParseShorts, NameOf, Dangling;
    if i < |args| && !IsOperand(args[i]) {
      var n := Taken(args, i, command).value;
      TargetsOnward(args, i, i + n);
      AgreesFrom(args, i + n, command);
      if IsLong(args[i]) {
        LongAgrees(args[i], command);
      } else {
        ShortsAgree(args[i], 1, i + 1 == |args|, command);
      }
    }
  }

  /**
    For an accepted exec, run or create, with or without `container`: the reference parser
    fails on the arguments exactly when an option dangles, and otherwise stops at the same
    operand without having seen an option that chooses another target.
   */
  lemma AcceptedOptionsAgree(args: seq<string>)
    requires Verdict(args).Ok? && Verdict(args).value.Some?
    ensures args != [] && KindOf(CommandOf(args)).Some? && OptionsAt(args) <= |args|
    ensures var p := Parse(args, OptionsAt(args), KindOf(CommandOf(args)).value);
            && (p.Some? <==> !AnyDangling(args, OptionsAt(args), KindOf(CommandOf(args)).value))
            && (p.Some? ==>
                  && Some(p.value.operand) == Verdict(args).value
                  && NoTarget(p.value.flags, KindOf(CommandOf(args)).value))
  {
    hide Parse, AnyDangling, NamesTarget, Checked;
    TargetsOnward(args, 0, OptionsAt(args));
    AgreesFrom(args, OptionsAt(args), KindOf(CommandOf(args)).value);
  }

  /** A cluster that the reference parser reads, without a target, is taken the same way. */
  lemma {:induction false} ParsedShorts(short: string, k: nat, last: bool, command: Command)
    requires k <= |short| && ParseShorts(short[k..], command).Some?
    requires NoTarget(ParseShorts(short[k..], command).value.0, command)
    requires ParseShorts(short[k..], command).value.1 ==> !last
    ensures ShortTaken(short, k, last, command) == Ok(if ParseShorts(short[k..], command).value.1 then 2 else 1)
    decreases |short| - k
  {
    if k < |short| {
      hide ShortArity, ShortFlag, ChoosesTarget;
      ShortTablesAgree(short[k], command);
      var shorts := short[k..];
      assert shorts[1..] == short[k + 1..];
      assert |shorts| > 1 ==> shorts[1] == short[k + 1];
      var p := ParseShorts(shorts, command).value;
      assert p.0[0] == Short(short[k]) && !ChoosesTarget(p.0[0], command);
      if ShortArity(short[k], command) == Some(Boolean) && !(|shorts| > 2 && shorts[1] == '=') {
        var rest := ParseShorts(shorts[1..], command).value.0;
        assert forall f :: f in rest ==> f in p.0;
        EqualsIsNoLetter(command);
        assert shorts[1..] != "" ==> shorts[1..][0] == shorts[1];
        ParsedShorts(short, k + 1, last, command);
      }
    }
  }

  lemma EqualsIsNoLetter(command: Command)
    ensures ShortFlag('=', command).None?
  {
  }

  lemma ParsedLong(s: string, command: Command)
    requires IsLong(s) && LongFlag(NameOf(s[2..]), command).Some?
    requires !ChoosesTarget(Long(NameOf(s[2..])), command)
    ensures LongArity(NameOf(s[2..]), command) == LongFlag(NameOf(s[2..]), command)
  {
    hide LongArity, LongFlag;
    TablesAgree(NameOf(s[2..]), command);
  }

  lemma {:induction false} ParsedFrom(args: seq<string>, i: nat, command: Command)
    requires i <= |args| && Parse(args, i, command).Some? && NoTarget(Parse(args, i, command).value.flags, command)
    ensures Checked(args, i, command) == Ok(Parse(args, i, command).value.operand)
    decreases |args| - i
  {
    hide LongArity, LongFlag, ShortTaken, ParseShorts, NameOf, ChoosesTarget;
    if i < |args| && !IsOperand(args[i]) {
      var p := Parse(args, i, command).value;
      var flags, n := FlagsAt(args, i, command), TakenAt(args, i, command);
      var rest := Parse(args, i + n, command).value.flags;
      assert p.flags == flags + rest;
      assert forall f :: f in rest ==> f in p.flags;
      ParsedFrom(args, i + n, command);
      assert forall f :: f in flags ==> f in p.flags;
      if IsLong(args[i]) {
        assert flags[0] in p.flags;
        ParsedLong(args[i], command);
      } else {
        ParsedShorts(args[i], 1, i + 1 == |args|, command);
      }
    }
  }

  /** What the reference parser takes at an option. */
  function FlagsAt(args: seq<string>, i: nat, command: Command): seq<Flag>
    requires i < |args| && !IsOperand(args[i]) && Parse(args, i, command).Some?
  {
    if IsLong(args[i]) then [Long(NameOf(args[i][2..]))] else ParseShorts(args[i][1..], command).value.0
  }

  function TakenAt(args: seq<string>, i: nat, command: Command): (n: nat)
    requires i < |args| && !IsOperand(args[i]) && Parse(args, i, command).Some?
    ensures n > 0 && i + n <= |args|
  {
    if IsLong(args[i]) then
      if NameOf(args[i][2..]) != args[i][2..] || LongFlag(NameOf(args[i][2..]), command) == Some(Boolean) then 1
      else
        assert Onward(args, i, 2, [Long(NameOf(args[i][2..]))], command).Some?;
        2
    else if ParseShorts(args[i][1..], command).value.1 then
      assert Onward(args, i, 2, ParseShorts(args[i][1..], command).value.0, command).Some?;
      2
    else
      1
  }

  /**
    Every exec, run or create that the reference parser reads, with or without `container`, is
    accepted exactly when no argument names a target and no option chooses one; and then the
    check stops at the same operand.
   */
  lemma ParsedIsAccepted(args: seq<string>)
    requires args != [] && args[0] != "" && args[0][0] != '-' && args[0] != "context"
    requires args[0] == "container" ==> |args| > 1 && !StartsWithDash(args[1])
    requires KindOf(CommandOf(args)).Some? && OptionsAt(args) <= |args|
    requires Parse(args, OptionsAt(args), KindOf(CommandOf(args)).value).Some?
    ensures var p := Parse(args, OptionsAt(args), KindOf(CommandOf(args)).value).value;
            if !AnyTarget(args, 0) && NoTarget(p.flags, KindOf(CommandOf(args)).value) then
              Verdict(args) == Ok(Some(p.operand))
            else
              Verdict(args).Err?
  {
    hide Parse, AnyDangling, NamesTarget, Checked, AnyTarget;
    if Verdict(args).Ok? {
      AcceptedOptionsAgree(args);
    }
    if NoTarget(Parse(args, OptionsAt(args), KindOf(CommandOf(args)).value).value.flags,
                KindOf(CommandOf(args)).value) {
      ParsedFrom(args, OptionsAt(args), KindOf(CommandOf(args)).value);
    }
  }

  /** Such an argument list exists: the wrapper accepts an empty inline value for a boolean letter. */
  lemma DanglingIsAccepted()
    ensures var args := ["exec", "-t=", "app"];
            Verdict(args) == Ok(Some(2)) && Parse(args, 1, Exec).None?
  {
    var args := ["exec", "-t=", "app"];
    assert !AnyTarget(args, 3);
    assert ShortTaken("-t=", 1, false, Exec) == Ok(1);
    assert Checked(args, 2, Exec) == Ok(2);
    ShortsAgree("-t=", 1, false, Exec);
  }

  // ----- What acceptance means for every command -----

  lemma {:induction false} NameIs(s: string, t: string)
    requires '=' !in t
    ensures NameOf(s) == t <==> s == t || t + "=" <= s
  {
    if s != "" && t != "" && s[0] == t[0] && s[0] != '=' {
      NameIs(s[1..], t[1..]);
      assert t == [t[0]] + t[1..] && s == [s[0]] + s[1..];
      assert t + "=" == [t[0]] + (t[1..] + "=");
    } else if t == "" {
      assert s != "" && s[0] == '=' ==> "=" <= s;
    }
  }

  /** The arguments that name a target: the three options, alone or with a value. */
  lemma TargetNames(s: string)
    ensures NamesTarget(s) <==>
      || s == "--context" || "--context=" <= s || s == "--host" || "--host=" <= s || s == "--config" || "--config=" <= s
  {
    hide NameOf;
    NameIs(s, "--context");
    NameIs(s, "--host");
    NameIs(s, "--config");
    assert "--context" + "=" == "--context=" && "--host" + "=" == "--host=" && "--config" + "=" == "--config=";
  }

  lemma {:induction false} AnyTargetMeaning(args: seq<string>, i: nat)
    requires i <= |args|
    ensures AnyTarget(args, i) <==> exists k :: i <= k < |args| && NamesTarget(args[k])
    decreases |args| - i
  {
    hide NamesTarget;
    if i < |args| {
      AnyTargetMeaning(args, i + 1);
    }
  }

  lemma {:induction false} OtherRefusalMeaning(args: seq<string>, i: nat)
    requires i <= |args|
    ensures OtherRefusal(args, i).None? <==>
      forall k :: i <= k < |args| ==> !IsBuilder(args[k]) && !IsAmbiguous(args[k])
    decreases |args| - i
  {
    hide IsBuilder, IsAmbiguous;
    if i < |args| {
      OtherRefusalMeaning(args, i + 1);
    }
  }

  /**
    No accepted argument names another target, wherever it stands; and for commands whose
    options are not known, alone or after `container`, acceptance means exactly that no argument
    names a target, that `container` comes before its options, and that none of these names a
    builder or could be a short target option.
   */
  lemma AcceptedArguments(args: seq<string>)
    requires args != [] && args[0] != "" && args[0][0] != '-' && args[0] != "context"
    ensures Verdict(args).Ok? ==> forall k :: 0 <= k < |args| ==> !NamesTarget(args[k])
    ensures KindOf(CommandOf(args)).None? ==>
      (Verdict(args).Ok? <==>
         && (forall k :: 0 <= k < |args| ==> !NamesTarget(args[k]))
         && (args[0] == "container" && |args| > 1 ==> !StartsWithDash(args[1]))
         && (forall k :: OptionsAt(args) <= k < |args| ==> !IsBuilder(args[k]) && !IsAmbiguous(args[k])))
  {
    hide NamesTarget, IsBuilder, IsAmbiguous, AnyTarget, OtherRefusal, Checked;
    AnyTargetMeaning(args, 0);
    OtherRefusalMeaning(args, OptionsAt(args));
  }

  // ----- The payload -----

  lemma {:induction false} CheckedBefore(a: seq<string>, b: seq<string>, i: nat, j: nat, command: Command)
    requires i <= j < |a| && j < |b| && a[..j + 1] == b[..j + 1]
    requires Checked(a, i, command) == Ok(j)
    ensures Checked(b, i, command) == Ok(j)
    decreases j - i
  {
    hide LongArity, NameOf;
    assert a[i] == a[..j + 1][i] == b[..j + 1][i] == b[i];
    if !IsOperand(a[i]) {
      var n := Taken(a, i, command).value;
      assert Checked(a, i + n, command) == Ok(j);
      CheckedBefore(a, b, i + n, j, command);
    }
  }

  lemma {:induction false} TargetsOfParts(head: seq<string>, tail: seq<string>, i: nat)
    requires i <= |head|
    ensures AnyTarget(head + tail, i) <==> AnyTarget(head, i) || AnyTarget(tail, 0)
    decreases |head| - i
  {
    hide NamesTarget;
    if i < |head| {
      TargetsOfParts(head, tail, i + 1);
    } else {
      TargetsShifted(head, tail, 0);
    }
  }

  lemma {:induction false} TargetsShifted(head: seq<string>, tail: seq<string>, i: nat)
    requires i <= |tail|
    ensures AnyTarget(head + tail, |head| + i) <==> AnyTarget(tail, i)
    decreases |tail| - i
  {
    hide NamesTarget;
    if i < |tail| {
      TargetsShifted(head, tail, i + 1);
    }
  }

  /** After the operand anything goes but the three target names: nothing else there changes the verdict. */
  lemma PayloadIsFree(args: seq<string>, payload: seq<string>)
    requires Verdict(args).Ok? && Verdict(args).value.Some? && Verdict(args).value.value < |args|
    ensures var j := Verdict(args).value.value;
            Verdict(args[..j + 1] + payload) == if AnyTarget(payload, 0) then Err(TargetOverride) else Ok(Some(j))
  {
    hide NamesTarget, Checked;
    var j := Verdict(args).value.value;
    var other := args[..j + 1] + payload;
    assert args == args[..j + 1] + args[j + 1..];
    assert other[..j + 1] == args[..j + 1];
    assert other[0] == args[0] && (OptionsAt(args) == 2 ==> other[1] == args[1]);
    TargetsOfParts(args[..j + 1], args[j + 1..], 0);
    TargetsOfParts(args[..j + 1], payload, 0);
    CheckedBefore(args, other, OptionsAt(args), j, KindOf(CommandOf(args)).value);
  }
}
