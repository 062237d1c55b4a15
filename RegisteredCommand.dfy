/** RegisteredCommand: one command bound to its handler method, with its gate checks,
    positional argument parsing, usage text and tab completion. */
module RegisteredCommands {
  import opened Wrappers
  import opened JavaStrings
  import opened CommandErrors
  import opened CommandAnnotations
  import opened CommandHandlers

  /** CommandInfo.ArgumentInfo: a parameter's @Arg elements together with its declared type. */
  datatype ArgumentInfo = ArgumentInfo(
    name: string,
    argType: ArgType,
    optional: bool,
    defaultValue: string,
    completionType: CompletionType,
    completions: seq<string>,
    completionMethod: string)

  datatype RegisteredCommand = RegisteredCommand(
    handler: Handler,
    commandMethod: CommandMethod,
    annotation: CommandSpec,
    arguments: seq<ArgumentInfo>,
    completionMethods: map<string, CompletionMethod>)

  /** CommandInfo: the read-only description getCommandInfo hands out. */
  datatype CommandInfo = CommandInfo(
    name: string,
    aliases: seq<string>,
    description: string,
    usage: string,
    permission: string,
    playerOnly: bool,
    consoleOnly: bool,
    arguments: seq<ArgumentInfo>)

  /** TabCompleter.complete(sender, command, args, currentArg). */
  type Completer = (Sender, string, seq<string>, string) -> seq<string>

  /** Double.parseDouble and Float.parseFloat, left uninterpreted: None is a NumberFormatException. */
  datatype FloatParsers = FloatParsers(parseDouble: string -> Option<real>, parseFloat: string -> Option<real>)

  // ---------------------------------------------------------------------------
  // parseArgument and getDefaultValueForType
  // ---------------------------------------------------------------------------

  /** The value's kind is one the declared type can hold; integers are within the type's range. */
  predicate Fits(t: ArgType, v: ArgValue) {
    match v
    case Null => !t.IsPrimitive()
    case Text(_) => t.StringParam? || t.ReferenceParam?
    case IntValue(i) => t.IntParam? && IntMin <= i <= IntMax
    case LongValue(l) => t.LongParam? && LongMin <= l <= LongMax
    case DoubleValue(_) => t.DoubleParam?
    case FloatValue(_) => t.FloatParam?
    case BoolValue(_) => t.BooleanParam?
  }

  /** The value of a parameter whose text is empty: the zero of a primitive type, else null. */
  function DefaultValueForType(t: ArgType): (v: ArgValue)
    ensures Fits(t, v)
    ensures v.Null? <==> !t.IsPrimitive()
    ensures v in {Null, IntValue(0), LongValue(0), DoubleValue(0.0), FloatValue(0.0), BoolValue(false)}
  {
    match t
    case IntParam(b) => if b then Null else IntValue(0)
    case DoubleParam(b) => if b then Null else DoubleValue(0.0)
    case FloatParam(b) => if b then Null else FloatValue(0.0)
    case LongParam(b) => if b then Null else LongValue(0)
    case BooleanParam(b) => if b then Null else BoolValue(false)
    case _ => Null
  }

  /** Boolean.parseBoolean: true exactly for "true" in any letter case. */
  function ParseBoolean(s: string): (b: bool)
    ensures b <==> |s| == 4 && LowerChar(s[0]) == 't' && LowerChar(s[1]) == 'r' &&
                   LowerChar(s[2]) == 'u' && LowerChar(s[3]) == 'e'
  {
    var l := Lower(s);
    assert |s| == 4 ==> (l == "true" <==> l[0] == 't' && l[1] == 'r' && l[2] == 'u' && l[3] == 'e') by {
      if |s| == 4 && l[0] == 't' && l[1] == 'r' && l[2] == 'u' && l[3] == 'e' {
        assert l == ['t', 'r', 'u', 'e'];
      }
    }
    l == "true"
  }

  /** parseArgument: coerces one token to the declared type; null is a NumberFormatException. */
  function ParseArgument(t: ArgType, value: string, floats: FloatParsers): (v: ArgValue)
    ensures value == "" ==> v == DefaultValueForType(t)
    ensures v.Null? || Fits(t, v)
    ensures value != "" && (t.StringParam? || t.ReferenceParam?) ==> v == Text(value)
    ensures value != "" && t.BooleanParam? ==> v == BoolValue(ParseBoolean(value))
  {
    if value == "" then DefaultValueForType(t)
    else
      match t
      case StringParam => Text(value)
      case IntParam(_) => (match ParseInt(value) case Some(n) => IntValue(n) case None => Null)
      case DoubleParam(_) => (match floats.parseDouble(value) case Some(x) => DoubleValue(x) case None => Null)
      case FloatParam(_) => (match floats.parseFloat(value) case Some(x) => FloatValue(x) case None => Null)
      case LongParam(_) => (match ParseLong(value) case Some(n) => LongValue(n) case None => Null)
      case BooleanParam(_) => BoolValue(ParseBoolean(value))
      case ReferenceParam(_, _) => Text(value)
  }

  /** The tokens a type refuses: non-empty text that Integer/Long/Double/Float parsing rejects. */
  predicate Rejects(t: ArgType, value: string, floats: FloatParsers) {
    value != "" &&
    match t
    case IntParam(_) => ParseInt(value).None?
    case LongParam(_) => ParseLong(value).None?
    case DoubleParam(_) => floats.parseDouble(value).None?
    case FloatParam(_) => floats.parseFloat(value).None?
    case _ => false
  }

  /** Parsing fails on non-empty text exactly for the numeric formats the type refuses. */
  lemma ParseFailsIffRejected(t: ArgType, value: string, floats: FloatParsers)
    ensures ParseArgument(t, value, floats).Null? && value != "" <==> Rejects(t, value, floats)
  {
  }

  /** Any in-range int or long written in decimal parses back to itself. */
  lemma ParseIntegerRoundTrip(n: int, boxed: bool, floats: FloatParsers)
    ensures IntMin <= n <= IntMax ==> ParseArgument(IntParam(boxed), IntToString(n), floats) == IntValue(n)
    ensures LongMin <= n <= LongMax ==> ParseArgument(LongParam(boxed), IntToString(n), floats) == LongValue(n)
  {
    if LongMin <= n <= LongMax {
      ParseDecimalOfIntToString(n, LongMin, LongMax);
    }
    if IntMin <= n <= IntMax {
      ParseDecimalOfIntToString(n, IntMin, IntMax);
    }
  }

  // ---------------------------------------------------------------------------
  // generateUsage
  // ---------------------------------------------------------------------------

  function Placeholder(a: ArgumentInfo): string {
    if a.optional then "[" + a.name + "]" else "<" + a.name + ">"
  }

  /** The " <arg>" / " [arg]" suffix, appended argument by argument. */
  function UsageTail(args: seq<ArgumentInfo>): string {
    if args == [] then "" else UsageTail(args[..|args| - 1]) + " " + Placeholder(args[|args| - 1])
  }

  /** generateUsage: the explicit usage, or "/name" followed by one placeholder per argument. */
  function GenerateUsage(cmd: RegisteredCommand): string {
    if cmd.annotation.usage != "" then cmd.annotation.usage
    else "/" + EffectiveName(cmd.annotation, cmd.commandMethod.name) + UsageTail(cmd.arguments)
  }

  function Placeholders(args: seq<ArgumentInfo>): (r: seq<string>)
    ensures |r| == |args|
    ensures forall i :: 0 <= i < |args| ==> r[i] == Placeholder(args[i])
  {
    seq(|args|, i requires 0 <= i < |args| => Placeholder(args[i]))
  }

  lemma {:induction false} UsageTailJoins(head: string, args: seq<ArgumentInfo>)
    ensures head + UsageTail(args) == Join([head] + Placeholders(args), " ")
    decreases |args|
  {
    if args != [] {
      var init, last := args[..|args| - 1], Placeholder(args[|args| - 1]);
      UsageTailJoins(head, init);
      assert UsageTail(args) == UsageTail(init) + " " + last;
      assert Placeholders(args) == Placeholders(init) + [last];
      assert [head] + Placeholders(args) == ([head] + Placeholders(init)) + [last];
      JoinAppend([head] + Placeholders(init), last, " ");
    }
  }

  /** A placeholder has a space only where the argument's name has one. */
  lemma PlaceholderSpaceFree(a: ArgumentInfo)
    requires ' ' !in a.name
    ensures NoneOf(Placeholder(a), {' '})
  {
    var p := Placeholder(a);
    forall i | 0 <= i < |p| ensures p[i] != ' ' {
      if 0 < i < |p| - 1 {
        assert p[i] == a.name[i - 1];
      }
    }
  }

  /** A generated usage splits on spaces into "/name" and the placeholders, in declaration
      order, as long as neither the name nor any argument name contains a space. */
  lemma GeneratedUsageSplits(cmd: RegisteredCommand)
    requires cmd.annotation.usage == ""
    requires ' ' !in EffectiveName(cmd.annotation, cmd.commandMethod.name)
    requires forall i :: 0 <= i < |cmd.arguments| ==> ' ' !in cmd.arguments[i].name
    ensures SplitOn(GenerateUsage(cmd), ' ')
         == ["/" + EffectiveName(cmd.annotation, cmd.commandMethod.name)] + Placeholders(cmd.arguments)
  {
    var name := EffectiveName(cmd.annotation, cmd.commandMethod.name);
    var head := "/" + name;
    var ps := [head] + Placeholders(cmd.arguments);
    UsageTailJoins(head, cmd.arguments);
    assert GenerateUsage(cmd) == Join(ps, " ");
    assert NoneOf(head, {' '}) by {
      forall i | 0 <= i < |head| ensures head[i] != ' ' {
        if i > 0 {
          assert head[i] == name[i - 1];
        }
      }
    }
    forall k | 0 <= k < |ps| ensures NoneOf(ps[k], {' '}) {
      if k > 0 {
        assert ps[k] == Placeholder(cmd.arguments[k - 1]);
        PlaceholderSpaceFree(cmd.arguments[k - 1]);
      }
    }
    PiecesOfJoin(ps, ' ');
    assert ps[|ps| - 1] != "";
    SplitKeepsPieces(Join(ps, " "), {' '}, false);
  }

  // ---------------------------------------------------------------------------
  // parseArguments
  // ---------------------------------------------------------------------------

  /** The parse of the i-th declared argument: of its token, or of its default when the
      token is missing; a missing required argument and a refused text are errors. */
  function ParseAt(cmd: RegisteredCommand, tokens: seq<string>, i: nat, floats: FloatParsers)
    : (r: Result<ArgValue, CommandError>)
    requires i < |cmd.arguments|
    ensures r.Failure? ==> r.error.kind == InvalidArguments && r.error.usage == GenerateUsage(cmd)
    ensures r.Failure? <==>
      (i >= |tokens| && !cmd.arguments[i].optional) ||
      (i >= |tokens| && Rejects(cmd.arguments[i].argType, cmd.arguments[i].defaultValue, floats)) ||
      (i < |tokens| && Rejects(cmd.arguments[i].argType, tokens[i], floats))
    ensures r.Success? ==>
      r.value == ParseArgument(cmd.arguments[i].argType,
                               if i < |tokens| then tokens[i] else cmd.arguments[i].defaultValue, floats)
  {
    var a := cmd.arguments[i];
    if i >= |tokens| then
      if a.optional then
        var d := ParseArgument(a.argType, a.defaultValue, floats);
        if d.Null? && a.defaultValue != "" then
          Failure(CommandError(InvalidArguments, "Invalid default value for argument: " + a.name, GenerateUsage(cmd)))
        else Success(d)
      else
        Failure(CommandError(InvalidArguments, "Missing required argument: " + a.name, GenerateUsage(cmd)))
    else
      var v := ParseArgument(a.argType, tokens[i], floats);
      if v.Null? && tokens[i] != "" then
        Failure(CommandError(InvalidArguments,
          "Invalid " + a.argType.SimpleName() + " for argument: " + a.name, GenerateUsage(cmd)))
      else Success(v)
  }

  /** The first n declared arguments parsed in order, stopping at the first error. */
  function ParsePrefix(cmd: RegisteredCommand, tokens: seq<string>, n: nat, floats: FloatParsers)
    : (r: Result<seq<ArgValue>, CommandError>)
    requires n <= |cmd.arguments|
    ensures r.Success? ==> |r.value| == n
  {
    if n == 0 then Success([])
    else
      match ParsePrefix(cmd, tokens, n - 1, floats)
      case Failure(e) => Failure(e)
      case Success(vs) =>
        match ParseAt(cmd, tokens, n - 1, floats)
        case Failure(e) => Failure(e)
        case Success(v) => Success(vs + [v])
  }

  /** Parsing succeeds iff every argument parses, giving each argument's value in order;
      otherwise the error is that of the first argument that fails. */
  lemma {:induction false} ParsePrefixMeaning(cmd: RegisteredCommand, tokens: seq<string>, n: nat, floats: FloatParsers)
    requires n <= |cmd.arguments|
    ensures var r := ParsePrefix(cmd, tokens, n, floats);
      (r.Success? <==> forall j :: 0 <= j < n ==> ParseAt(cmd, tokens, j, floats).Success?) &&
      (r.Success? ==> forall j :: 0 <= j < n ==> ParseAt(cmd, tokens, j, floats) == Success(r.value[j])) &&
      (r.Failure? ==>
        exists j :: 0 <= j < n && ParseAt(cmd, tokens, j, floats) == Failure(r.error) &&
          forall k :: 0 <= k < j ==> ParseAt(cmd, tokens, k, floats).Success?)
    decreases n
  {
    if n > 0 {
      ParsePrefixMeaning(cmd, tokens, n - 1, floats);
      var r := ParsePrefix(cmd, tokens, n, floats);
      var prev := ParsePrefix(cmd, tokens, n - 1, floats);
      var at := ParseAt(cmd, tokens, n - 1, floats);
      if prev.Failure? {
        assert r == prev;
        var j :| 0 <= j < n - 1 && ParseAt(cmd, tokens, j, floats) == Failure(prev.error) &&
          forall k :: 0 <= k < j ==> ParseAt(cmd, tokens, k, floats).Success?;
        assert !ParseAt(cmd, tokens, j, floats).Success?;
      } else if at.Failure? {
        assert r == Failure(at.error);
      } else {
        assert r.value == prev.value + [at.value];
        assert forall j :: 0 <= j < n - 1 ==> r.value[j] == prev.value[j];
      }
    }
  }

  /** Every parse error is INVALID_ARGUMENTS and carries the usage text. */
  lemma ParseErrorsCarryUsage(cmd: RegisteredCommand, tokens: seq<string>, n: nat, floats: FloatParsers)
    requires n <= |cmd.arguments|
    ensures var r := ParsePrefix(cmd, tokens, n, floats);
      r.Failure? ==> r.error.kind == InvalidArguments && r.error.usage == GenerateUsage(cmd)
  {
    ParsePrefixMeaning(cmd, tokens, n, floats);
  }

  /** Once a prefix fails, every longer prefix fails with the same error. */
  lemma {:induction false} FailureStops(cmd: RegisteredCommand, tokens: seq<string>, i: nat, n: nat, floats: FloatParsers)
    requires i <= n <= |cmd.arguments|
    requires ParsePrefix(cmd, tokens, i, floats).Failure?
    ensures ParsePrefix(cmd, tokens, n, floats) == ParsePrefix(cmd, tokens, i, floats)
    decreases n
  {
    if n > i {
      FailureStops(cmd, tokens, i, n - 1, floats);
    }
  }

  /** parseArguments: walks the declared arguments, appending each parsed value, and
      returns the first error. */
  method ParseArguments(cmd: RegisteredCommand, tokens: seq<string>, floats: FloatParsers)
    returns (r: Result<seq<ArgValue>, CommandError>)
    ensures r == ParsePrefix(cmd, tokens, |cmd.arguments|, floats)
  {
    var parsed: seq<ArgValue> := [];
    var i := 0;
    while i < |cmd.arguments|
      invariant 0 <= i <= |cmd.arguments|
      invariant ParsePrefix(cmd, tokens, i, floats) == Success(parsed)
    {
      var a := cmd.arguments[i];
      var value: ArgValue;
      if i >= |tokens| {
        if a.optional {
          value := ParseArgument(a.argType, a.defaultValue, floats);
          if value.Null? && a.defaultValue != "" {
            r := Failure(CommandError(InvalidArguments,
              "Invalid default value for argument: " + a.name, GenerateUsage(cmd)));
            FailureStops(cmd, tokens, i + 1, |cmd.arguments|, floats);
            return;
          }
        } else {
          r := Failure(CommandError(InvalidArguments, "Missing required argument: " + a.name, GenerateUsage(cmd)));
          FailureStops(cmd, tokens, i + 1, |cmd.arguments|, floats);
          return;
        }
      } else {
        value := ParseArgument(a.argType, tokens[i], floats);
        if value.Null? && tokens[i] != "" {
          r := Failure(CommandError(InvalidArguments,
            "Invalid " + a.argType.SimpleName() + " for argument: " + a.name, GenerateUsage(cmd)));
          FailureStops(cmd, tokens, i + 1, |cmd.arguments|, floats);
          return;
        }
      }
      parsed := parsed + [value];
      i := i + 1;
    }
    r := Success(parsed);
  }

  /** Tokens beyond the declared arguments take no part in parsing. */
  lemma {:induction false} ExtraTokensIgnored(cmd: RegisteredCommand, tokens: seq<string>, n: nat, floats: FloatParsers)
    requires n <= |cmd.arguments| <= |tokens|
    ensures ParsePrefix(cmd, tokens, n, floats) == ParsePrefix(cmd, tokens[..|cmd.arguments|], n, floats)
    decreases n
  {
    if n > 0 {
      ExtraTokensIgnored(cmd, tokens, n - 1, floats);
      assert ParseAt(cmd, tokens, n - 1, floats) == ParseAt(cmd, tokens[..|cmd.arguments|], n - 1, floats);
    }
  }

  /** The first missing required argument, after arguments that all parsed, is the error. */
  lemma MissingRequiredArgument(cmd: RegisteredCommand, tokens: seq<string>, i: nat, floats: FloatParsers)
    requires |tokens| <= i < |cmd.arguments| && !cmd.arguments[i].optional
    requires forall j :: 0 <= j < i ==> ParseAt(cmd, tokens, j, floats).Success?
    ensures ParsePrefix(cmd, tokens, |cmd.arguments|, floats)
         == Failure(CommandError(InvalidArguments, "Missing required argument: " + cmd.arguments[i].name,
                                 GenerateUsage(cmd)))
  {
    var r := ParsePrefix(cmd, tokens, |cmd.arguments|, floats);
    ParsePrefixMeaning(cmd, tokens, |cmd.arguments|, floats);
    assert ParseAt(cmd, tokens, i, floats).Failure?;
    var j :| 0 <= j < |cmd.arguments| && ParseAt(cmd, tokens, j, floats) == Failure(r.error) &&
      forall k :: 0 <= k < j ==> ParseAt(cmd, tokens, k, floats).Success?;
    assert j == i;
  }

  // ---------------------------------------------------------------------------
  // execute
  // ---------------------------------------------------------------------------

  /** What one execute call did: its boolean result, the errors handed to onCommandError,
      the values the command method was invoked with, and whether onAfterCommand ran. */
  datatype Execution = Execution(
    result: bool,
    errors: seq<CommandError>,
    invoked: Option<seq<ArgValue>>,
    afterHookRan: bool)

  function Rejected(e: CommandError): Execution {
    Execution(false, [e], None, false)
  }

  /** The three sender checks, in the order execute makes them. */
  predicate PermissionPasses(spec: CommandSpec, sender: Sender) {
    spec.permission == "" || sender.hasPermission(spec.permission)
  }

  predicate GatesPass(spec: CommandSpec, sender: Sender) {
    PermissionPasses(spec, sender) &&
    !(spec.playerOnly && sender.kind == ConsoleSender) &&
    !(spec.consoleOnly && sender.kind != ConsoleSender)
  }

  /** execute. A Failure is an exception thrown by onBeforeCommand, which execute does not catch. */
  function Execute(cmd: RegisteredCommand, sender: Sender, commandName: string, tokens: seq<string>,
                   floats: FloatParsers): (r: Result<Execution, string>)
    ensures r.Failure? <==>
      GatesPass(cmd.annotation, sender) && cmd.handler.beforeCommand(sender, commandName, tokens).HookThrew?
    ensures r.Success? ==> |r.value.errors| <= 1
    ensures r.Success? && r.value.result ==> r.value.errors == [] && r.value.invoked.Some? && r.value.afterHookRan
    ensures r.Success? && r.value.invoked.Some? ==>
      GatesPass(cmd.annotation, sender) &&
      cmd.handler.beforeCommand(sender, commandName, tokens) == Proceed &&
      ParsePrefix(cmd, tokens, |cmd.arguments|, floats) == Success(r.value.invoked.value)
  {
    var spec := cmd.annotation;
    if spec.permission != "" && !sender.hasPermission(spec.permission) then
      Success(Rejected(NewError(NoPermission, "No permission")))
    else if spec.playerOnly && sender.kind == ConsoleSender then
      Success(Rejected(NewError(PlayerOnly, "Players only")))
    else if spec.consoleOnly && sender.kind != ConsoleSender then
      Success(Rejected(NewError(ConsoleOnly, "Console only")))
    else
      match cmd.handler.beforeCommand(sender, commandName, tokens)
      case HookThrew(m) => Failure(m)
      case Veto => Success(Execution(false, [], None, false))
      case Proceed =>
        match ParsePrefix(cmd, tokens, |cmd.arguments|, floats)
        case Failure(e) => Success(Rejected(e))
        case Success(values) =>
          match cmd.commandMethod.body(sender, values)
          case Threw(m) => Success(Execution(false, [NewError(ExecutionError, m)], Some(values), false))
          case Returned =>
            match cmd.handler.afterCommand(sender, commandName, tokens)
            case Threw(m) => Success(Execution(false, [NewError(ExecutionError, m)], Some(values), true))
            case Returned => Success(Execution(true, [], Some(values), true))
  }

  /** A failed permission check is reported first, whatever the sender-type flags say. */
  lemma PermissionGateFirst(cmd: RegisteredCommand, sender: Sender, commandName: string, tokens: seq<string>,
                            floats: FloatParsers)
    requires cmd.annotation.permission != "" && !sender.hasPermission(cmd.annotation.permission)
    ensures Execute(cmd, sender, commandName, tokens, floats)
         == Success(Rejected(CommandError(NoPermission, "No permission", "")))
  {
  }

  /** An empty permission string is never checked, so it never causes a NO_PERMISSION error. */
  lemma EmptyPermissionUnchecked(cmd: RegisteredCommand, sender: Sender, commandName: string, tokens: seq<string>,
                                 floats: FloatParsers)
    requires cmd.annotation.permission == ""
    ensures var r := Execute(cmd, sender, commandName, tokens, floats);
      r.Success? ==> forall k :: 0 <= k < |r.value.errors| ==> r.value.errors[k].kind != NoPermission
  {
    ParseErrorsCarryUsage(cmd, tokens, |cmd.arguments|, floats);
  }

  /** After the permission check, a console is refused by a player-only command. */
  lemma PlayerOnlyGate(cmd: RegisteredCommand, sender: Sender, commandName: string, tokens: seq<string>,
                       floats: FloatParsers)
    requires PermissionPasses(cmd.annotation, sender)
    requires cmd.annotation.playerOnly && sender.kind == ConsoleSender
    ensures Execute(cmd, sender, commandName, tokens, floats)
         == Success(Rejected(CommandError(PlayerOnly, "Players only", "")))
  {
  }

  /** After the first two checks, a non-console sender is refused by a console-only command. */
  lemma ConsoleOnlyGate(cmd: RegisteredCommand, sender: Sender, commandName: string, tokens: seq<string>,
                        floats: FloatParsers)
    requires PermissionPasses(cmd.annotation, sender)
    requires !(cmd.annotation.playerOnly && sender.kind == ConsoleSender)
    requires cmd.annotation.consoleOnly && sender.kind != ConsoleSender
    ensures Execute(cmd, sender, commandName, tokens, floats)
         == Success(Rejected(CommandError(ConsoleOnly, "Console only", "")))
  {
  }

  /** A command that is both player-only and console-only never runs, for any sender. */
  lemma BothSenderFlagsNeverRun(cmd: RegisteredCommand, sender: Sender, commandName: string, tokens: seq<string>,
                                floats: FloatParsers)
    requires cmd.annotation.playerOnly && cmd.annotation.consoleOnly
    ensures var r := Execute(cmd, sender, commandName, tokens, floats);
      r.Success? && !r.value.result && r.value.invoked.None? && |r.value.errors| == 1 &&
      r.value.errors[0].kind in {NoPermission, PlayerOnly, ConsoleOnly}
  {
  }

  /** onBeforeCommand returning false stops execution silently. */
  lemma VetoIsSilent(cmd: RegisteredCommand, sender: Sender, commandName: string, tokens: seq<string>,
                     floats: FloatParsers)
    requires GatesPass(cmd.annotation, sender)
    requires cmd.handler.beforeCommand(sender, commandName, tokens) == Veto
    ensures Execute(cmd, sender, commandName, tokens, floats) == Success(Execution(false, [], None, false))
  {
  }

  /** A successful run invokes the method with one parsed value per declared argument,
      each the parse of its token or default, and then runs onAfterCommand. */
  lemma SuccessfulRun(cmd: RegisteredCommand, sender: Sender, commandName: string, tokens: seq<string>,
                      floats: FloatParsers)
    requires var r := Execute(cmd, sender, commandName, tokens, floats); r.Success? && r.value.result
    ensures var vs := Execute(cmd, sender, commandName, tokens, floats).value.invoked.value;
      |vs| == |cmd.arguments| &&
      cmd.commandMethod.body(sender, vs) == Returned &&
      cmd.handler.afterCommand(sender, commandName, tokens) == Returned &&
      forall j :: 0 <= j < |vs| ==>
        vs[j] == ParseArgument(cmd.arguments[j].argType,
                               if j < |tokens| then tokens[j] else cmd.arguments[j].defaultValue, floats)
  {
    var vs := Execute(cmd, sender, commandName, tokens, floats).value.invoked.value;
    ParsePrefixMeaning(cmd, tokens, |cmd.arguments|, floats);
    forall j | 0 <= j < |vs|
      ensures vs[j] == ParseArgument(cmd.arguments[j].argType,
                                     if j < |tokens| then tokens[j] else cmd.arguments[j].defaultValue, floats)
    {
      assert ParseAt(cmd, tokens, j, floats) == Success(vs[j]);
    }
  }

  /** An exception from the method or from onAfterCommand becomes one EXECUTION_ERROR carrying
      the exception's reported message. The method was invoked with the parsed values, and
      onAfterCommand ran exactly when the method returned. */
  lemma ExceptionsBecomeExecutionErrors(cmd: RegisteredCommand, sender: Sender, commandName: string,
                                        tokens: seq<string>, floats: FloatParsers, values: seq<ArgValue>)
    requires GatesPass(cmd.annotation, sender)
    requires cmd.handler.beforeCommand(sender, commandName, tokens) == Proceed
    requires ParsePrefix(cmd, tokens, |cmd.arguments|, floats) == Success(values)
    requires cmd.commandMethod.body(sender, values).Threw? ||
             cmd.handler.afterCommand(sender, commandName, tokens).Threw?
    ensures var r := Execute(cmd, sender, commandName, tokens, floats);
      r.Success? && !r.value.result && |r.value.errors| == 1 && r.value.errors[0].kind == ExecutionError
    ensures var body := cmd.commandMethod.body(sender, values);
      body.Threw? ==>
        Execute(cmd, sender, commandName, tokens, floats)
        == Success(Execution(false, [NewError(ExecutionError, body.message)], Some(values), false))
    ensures var after := cmd.handler.afterCommand(sender, commandName, tokens);
      cmd.commandMethod.body(sender, values) == Returned ==>
        Execute(cmd, sender, commandName, tokens, floats)
        == Success(Execution(false, [NewError(ExecutionError, after.message)], Some(values), true))
  {
  }

  /** Every argument error is INVALID_ARGUMENTS carrying the usage, and the method is not invoked. */
  lemma ArgumentErrorsCarryUsage(cmd: RegisteredCommand, sender: Sender, commandName: string,
                                 tokens: seq<string>, floats: FloatParsers)
    requires GatesPass(cmd.annotation, sender)
    requires cmd.handler.beforeCommand(sender, commandName, tokens) == Proceed
    requires ParsePrefix(cmd, tokens, |cmd.arguments|, floats).Failure?
    ensures var r := Execute(cmd, sender, commandName, tokens, floats);
      r.Success? && !r.value.result && r.value.invoked.None? && |r.value.errors| == 1 &&
      r.value.errors[0].kind == InvalidArguments && r.value.errors[0].usage == GenerateUsage(cmd)
  {
    ParseErrorsCarryUsage(cmd, tokens, |cmd.arguments|, floats);
  }

  // ---------------------------------------------------------------------------
  // getCommandInfo
  // ---------------------------------------------------------------------------

  function Info(cmd: RegisteredCommand): (info: CommandInfo)
    ensures info.name == EffectiveName(cmd.annotation, cmd.commandMethod.name)
    ensures info.usage == GenerateUsage(cmd)
    ensures info.aliases == cmd.annotation.aliases && info.arguments == cmd.arguments
    ensures info.description == cmd.annotation.description && info.permission == cmd.annotation.permission
    ensures info.playerOnly == cmd.annotation.playerOnly && info.consoleOnly == cmd.annotation.consoleOnly
  {
    CommandInfo(EffectiveName(cmd.annotation, cmd.commandMethod.name), cmd.annotation.aliases,
                cmd.annotation.description, GenerateUsage(cmd), cmd.annotation.permission,
                cmd.annotation.playerOnly, cmd.annotation.consoleOnly, cmd.arguments)
  }

  // ---------------------------------------------------------------------------
  // Tab completion
  // ---------------------------------------------------------------------------

  /** The candidates whose lower-cased text starts with prefix, in their original order. */
  function FilterPrefix(cands: seq<string>, prefix: string): (r: seq<string>)
    ensures forall x :: x in r <==> x in cands && StartsWith(Lower(x), prefix)
    ensures forall x :: multiset(r)[x] == if StartsWith(Lower(x), prefix) then multiset(cands)[x] else 0
  {
    if cands == [] then []
    else
      assert cands == [cands[0]] + cands[1..];
      (if StartsWith(Lower(cands[0]), prefix) then [cands[0]] else []) + FilterPrefix(cands[1..], prefix)
  }

  /** What a METHOD completion provider decides, if anything: its list, or nothing when it
      throws; None when there is no provider or its result is not a list. */
  function ProviderCompletions(cmd: RegisteredCommand, a: ArgumentInfo, sender: Sender, commandName: string,
                               args: seq<string>, current: string): (r: Option<seq<string>>)
    ensures r.Some? ==> a.completionType == MethodCompletion && a.completionMethod in cmd.completionMethods
    ensures a.completionType == MethodCompletion && a.completionMethod != "" && a.completionMethod in cmd.completionMethods ==>
      var outcome := cmd.completionMethods[a.completionMethod](sender, commandName, args, current);
      (outcome == CompletionThrew ==> r == Some([])) && (outcome.NotAList? <==> r.None?)
  {
    if a.completionType == MethodCompletion && a.completionMethod != "" && a.completionMethod in cmd.completionMethods then
      match cmd.completionMethods[a.completionMethod](sender, commandName, args, current)
      case Listed(items) => Some(items)
      case CompletionThrew => Some([])
      case NotAList => None
    else None
  }

  /** getCompletionsForArgument: provider method, then literals, then a registered completer
      keyed by the lower-cased completion-type name, then the built-ins. */
  function CompletionsForArgument(cmd: RegisteredCommand, completers: map<string, Completer>, sender: Sender,
                                  commandName: string, args: seq<string>, a: ArgumentInfo, current: string)
    : seq<string>
  {
    match ProviderCompletions(cmd, a, sender, commandName, args, current)
    case Some(items) => items
    case None =>
      if a.completions != [] then a.completions
      else if Lower(a.completionType.Name()) in completers then
        completers[Lower(a.completionType.Name())](sender, commandName, args, current)
      else if a.completionType == BooleanCompletion then ["true", "false"]
      else []
  }

  /** A provider's list takes precedence over everything else. */
  lemma ProviderFirst(cmd: RegisteredCommand, completers: map<string, Completer>, sender: Sender,
                      commandName: string, args: seq<string>, a: ArgumentInfo, current: string, items: seq<string>)
    requires a.completionType == MethodCompletion && a.completionMethod in cmd.completionMethods
    requires cmd.completionMethods[a.completionMethod](sender, commandName, args, current) == Listed(items)
    ensures a.completionMethod != "" ==>
      CompletionsForArgument(cmd, completers, sender, commandName, args, a, current) == items
  {
  }

  /** Without a deciding provider, non-empty literals win over any registered completer. */
  lemma LiteralsBeforeCompleters(cmd: RegisteredCommand, completers: map<string, Completer>, sender: Sender,
                                 commandName: string, args: seq<string>, a: ArgumentInfo, current: string)
    requires ProviderCompletions(cmd, a, sender, commandName, args, current).None? && a.completions != []
    ensures CompletionsForArgument(cmd, completers, sender, commandName, args, a, current) == a.completions
  {
  }

  /** With nothing registered for it, BOOLEAN offers true and false and every other type nothing. */
  lemma BuiltInCompletions(cmd: RegisteredCommand, completers: map<string, Completer>, sender: Sender,
                           commandName: string, args: seq<string>, a: ArgumentInfo, current: string)
    requires ProviderCompletions(cmd, a, sender, commandName, args, current).None? && a.completions == []
    requires Lower(a.completionType.Name()) !in completers
    ensures CompletionsForArgument(cmd, completers, sender, commandName, args, a, current)
         == if a.completionType == BooleanCompletion then ["true", "false"] else []
  {
  }

  /** getTabCompletions: the candidates for the last token's position that start with it
      (ignoring case), sorted; nothing when there are no tokens or more than the arguments. */
  function TabCompletions(cmd: RegisteredCommand, completers: map<string, Completer>, sender: Sender,
                          commandName: string, args: seq<string>): (r: seq<string>)
    ensures Sorted(r)
    ensures |args| == 0 || |args| > |cmd.arguments| ==> r == []
    ensures 0 < |args| <= |cmd.arguments| ==>
      var current := args[|args| - 1];
      var cands := CompletionsForArgument(cmd, completers, sender, commandName, args,
                                          cmd.arguments[|args| - 1], current);
      forall x :: multiset(r)[x] == if StartsWith(Lower(x), Lower(current)) then multiset(cands)[x] else 0
  {
    if |args| == 0 || |args| > |cmd.arguments| then []
    else
      var current := args[|args| - 1];
      var cands := CompletionsForArgument(cmd, completers, sender, commandName, args,
                                          cmd.arguments[|args| - 1], current);
      Sort(FilterPrefix(cands, Lower(current)))
  }
}
