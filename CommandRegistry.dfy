/** DefaultCommandRegistry: the lower-cased name/alias table, the completer table and the
    per-handler ownership sets, with registration, unregistration, execution and completion. */
module CommandRegistry {
  import opened Wrappers
  import opened JavaStrings
  import opened CommandErrors
  import opened CommandAnnotations
  import opened CommandHandlers
  import opened RegisteredCommands

  /** The exceptions registration throws: IllegalArgumentException from the shape checks,
      and the RuntimeException registerCommands(Class) wraps every failure in. */
  datatype RegistrationError =
    | IllegalArgument(message: string)
    | HandlerInstantiation(message: string)

  // ---------------------------------------------------------------------------
  // createRegisteredCommand
  // ---------------------------------------------------------------------------

  /** The ArgumentInfo recorded for an @Arg-annotated parameter. */
  function InfoOf(p: Param): (a: ArgumentInfo)
    requires p.arg.Some?
    ensures a.name == p.arg.value.value && a.argType == p.paramType
    ensures a.optional == p.arg.value.optional && a.defaultValue == p.arg.value.defaultValue
    ensures a.completionType == p.arg.value.completionType && a.completions == p.arg.value.completions
    ensures a.completionMethod == p.arg.value.completionMethod
  {
    var s := p.arg.value;
    ArgumentInfo(s.value, p.paramType, s.optional, s.defaultValue, s.completionType, s.completions, s.completionMethod)
  }

  /** The exception for a parameter without @Arg. */
  function MissingArg(p: Param): RegistrationError {
    IllegalArgument("All command parameters (except CommandSender) must be annotated with @Arg: " + p.name)
  }

  /** The argument list of the parameters after the sender, built in order; the first
      parameter without @Arg is an IllegalArgumentException. */
  function ArgumentInfos(params: seq<Param>): (r: Result<seq<ArgumentInfo>, RegistrationError>)
    ensures r.Success? <==> forall i :: 0 <= i < |params| ==> params[i].arg.Some?
    ensures r.Success? ==> |r.value| == |params| && forall i :: 0 <= i < |params| ==> r.value[i] == InfoOf(params[i])
    ensures r.Failure? ==>
      exists i :: 0 <= i < |params| && params[i].arg.None? &&
        (forall j :: 0 <= j < i ==> params[j].arg.Some?) &&
        r.error == MissingArg(params[i])
  {
    if params == [] then Success([])
    else if params[0].arg.None? then
      Failure(MissingArg(params[0]))
    else
      match ArgumentInfos(params[1..])
      case Failure(e) => Failure(e)
      case Success(rest) => Success([InfoOf(params[0])] + rest)
  }

  predicate IsSenderParam(p: Param) {
    p.paramType.ReferenceParam? && p.paramType.isSender
  }

  /** createRegisteredCommand: the first parameter must be a CommandSender and every later
      one must carry @Arg. */
  function CreateRegisteredCommand(handler: Handler, m: CommandMethod, spec: CommandSpec)
    : (r: Result<RegisteredCommand, RegistrationError>)
    ensures r.Success? <==>
      |m.params| > 0 && IsSenderParam(m.params[0]) && forall i :: 1 <= i < |m.params| ==> m.params[i].arg.Some?
    ensures (|m.params| == 0 || !IsSenderParam(m.params[0])) ==>
      r == Failure(IllegalArgument("Command method must have CommandSender as first parameter: " + m.name))
    ensures |m.params| > 0 && IsSenderParam(m.params[0]) && ArgumentInfos(m.params[1..]).Failure? ==>
      r == Failure(ArgumentInfos(m.params[1..]).error)
    ensures r.Success? ==>
      r.value.handler == handler && r.value.commandMethod == m && r.value.annotation == spec &&
      r.value.completionMethods == handler.completionMethods &&
      |r.value.arguments| == |m.params| - 1 &&
      forall i :: 1 <= i < |m.params| ==> r.value.arguments[i - 1] == InfoOf(m.params[i])
  {
    if |m.params| == 0 || !IsSenderParam(m.params[0]) then
      Failure(IllegalArgument("Command method must have CommandSender as first parameter: " + m.name))
    else
      match ArgumentInfos(m.params[1..])
      case Failure(e) => Failure(e)
      case Success(args) => Success(RegisteredCommand(handler, m, spec, args, handler.completionMethods))
  }

  // ---------------------------------------------------------------------------
  // registerCommands, as a function of the command table
  // ---------------------------------------------------------------------------

  /** The lower-cased name followed by the lower-cased aliases, in the order they are put. */
  function CommandKeys(spec: CommandSpec, methodName: string): (ks: seq<string>)
    ensures |ks| == |spec.aliases| + 1
    ensures ks[0] == Lower(EffectiveName(spec, methodName))
    ensures forall i :: 0 <= i < |spec.aliases| ==> ks[i + 1] == Lower(spec.aliases[i])
    ensures forall i :: 0 <= i < |ks| ==> IsLower(ks[i])
  {
    [Lower(EffectiveName(spec, methodName))] + seq(|spec.aliases|, i requires 0 <= i < |spec.aliases| => Lower(spec.aliases[i]))
  }

  /** The table after putting every key of ks to rc. */
  function PutKeys(commands: map<string, RegisteredCommand>, ks: seq<string>, rc: RegisteredCommand)
    : (r: map<string, RegisteredCommand>)
    ensures forall k :: k in r <==> k in commands || k in ks
    ensures forall k :: k in ks ==> r[k] == rc
    ensures forall k :: k in commands && k !in ks ==> r[k] == commands[k]
  {
    map k | k in commands.Keys + set i | 0 <= i < |ks| :: ks[i] :: if k in ks then rc else commands[k]
  }

  /** Putting one more key is one more map update. */
  lemma PutKeysSnoc(commands: map<string, RegisteredCommand>, ks: seq<string>, k: string, rc: RegisteredCommand)
    ensures PutKeys(commands, ks + [k], rc) == PutKeys(commands, ks, rc)[k := rc]
  {
    var l, r := PutKeys(commands, ks + [k], rc), PutKeys(commands, ks, rc)[k := rc];
    assert forall x :: x in ks + [k] <==> x in ks || x == k;
    assert l.Keys == r.Keys;
    forall x | x in l.Keys
      ensures l[x] == r[x]
    {
    }
  }

  /** The state registerCommands has reached: the command table, the keys recorded for the
      handler so far, and the exception that stopped it, if any. */
  datatype Registration = Registration(
    commands: map<string, RegisteredCommand>,
    owned: set<string>,
    error: Option<RegistrationError>)

  /** The elements of ks as a set. */
  function KeySet(ks: seq<string>): (r: set<string>)
    ensures forall k :: k in r <==> k in ks
  {
    set i | 0 <= i < |ks| :: ks[i]
  }

  /** One turn of registerCommands' loop: a method without @Command is passed over; a
      well-formed one puts its keys and records them; a malformed one raises the error. */
  function RegisterMethod(prev: Registration, handler: Handler, m: CommandMethod): (r: Registration)
    ensures prev.error.Some? ==> r == prev
  {
    if prev.error.Some? || m.command.None? then prev
    else
      var spec := m.command.value;
      match CreateRegisteredCommand(handler, m, spec)
      case Failure(e) => prev.(error := Some(e))
      case Success(rc) =>
        var ks := CommandKeys(spec, m.name);
        Registration(PutKeys(prev.commands, ks, rc), prev.owned + KeySet(ks), None)
  }

  /** registerCommands over the handler's first n declared methods. */
  function RegisterMethods(commands: map<string, RegisteredCommand>, handler: Handler, n: nat): Registration
    requires n <= |handler.methods|
  {
    if n == 0 then Registration(commands, {}, None)
    else RegisterMethod(RegisterMethods(commands, handler, n - 1), handler, handler.methods[n - 1])
  }

  /** Every key of every annotated method among the first n. */
  function AnnotatedKeys(handler: Handler, n: nat): set<string>
    requires n <= |handler.methods|
  {
    if n == 0 then {}
    else
      var m := handler.methods[n - 1];
      AnnotatedKeys(handler, n - 1) +
        if m.command.Some? then KeySet(CommandKeys(m.command.value, m.name)) else {}
  }

  /** Registration changes only the keys it records, each of which then maps to a command of
      this handler; without an error it records exactly the keys of the annotated methods. */
  lemma {:induction false} RegistrationFootprint(commands: map<string, RegisteredCommand>, handler: Handler, n: nat)
    requires n <= |handler.methods|
    ensures var reg := RegisterMethods(commands, handler, n);
      (forall k :: k in reg.owned ==> k in reg.commands && reg.commands[k].handler == handler) &&
      (forall k :: k !in reg.owned ==> (k in reg.commands <==> k in commands)) &&
      (forall k :: k !in reg.owned && k in commands ==> reg.commands[k] == commands[k]) &&
      reg.owned <= AnnotatedKeys(handler, n) &&
      (reg.error.None? ==> reg.owned == AnnotatedKeys(handler, n))
    decreases n
  {
    if n > 0 {
      RegistrationFootprint(commands, handler, n - 1);
      var prev := RegisterMethods(commands, handler, n - 1);
      assert RegisterMethods(commands, handler, n) == RegisterMethod(prev, handler, handler.methods[n - 1]);
    }
  }

  lemma AfterError(prev: Registration, handler: Handler, m: CommandMethod)
    requires prev.error.Some?
    ensures RegisterMethod(prev, handler, m) == prev
  {
  }

  /** Once a method fails, the later methods are not looked at. */
  lemma {:induction false} ErrorStops(commands: map<string, RegisteredCommand>, handler: Handler, i: nat, n: nat)
    requires i <= n <= |handler.methods|
    requires RegisterMethods(commands, handler, i).error.Some?
    ensures RegisterMethods(commands, handler, n) == RegisterMethods(commands, handler, i)
    decreases n
  {
    if n > i {
      ErrorStops(commands, handler, i, n - 1);
      AfterError(RegisterMethods(commands, handler, n - 1), handler, handler.methods[n - 1]);
    }
  }

  /** One step of registration: a method without @Command changes nothing, a well-formed one
      puts its keys and adds them to the recorded set, a malformed one records its error. */
  lemma RegisterStep(commands: map<string, RegisteredCommand>, handler: Handler, i: nat)
    requires i < |handler.methods|
    requires RegisterMethods(commands, handler, i).error.None?
    ensures var prev := RegisterMethods(commands, handler, i);
      var m := handler.methods[i];
      var next := RegisterMethods(commands, handler, i + 1);
      (m.command.None? ==> next == prev) &&
      (m.command.Some? && CreateRegisteredCommand(handler, m, m.command.value).Success? ==>
        var ks := CommandKeys(m.command.value, m.name);
        next == Registration(PutKeys(prev.commands, ks, CreateRegisteredCommand(handler, m, m.command.value).value),
                             prev.owned + KeySet(ks), None)) &&
      (m.command.Some? && CreateRegisteredCommand(handler, m, m.command.value).Failure? ==>
        next == prev.(error := Some(CreateRegisteredCommand(handler, m, m.command.value).error)))
  {
    assert RegisterMethods(commands, handler, i + 1)
        == RegisterMethod(RegisterMethods(commands, handler, i), handler, handler.methods[i]);
  }

  /** A method that fails the shape checks stops registration with its exception; the
      commands of the methods before it stay in the table. */
  lemma FailedMethodStops(commands: map<string, RegisteredCommand>, handler: Handler, i: nat)
    requires i < |handler.methods|
    requires RegisterMethods(commands, handler, i).error.None?
    requires var m := handler.methods[i];
      m.command.Some? && CreateRegisteredCommand(handler, m, m.command.value).Failure?
    ensures var reg := RegisterMethods(commands, handler, |handler.methods|);
      var m := handler.methods[i];
      reg.error == Some(CreateRegisteredCommand(handler, m, m.command.value).error) &&
      reg.commands == RegisterMethods(commands, handler, i).commands
  {
    RegisterStep(commands, handler, i);
    ErrorStops(commands, handler, i + 1, |handler.methods|);
  }

  /** A handler with one well-formed command maps its name and every alias, lower-cased, to
      that same command, overwriting whatever those keys held before, and owns exactly them. */
  lemma SingleCommandRegistration(commands: map<string, RegisteredCommand>, handler: Handler, rc: RegisteredCommand)
    requires |handler.methods| == 1
    requires var m := handler.methods[0];
      m.command.Some? && CreateRegisteredCommand(handler, m, m.command.value) == Success(rc)
    ensures var reg := RegisterMethods(commands, handler, 1);
      var m := handler.methods[0];
      var ks := CommandKeys(m.command.value, m.name);
      reg.error.None? &&
      reg.owned == KeySet(ks) &&
      (forall k :: k in ks ==> k in reg.commands && reg.commands[k] == rc)
  {
  }

  // ---------------------------------------------------------------------------
  // Command lines
  // ---------------------------------------------------------------------------

  /** executeCommand's tokens: the trimmed line split on runs of whitespace. There is always
      at least one, so the source's check for an empty split never fires. */
  function Tokens(line: string): (ts: seq<string>)
    ensures |ts| >= 1
    ensures forall i :: 0 <= i < |ts| ==> NoneOf(ts[i], Whitespace)
    ensures Trim(line) == "" ==> ts == [""]
    ensures Trim(line) != "" ==> forall i :: 0 <= i < |ts| ==> ts[i] != ""
  {
    TrimmedSplit(Trim(line));
    Split(Trim(line), Whitespace, true)
  }

  lemma TrimmedSplit(s: string)
    requires s == [] || (!Trimmable(s[0]) && !Trimmable(s[|s| - 1]))
    ensures var ts := Split(s, Whitespace, true);
      |ts| >= 1 &&
      (s == "" ==> ts == [""]) &&
      (s != "" ==> forall i :: 0 <= i < |ts| ==> ts[i] != "")
  {
    if s != [] && FirstSep(s, Whitespace) < |s| {
      PiecesOfTrimmedNonEmpty(s, Whitespace);
      var ps := Pieces(s, Whitespace, true);
      assert ps[|ps| - 1] != "";
    }
  }

  /** The table key a first token selects: lower-cased, with one leading "/" removed. */
  function CommandKey(token: string): (k: string)
    ensures IsLower(k)
  {
    var t := Lower(token);
    if StartsWith(t, "/") then t[1..] else t
  }

  /** Resolution ignores letter case and one leading slash. */
  lemma CommandKeyCaseInsensitive(t1: string, t2: string)
    requires Lower(t1) == Lower(t2)
    ensures CommandKey(t1) == CommandKey(t2)
  {
  }

  lemma CommandKeyOfName(name: string)
    requires !StartsWith(Lower(name), "/")
    ensures CommandKey(name) == Lower(name)
    ensures CommandKey("/" + name) == Lower(name)
  {
    assert Lower("/" + name) == "/" + Lower(name);
  }

  /** What executeCommand did: its result, the key it resolved, the errors handed to the
      handler's onCommandError, and the values the command method was invoked with. */
  datatype Dispatch = Dispatch(
    result: bool,
    resolved: Option<string>,
    errors: seq<CommandError>,
    invoked: Option<seq<ArgValue>>)

  /** executeCommand over a command table. */
  function DispatchLine(commands: map<string, RegisteredCommand>, sender: Sender, line: string,
                        floats: FloatParsers): (d: Dispatch)
    ensures d.resolved.None? ==> d == Dispatch(false, None, [], None)
    ensures d.resolved.Some? ==> d.resolved.value in commands && d.resolved.value == CommandKey(Tokens(line)[0])
    ensures d.result ==> d.errors == [] && d.invoked.Some?
    ensures |d.errors| <= 1
  {
    var parts := Tokens(line);
    var name := CommandKey(parts[0]);
    if name !in commands then Dispatch(false, None, [], None)
    else
      match Execute(commands[name], sender, name, parts[1..], floats)
      case Success(e) => Dispatch(e.result, Some(name), e.errors, e.invoked)
      case Failure(m) => Dispatch(false, Some(name), [NewError(ExecutionError, m)], None)
  }

  /** A known command runs with the tokens after the first as its arguments; an exception
      escaping it becomes one EXECUTION_ERROR. */
  lemma DispatchRunsCommand(commands: map<string, RegisteredCommand>, sender: Sender, line: string,
                            floats: FloatParsers)
    requires CommandKey(Tokens(line)[0]) in commands
    ensures var name := CommandKey(Tokens(line)[0]);
      var d := DispatchLine(commands, sender, line, floats);
      var ex := Execute(commands[name], sender, name, Tokens(line)[1..], floats);
      d.resolved == Some(name) &&
      (ex.Success? ==> d == Dispatch(ex.value.result, Some(name), ex.value.errors, ex.value.invoked)) &&
      (ex.Failure? ==> d == Dispatch(false, Some(name), [CommandError(ExecutionError, ex.error, "")], None))
  {
  }

  // ---------------------------------------------------------------------------
  // Completion of the command name
  // ---------------------------------------------------------------------------

  /** getTabCompletions' parts: the line split on whitespace runs, every piece kept. */
  function CompletionParts(line: string): (parts: seq<string>)
    ensures |parts| >= 1
    ensures forall k :: 0 <= k < |parts| ==> NoneOf(parts[k], Whitespace)
  {
    Pieces(line, Whitespace, true)
  }

  /** A line that splits into one part has no whitespace, so it never ends with a space:
      the name is still being typed exactly when there is one part. */
  lemma OnePartMeansTypingName(line: string)
    ensures |CompletionParts(line)| == 1 <==> NoneOf(line, Whitespace)
    ensures |CompletionParts(line)| == 1 ==> CompletionParts(line) == [line] && !EndsWith(line, " ")
  {
    if |CompletionParts(line)| == 1 && |line| > 0 {
      assert line[|line| - 1] != ' ';
    }
  }

  /** A space after a whitespace-free name gives the single empty argument. */
  lemma TrailingSpaceGivesEmptyArgument(name: string)
    requires NoneOf(name, Whitespace)
    ensures CompletionParts(name + " ") == [name, ""]
  {
    var line := name + " ";
    assert line[..|name|] == name;
    FirstSepOfSuperset(line, |name|);
    assert RunEnd(line, |name| + 1, Whitespace) == |name| + 1;
    assert RunEnd(line, |name|, Whitespace) == |name| + 1;
    assert line[|name| + 1..] == "";
    assert Pieces("", Whitespace, true) == [""];
  }

  /** FirstSep with the whitespace class, where the first whitespace character is known. */
  lemma FirstSepOfSuperset(line: string, i: nat)
    requires i < |line| && line[i] in Whitespace && NoneOf(line[..i], Whitespace)
    ensures FirstSep(line, Whitespace) == i
    decreases i
  {
    if i > 0 {
      assert line[1..][..i - 1] == line[1..i];
      FirstSepOfSuperset(line[1..], i - 1);
    }
  }

  // ---------------------------------------------------------------------------
  // The registry object
  // ---------------------------------------------------------------------------

  /** The completer the constructor registers under "boolean". */
  function BooleanCompleter(sender: Sender, command: string, args: seq<string>, currentArg: string): seq<string> {
    FilterPrefix(["true", "false"], Lower(currentArg))
  }

  /** FilterPrefix over two candidates, written out. */
  lemma FilterPrefixPair(x: string, y: string, prefix: string)
    ensures FilterPrefix([x, y], prefix)
         == (if StartsWith(Lower(x), prefix) then [x] else []) + (if StartsWith(Lower(y), prefix) then [y] else [])
  {
    assert [x, y][1..] == [y];
    assert [y][1..] == [];
  }

  /** The boolean completer offers "true" and then "false", each when the lower-cased current
      text begins it. */
  lemma BooleanCompleterOffers(sender: Sender, command: string, args: seq<string>, current: string)
    ensures BooleanCompleter(sender, command, args, current)
         == (if StartsWith("true", Lower(current)) then ["true"] else [])
          + (if StartsWith("false", Lower(current)) then ["false"] else [])
  {
    assert Lower("true") == "true" && Lower("false") == "false";
    FilterPrefixPair("true", "false", Lower(current));
  }

  /** Case is ignored: any non-empty text that begins "true" in some letter case ("T", "tR",
      "TRUE") completes to "true" alone, and any that begins "false" to "false" alone. */
  lemma BooleanCompleterIgnoresCase(sender: Sender, command: string, args: seq<string>, current: string)
    requires current != []
    ensures StartsWith("true", Lower(current)) ==> BooleanCompleter(sender, command, args, current) == ["true"]
    ensures StartsWith("false", Lower(current)) ==> BooleanCompleter(sender, command, args, current) == ["false"]
  {
    BooleanCompleterOffers(sender, command, args, current);
    var l := Lower(current);
    if StartsWith("true", l) {
      assert l[0] == 't';
    }
    if StartsWith("false", l) {
      assert l[0] == 'f';
    }
  }

  /** The keys that belong to handlers of one runtime class. */
  function ClassKeys(handlerCommands: map<HandlerRef, set<string>>, className: string): (r: set<string>)
    ensures forall k :: k in r <==>
      exists h :: h in handlerCommands && h.className == className && k in handlerCommands[h]
  {
    set h, k | h in handlerCommands && h.className == className && k in handlerCommands[h] :: k
  }

  /** The records of handlers of other classes, together with those in pending. */
  function OtherClasses(handlerCommands: map<HandlerRef, set<string>>, className: string, pending: set<HandlerRef>)
    : (r: map<HandlerRef, set<string>>)
    ensures forall h :: h in r <==> h in handlerCommands && (h in pending || h.className != className)
    ensures forall h :: h in r ==> r[h] == handlerCommands[h]
  {
    map h | h in handlerCommands && (h in pending || h.className != className) :: handlerCommands[h]
  }

  lemma OtherClassesStep(hc: map<HandlerRef, set<string>>, className: string, pending: set<HandlerRef>, h: HandlerRef)
    requires h in pending && pending <= hc.Keys
    ensures OtherClasses(hc, className, pending - {h})
         == if h.className == className then OtherClasses(hc, className, pending) - {h}
            else OtherClasses(hc, className, pending)
  {
    var l := OtherClasses(hc, className, pending - {h});
    var r := if h.className == className then OtherClasses(hc, className, pending) - {h}
             else OtherClasses(hc, className, pending);
    assert l.Keys == r.Keys;
  }

  lemma ClassKeysStep(hc: map<HandlerRef, set<string>>, className: string, pending: set<HandlerRef>, h: HandlerRef)
    requires h in pending && pending <= hc.Keys
    ensures ClassKeys(hc - (pending - {h}), className)
         == ClassKeys(hc - pending, className) + (if h.className == className then hc[h] else {})
  {
    var l := ClassKeys(hc - (pending - {h}), className);
    var r := ClassKeys(hc - pending, className) + (if h.className == className then hc[h] else {});
    forall k | k in l ensures k in r {
      var g :| g in hc - (pending - {h}) && g.className == className && k in (hc - (pending - {h}))[g];
      if g != h {
        assert g in hc - pending;
      }
    }
    forall k | k in r ensures k in l {
      if k in ClassKeys(hc - pending, className) {
        var g :| g in hc - pending && g.className == className && k in (hc - pending)[g];
        assert g in hc - (pending - {h});
      } else {
        assert h in hc - (pending - {h});
      }
    }
  }

  class DefaultCommandRegistry {
    var commands: map<string, RegisteredCommand>
    var tabCompleters: map<string, Completer>
    var handlerCommands: map<HandlerRef, set<string>>

    /** Every key of every table is lower case. */
    ghost predicate Valid()
      reads this
    {
      (forall k :: k in commands ==> IsLower(k)) &&
      (forall k :: k in tabCompleters ==> IsLower(k)) &&
      (forall h, k :: h in handlerCommands && k in handlerCommands[h] ==> IsLower(k))
    }

    constructor()
      ensures Valid()
      ensures commands == map[] && handlerCommands == map[]
      ensures tabCompleters.Keys == {"boolean"} && tabCompleters["boolean"] == BooleanCompleter
    {
      commands := map[];
      handlerCommands := map[];
      var completers: map<string, Completer> := map["boolean" := BooleanCompleter];
      tabCompleters := completers;
    }

    /** registerCommands(handler): puts every annotated method's name and aliases, and then
        records the keys as the handler's own; an exception leaves the keys unrecorded. */
    method RegisterCommands(handler: Handler) returns (err: Option<RegistrationError>)
      requires Valid()
      modifies this
      ensures Valid()
      ensures var reg := RegisterMethods(old(commands), handler, |handler.methods|);
        commands == reg.commands && err == reg.error &&
        handlerCommands == (if err.None? then old(handlerCommands)[handler.ref := reg.owned] else old(handlerCommands))
      ensures tabCompleters == old(tabCompleters)
    {
      var registered: set<string> := {};
      var i := 0;
      while i < |handler.methods|
        invariant 0 <= i <= |handler.methods|
        invariant RegisterMethods(old(commands), handler, i) == Registration(commands, registered, None)
        invariant Valid() && forall k :: k in registered ==> IsLower(k)
        invariant handlerCommands == old(handlerCommands) && tabCompleters == old(tabCompleters)
      {
        RegisterStep(old(commands), handler, i);
        var m := handler.methods[i];
        if m.command.Some? {
          var spec := m.command.value;
          var created := CreateRegisteredCommand(handler, m, spec);
          if created.Failure? {
            err := Some(created.error);
            FailedMethodStops(old(commands), handler, i);
            return;
          }
          var ks := CommandKeys(spec, m.name);
          PutAll(ks, created.value);
          registered := registered + KeySet(ks);
        }
        i := i + 1;
      }
      handlerCommands := handlerCommands[handler.ref := registered];
      err := None;
    }

    /** The inner loop of registerCommands: puts the name and then each alias to rc. */
    method PutAll(ks: seq<string>, rc: RegisteredCommand)
      requires Valid() && |ks| >= 1 && forall i :: 0 <= i < |ks| ==> IsLower(ks[i])
      modifies this
      ensures Valid()
      ensures commands == PutKeys(old(commands), ks, rc)
      ensures handlerCommands == old(handlerCommands) && tabCompleters == old(tabCompleters)
    {
      commands := commands[ks[0] := rc];
      PutKeysSnoc(old(commands), [], ks[0], rc);
      assert [] + [ks[0]] == ks[..1];
      var j := 1;
      while j < |ks|
        invariant 1 <= j <= |ks|
        invariant commands == PutKeys(old(commands), ks[..j], rc)
        invariant Valid() && handlerCommands == old(handlerCommands) && tabCompleters == old(tabCompleters)
      {
        commands := commands[ks[j] := rc];
        PutKeysSnoc(old(commands), ks[..j], ks[j], rc);
        assert ks[..j + 1] == ks[..j] + [ks[j]];
        j := j + 1;
      }
      assert ks[..j] == ks;
    }

    /** registerCommands(Class): instantiates the class (None when its no-argument constructor
        fails) and registers the instance; any failure becomes one wrapping RuntimeException. */
    method RegisterCommandsOfClass(className: string, instance: Option<Handler>)
      returns (err: Option<RegistrationError>)
      requires Valid()
      requires instance.Some? ==> instance.value.ref.className == className
      modifies this
      ensures Valid()
      ensures err.Some? ==> err.value == HandlerInstantiation("Failed to instantiate command handler: " + className)
      ensures instance.None? ==> err.Some? && unchanged(this)
      ensures instance.Some? ==>
        var reg := RegisterMethods(old(commands), instance.value, |instance.value.methods|);
        commands == reg.commands && (err.None? <==> reg.error.None?) &&
        handlerCommands == (if err.None? then old(handlerCommands)[instance.value.ref := reg.owned] else old(handlerCommands))
      ensures tabCompleters == old(tabCompleters)
    {
      if instance.None? {
        err := Some(HandlerInstantiation("Failed to instantiate command handler: " + className));
        return;
      }
      var e := RegisterCommands(instance.value);
      if e.Some? {
        err := Some(HandlerInstantiation("Failed to instantiate command handler: " + className));
      } else {
        err := None;
      }
    }

    /** unregisterCommands(handler): drops the handler's record and every key in it. */
    method UnregisterCommands(h: HandlerRef)
      requires Valid()
      modifies this
      ensures Valid()
      ensures handlerCommands == old(handlerCommands) - {h}
      ensures commands == if h in old(handlerCommands) then old(commands) - old(handlerCommands)[h] else old(commands)
      ensures tabCompleters == old(tabCompleters)
    {
      var removed := if h in handlerCommands then Some(handlerCommands[h]) else None;
      handlerCommands := handlerCommands - {h};
      if removed.Some? {
        var names := removed.value;
        var rest := names;
        while rest != {}
          invariant rest <= names
          invariant commands == old(commands) - (names - rest)
          invariant Valid() && handlerCommands == old(handlerCommands) - {h} && tabCompleters == old(tabCompleters)
          decreases |rest|
        {
          var k :| k in rest;
          commands := commands - {k};
          rest := rest - {k};
        }
        assert names - rest == names;
      }
    }

    /** unregisterCommands(Class): drops the records and keys of every handler of that class. */
    method UnregisterCommandsOfClass(className: string)
      requires Valid()
      modifies this
      ensures Valid()
      ensures handlerCommands == OtherClasses(old(handlerCommands), className, {})
      ensures commands == old(commands) - ClassKeys(old(handlerCommands), className)
      ensures tabCompleters == old(tabCompleters)
    {
      var entries := handlerCommands.Keys;
      assert old(handlerCommands) - entries == map[];
      assert old(handlerCommands) == OtherClasses(old(handlerCommands), className, entries);
      while entries != {}
        invariant entries <= old(handlerCommands).Keys
        invariant handlerCommands == OtherClasses(old(handlerCommands), className, entries)
        invariant commands == old(commands) - ClassKeys(old(handlerCommands) - entries, className)
        invariant Valid() && tabCompleters == old(tabCompleters)
        decreases |entries|
      {
        var h :| h in entries;
        DropIfOfClass(h, className, old(handlerCommands), old(commands), entries);
        entries := entries - {h};
      }
      assert old(handlerCommands) - entries == old(handlerCommands);
    }

    /** One turn of unregisterCommands(Class): the record of h and its keys go when h is of
        that class; hc and cs are the records and the table the walk started from, and
        pending the handlers not yet looked at. */
    method DropIfOfClass(h: HandlerRef, className: string, ghost hc: map<HandlerRef, set<string>>,
                         ghost cs: map<string, RegisteredCommand>, ghost pending: set<HandlerRef>)
      requires Valid() && h in pending && pending <= hc.Keys
      requires handlerCommands == OtherClasses(hc, className, pending)
      requires commands == cs - ClassKeys(hc - pending, className)
      modifies this
      ensures Valid() && tabCompleters == old(tabCompleters)
      ensures handlerCommands == OtherClasses(hc, className, pending - {h})
      ensures commands == cs - ClassKeys(hc - (pending - {h}), className)
    {
      OtherClassesStep(hc, className, pending, h);
      ClassKeysStep(hc, className, pending, h);
      if h.className == className {
        commands := commands - handlerCommands[h];
        assert commands == cs - (ClassKeys(hc - pending, className) + hc[h]);
        handlerCommands := handlerCommands - {h};
      }
    }

    /** registerTabCompleter: keys the completer by the lower-cased type, replacing any. */
    method RegisterTabCompleter(completionType: string, completer: Completer)
      requires Valid()
      modifies this
      ensures Valid()
      ensures tabCompleters == old(tabCompleters)[Lower(completionType) := completer]
      ensures commands == old(commands) && handlerCommands == old(handlerCommands)
    {
      tabCompleters := tabCompleters[Lower(completionType) := completer];
    }

    /** executeCommand. */
    method ExecuteCommand(sender: Sender, line: string, floats: FloatParsers) returns (d: Dispatch)
      ensures d == DispatchLine(commands, sender, line, floats)
    {
      var parts := Tokens(line);
      var name := CommandKey(parts[0]);
      if name !in commands {
        return Dispatch(false, None, [], None);
      }
      var outcome := Execute(commands[name], sender, name, parts[1..], floats);
      if outcome.Failure? {
        d := Dispatch(false, Some(name), [NewError(ExecutionError, outcome.error)], None);
      } else {
        d := Dispatch(outcome.value.result, Some(name), outcome.value.errors, outcome.value.invoked);
      }
    }

    /** getTabCompletions: the sorted matching keys while the name is being typed, otherwise
        the completions of the resolved command for the tokens after the name. */
    method GetTabCompletions(sender: Sender, line: string) returns (r: seq<string>)
      ensures var parts := CompletionParts(line);
        var name := CommandKey(parts[0]);
        if |parts| == 1 && !EndsWith(line, " ") then
          Sorted(r) && multiset(r) == multiset(set k | k in commands && StartsWith(k, name))
        else if name !in commands then r == []
        else r == TabCompletions(commands[name], tabCompleters, sender, name, if |parts| > 1 then parts[1..] else [""])
    {
      var parts := Pieces(line, Whitespace, true);
      var name := CommandKey(parts[0]);
      if |parts| == 1 && !EndsWith(line, " ") {
        var remaining := commands.Keys;
        var found: seq<string> := [];
        while remaining != {}
          invariant remaining <= commands.Keys
          invariant multiset(found) == multiset(set k | k in commands.Keys - remaining && StartsWith(k, name))
          decreases |remaining|
        {
          var k :| k in remaining;
          ghost var before := set x | x in commands.Keys - remaining && StartsWith(x, name);
          if StartsWith(k, name) {
            found := found + [k];
            assert (set x | x in commands.Keys - (remaining - {k}) && StartsWith(x, name)) == before + {k};
          } else {
            assert (set x | x in commands.Keys - (remaining - {k}) && StartsWith(x, name)) == before;
          }
          remaining := remaining - {k};
        }
        assert commands.Keys - remaining == commands.Keys;
        r := Sort(found);
        return;
      }
      if name !in commands {
        return [];
      }
      var args := if |parts| > 1 then parts[1..] else [""];
      r := TabCompletions(commands[name], tabCompleters, sender, name, args);
    }

    /** getCommandInfo: case-insensitive lookup; None stands for null. */
    function GetCommandInfo(name: string): (r: Option<CommandInfo>)
      reads this
      ensures r.Some? <==> Lower(name) in commands
      ensures r.Some? ==> r.value == Info(commands[Lower(name)])
    {
      if Lower(name) in commands then Some(Info(commands[Lower(name)])) else None
    }
  }
}
