/** CommandHandler: the base class command handlers extend, with its three overridable hooks,
    and the declared shape of a handler (its methods and @TabCompletion providers). */
module CommandHandlers {
  import opened Wrappers
  import opened JavaStrings
  import opened CommandErrors
  import opened CommandAnnotations

  /** How a call into handler code ended: normally, or by an exception whose message the
      caller's catch block reports (the cause's message for a reflective invocation). */
  datatype Outcome = Returned | Threw(message: string)

  /** What onBeforeCommand did: returned true, returned false, or threw. */
  datatype HookDecision = Proceed | Veto | HookThrew(message: string)

  /** What a reflective call of a @TabCompletion method produced. */
  datatype CompletionResult = Listed(items: seq<string>) | NotAList | CompletionThrew

  /** One declared parameter: its name, its type and its @Arg annotation if any. */
  datatype Param = Param(name: string, paramType: ArgType, arg: Option<ArgSpec>)

  /** A declared method of the handler class; command is its @Command annotation if any,
      and body is what invoking it with the sender and the parsed values does. */
  datatype CommandMethod = CommandMethod(
    name: string,
    command: Option<CommandSpec>,
    params: seq<Param>,
    body: (Sender, seq<ArgValue>) -> Outcome)

  /** A @TabCompletion method, called with (sender, command, args, currentArg). */
  type CompletionMethod = (Sender, string, seq<string>, string) -> CompletionResult

  /** The identity of a handler object, and the name of its runtime class. */
  datatype HandlerRef = HandlerRef(id: nat, className: string)

  /** A handler instance. Two values with the same ref stand for the same object.
      completionMethods maps each @TabCompletion value() to its method. */
  datatype Handler = Handler(
    ref: HandlerRef,
    methods: seq<CommandMethod>,
    completionMethods: map<string, CompletionMethod>,
    beforeCommand: (Sender, string, seq<string>) -> HookDecision,
    afterCommand: (Sender, string, seq<string>) -> Outcome)

  /** The default onBeforeCommand: always allows the command. */
  function DefaultBeforeCommand(sender: Sender, command: string, args: seq<string>): (d: HookDecision)
    ensures d == Proceed
  {
    Proceed
  }

  /** The default onAfterCommand: does nothing and cannot fail. */
  function DefaultAfterCommand(sender: Sender, command: string, args: seq<string>): (o: Outcome)
    ensures o == Returned
  {
    Returned
  }

  // ---------------------------------------------------------------------------
  // The default onCommandError: the one message sent to the sender
  // ---------------------------------------------------------------------------

  // Each text is written as a short head and a tail, so that proofs can see the head's characters.
  const InvalidArgumentsText := "\U{A7}cInvalid" + " arguments. Usage: "
  const NoPermissionText := "\U{A7}cYou" + " don't have permission to use this command."
  const PlayerOnlyText := "\U{A7}cThis command can only be used " + "by players."
  const ConsoleOnlyText := "\U{A7}cThis command can only be used " + "from console."
  const ExecutionErrorText := "\U{A7}cAn error" + " occurred while executing the command: "
  const UnknownText := "\U{A7}cCommand" + " failed: "

  /** The message the default onCommandError sends for an error. */
  function ErrorMessage(e: CommandError): (m: string)
    ensures StartsWith(m, "\U{A7}c")
  {
    match e.kind
    case InvalidArguments => InvalidArgumentsText + e.usage
    case NoPermission => NoPermissionText
    case PlayerOnly => PlayerOnlyText
    case ConsoleOnly => ConsoleOnlyText
    case ExecutionError => ExecutionErrorText + e.message
    case Unknown => UnknownText + e.message
  }

  /** The error kind a default error message was produced for. */
  function KindOfMessage(m: string): (k: Option<ErrorType>)
    ensures k.Some? ==> StartsWith(m, "\U{A7}c")
  {
    if StartsWith(m, InvalidArgumentsText) then Some(InvalidArguments)
    else if m == NoPermissionText then Some(NoPermission)
    else if m == PlayerOnlyText then Some(PlayerOnly)
    else if m == ConsoleOnlyText then Some(ConsoleOnly)
    else if StartsWith(m, ExecutionErrorText) then Some(ExecutionError)
    else if StartsWith(m, UnknownText) then Some(Unknown)
    else None
  }

  /** Every error produces a message, and the message tells which kind of error it was. */
  lemma MessageIdentifiesKind(e: CommandError)
    ensures KindOfMessage(ErrorMessage(e)) == Some(e.kind)
  {
    var m := ErrorMessage(e);
    assert InvalidArgumentsText[2] == 'I' && NoPermissionText[2] == 'Y' && PlayerOnlyText[2] == 'T';
    assert ConsoleOnlyText[2] == 'T' && ExecutionErrorText[2] == 'A' && UnknownText[2] == 'C';
    assert PlayerOnlyText[32] == 'b' && ConsoleOnlyText[32] == 'f';
    match e.kind
    case InvalidArguments =>
    case NoPermission =>
      assert m[2] == 'Y';
    case PlayerOnly =>
      assert m[2] == 'T';
    case ConsoleOnly =>
      assert m[2] == 'T' && m[32] == 'f';
    case ExecutionError =>
      assert m[2] == 'A';
    case Unknown =>
      assert m[2] == 'C';
  }

  /** INVALID_ARGUMENTS shows the usage, never the message. */
  lemma InvalidArgumentsShowsUsage(message1: string, message2: string, usage: string)
    ensures ErrorMessage(CommandError(InvalidArguments, message1, usage))
         == ErrorMessage(CommandError(InvalidArguments, message2, usage))
    ensures EndsWith(ErrorMessage(CommandError(InvalidArguments, message1, usage)), usage)
  {
  }

  /** The three gate errors send fixed texts: neither message nor usage matters. */
  lemma GateMessagesFixed(k: ErrorType, m1: string, u1: string, m2: string, u2: string)
    requires k == NoPermission || k == PlayerOnly || k == ConsoleOnly
    ensures ErrorMessage(CommandError(k, m1, u1)) == ErrorMessage(CommandError(k, m2, u2))
  {
  }

  /** EXECUTION_ERROR and UNKNOWN append the error's message to their text. */
  lemma FailureMessagesShowMessage(e: CommandError)
    requires e.kind == ExecutionError || e.kind == Unknown
    ensures EndsWith(ErrorMessage(e), e.message)
    ensures e.kind == Unknown ==> ErrorMessage(e) == UnknownText + e.message
  {
  }
}
