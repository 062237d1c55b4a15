/** The declared metadata a command handler carries: the @Command and @Arg annotation records,
    the declared parameter types, the values arguments parse to, and the command sender. */
module CommandAnnotations {
  import opened JavaStrings

  // ---------------------------------------------------------------------------
  // Command senders
  // ---------------------------------------------------------------------------

  /** Which model interface a sender implements: Player, ConsoleCommandSender, or neither. */
  datatype SenderKind = PlayerSender | ConsoleSender | OtherSender

  /** CommandSender: a name and a permission test; sendMessage is an output of the model. */
  datatype Sender = Sender(name: string, kind: SenderKind, hasPermission: string -> bool)

  // ---------------------------------------------------------------------------
  // @Arg
  // ---------------------------------------------------------------------------

  /** Arg.CompletionType. */
  datatype CompletionType =
    | NoCompletion
    | PlayerCompletion
    | OnlinePlayerCompletion
    | WorldCompletion
    | BooleanCompletion
    | IntegerCompletion
    | DoubleCompletion
    | CustomCompletion
    | MethodCompletion
  {
    /** The Java enum constant's name(). */
    function Name(): string {
      match this
      case NoCompletion => "NONE"
      case PlayerCompletion => "PLAYER"
      case OnlinePlayerCompletion => "ONLINE_PLAYER"
      case WorldCompletion => "WORLD"
      case BooleanCompletion => "BOOLEAN"
      case IntegerCompletion => "INTEGER"
      case DoubleCompletion => "DOUBLE"
      case CustomCompletion => "CUSTOM"
      case MethodCompletion => "METHOD"
    }
  }

  /** The @Arg annotation on one handler-method parameter. */
  datatype ArgSpec = ArgSpec(
    value: string,
    optional: bool,
    defaultValue: string,
    completions: seq<string>,
    completionType: CompletionType,
    completionMethod: string)

  /** @Arg("name") with every other element at its declared default. */
  function DefaultArg(value: string): (a: ArgSpec)
    ensures a.value == value
    ensures !a.optional && a.defaultValue == "" && a.completions == []
    ensures a.completionType == NoCompletion && a.completionMethod == ""
  {
    ArgSpec(value, false, "", [], NoCompletion, "")
  }

  // ---------------------------------------------------------------------------
  // @Command
  // ---------------------------------------------------------------------------

  /** The @Command annotation on a handler method. */
  datatype CommandSpec = CommandSpec(
    value: string,
    name: string,
    aliases: seq<string>,
    description: string,
    usage: string,
    permission: string,
    playerOnly: bool,
    consoleOnly: bool)

  /** @Command with every element at its declared default. */
  function DefaultCommand(): (c: CommandSpec)
    ensures c.value == "" && c.name == "" && c.aliases == []
    ensures c.description == "" && c.usage == "" && c.permission == ""
    ensures !c.playerOnly && !c.consoleOnly
  {
    CommandSpec("", "", [], "", "", "", false, false)
  }

  /** getCommandName: the annotation's name() when non-empty, else the method's own name.
      The annotation's value() element is not consulted. */
  function EffectiveName(spec: CommandSpec, methodName: string): (r: string)
    ensures spec.name != "" ==> r == spec.name
    ensures spec.name == "" ==> r == methodName
  {
    if spec.name != "" then spec.name else methodName
  }

  /** value(), documented as the command's name, has no influence on it. */
  lemma ValueNeverRead(spec: CommandSpec, v: string, methodName: string)
    ensures EffectiveName(spec.(value := v), methodName) == EffectiveName(spec, methodName)
  {
  }

  // ---------------------------------------------------------------------------
  // Parameter types and parsed values
  // ---------------------------------------------------------------------------

  /** The declared Java type of a parameter: String, the five primitive/boxed pairs the
      parser knows, or any other reference type (isSender: assignable to CommandSender). */
  datatype ArgType =
    | StringParam
    | IntParam(boxed: bool)
    | DoubleParam(boxed: bool)
    | FloatParam(boxed: bool)
    | LongParam(boxed: bool)
    | BooleanParam(boxed: bool)
    | ReferenceParam(simpleName: string, isSender: bool)
  {
    /** Class.getSimpleName(). */
    function SimpleName(): string {
      match this
      case StringParam => "String"
      case IntParam(b) => if b then "Integer" else "int"
      case DoubleParam(b) => if b then "Double" else "double"
      case FloatParam(b) => if b then "Float" else "float"
      case LongParam(b) => if b then "Long" else "long"
      case BooleanParam(b) => if b then "Boolean" else "boolean"
      case ReferenceParam(n, _) => n
    }

    predicate IsPrimitive() {
      match this
      case IntParam(b) => !b
      case DoubleParam(b) => !b
      case FloatParam(b) => !b
      case LongParam(b) => !b
      case BooleanParam(b) => !b
      case _ => false
    }
  }

  /** A value handed to a command method: null, a String, or a (boxed) number or boolean.
      Floating-point values are kept as the real number the parser produced. */
  datatype ArgValue =
    | Null
    | Text(text: string)
    | IntValue(i: int)
    | LongValue(l: int)
    | DoubleValue(d: real)
    | FloatValue(f: real)
    | BoolValue(b: bool)
}
