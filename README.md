# piston-core in Dafny: command router, event bus and plugin metadata

A model of three parts of piston-core, a plugin framework for Minecraft servers. Each part is proved against its own specification.

- **The command router.**
  - `DefaultCommandRegistry` keeps three maps, updated in place:
    - a lower-cased command-name-and-alias table;
    - the tab completers, keyed by lower-cased type name;
    - the keys each handler object owns.
  - `RegisteredCommand` runs one command. It checks the permission, player-only and console-only gates in that order, then the `onBeforeCommand` hook. It then parses the positional arguments with their type coercions and defaults, invokes the command method, and runs `onAfterCommand`.
  - Tab completion has layered candidate sources. The candidates are filtered by prefix, ignoring case, and sorted.
  - `CommandHandler` turns each `CommandError` kind into the message sent to the sender.
- **The event bus.**
  - `EventServiceImpl` keeps a listener list per event type and a record per listener object.
  - It registers listeners from their `@EventHandler` methods and keeps every list in stable, descending priority order.
  - `fireEvent` visits the listeners of the event's class and of its strict supertypes in priority order. It skips ignoring listeners while a cancellable event is cancelled, and reports each listener's exception without stopping.
  - `EventBus` puts an ordered chain of filters in front of the service.
  - The event base classes carry a name, a timestamp, a cancelled flag and data.
- **The plugin metadata parser.**
  - `parseMetadata` reads a `piston-core.yml` text line by line into a `PluginMetadata` object, using `extractValue` and the inline-list parser `parseStringList`.
  - The `SpigotPluginMetadataService` getters read a loaded key-to-value map and fall back to defaults.

Where the source computes by changing state, the model does too:
- The registry, the event service, the event bus, `PluginMetadata` and the events are classes whose methods update their fields.
- Loops are `while` loops with invariants.
- Each such method is proved against a function of the old state: `RegisterMethods`, `EnrolMethods`, `RemoveEach`, `Deliver`, `Replay` and so on. Lemmas about those functions state what the source promises.

Java's library semantics are written out in `JavaStrings`:
- `String.trim`;
- ASCII `toLowerCase`;
- `String.split` with a limit of 0 (trailing empty pieces removed) and of -1 (all pieces kept);
- `Integer.parseInt` and `Long.parseLong` on ASCII digits, with their ranges;
- lexicographic `compareTo` and a sort.

Both `List.sort` and `Stream.sorted` are stable. The source's 32-bit `hashCode` arithmetic wraps explicitly.

Where the source's documentation and its code disagree, the model follows the code:
- A listener with `ignoreCancelled = true` is *skipped* for a cancelled event. Its documentation says such a listener receives cancelled events.
- Functional listener registration always throws, because its wrapper hands a null `Method` to a constructor that dereferences it.
- `SimpleEvent.toString` prints `SimpleEvent{...}`. `toString` reads the base class's private name field, which holds the simple class name, not the name given to `create`.
- `registerCommands(Class)` reports every failure, including a malformed command method, as `Failed to instantiate command handler: <class>`.
- `unregisterListener` removes only the first equal element of each list. An object registered twice keeps one copy of each listener after it is unregistered.

## Model

| member | source | states |
|---|---|---|
| CommandErrors.ErrorTypesEnumerated | api/src/main/java/org/pistonworks/core/api/command/CommandError.java:42-50 | Every error kind is one of exactly six pairwise distinct kinds. |
| CommandErrors.NewError | api/src/main/java/org/pistonworks/core/api/command/CommandError.java:12-15 | The two-argument constructor keeps the kind and the message and sets the usage to "". |
| CommandAnnotations.DefaultArg | api/src/main/java/org/pistonworks/core/api/command/Arg.java:18-54 | An `@Arg` with only its value set: not optional, default literal "", no completions, completion type NONE, no completion method. |
| CommandAnnotations.DefaultCommand | api/src/main/java/org/pistonworks/core/api/command/Command.java:19-54 | A bare `@Command`: empty value, name, aliases, description, usage and permission; both sender flags false. |
| CommandAnnotations.EffectiveName | api/src/main/java/org/pistonworks/core/api/command/DefaultCommandRegistry.java:216-222 | The command's name is `name()` when it is non-empty and the method's name otherwise. |
| CommandAnnotations.ValueNeverRead | api/src/main/java/org/pistonworks/core/api/command/Command.java:19 | Changing `value()` never changes the effective name. |
| CommandHandlers.DefaultBeforeCommand | api/src/main/java/org/pistonworks/core/api/command/CommandHandler.java:70-73 | The default pre-hook always lets the command proceed. |
| CommandHandlers.DefaultAfterCommand | api/src/main/java/org/pistonworks/core/api/command/CommandHandler.java:82-85 | The default post-hook returns normally. |
| CommandHandlers.ErrorMessage | api/src/main/java/org/pistonworks/core/api/command/CommandHandler.java:36-58 | Every error yields exactly one message, and every message starts with the colour code "§c". |
| CommandHandlers.KindOfMessage | api/src/main/java/org/pistonworks/core/api/command/CommandHandler.java:38-57 | Reads a message back to the error kind that produces it (the inverse of ErrorMessage). |
| CommandHandlers.MessageIdentifiesKind | api/src/main/java/org/pistonworks/core/api/command/CommandHandler.java:38-57 | Reading a message back gives the error's kind, so no two kinds share a text. |
| CommandHandlers.InvalidArgumentsShowsUsage | api/src/main/java/org/pistonworks/core/api/command/CommandHandler.java:40-42 | INVALID_ARGUMENTS sends the fixed text followed by the error's usage, whatever its message. |
| CommandHandlers.GateMessagesFixed | api/src/main/java/org/pistonworks/core/api/command/CommandHandler.java:43-51 | NO_PERMISSION, PLAYER_ONLY and CONSOLE_ONLY send texts that depend on neither message nor usage. |
| CommandHandlers.FailureMessagesShowMessage | api/src/main/java/org/pistonworks/core/api/command/CommandHandler.java:52-57 | EXECUTION_ERROR and UNKNOWN end with the error's message; UNKNOWN is "§cCommand failed: " + message. |
| RegisteredCommands.DefaultValueForType | api/src/main/java/org/pistonworks/core/api/command/RegisteredCommand.java:221-229 | Empty text gives the zero of a primitive type (0, 0L, 0.0, false) and null for any other type, and the value fits the type. |
| RegisteredCommands.ParseBoolean | api/src/main/java/org/pistonworks/core/api/command/RegisteredCommand.java:206-209 | `Boolean.parseBoolean`: true iff the text is four characters spelling "true" in any mix of case. Any other text, such as "yes", "1" or " true", is false. |
| RegisteredCommands.ParseArgument | api/src/main/java/org/pistonworks/core/api/command/RegisteredCommand.java:177-219 | Empty text gives the type's default. String and other reference types keep the text. Boolean is `parseBoolean`. Any non-null result fits the declared type and range. |
| RegisteredCommands.ParseFailsIffRejected | api/src/main/java/org/pistonworks/core/api/command/RegisteredCommand.java:184-218 | Non-empty text parses to null exactly when the int, long, double or float parser rejects it. |
| RegisteredCommands.ParseIntegerRoundTrip | api/src/main/java/org/pistonworks/core/api/command/RegisteredCommand.java:186-199 | Any in-range int or long, written in decimal, parses back to itself. |
| RegisteredCommands.Placeholders | api/src/main/java/org/pistonworks/core/api/command/RegisteredCommand.java:297-308 | One placeholder per declared argument: "<name>" when required, "[name]" when optional. |
| RegisteredCommands.GenerateUsage | api/src/main/java/org/pistonworks/core/api/command/RegisteredCommand.java:287-311 | No contract of its own. The explicit usage, or "/name" with one placeholder per argument, as Placeholders, UsageTailJoins and GeneratedUsageSplits state. |
| RegisteredCommands.UsageTailJoins | api/src/main/java/org/pistonworks/core/api/command/RegisteredCommand.java:294-310 | Appending " " + placeholder per argument equals joining "/name" and the placeholders with spaces. |
| RegisteredCommands.PlaceholderSpaceFree | api/src/main/java/org/pistonworks/core/api/command/RegisteredCommand.java:300-307 | A placeholder contains no space when the argument's name has none. |
| RegisteredCommands.GeneratedUsageSplits | api/src/main/java/org/pistonworks/core/api/command/RegisteredCommand.java:287-311 | Without an explicit usage, the usage splits on spaces into "/name" followed by the placeholders in declaration order. |
| RegisteredCommands.ParseAt | api/src/main/java/org/pistonworks/core/api/command/RegisteredCommand.java:134-170 | Argument i fails exactly when it is missing and required, missing with a rejected default, or present and rejected. Every failure is INVALID_ARGUMENTS with the usage. A success is the parse of the token or the default. |
| RegisteredCommands.ParsePrefix | api/src/main/java/org/pistonworks/core/api/command/RegisteredCommand.java:126-175 | Parsing the first n arguments gives n values on success. |
| RegisteredCommands.ParsePrefixMeaning | api/src/main/java/org/pistonworks/core/api/command/RegisteredCommand.java:126-175 | Parsing succeeds iff every argument parses, giving each one's value in order; otherwise the error is that of the first failing argument. |
| RegisteredCommands.ParseErrorsCarryUsage | api/src/main/java/org/pistonworks/core/api/command/RegisteredCommand.java:134-170 | Every parse error is INVALID_ARGUMENTS and carries `generateUsage()`. |
| RegisteredCommands.FailureStops | api/src/main/java/org/pistonworks/core/api/command/RegisteredCommand.java:126-175 | After the first failing argument, no later argument changes the result. |
| RegisteredCommands.ParseArguments | api/src/main/java/org/pistonworks/core/api/command/RegisteredCommand.java:126-175 | The loop appending parsed values, with its early returns, computes ParsePrefix over all declared arguments. |
| RegisteredCommands.ExtraTokensIgnored | api/src/main/java/org/pistonworks/core/api/command/RegisteredCommand.java:130-132 | Tokens beyond the declared arguments do not affect parsing. |
| RegisteredCommands.MissingRequiredArgument | api/src/main/java/org/pistonworks/core/api/command/RegisteredCommand.java:150-157 | The first missing required argument after arguments that all parse is reported as "Missing required argument: name" with the usage. |
| RegisteredCommands.Execute | api/src/main/java/org/pistonworks/core/api/command/RegisteredCommand.java:34-89 | Only a throwing pre-hook escapes execute, and only after every gate passed. At most one error is reported. A true result means no error, an invocation and a post-hook run. An invocation means the gates passed, the pre-hook proceeded and the values are the parse. |
| RegisteredCommands.PermissionGateFirst | api/src/main/java/org/pistonworks/core/api/command/RegisteredCommand.java:37-42 | A failed permission check gives exactly one NO_PERMISSION error and false, whatever the sender flags are. |
| RegisteredCommands.EmptyPermissionUnchecked | api/src/main/java/org/pistonworks/core/api/command/RegisteredCommand.java:37 | An empty permission never yields NO_PERMISSION. |
| RegisteredCommands.PlayerOnlyGate | api/src/main/java/org/pistonworks/core/api/command/RegisteredCommand.java:45-50 | After the permission check, a console sender of a player-only command gets exactly one PLAYER_ONLY error and false. |
| RegisteredCommands.ConsoleOnlyGate | api/src/main/java/org/pistonworks/core/api/command/RegisteredCommand.java:52-57 | After the first two checks, a non-console sender of a console-only command gets exactly one CONSOLE_ONLY error and false. |
| RegisteredCommands.BothSenderFlagsNeverRun | api/src/main/java/org/pistonworks/core/api/command/RegisteredCommand.java:45-57 | A command that is both player-only and console-only never invokes its method for any sender. |
| RegisteredCommands.VetoIsSilent | api/src/main/java/org/pistonworks/core/api/command/RegisteredCommand.java:60-63 | A pre-hook returning false gives false, no error and no invocation. |
| RegisteredCommands.SuccessfulRun | api/src/main/java/org/pistonworks/core/api/command/RegisteredCommand.java:65-81 | A true result invoked the method with one value per declared argument, in order, and then ran the post-hook. |
| RegisteredCommands.ExceptionsBecomeExecutionErrors | api/src/main/java/org/pistonworks/core/api/command/RegisteredCommand.java:83-88 | An exception from the method or the post-hook becomes one EXECUTION_ERROR and false. The error carries the exception's reported message (the cause's message for the reflective call). The method was invoked with the parsed values, and the post-hook ran exactly when the method returned. |
| RegisteredCommands.ArgumentErrorsCarryUsage | api/src/main/java/org/pistonworks/core/api/command/RegisteredCommand.java:65-69 | An argument error gives one INVALID_ARGUMENTS error with the usage, false, and no invocation. |
| RegisteredCommands.Info | api/src/main/java/org/pistonworks/core/api/command/RegisteredCommand.java:112-124 | The command info carries the effective name, the aliases, the description, the generated usage, the permission, both flags and the arguments. |
| RegisteredCommands.FilterPrefix | api/src/main/java/org/pistonworks/core/api/command/RegisteredCommand.java:105-107 | Keeps exactly the candidates whose lower-cased text starts with the prefix, with their multiplicities. |
| RegisteredCommands.ProviderCompletions | api/src/main/java/org/pistonworks/core/api/command/RegisteredCommand.java:235-254 | Only a METHOD argument whose provider is registered decides. A throwing provider decides the empty list. A result that is not a list decides nothing. |
| RegisteredCommands.CompletionsForArgument | api/src/main/java/org/pistonworks/core/api/command/RegisteredCommand.java:231-285 | No contract of its own. The order of the candidate sources is stated by ProviderFirst, LiteralsBeforeCompleters and BuiltInCompletions. |
| RegisteredCommands.ProviderFirst | api/src/main/java/org/pistonworks/core/api/command/RegisteredCommand.java:235-254 | A METHOD provider's list takes precedence over every other candidate source. |
| RegisteredCommands.LiteralsBeforeCompleters | api/src/main/java/org/pistonworks/core/api/command/RegisteredCommand.java:256-260 | Without a deciding provider, non-empty literal completions win over any registered completer. |
| RegisteredCommands.BuiltInCompletions | api/src/main/java/org/pistonworks/core/api/command/RegisteredCommand.java:269-284 | With no provider, no literals and no registered completer, BOOLEAN offers true and false and every other type offers nothing. |
| RegisteredCommands.TabCompletions | api/src/main/java/org/pistonworks/core/api/command/RegisteredCommand.java:91-110 | Completion is empty for no tokens or more tokens than arguments. Otherwise it is sorted and holds exactly the last position's candidates that start with the last token, ignoring case. |
| CommandRegistry.InfoOf | api/src/main/java/org/pistonworks/core/api/command/DefaultCommandRegistry.java:190-198 | The argument info copies each `@Arg` element and the parameter's type. |
| CommandRegistry.ArgumentInfos | api/src/main/java/org/pistonworks/core/api/command/DefaultCommandRegistry.java:181-199 | Succeeds iff every parameter after the sender has `@Arg`, giving one info per parameter in order; otherwise the IllegalArgumentException names the first parameter without `@Arg`. |
| CommandRegistry.CreateRegisteredCommand | api/src/main/java/org/pistonworks/core/api/command/DefaultCommandRegistry.java:170-214 | Succeeds iff the first parameter is a CommandSender and every later one has `@Arg`. A missing sender gives the first-parameter exception. A missing `@Arg` after a valid sender gives ArgumentInfos' exception, naming the first parameter without one. A success binds the handler, the method, the annotation, the handler's completion methods and one argument per later parameter. |
| CommandRegistry.CommandKeys | api/src/main/java/org/pistonworks/core/api/command/DefaultCommandRegistry.java:41-52 | The keys put are the lower-cased effective name followed by each lower-cased alias. |
| CommandRegistry.PutKeys | api/src/main/java/org/pistonworks/core/api/command/DefaultCommandRegistry.java:44-51 | After putting the keys, each maps to the command, and every other key is unchanged. |
| CommandRegistry.RegisterMethods | api/src/main/java/org/pistonworks/core/api/command/DefaultCommandRegistry.java:36-54 | No contract of its own. registerCommands' method loop over the first n methods, stated by RegisterMethod, RegisterStep, ErrorStops, RegistrationFootprint and FailedMethodStops. |
| CommandRegistry.RegisterMethod | api/src/main/java/org/pistonworks/core/api/command/DefaultCommandRegistry.java:38-53 | Once an exception has been thrown, a later method changes nothing. |
| CommandRegistry.RegistrationFootprint | api/src/main/java/org/pistonworks/core/api/command/DefaultCommandRegistry.java:36-56 | Registration changes only the keys it records, each mapping to a command of this handler. Without an error, it records exactly the keys of the annotated methods. |
| CommandRegistry.ErrorStops | api/src/main/java/org/pistonworks/core/api/command/DefaultCommandRegistry.java:36-54 | Once a method fails, later methods are not looked at. |
| CommandRegistry.RegisterStep | api/src/main/java/org/pistonworks/core/api/command/DefaultCommandRegistry.java:38-53 | A method without `@Command` changes nothing. A well-formed one puts its keys and records them. A malformed one records its exception. |
| CommandRegistry.FailedMethodStops | api/src/main/java/org/pistonworks/core/api/command/DefaultCommandRegistry.java:36-56 | A malformed method stops registration with its exception, and the commands put before it stay in the table. |
| CommandRegistry.SingleCommandRegistration | api/src/main/java/org/pistonworks/core/api/command/DefaultCommandRegistry.java:36-56 | One well-formed command maps its name and every alias, lower-cased, to the same command, overwriting earlier entries. It owns exactly those keys. |
| CommandRegistry.Tokens | api/src/main/java/org/pistonworks/core/api/command/DefaultCommandRegistry.java:105-106 | The trimmed, whitespace-split line has at least one token and no token contains whitespace. A blank line gives [""]; otherwise no token is empty. |
| CommandRegistry.CommandKey | api/src/main/java/org/pistonworks/core/api/command/DefaultCommandRegistry.java:108-111 | The key looked up is lower case. |
| CommandRegistry.CommandKeyCaseInsensitive | api/src/main/java/org/pistonworks/core/api/command/DefaultCommandRegistry.java:108-113 | Tokens that differ only in case resolve to the same key. |
| CommandRegistry.CommandKeyOfName | api/src/main/java/org/pistonworks/core/api/command/DefaultCommandRegistry.java:108-111 | A name and "/" + name resolve to the same lower-cased key. |
| CommandRegistry.DispatchLine | api/src/main/java/org/pistonworks/core/api/command/DefaultCommandRegistry.java:103-128 | An unknown key gives false with nothing else. A known key is the resolved first token. A true result has no error and an invocation. At most one error is reported. |
| CommandRegistry.DispatchRunsCommand | api/src/main/java/org/pistonworks/core/api/command/DefaultCommandRegistry.java:113-127 | A known command runs with the tokens after the first. An exception escaping it becomes one EXECUTION_ERROR and false. |
| CommandRegistry.CompletionParts | api/src/main/java/org/pistonworks/core/api/command/DefaultCommandRegistry.java:133 | Splitting with limit -1 gives at least one part, and no part holds whitespace. |
| CommandRegistry.OnePartMeansTypingName | api/src/main/java/org/pistonworks/core/api/command/DefaultCommandRegistry.java:133-142 | The line splits into one part iff it has no whitespace, and then it cannot end with a space. |
| CommandRegistry.TrailingSpaceGivesEmptyArgument | api/src/main/java/org/pistonworks/core/api/command/DefaultCommandRegistry.java:133-153 | A name followed by one space splits into the name and one empty argument. |
| CommandRegistry.BooleanCompleter | api/src/main/java/org/pistonworks/core/api/command/DefaultCommandRegistry.java:24-27 | No contract of its own. Its offers are stated by BooleanCompleterOffers and BooleanCompleterIgnoresCase. |
| CommandRegistry.BooleanCompleterOffers | api/src/main/java/org/pistonworks/core/api/command/DefaultCommandRegistry.java:24-27 | The built-in boolean completer offers "true", then "false", each when it starts with the lower-cased current text. |
| CommandRegistry.BooleanCompleterIgnoresCase | api/src/main/java/org/pistonworks/core/api/command/DefaultCommandRegistry.java:24-27 | Case is ignored: non-empty text that begins "true" in any letter case completes to "true" alone, and text that begins "false" to "false" alone. |
| CommandRegistry.DefaultCommandRegistry.constructor | api/src/main/java/org/pistonworks/core/api/command/DefaultCommandRegistry.java:21-28 | A new registry has no commands, no handler records and only the "boolean" completer. |
| CommandRegistry.DefaultCommandRegistry.RegisterCommands | api/src/main/java/org/pistonworks/core/api/command/DefaultCommandRegistry.java:30-57 | The table becomes RegisterMethods'. On success, the handler's record is replaced by the recorded keys; on an exception, records are unchanged. Every key stays lower case. |
| CommandRegistry.DefaultCommandRegistry.PutAll | api/src/main/java/org/pistonworks/core/api/command/DefaultCommandRegistry.java:44-51 | Puts the name and then each alias; only the command table changes. |
| CommandRegistry.DefaultCommandRegistry.RegisterCommandsOfClass | api/src/main/java/org/pistonworks/core/api/command/DefaultCommandRegistry.java:59-71 | A failed instantiation changes nothing. Any failure is the one wrapping "Failed to instantiate command handler: " + class. Otherwise it is registerCommands on the instance. |
| CommandRegistry.DefaultCommandRegistry.UnregisterCommands | api/src/main/java/org/pistonworks/core/api/command/DefaultCommandRegistry.java:73-81 | Drops the handler's record and every key in it, including keys a later handler overwrote. An unknown handler changes nothing. |
| CommandRegistry.DefaultCommandRegistry.UnregisterCommandsOfClass | api/src/main/java/org/pistonworks/core/api/command/DefaultCommandRegistry.java:83-94 | Exactly the handlers of that runtime class lose their records and their keys. |
| CommandRegistry.DefaultCommandRegistry.DropIfOfClass | api/src/main/java/org/pistonworks/core/api/command/DefaultCommandRegistry.java:86-93 | One turn of the removeIf walk, which keeps that walk's invariant. |
| CommandRegistry.DefaultCommandRegistry.RegisterTabCompleter | api/src/main/java/org/pistonworks/core/api/command/DefaultCommandRegistry.java:96-100 | Puts the completer under the lower-cased type, replacing any; nothing else changes. |
| CommandRegistry.DefaultCommandRegistry.ExecuteCommand | api/src/main/java/org/pistonworks/core/api/command/DefaultCommandRegistry.java:102-128 | executeCommand on the current table is DispatchLine. |
| CommandRegistry.DefaultCommandRegistry.GetTabCompletions | api/src/main/java/org/pistonworks/core/api/command/DefaultCommandRegistry.java:130-155 | While the name is typed (one part, no trailing space), returns the sorted keys that start with the resolved token. Otherwise it is empty for an unknown command, or that command's completions for the later parts ([""] when there are none). |
| CommandRegistry.DefaultCommandRegistry.GetCommandInfo | api/src/main/java/org/pistonworks/core/api/command/DefaultCommandRegistry.java:163-168 | The lookup ignores case, is absent (null) iff the key is unknown, and gives the command's info otherwise. |
| EventPriorities.EventPriority.Value | api/src/main/java/org/pistonworks/core/api/event/EventPriority.java:16-26 | Every priority value is between 0 and 5. |
| EventPriorities.PrioritiesEnumerated | api/src/main/java/org/pistonworks/core/api/event/EventPriority.java:9-14 | There are exactly six priorities, with values 0 to 5 in declaration order. |
| EventPriorities.ValuesIncrease | api/src/main/java/org/pistonworks/core/api/event/EventPriority.java:9-14 | Values strictly increase from LOWEST to MONITOR. |
| EventPriorities.ValueInjective | api/src/main/java/org/pistonworks/core/api/event/EventPriority.java:16-26 | Distinct priorities have distinct values. |
| EventPriorities.MonitorIsMaximum | api/src/main/java/org/pistonworks/core/api/event/EventPriority.java:9-14 | LOWEST is the least and MONITOR the only greatest value. |
| Events.PlainTextCarriesTimestamp | common/src/main/java/org/pistonworks/core/common/event/AbstractEvent.java:34-37 | "name{timestamp=N}" starts with the name and its digits read back as the timestamp. |
| Events.CancellableTextCarriesState | common/src/main/java/org/pistonworks/core/common/event/AbstractCancellableEvent.java:43-47 | "name{timestamp=N, cancelled=b}" carries the name, a timestamp that reads back, and the flag. |
| Events.Event.Unnamed | common/src/main/java/org/pistonworks/core/common/event/AbstractEvent.java:14-17 | The no-argument constructor names the event by its simple class name and fixes the timestamp; the event starts uncancelled. |
| Events.Event.Named | common/src/main/java/org/pistonworks/core/common/event/AbstractEvent.java:19-22 | The named constructor stores the name verbatim and fixes the timestamp. |
| Events.Event.Simple | common/src/main/java/org/pistonworks/core/common/event/SimpleEvent.java:13-16 | A SimpleEvent has its own name, the base name "SimpleEvent", and no data. |
| Events.Event.CancellableSimple | common/src/main/java/org/pistonworks/core/common/event/SimpleEvent.java:77-81 | A CancellableSimpleEvent stores the given name and data and starts uncancelled. |
| Events.Event.SetCancelled | common/src/main/java/org/pistonworks/core/common/event/AbstractCancellableEvent.java:37-41 | After setCancelled(b), isCancelled() is b; data, name and timestamp are unchanged. |
| Events.Event.WithData | common/src/main/java/org/pistonworks/core/common/event/SimpleEvent.java:35-39 | Sets the data and returns the same object, leaving the flag alone; likewise for CancellableSimpleEvent (lines 89-93). |
| Events.Event.Cancellable | common/src/main/java/org/pistonworks/core/common/event/SimpleEvent.java:64-67 | A fresh, uncancelled CancellableSimpleEvent with the same name and data; the original is unchanged. |
| Events.Event.EventName | common/src/main/java/org/pistonworks/core/common/event/AbstractEvent.java:24-27 | No contract of its own. The name field SimpleEvent and CancellableSimpleEvent declare (SimpleEvent.java lines 53-57), else AbstractEvent's. Its value after each constructor is stated by Unnamed, Named, Simple and CancellableSimple. |
| Events.Event.Timestamp | common/src/main/java/org/pistonworks/core/common/event/AbstractEvent.java:29-32 | No contract of its own. The clock reading the constructor stored, as Unnamed and Named state. |
| Events.Event.IsCancelled | common/src/main/java/org/pistonworks/core/common/event/AbstractCancellableEvent.java:31-35 | No contract of its own. False on a new cancellable event and b after setCancelled(b), as CancellableSimple, Cancellable and SetCancelled state. |
| Events.Event.ToString | common/src/main/java/org/pistonworks/core/common/event/AbstractCancellableEvent.java:43-47 | No contract of its own. AbstractCancellableEvent's form with getEventName() for a cancellable event, AbstractEvent's form with the base name otherwise. PlainTextCarriesTimestamp and CancellableTextCarriesState state what the text carries. |
| Events.Event.GetData | common/src/main/java/org/pistonworks/core/common/event/SimpleEvent.java:47-51 | No contract of its own. Null (None) until withData, then the value last set, as Simple and WithData state. |
| Events.Create | common/src/main/java/org/pistonworks/core/common/event/SimpleEvent.java:24-27 | A fresh SimpleEvent named as given, without data, whose toString shows "SimpleEvent". |
| Listeners.NewRegisteredListener | common/src/main/java/org/pistonworks/core/common/event/RegisteredListener.java:19-26 | Construction fails iff the method is null. Otherwise the getters return the four constructor values. |
| Listeners.NewFunctionalListener | common/src/main/java/org/pistonworks/core/common/event/FunctionalRegisteredListener.java:15-19 | Functional construction always fails at the base constructor's dereference of the null method. |
| Listeners.ListenerEqualsEquivalence | common/src/main/java/org/pistonworks/core/common/event/RegisteredListener.java:53-60 | equals is an equivalence that compares listener and method only, not priority or flag. |
| Listeners.ListenerEquals | common/src/main/java/org/pistonworks/core/common/event/RegisteredListener.java:53-60 | No contract of its own. Same listener object and equal methods, stated as an equivalence that ignores priority and flag by ListenerEqualsEquivalence. |
| Listeners.Wrap32 | common/src/main/java/org/pistonworks/core/common/event/RegisteredListener.java:62-66 | Java int wrap-around: the result is in int range, congruent modulo 2^32, and the identity on in-range values. |
| Listeners.HashCode | common/src/main/java/org/pistonworks/core/common/event/RegisteredListener.java:62-66 | Always an int. Equal listeners get equal codes (EqualListenersEqualHashes). |
| Listeners.EqualListenersEqualHashes | common/src/main/java/org/pistonworks/core/common/event/RegisteredListener.java:62-66 | Equal listeners have equal hash codes, always within int range. |
| Listeners.FirstEqual | common/src/main/java/org/pistonworks/core/common/event/EventServiceImpl.java:80 | The position `List.remove` takes: the first element equal to x, or the length. |
| Listeners.RemoveFirst | common/src/main/java/org/pistonworks/core/common/event/EventServiceImpl.java:80 | Removes the first equal element only, if any. |
| Listeners.RemoveFirstSpares | common/src/main/java/org/pistonworks/core/common/event/EventServiceImpl.java:76-81 | Removing another object's listener leaves this object's listeners as they were and removes at most one element. |
| Listeners.InsertByPriority | common/src/main/java/org/pistonworks/core/common/event/EventServiceImpl.java:169-175 | Inserting into a descending list gives a descending permutation with the element added. |
| Listeners.SortByPriority | common/src/main/java/org/pistonworks/core/common/event/EventServiceImpl.java:169-175 | The sort gives a descending permutation. |
| Listeners.InsertKeepsTies | common/src/main/java/org/pistonworks/core/common/event/EventServiceImpl.java:173 | Insertion puts the new element ahead of its equals, once the result is reversed into list order (see SortIsStable). |
| Listeners.SortIsStable | common/src/main/java/org/pistonworks/core/common/event/EventServiceImpl.java:169-175 | Listeners of equal priority keep their relative order. |
| Listeners.SortOfDescending | common/src/main/java/org/pistonworks/core/common/event/EventServiceImpl.java:169-175 | Sorting a list already in order leaves it unchanged. |
| EventService.EnrolMethod | common/src/main/java/org/pistonworks/core/common/event/EventServiceImpl.java:30-61 | Once an exception has been thrown, a later method changes nothing. |
| EventService.EnrolMethods | common/src/main/java/org/pistonworks/core/common/event/EventServiceImpl.java:30-61 | No contract of its own. registerListener's method loop over the first n methods, stated by EnrolMethod, EnrolErrorStops, EnrolmentFootprint, MalformedHandlerThrows and EnrolmentRemovable. |
| EventService.SortAll | common/src/main/java/org/pistonworks/core/common/event/EventServiceImpl.java:169-175 | Every list is sorted in descending priority order; the keys are unchanged. |
| EventService.EnrolmentFootprint | common/src/main/java/org/pistonworks/core/common/event/EventServiceImpl.java:24-67 | Every new record belongs to the object. Lists only grow, by appending. A new key gets a non-empty list. |
| EventService.EnrolErrorStops | common/src/main/java/org/pistonworks/core/common/event/EventServiceImpl.java:30-61 | Once a method throws, later methods are not looked at. |
| EventService.MalformedHandlerThrows | common/src/main/java/org/pistonworks/core/common/event/EventServiceImpl.java:37-50 | A handler without exactly one parameter, or with a non-Event parameter, throws the matching IllegalArgumentException, and the lists keep what came before. |
| EventService.RemoveFromAll | common/src/main/java/org/pistonworks/core/common/event/EventServiceImpl.java:78-81 | Removes x's first equal from every list; the keys are unchanged. |
| EventService.RemoveEach | common/src/main/java/org/pistonworks/core/common/event/EventServiceImpl.java:76-82 | The outer unregistration loop leaves the key set unchanged. |
| EventService.RemoveEachSpares | common/src/main/java/org/pistonworks/core/common/event/EventServiceImpl.java:70-84 | Unregistering never touches other objects' listeners and removes at most one element per record from each list. |
| EventService.RemoveFirstKeepsOrder | common/src/main/java/org/pistonworks/core/common/event/EventServiceImpl.java:80 | Removal keeps a list in descending order. |
| EventService.RemoveFirstOnlyCopy | common/src/main/java/org/pistonworks/core/common/event/EventServiceImpl.java:80 | On a list holding x at most once and no other equal of x, `list.remove(x)` leaves no copy of x and adds nothing. |
| EventService.RemoveEachClears | common/src/main/java/org/pistonworks/core/common/event/EventServiceImpl.java:76-82 | The removal loop clears an object whose listeners in the table are all among its records, each at most once per list, with no two records equal. |
| EventService.EnrolmentRemovable | common/src/main/java/org/pistonworks/core/common/event/EventServiceImpl.java:30-61 | From a table without the object's listeners, an object with distinct methods ends registration with its listeners in the table all among its records. Each appears at most once per list, no two records are equal, and each comes from one of its methods. |
| EventService.RegisterThenUnregisterClears | common/src/main/java/org/pistonworks/core/common/event/EventServiceImpl.java:24-84 | Registering an object with distinct methods into a table without its listeners, then unregistering it, leaves none of its listeners in any list. The keys are unchanged. |
| EventService.DoubleRegistrationLeavesCopy | common/src/main/java/org/pistonworks/core/common/event/EventServiceImpl.java:24-84 | Registering a one-handler object twice puts two copies in its list and keeps only the second registration's record. Unregistering then leaves one copy. |
| EventService.SupersMembers | common/src/main/java/org/pistonworks/core/common/event/EventServiceImpl.java:155-161 | The supertype gathering holds exactly the listeners of strict-supertype keys. |
| EventService.Supers | common/src/main/java/org/pistonworks/core/common/event/EventServiceImpl.java:155-161 | No contract of its own. The strict-supertype lists in entry order. SupersMembers states which listeners it holds. |
| EventService.Gathered | common/src/main/java/org/pistonworks/core/common/event/EventServiceImpl.java:143-162 | No contract of its own. The exact list, then Supers. GatheredMembers states which listeners it holds, and DispatchOrder the order after sorting. |
| EventService.GatheredMembers | common/src/main/java/org/pistonworks/core/common/event/EventServiceImpl.java:143-166 | fireEvent visits exactly the listeners of every key the event's class is assignable to. |
| EventService.DispatchOrder | common/src/main/java/org/pistonworks/core/common/event/EventServiceImpl.java:143-166 | The visit is in non-increasing priority order. Among ties, exact-type listeners, in list order, come before supertype ones. |
| EventService.Deliver | common/src/main/java/org/pistonworks/core/common/event/EventServiceImpl.java:100-118 | Every call happens at a position already visited. |
| EventService.Skips | common/src/main/java/org/pistonworks/core/common/event/EventServiceImpl.java:102-108 | No contract of its own. The skip test. Its meaning for dispatch is stated by CalledIffNotSkipped, NonCancellableReachesAll and NotIgnoringAlwaysCalled. |
| EventService.CalledIffNotSkipped | common/src/main/java/org/pistonworks/core/common/event/EventServiceImpl.java:100-109 | Listener i is called iff, with the flag as earlier listeners left it, the event is not cancellable, or not cancelled, or the listener does not ignore cancelled events. |
| EventService.NonCancellableReachesAll | common/src/main/java/org/pistonworks/core/common/event/EventServiceImpl.java:100-118 | An event that is not Cancellable reaches every listener, in order. |
| EventService.NotIgnoringAlwaysCalled | common/src/main/java/org/pistonworks/core/common/event/EventServiceImpl.java:105 | A listener without ignoreCancelled is always called. |
| EventService.FailuresIsolated | common/src/main/java/org/pistonworks/core/common/event/EventServiceImpl.java:111-117 | A listener's exception changes only the reports: the same listeners are called and the flag ends the same. There is at most one report per call. |
| EventService.EventServiceImpl.constructor | common/src/main/java/org/pistonworks/core/common/event/EventServiceImpl.java:21-22 | A new service has empty maps. |
| EventService.EventServiceImpl.ForEachList | common/src/main/java/org/pistonworks/core/common/event/EventServiceImpl.java:171-174 | Applies one list operation to every list in place; nothing else changes. |
| EventService.EventServiceImpl.SortListeners | common/src/main/java/org/pistonworks/core/common/event/EventServiceImpl.java:169-175 | Every list becomes its stable priority sort. |
| EventService.EventServiceImpl.RegisterListener | common/src/main/java/org/pistonworks/core/common/event/EventServiceImpl.java:24-68 | The lists become EnrolMethods'. With no error and at least one handler, the object's records are stored and every list is sorted. An exception leaves earlier appends in place, unsorted and unrecorded. |
| EventService.EventServiceImpl.UnregisterListener | common/src/main/java/org/pistonworks/core/common/event/EventServiceImpl.java:70-84 | Drops the object's record and removes each recorded listener from every list. An unregistered object changes nothing. |
| EventService.EventServiceImpl.RemoveFromEveryList | common/src/main/java/org/pistonworks/core/common/event/EventServiceImpl.java:78-81 | `list.remove(x)` on every list. |
| EventService.EventServiceImpl.RegisterFunctionalListener | common/src/main/java/org/pistonworks/core/common/event/EventServiceImpl.java:86-92 | Always fails with the wrapper's exception and changes nothing. |
| EventService.EventServiceImpl.ListenerCount | common/src/main/java/org/pistonworks/core/common/event/EventServiceImpl.java:129-134 | Counts only the list under the exact key, 0 when absent. |
| EventService.EventServiceImpl.UnregisterAll | common/src/main/java/org/pistonworks/core/common/event/EventServiceImpl.java:136-141 | Leaves both maps empty. |
| EventService.EventServiceImpl.ListenersFor | common/src/main/java/org/pistonworks/core/common/event/EventServiceImpl.java:143-167 | The direct list, then each strict-supertype list in entry order, sorted by descending priority. |
| EventService.EventServiceImpl.FireEvent | common/src/main/java/org/pistonworks/core/common/event/EventServiceImpl.java:94-121 | Returns the same event and leaves the registrations alone. The flag and the reported failures are those of Deliver over ListenersFor's list. |
| EventService.EventServiceImpl.Notify | common/src/main/java/org/pistonworks/core/common/event/EventServiceImpl.java:100-118 | The dispatch loop leaves the flag and the reports as Deliver says. |
| EventBusModule.FirstRejecting | common/src/main/java/org/pistonworks/core/common/event/EventBus.java:29-35 | Filters are asked in order, and the first refusal ends the walk. |
| EventBusModule.FirstRejectingSnoc | common/src/main/java/org/pistonworks/core/common/event/EventBus.java:44-47 | A filter added later is consulted only when every earlier one admitted the event. |
| EventBusModule.TypedFilter | common/src/main/java/org/pistonworks/core/common/event/EventBus.java:54-63 | A typed filter admits every event that is not an instance of its class. |
| EventBusModule.TypedFilterPassesOthers | common/src/main/java/org/pistonworks/core/common/event/EventBus.java:54-63 | Adding a typed filter never changes the outcome for events of other classes. |
| EventBusModule.TypedFilterDecidesInstances | common/src/main/java/org/pistonworks/core/common/event/EventBus.java:54-63 | On an instance of its class, a typed filter decides exactly as its predicate. |
| EventBusModule.EventBus.constructor | common/src/main/java/org/pistonworks/core/common/event/EventBus.java:19-21 | A new bus has the given service and no filters. |
| EventBusModule.EventBus.AddFilter | common/src/main/java/org/pistonworks/core/common/event/EventBus.java:44-46 | Appends the filter, and nothing else. |
| EventBusModule.EventBus.AddTypedFilter | common/src/main/java/org/pistonworks/core/common/event/EventBus.java:54-63 | Appends the typed filter. |
| EventBusModule.EventBus.Fire | common/src/main/java/org/pistonworks/core/common/event/EventBus.java:29-38 | Returns the same event. A rejected event is untouched and nothing is dispatched. An admitted one is exactly fireEvent. |
| EventBusModule.EventBus.RegisterListener | common/src/main/java/org/pistonworks/core/common/event/EventBus.java:68-70 | Is exactly the service's registerListener. |
| PluginMetadataModel.PluginMetadata.constructor | api/src/main/java/org/pistonworks/core/api/model/PluginMetadata.java:19 | Every field is null. |
| PluginMetadataModel.PluginMetadata.Full | api/src/main/java/org/pistonworks/core/api/model/PluginMetadata.java:21-31 | Every field is stored as given. |
| PluginMetadataModel.PluginMetadata.Basic | api/src/main/java/org/pistonworks/core/api/model/PluginMetadata.java:33-42 | Empty author and dependency lists, api-version "0.3.0". |
| PluginMetadataModel.PluginMetadata.SetName | api/src/main/java/org/pistonworks/core/api/model/PluginMetadata.java:44-52 | The getter then returns the value; the other fields are unchanged. |
| PluginMetadataModel.PluginMetadata.SetVersion | api/src/main/java/org/pistonworks/core/api/model/PluginMetadata.java:54-62 | The getter then returns the value; the other fields are unchanged. |
| PluginMetadataModel.PluginMetadata.SetDescription | api/src/main/java/org/pistonworks/core/api/model/PluginMetadata.java:64-72 | The getter then returns the value; the other fields are unchanged. |
| PluginMetadataModel.PluginMetadata.SetMainClass | api/src/main/java/org/pistonworks/core/api/model/PluginMetadata.java:74-82 | The getter then returns the value; the other fields are unchanged. |
| PluginMetadataModel.PluginMetadata.SetAuthors | api/src/main/java/org/pistonworks/core/api/model/PluginMetadata.java:84-92 | The getter then returns the value; the other fields are unchanged. |
| PluginMetadataModel.PluginMetadata.SetDependencies | api/src/main/java/org/pistonworks/core/api/model/PluginMetadata.java:94-102 | The getter then returns the value; the other fields are unchanged. |
| PluginMetadataModel.PluginMetadata.SetApiVersion | api/src/main/java/org/pistonworks/core/api/model/PluginMetadata.java:104-112 | The getter then returns the value; the other fields are unchanged. |
| PluginDiscovery.ExtractValue | common/src/main/java/org/pistonworks/core/common/PluginDiscoveryServiceImpl.java:217-233 | No colon gives "". Otherwise the value after the colon, trimmed, with one pair of matching quotes removed. Fails (substring(1,0)) iff that value is a lone quote character. |
| PluginDiscovery.ExtractQuoted | common/src/main/java/org/pistonworks/core/common/PluginDiscoveryServiceImpl.java:224-227 | `key: "v"` extracts v. |
| PluginDiscovery.ExtractPlain | common/src/main/java/org/pistonworks/core/common/PluginDiscoveryServiceImpl.java:217-233 | `key: v` extracts v when v is already trimmed and unquoted. |
| PluginDiscovery.Items | common/src/main/java/org/pistonworks/core/common/PluginDiscoveryServiceImpl.java:244-247 | One item per piece, each trimmed and stripped of quotes. |
| PluginDiscovery.StripQuotes | common/src/main/java/org/pistonworks/core/common/PluginDiscoveryServiceImpl.java:246 | No contract of its own. The replaceAll that removes one leading and one trailing quote, stated by StripQuotesOfQuoted and StripQuotesOfUnquoted. |
| PluginDiscovery.StripQuotesOfQuoted | common/src/main/java/org/pistonworks/core/common/PluginDiscoveryServiceImpl.java:246 | One leading and one trailing quote are removed. |
| PluginDiscovery.StripQuotesOfUnquoted | common/src/main/java/org/pistonworks/core/common/PluginDiscoveryServiceImpl.java:246 | A value without quotes at its ends is left alone. |
| PluginDiscovery.StringList | common/src/main/java/org/pistonworks/core/common/PluginDiscoveryServiceImpl.java:235-251 | Without both brackets the list is empty. It fails iff the first ']' precedes the first '['. |
| PluginDiscovery.ParseStringList | common/src/main/java/org/pistonworks/core/common/PluginDiscoveryServiceImpl.java:235-251 | The loop over the split items computes StringList. |
| PluginDiscovery.BracketsAround | common/src/main/java/org/pistonworks/core/common/PluginDiscoveryServiceImpl.java:240-242 | For "prefix[body]" the text between the brackets is body. |
| PluginDiscovery.StringListOfJoin | common/src/main/java/org/pistonworks/core/common/PluginDiscoveryServiceImpl.java:240-247 | "[a,b,...]" with bracket- and comma-free items (a last item that is not empty) parses to the items, trimmed and unquoted: the round trip of an inline list. |
| PluginDiscovery.EmptyBracketsGiveOneEmptyItem | common/src/main/java/org/pistonworks/core/common/PluginDiscoveryServiceImpl.java:242-247 | "authors: []" gives [""], as Java's split of "" gives one empty piece. |
| PluginDiscovery.ItemOfSpacedQuoted | common/src/main/java/org/pistonworks/core/common/PluginDiscoveryServiceImpl.java:246 | " 'v'" and ' "v"' give v. |
| PluginDiscovery.ItemOfSpacedPlain | common/src/main/java/org/pistonworks/core/common/PluginDiscoveryServiceImpl.java:246 | " v" gives v when v is trimmed and unquoted. |
| PluginDiscovery.EveryKeyMatched | common/src/main/java/org/pistonworks/core/common/PluginDiscoveryServiceImpl.java:155-182 | Every recognised key is one of the seven the if-chain checks. |
| PluginDiscovery.FirstKey | common/src/main/java/org/pistonworks/core/common/PluginDiscoveryServiceImpl.java:155-182 | The first key whose prefix the line starts with, or none when none does. |
| PluginDiscovery.KeyOf | common/src/main/java/org/pistonworks/core/common/PluginDiscoveryServiceImpl.java:152-182 | Blank and "#" lines have no key. A keyed line starts with its key's prefix. An unkeyed other line starts with no recognised prefix. |
| PluginDiscovery.ValueOf | common/src/main/java/org/pistonworks/core/common/PluginDiscoveryServiceImpl.java:155-182 | A keyed line's value fits its field (text or list), or is the extractValue/parseStringList exception. |
| PluginDiscovery.Put | common/src/main/java/org/pistonworks/core/common/PluginDiscoveryServiceImpl.java:155-182 | A setter sets its field and leaves every other field unchanged. |
| PluginDiscovery.EffectOf | common/src/main/java/org/pistonworks/core/common/PluginDiscoveryServiceImpl.java:152-182 | Blank and comment lines are skipped. An assignment fits its field. An exception is IndexOutOfBounds. |
| PluginDiscovery.Replay | common/src/main/java/org/pistonworks/core/common/PluginDiscoveryServiceImpl.java:149-183 | No contract of its own. The loop over the lines' effects, stated by ReplayFailsAtFirstThrow, ReplayStopsAtFailure and LastOccurrenceWins. |
| PluginDiscovery.MetadataOf | common/src/main/java/org/pistonworks/core/common/PluginDiscoveryServiceImpl.java:142-186 | No contract of its own. Replay over the effects of the text's lines split on newlines. ParseMetadata returns it. |
| PluginDiscovery.ReplayFailsAtFirstThrow | common/src/main/java/org/pistonworks/core/common/PluginDiscoveryServiceImpl.java:149-183 | Parsing fails iff some line throws, and then with the first such line's exception. |
| PluginDiscovery.LastAssign | common/src/main/java/org/pistonworks/core/common/PluginDiscoveryServiceImpl.java:155-182 | The position of the last line naming the key, if any. |
| PluginDiscovery.LastOccurrenceWins | common/src/main/java/org/pistonworks/core/common/PluginDiscoveryServiceImpl.java:147-183 | Each field holds the value of the last line of its key, and a key never named stays null. |
| PluginDiscovery.ReplayStopsAtFailure | common/src/main/java/org/pistonworks/core/common/PluginDiscoveryServiceImpl.java:149-183 | Once a line throws, later lines do not change the outcome. |
| PluginDiscovery.ParseMetadata | common/src/main/java/org/pistonworks/core/common/PluginDiscoveryServiceImpl.java:142-186 | Succeeds iff MetadataOf does, giving a fresh PluginMetadata holding that record, or its exception. |
| PluginDiscovery.ParseLines | common/src/main/java/org/pistonworks/core/common/PluginDiscoveryServiceImpl.java:149-183 | The line loop computes Replay over the lines' effects. |
| PluginDiscovery.ParseLine | common/src/main/java/org/pistonworks/core/common/PluginDiscoveryServiceImpl.java:150-182 | One turn of the loop keeps the object equal to Replay's record, or ends with the overall exception. |
| PluginDiscovery.ApplyLine | common/src/main/java/org/pistonworks/core/common/PluginDiscoveryServiceImpl.java:152-182 | One line's setter call, or its exception, as Apply says. |
| PluginDiscovery.ReadValue | common/src/main/java/org/pistonworks/core/common/PluginDiscoveryServiceImpl.java:155-182 | Computes ValueOf. |
| PluginDiscovery.SetField | common/src/main/java/org/pistonworks/core/common/PluginDiscoveryServiceImpl.java:155-182 | Calls the key's setter: the record becomes Put's. |
| SpigotMetadata.TextOr | impl/piston-core-spigot/src/main/java/org/pistonworks/core/spigot/SpigotPluginMetadataService.java:53-79 | An absent or null value gives the default, and a string value gives itself. A list prints in brackets. |
| SpigotMetadata.ToText | impl/piston-core-spigot/src/main/java/org/pistonworks/core/spigot/SpigotPluginMetadataService.java:57 | No contract of its own. `toString` of a YAML value: a string is itself, and a list is its elements' forms joined by ", " in brackets. TextOr states what the getters make of it. |
| SpigotMetadata.PluginName | impl/piston-core-spigot/src/main/java/org/pistonworks/core/spigot/SpigotPluginMetadataService.java:53-58 | Absent gives "Unknown"; a string value is returned. |
| SpigotMetadata.PluginVersion | impl/piston-core-spigot/src/main/java/org/pistonworks/core/spigot/SpigotPluginMetadataService.java:60-65 | Absent gives "Unknown"; a string value is returned. |
| SpigotMetadata.PluginDescription | impl/piston-core-spigot/src/main/java/org/pistonworks/core/spigot/SpigotPluginMetadataService.java:67-72 | Absent gives "No description"; a string value is returned. |
| SpigotMetadata.PluginMainClass | impl/piston-core-spigot/src/main/java/org/pistonworks/core/spigot/SpigotPluginMetadataService.java:74-79 | Absent gives "Unknown"; a string value is returned. |
| SpigotMetadata.PluginAuthors | impl/piston-core-spigot/src/main/java/org/pistonworks/core/spigot/SpigotPluginMetadataService.java:81-117 | Absent gives ["Unknown"]. A list maps each element to its string form in order, and fails iff it holds a null. A comma-free string gives one trimmed element. Any other value gives its string form. |
| SpigotMetadata.PluginAuthorsString | impl/piston-core-spigot/src/main/java/org/pistonworks/core/spigot/SpigotPluginMetadataService.java:119-123 | The authors joined with ", ". |
| SpigotMetadata.AuthorsOfString | impl/piston-core-spigot/src/main/java/org/pistonworks/core/spigot/SpigotPluginMetadataService.java:99-111 | A string with a comma is split on commas, each part trimmed; otherwise it is one trimmed element. |
| SpigotMetadata.TrimAll | impl/piston-core-spigot/src/main/java/org/pistonworks/core/spigot/SpigotPluginMetadataService.java:105-107 | Each part trimmed. |
| SpigotMetadata.SplitJoinedNames | impl/piston-core-spigot/src/main/java/org/pistonworks/core/spigot/SpigotPluginMetadataService.java:103-107 | Splitting "a, b, ..." on ',' gives the names, each but the first with its leading space. |
| SpigotMetadata.TrimAllJoinedNames | impl/piston-core-spigot/src/main/java/org/pistonworks/core/spigot/SpigotPluginMetadataService.java:103-107 | Splitting and trimming "a, b, ..." gives the names back. |
| SpigotMetadata.AuthorsOfSingleName | impl/piston-core-spigot/src/main/java/org/pistonworks/core/spigot/SpigotPluginMetadataService.java:108-111 | A single plain name gives [name]. |
| SpigotMetadata.AuthorsStringRoundTrip | impl/piston-core-spigot/src/main/java/org/pistonworks/core/spigot/SpigotPluginMetadataService.java:99-123 | Storing the authors string of plain names gives those names back. |
| SpigotMetadata.AuthorsStringIsFixed | impl/piston-core-spigot/src/main/java/org/pistonworks/core/spigot/SpigotPluginMetadataService.java:119-123 | The authors string of an authors string is itself. |
| SpigotMetadata.GetProperty | impl/piston-core-spigot/src/main/java/org/pistonworks/core/spigot/SpigotPluginMetadataService.java:125-129 | Present iff the key holds a non-null value, and then that value. |
| SpigotMetadata.GetPropertyOr | impl/piston-core-spigot/src/main/java/org/pistonworks/core/spigot/SpigotPluginMetadataService.java:131-147 | The stored value when non-null, the default otherwise. |
| SpigotMetadata.HasProperty | impl/piston-core-spigot/src/main/java/org/pistonworks/core/spigot/SpigotPluginMetadataService.java:155-159 | True iff the key is in the map. |
| SpigotMetadata.NullValueIsPresentButUnset | impl/piston-core-spigot/src/main/java/org/pistonworks/core/spigot/SpigotPluginMetadataService.java:125-159 | A key stored with null is reported present, yet both getters fall back. Otherwise hasProperty agrees with getProperty. |
| SpigotMetadata.AllProperties | impl/piston-core-spigot/src/main/java/org/pistonworks/core/spigot/SpigotPluginMetadataService.java:149-153 | A map with the same keys and values. |

## Left out

- Reflection (annotation scanning, `Method.invoke`, `setAccessible`, `isAssignableFrom`) is replaced by declared descriptors:
  - handler methods and their parameters;
  - listener objects and their methods;
  - an event class's set of supertypes.
- Handler bodies, hooks, completion providers and listeners are function values that return what happened: a result, or an exception's message. Tab completers and event filters are total function values that cannot throw (see the CompletionsForArgument and EventBus.Fire lines below).
- `ConcurrentHashMap` iteration order, which `getListenersForEvent` follows, is a parameter: a duplicate-free enumeration of the keys. The model keeps no guarantee about the order of `getRegisteredCommands`, which is not modelled.
- `fireEventAsync` and the thread safety of the concurrent containers are not modelled. Dispatch is sequential.
- `Double.parseDouble` and `Float.parseFloat` are uninterpreted partial functions, passed as `FloatParsers`. `Integer.parseInt` and `Long.parseLong` are modelled on ASCII digits (next two lines).
- The clock is a constructor parameter.
- `handleListenerException`'s printing is an appended `ListenerFailure` record.
- `onCommandError`'s `sendMessage` is the returned message.
- A listener call can change only the event's cancelled flag. Other effects on the event are not modelled.
- `String.compareTo` compares UTF-16 code units. The model compares characters, which agrees on the Basic Multilingual Plane.
- `toLowerCase` folds ASCII letters only.
- `Object.hashCode` and `Method.hashCode` of the listener and its method are parameters.
- JAR discovery, plugin loading and the SnakeYAML loading behind `SpigotPluginMetadataService` are not part of this model. The service's map is the parameter of its getters.
- parseStringList's `lines` argument is never read by the source, so the model does not take it.
- getAllProperties returns a copy in Java. A Dafny map is a value, so the copy's independence is automatic and is stated only as equality of entries.
- SpigotMetadata.GetPropertyOr: the unchecked cast of `getProperty(key, def)` cannot fail, so its ClassCastException branch is unreachable and is not modelled.
- The `parts.length == 0` checks of `executeCommand` and `getTabCompletions` cannot fire, so the model leaves them out. In `executeCommand` the `trim()` comes first, so the text is empty (split gives one empty piece) or starts with a non-space character (CommandRegistry.Tokens). In `getTabCompletions` the limit of -1 keeps trailing empty pieces, so at least one piece is returned (CommandRegistry.CompletionParts). Without either, `" ".split("\\s+")` would return no pieces.
- CommandRegistry.DispatchLine: the `onCommandError` call for an exception escaping `execute` is the error it records. The handler's message is ErrorMessage of that error.
- EventPriorities.EventPriority.Value: states the range; the exact values are PrioritiesEnumerated.
- JavaStrings.ParseDecimal: accepts only the ASCII digits '0' to '9'. Java reads digits with `Character.digit`, which also accepts other Unicode decimal digits (Arabic-Indic, fullwidth and so on). The model rejects those.
- RegisteredCommands.ParseArgument: returns null for int or long text written in non-ASCII decimal digits, so the command reports INVALID_ARGUMENTS where Java would parse the number.
- The order of a class's methods is fixed as the declared sequence (`handler.methods`, `obj.methods`). Java's `getDeclaredMethods()` (api/src/main/java/org/pistonworks/core/api/command/DefaultCommandRegistry.java:36) and `getMethods()` (common/src/main/java/org/pistonworks/core/common/event/EventServiceImpl.java:30) promise no order. That order decides which malformed method's exception is thrown, which command wins a key two methods share, and the order in which listeners are appended before the stable sort.
- RegisteredCommands.CompletionsForArgument: a registered TabCompleter is called outside any try block, so an exception from it escapes `getTabCompletions`. The model's completers cannot throw, so this path is not modelled. The same holds for CommandRegistry.DefaultCommandRegistry.GetTabCompletions, which calls it.
- EventBusModule.EventBus.Fire: an exception from a filter's `shouldFire` escapes `fire`, so no later filter runs and nothing is dispatched. The model's filters are total predicates, so this path is not modelled.
- Overriding `onCommandError` is not modelled. The model records the CommandError passed to it, and its text is always the default handler's (ErrorMessage). An override that renders differently, or that throws out of `execute`, is not covered.
