# CommandFlow argument resolution in Dafny

This project models three pieces of the CommandFlow command-dispatch library
and proves properties of the model:

- **The default command manager** (`SimpleCommandManager`). It keeps a
  registry: a map from strings to commands. Names are stored lower-cased and
  aliases are added only under free keys. Commands can be unregistered one at
  a time, as a list, or all at once. It also has two dispatch procedures.
  `execute` finds the command named by the first token, asks the authorizer,
  has the command's root part parse the remaining tokens, and then either runs
  the executor or reports a usage failure. `getSuggestions` follows the same
  path but asks the root part for completions and raises nothing of its
  own.
- **The sub-command builder** (`CommandBuilderNodesImpl`). It collects parts,
  sub-commands, a handler, flags and a chain of part modifiers. `build()` then
  decides the shape of the command's root part. Without sub-commands the parts
  stay as they are. Otherwise a `"subcommand"` part is either appended after
  the other parts, or paired with the root part in a first-matching choice.
- **The boolean primitive part** (`BooleanPart`). It takes one boolean from
  the token cursor, or, with `consumeAll`, one boolean per remaining token.

Files and modules:

- `commands.dfy`, module `Commands`: commands, the part tree (`Sequence`,
  `SubCommand`, `FirstMatching`, `Opaque`), and argument errors.
- `argument_stack.dfy`, module `ArgumentStacks`: the token cursor, a class
  with `tokens` and `pos`, kept at `pos <= |tokens|`.
- `boolean_part.dfy`, module `BooleanParts`: `parseValue` with its loop, and
  `getType`.
- `command_manager.dfy`, module `CommandManager`: the registry transitions as
  functions on maps, their lemmas, and the `SimpleCommandManager` class whose
  methods change the map one step at a time.
- `command_builder.dfy`, module `CommandBuilders`: an abstract
  `Command.Builder` class and the `CommandBuilderNodes` class.

Collaborators whose code is not part of this model are function values:

- the authorizer, the executor, the usage builder and the tokenizer are fields
  of the manager;
- the parse and the suggestions of a root part are parameters of `Execute` and
  `GetSuggestions`;
- the boolean conversion rule of the concrete argument stack is a partial
  function given to the stack when it is created;
- the injector's modifier lookup is a function given to the builder nodes.

Java `null` arguments become `Option.None` or a nullable `TokenList?`. A
thrown exception becomes a `Fail`/`Failure` value or an `ExecuteOutcome`
variant.

## Case handling of names

`getCommand` lower-cases its query (`SimpleCommandManager.java:212`), and
`registerCommand` stores the lower-cased name (`:60`). The duplicate check
(`:56`), `unregisterCommand` (`:80`, `:83`) and `exists` (`:122`) use the raw
string. The model follows this code.

- `MixedCaseNameIsNotADuplicate` shows that the same command named `"Help"`
  can be registered twice, and that `exists("Help")` is then false.
- `MixedCaseNameSurvivesUnregister` shows that unregistering it leaves the
  `"help"` entry, so `getCommand("Help")` still finds it.
- `MixedCaseRegistersTwice` and `MixedCaseSurvivesUnregister` state the same
  two facts for every name that lower-casing changes. The second needs in
  addition that no alias, as given, equals the lower-cased name: with the
  alias `"help"`, `unregisterCommand` removes the `"help"` entry too.
- `ExistsAgreesWithLookupOnLowerCase` and `UnregisterAllEmpties` show that
  these differences vanish when all names and aliases are lower-case.

## Model

| member | source | states |
|---|---|---|
| `CommandManager.Lower` | Universal/src/main/java/me/fixeddev/commandflow/SimpleCommandManager.java:212 | the lower-cased string has the same length and lower-cases each ASCII letter at its position |
| `CommandManager.SimpleCommandManager.constructor` | Universal/src/main/java/me/fixeddev/commandflow/SimpleCommandManager.java:37-45 | the registry starts empty, holding the given authorizer and the default collaborators |
| `CommandManager.SimpleCommandManager.AllowingAll` | Universal/src/main/java/me/fixeddev/commandflow/SimpleCommandManager.java:47-49 | the registry starts empty, with an authorizer that allows every accessor and permission |
| `CommandManager.SimpleCommandManager.RegisterCommand` | Universal/src/main/java/me/fixeddev/commandflow/SimpleCommandManager.java:55-63 | fails with the duplicate message, map unchanged, exactly when the raw name is already a key; otherwise the new map is the lower-cased name plus the put-if-absent aliases; the registry stays well keyed |
| `CommandManager.RegisterRefusedIff` | Universal/src/main/java/me/fixeddev/commandflow/SimpleCommandManager.java:56-58 | registration is refused exactly when the exact, not lower-cased, name is a key, and then with that name's duplicate message |
| `CommandManager.RegisterEntries` | Universal/src/main/java/me/fixeddev/commandflow/SimpleCommandManager.java:60-62 | after a successful registration, a lookup by the name finds the command; each lower-cased alias whose key was free maps to it; every other old entry is kept; the keys added are exactly the lower-cased name and aliases |
| `CommandManager.PutAliasesEntries` | Universal/src/main/java/me/fixeddev/commandflow/SimpleCommandManager.java:62 | the alias pass adds exactly the lower-cased aliases as keys, keeps every existing entry, and maps each new key to the command |
| `CommandManager.RegisterKeepsWellKeyed` | Universal/src/main/java/me/fixeddev/commandflow/SimpleCommandManager.java:60-62 | after registration every key is still the lower-cased name or a lower-cased alias of the command it maps to |
| `CommandManager.MixedCaseNameIsNotADuplicate` | Universal/src/main/java/me/fixeddev/commandflow/SimpleCommandManager.java:56-60 | a command named "Help" registers twice without refusal, and the raw key "Help" is absent after the first registration |
| `CommandManager.MixedCaseRegistersTwice` | Universal/src/main/java/me/fixeddev/commandflow/SimpleCommandManager.java:56-62 | a name that lower-casing changes and that is not yet a key is not a key after registration, so registering the same command again succeeds |
| `CommandManager.MixedCaseSurvivesUnregister` | Universal/src/main/java/me/fixeddev/commandflow/SimpleCommandManager.java:79-85 | when the lower-cased name differs from the name and from every alias as given, unregistering the registered command leaves the lower-cased entry and a lookup by the name still finds it |
| `CommandManager.SimpleCommandManager.RegisterCommands` | Universal/src/main/java/me/fixeddev/commandflow/SimpleCommandManager.java:69-73 | registers in list order; the first refusal stops the loop, is returned, and keeps the earlier registrations |
| `CommandManager.RegisterEachKeepsWellKeyed` | Universal/src/main/java/me/fixeddev/commandflow/SimpleCommandManager.java:69-73 | registering a list keeps the registry well keyed and never loses a key, whether it runs to the end or stops at a refusal |
| `CommandManager.RegisterEachRefusal` | Universal/src/main/java/me/fixeddev/commandflow/SimpleCommandManager.java:69-73 | a refused list registration carries the duplicate message of one of the listed commands, whose raw name is a key of the map it leaves |
| `CommandManager.SimpleCommandManager.UnregisterCommand` | Universal/src/main/java/me/fixeddev/commandflow/SimpleCommandManager.java:79-85 | removes exactly the raw name and the raw aliases as keys, whatever they map to; every other entry is unchanged |
| `CommandManager.UnregisterKeepsWellKeyed` | Universal/src/main/java/me/fixeddev/commandflow/SimpleCommandManager.java:79-85 | removing keys keeps the registry well keyed |
| `CommandManager.MixedCaseNameSurvivesUnregister` | Universal/src/main/java/me/fixeddev/commandflow/SimpleCommandManager.java:79-85 | after registering and unregistering a command named "Help", a lookup of "Help" still finds it |
| `CommandManager.SimpleCommandManager.UnregisterCommands` | Universal/src/main/java/me/fixeddev/commandflow/SimpleCommandManager.java:91-95 | removes the raw names and aliases of every listed command, and nothing else |
| `CommandManager.SimpleCommandManager.UnregisterAll` | Universal/src/main/java/me/fixeddev/commandflow/SimpleCommandManager.java:101-107 | removes the raw names and aliases of every command present at the start, and nothing else |
| `CommandManager.UnregisterAllEmpties` | Universal/src/main/java/me/fixeddev/commandflow/SimpleCommandManager.java:101-107 | in a well-keyed registry whose commands have only lower-case names and aliases, unregistering all leaves the map empty |
| `CommandManager.SimpleCommandManager.GetCommands` | Universal/src/main/java/me/fixeddev/commandflow/SimpleCommandManager.java:113-115 | returns exactly the commands some key maps to |
| `CommandManager.SimpleCommandManager.Exists` | Universal/src/main/java/me/fixeddev/commandflow/SimpleCommandManager.java:121-123 | true exactly when the raw string is a key |
| `CommandManager.ExistsAgreesWithLookupOnLowerCase` | Universal/src/main/java/me/fixeddev/commandflow/SimpleCommandManager.java:121-123 | for a lower-case query, the raw key test and the lower-casing lookup agree |
| `CommandManager.SimpleCommandManager.GetCommand` | Universal/src/main/java/me/fixeddev/commandflow/SimpleCommandManager.java:211-213 | returns the registry lookup of the lower-cased query: a command exactly when that key is present, and then the command stored there |
| `CommandManager.SimpleCommandManager.SetAuthorizer` | Universal/src/main/java/me/fixeddev/commandflow/SimpleCommandManager.java:137-143 | a null authorizer is refused with its message and the field is kept; otherwise only the authorizer field is replaced |
| `CommandManager.SimpleCommandManager.SetInputTokenizer` | Universal/src/main/java/me/fixeddev/commandflow/SimpleCommandManager.java:157-163 | a null tokenizer is refused with its message and the field is kept; otherwise only the tokenizer field is replaced |
| `CommandManager.SimpleCommandManager.SetExecutor` | Universal/src/main/java/me/fixeddev/commandflow/SimpleCommandManager.java:171-177 | a null executor is refused with its message and the field is kept; otherwise only the executor field is replaced |
| `CommandManager.SimpleCommandManager.SetTranslator` | Universal/src/main/java/me/fixeddev/commandflow/SimpleCommandManager.java:185-191 | a null translator is refused with its message and the field is kept; otherwise only the translator field is replaced |
| `CommandManager.SimpleCommandManager.SetUsageBuilder` | Universal/src/main/java/me/fixeddev/commandflow/SimpleCommandManager.java:199-205 | a null usage builder is refused with its message and the field is kept; otherwise only the usage-builder field is replaced |
| `CommandManager.SimpleCommandManager.Execute` | Universal/src/main/java/me/fixeddev/commandflow/SimpleCommandManager.java:219-256 | null or empty input, or an unknown first token, returns false for every authorizer, parser and executor; a refused accessor gets the permission message before any parse; the label is the first token as typed; a parse failure becomes a usage failure over the context the parse left, with that cause, and the executor is not consulted; a parse success returns the executor's answer |
| `CommandManager.SimpleCommandManager.GetSuggestions` | Universal/src/main/java/me/fixeddev/commandflow/SimpleCommandManager.java:270-297 | null or empty input, or an unknown first token, gives no suggestions and leaves the list alone; otherwise the first token is removed from the caller's list; a refused accessor then gets no suggestions; otherwise the root part's suggestions over the remaining tokens are returned, with the label set to the command's name |
| `CommandBuilders.CommandBuilderNodes.constructor` | Universal/src/main/java/me/fixeddev/commandflow/annotated/builder/CommandBuilderNodesImpl.java:33-43 | a fresh builder for the name, no sub-commands, no handler, both flags false, the identity modifier function |
| `CommandBuilders.CommandBuilderNodes.AddPart` | Universal/src/main/java/me/fixeddev/commandflow/annotated/builder/CommandBuilderNodesImpl.java:158-162 | appends the part to the builder's parts |
| `CommandBuilders.CommandBuilderNodes.Action` | Universal/src/main/java/me/fixeddev/commandflow/annotated/builder/CommandBuilderNodesImpl.java:121-125 | sets only the builder's action |
| `CommandBuilders.CommandBuilderNodes.Aliases` | Universal/src/main/java/me/fixeddev/commandflow/annotated/builder/CommandBuilderNodesImpl.java:127-131 | replaces only the builder's aliases |
| `CommandBuilders.CommandBuilderNodes.AddAlias` | Universal/src/main/java/me/fixeddev/commandflow/annotated/builder/CommandBuilderNodesImpl.java:133-137 | appends one alias to the builder's aliases |
| `CommandBuilders.CommandBuilderNodes.Description` | Universal/src/main/java/me/fixeddev/commandflow/annotated/builder/CommandBuilderNodesImpl.java:139-143 | sets only the builder's description, an opaque component |
| `CommandBuilders.CommandBuilderNodes.Permission` | Universal/src/main/java/me/fixeddev/commandflow/annotated/builder/CommandBuilderNodesImpl.java:145-149 | sets only the builder's permission |
| `CommandBuilders.CommandBuilderNodes.PermissionMessage` | Universal/src/main/java/me/fixeddev/commandflow/annotated/builder/CommandBuilderNodesImpl.java:151-155 | sets only the builder's permission message, an opaque component |
| `CommandBuilders.CommandBuilderNodes.AddSubCommand` | Universal/src/main/java/me/fixeddev/commandflow/annotated/builder/CommandBuilderNodesImpl.java:164-168 | appends the command to the sub-commands, keeping insertion order |
| `CommandBuilders.CommandBuilderNodes.AddSubCommandNode` | Universal/src/main/java/me/fixeddev/commandflow/annotated/builder/CommandBuilderNodesImpl.java:170-174 | builds the other node, which assembles that node's parts as its build does, and appends the built command to the sub-commands |
| `CommandBuilders.CommandBuilderNodes.SetSubCommandHandler` | Universal/src/main/java/me/fixeddev/commandflow/annotated/builder/CommandBuilderNodesImpl.java:176-184 | a null handler is refused with its message and the handler is kept; a non-null one is stored |
| `CommandBuilders.AnnotationTypes` | Universal/src/main/java/me/fixeddev/commandflow/annotated/builder/CommandBuilderNodesImpl.java:188-193 | one annotation type per annotation, in order |
| `CommandBuilders.CommandBuilderNodes.SetModifiers` | Universal/src/main/java/me/fixeddev/commandflow/annotated/builder/CommandBuilderNodesImpl.java:186-206 | the new modifier function applies the looked-up modifier on top of the previous function; the recorded chain gains this call at its end |
| `CommandBuilders.ApplyChainSnoc` | Universal/src/main/java/me/fixeddev/commandflow/annotated/builder/CommandBuilderNodesImpl.java:195-203 | applying a chain with one more call equals applying the new modifier to the result of the earlier chain, so later modifiers act on top of earlier ones |
| `CommandBuilders.CommandBuilderNodes.ArgumentsOrSubCommand` | Universal/src/main/java/me/fixeddev/commandflow/annotated/builder/CommandBuilderNodesImpl.java:208-212 | sets only the arguments-or-sub-command flag, to true |
| `CommandBuilders.CommandBuilderNodes.Optional` | Universal/src/main/java/me/fixeddev/commandflow/annotated/builder/CommandBuilderNodesImpl.java:214-218 | sets only the optional flag, to true |
| `CommandBuilders.CommandBuilderNodes.Build` | Universal/src/main/java/me/fixeddev/commandflow/annotated/builder/CommandBuilderNodesImpl.java:220-248 | the builder's parts become the assembly of the old parts with the sub-command part, the composed modifiers having been applied to it exactly once; the returned command is the builder's final state |
| `CommandBuilders.AssembleWithoutSubCommands` | Universal/src/main/java/me/fixeddev/commandflow/annotated/builder/CommandBuilderNodesImpl.java:221-247 | with no sub-commands the parts and the root part are unchanged, whatever the flags, handler or modifiers |
| `CommandBuilders.AssembleAppendsSubCommandPart` | Universal/src/main/java/me/fixeddev/commandflow/annotated/builder/CommandBuilderNodesImpl.java:225-241 | without the choice flag, exactly one part is appended after all earlier ones: the modified "subcommand" part with the sub-command list, the optional flag and the handler |
| `CommandBuilders.AssembleFirstMatching` | Universal/src/main/java/me/fixeddev/commandflow/annotated/builder/CommandBuilderNodesImpl.java:233-238 | with the choice flag, the root part is a first-matching part named after the modified part plus "\|arguments", whose alternatives are the previous root part and then the modified part |
| `BooleanParts.BooleanPart.ParseValue` | Universal/src/main/java/me/fixeddev/commandflow/part/defaults/BooleanPart.java:22-34 | with consumeAll the result is the conversion of all tokens remaining at entry; on success the stack is exhausted, and an exhausted stack gives the empty list with the position unchanged; without consumeAll one take yields a one-element list and consumes one token; any failed take is returned as the failure, with no list |
| `BooleanParts.ConvertAllSucceedsIff` | Universal/src/main/java/me/fixeddev/commandflow/part/defaults/BooleanPart.java:25-28 | converting the remaining tokens succeeds exactly when every token converts; the list then has one value per token, and element i is the conversion of token i |
| `BooleanParts.ConvertAllFailsAtFirstBadToken` | Universal/src/main/java/me/fixeddev/commandflow/part/defaults/BooleanPart.java:26-28 | a failed conversion reports the first token that does not convert |
| `BooleanParts.BooleanPart.GetType` | Universal/src/main/java/me/fixeddev/commandflow/part/defaults/BooleanPart.java:37-39 | always reports the boolean type |
| `ArgumentStacks.ArgumentStack.NextBoolean` | Universal/src/main/java/me/fixeddev/commandflow/part/defaults/BooleanPart.java:27-30 | on an exhausted stack it fails with no-more-arguments and leaves the position alone; otherwise it takes one token and returns its conversion, or an invalid-value failure naming that token |

## Left out

- Reflection-based construction is not modelled: `ofMethodParameters`, `getName(Parameter)`, `getFactory`, `action(Method, CommandClass)`, the value getters and the injector's factory lookup (`CommandBuilderNodesImpl.java:55-119`). They rest on Java introspection and annotations.
- `Command.Builder` is not part of this model. Its root part is abstracted as the part set by `part(...)`, or else a `Sequence` of the added parts. Its default values (empty permission, empty components) are assumptions.
- The tokenizer, translator, usage builder, executor and authorizer implementations are not part of this model. The defaults the Java constructor creates are constructor parameters instead.
- The parsing and suggestion logic of the sub-command, first-matching and sequence parts is not part of this model. It is a parameter of `Execute` and `GetSuggestions`.
- The `SimpleArgumentStack` conversion rule is not part of this model; it is an abstract partial function.
- NextBoolean: when a token does not convert, the model counts it as consumed, as a take-then-convert stack would. `SimpleArgumentStack` is not part of this model, so this may differ from the real stack.
- The `accessor.setObject(...)` back-reference binding (`SimpleCommandManager.java:242`, `:292`) is not modelled. It is namespace plumbing outside the registry.
- The `execute(Namespace, String)` and `getSuggestions(Namespace, String)` overloads are not modelled. They only pass the line through the tokenizer.
- Execute: an exception thrown by the executor itself is not modelled. The executor is a function that returns its boolean answer.
- Text components (descriptions, permission messages, usage messages) are opaque values.
- Thread safety is not modelled: the class is documented as not thread-safe, and the model is sequential.
- `HashMap`/`HashSet` iteration order in `getCommands` and `unregisterAll` is not modelled; both work on sets.
- Lower: only the ASCII letters are lower-cased. Java's locale-dependent, full-Unicode `toLowerCase` is not modelled. "Lower-case" in `IsLowerCase`, `UnregisterAllEmpties` and `ExistsAgreesWithLookupOnLowerCase` means having no ASCII upper-case letter; a name such as `"Éclair"` counts, although Java stores it under `"éclair"`.
- SetModifiers: the test against `Function.identity()` (`CommandBuilderNodesImpl.java:197`) is not a branch in the model. Both Java branches produce the same function, since composing with the identity changes nothing.
- `null` commands, command lists and parts are not modelled; the model has no null values of these types. In Java the registry dereferences them: `registerCommand` (`SimpleCommandManager.java:56`), `unregisterCommand` (`:80`), and the list loops of `registerCommands` and `unregisterCommands` (`:70`, `:92`) throw `NullPointerException`. The builder stores them: `addSubCommand(Command)` (`CommandBuilderNodesImpl.java:166`) adds a null to its list, and `addPart` passes it on to `Command.Builder`. Only `addSubCommand(CommandDataNode)` (`:172`) dereferences its null argument. Dafny strings cannot be null either, so a null name or alias inside a command is not modelled. In Java a null name throws at `SimpleCommandManager.java:60` before anything is stored, and `getCommand(null)` throws at `:212`. A null alias throws at `:62`, after the lower-cased name and any earlier aliases have been stored, so that `registerCommand` throws with the map already changed; `RegisterCommand`'s unchanged map on refusal covers only the duplicate refusal.
- Execute: only an `ArgumentException` from the root part's parse (`SimpleCommandManager.java:246-247`) is modelled, as `ParseFailed`. Any other exception the parse throws leaves `execute` unwrapped: no usage is built and the executor is not called. The model has no such outcome.
- GetSuggestions: nothing is caught around the root part's suggestions (`SimpleCommandManager.java:296`), so an exception thrown there leaves `getSuggestions`. The model's suggester always returns a list.
- CommandManager.SimpleCommandManager.constructor: the Java constructor (`SimpleCommandManager.java:37`) stores a null authorizer without refusing it, unlike `setAuthorizer`, and `execute` and `getSuggestions` then throw `NullPointerException` at the authorization test (`:235`, `:285`). The model's constructor takes an authorizer that is always present.
- Stack marks and resets, and the other typed takes, are not modelled. `BooleanPart` uses only `hasNext` and `nextBoolean`.
