/** The command registry and the two dispatch procedures of the default
    command manager. The registry is a map from strings to commands; its
    transitions are first given as functions on maps (with their lemmas) and
    then run step by step by the methods of `SimpleCommandManager`. */
module CommandManager {
  import opened Commands

  // ---------------------------------------------------------------------
  // Case folding
  // ---------------------------------------------------------------------

  /** `Character.toLowerCase` on the ASCII letters; every other character is kept. */
  function LowerChar(c: char): (l: char)
    ensures 'A' <= c <= 'Z' ==> l as int == c as int + 32
    ensures !('A' <= c <= 'Z') ==> l == c
  {
    if 'A' <= c <= 'Z' then (c as int + 32) as char else c
  }

  /** `String.toLowerCase`, character by character. */
  function Lower(s: string): (r: string)
    ensures |r| == |s|
    ensures forall i :: 0 <= i < |s| ==> r[i] == LowerChar(s[i])
  {
    if s == [] then [] else [LowerChar(s[0])] + Lower(s[1..])
  }

  /** No ASCII upper-case letter: the strings the ASCII `Lower` leaves alone. */
  predicate IsLowerCase(s: string)
  {
    forall i :: 0 <= i < |s| ==> !('A' <= s[i] <= 'Z')
  }

  /** Lower-casing a string that has no upper-case letter gives it back. */
  lemma LowerOfLowerCase(s: string)
    requires IsLowerCase(s)
    ensures Lower(s) == s
  {
    assert forall i :: 0 <= i < |s| ==> Lower(s)[i] == s[i];
  }

  // ---------------------------------------------------------------------
  // The registry as a map
  // ---------------------------------------------------------------------

  datatype ManagerError = IllegalArgument(message: string)

  function DuplicateMessage(name: string): string
  {
    "A command with the name " + name + " is already registered!"
  }

  /** The keys `unregisterCommand` removes: the name and the aliases, as given. */
  function CommandKeys(c: Command): set<string>
  {
    {c.name} + AliasSet(c.aliases)
  }

  function AliasSet(aliases: seq<string>): set<string>
  {
    set a | a in aliases
  }

  lemma AliasSetSnoc(aliases: seq<string>, i: nat)
    requires i < |aliases|
    ensures AliasSet(aliases[..i + 1]) == AliasSet(aliases[..i]) + {aliases[i]}
  {
    assert aliases[..i + 1] == aliases[..i] + [aliases[i]];
  }

  /** The keys `registerCommand` writes: the name and the aliases, lower-cased. */
  function LowerCommandKeys(c: Command): set<string>
  {
    {Lower(c.name)} + LowerAliases(c.aliases)
  }

  function LowerAliases(aliases: seq<string>): set<string>
  {
    set a | a in aliases :: Lower(a)
  }

  /** A command whose name and aliases are all lower-case. */
  predicate AllLowerCase(c: Command)
  {
    IsLowerCase(c.name) && forall a :: a in c.aliases ==> IsLowerCase(a)
  }

  /** Every entry of the map sits under the lower-cased name or a lower-cased
      alias of the command it maps to. Registration keeps this true. */
  ghost predicate WellKeyed(m: map<string, Command>)
  {
    forall k :: k in m ==> k in LowerCommandKeys(m[k])
  }

  function PutIfAbsent(m: map<string, Command>, k: string, c: Command): map<string, Command>
  {
    if k in m then m else m[k := c]
  }

  /** The alias pass of registration: each alias, lower-cased and in list
      order, is added only when its key is free. */
  function PutAliases(m: map<string, Command>, aliases: seq<string>, c: Command): map<string, Command>
    decreases |aliases|
  {
    if aliases == [] then m
    else PutAliases(PutIfAbsent(m, Lower(aliases[0]), c), aliases[1..], c)
  }

  /** `registerCommand` on a map: refused when the exact name is a key, else
      the lower-cased name is put and then the aliases. */
  function Register(m: map<string, Command>, c: Command): Result<map<string, Command>, ManagerError>
  {
    if c.name in m then Failure(IllegalArgument(DuplicateMessage(c.name)))
    else Success(PutAliases(m[Lower(c.name) := c], c.aliases, c))
  }

  /** `registerCommands` on a map: registers in list order and stops at the
      first refusal, keeping what was registered before it. */
  function RegisterEach(m: map<string, Command>, cs: seq<Command>): (map<string, Command>, Outcome<ManagerError>)
    decreases |cs|
  {
    if cs == [] then (m, Pass)
    else match Register(m, cs[0])
      case Failure(e) => (m, Fail(e))
      case Success(m') => RegisterEach(m', cs[1..])
  }

  /** `unregisterCommand` on a map. */
  function Unregister(m: map<string, Command>, c: Command): map<string, Command>
  {
    m - CommandKeys(c)
  }

  /** All keys `unregisterCommand` removes for the commands of `cs`. */
  function KeysOf(cs: set<Command>): set<string>
  {
    set c, k | c in cs && k in CommandKeys(c) :: k
  }

  /** `unregisterAll` on a map: every command present is unregistered. */
  function UnregisterAllOf(m: map<string, Command>): map<string, Command>
  {
    m - KeysOf(m.Values)
  }

  /** `getCommand`: the query is lower-cased before the lookup. */
  function Lookup(m: map<string, Command>, name: string): Option<Command>
  {
    if Lower(name) in m then Some(m[Lower(name)]) else None
  }

  function Elements(cs: seq<Command>): set<Command>
  {
    set c | c in cs
  }

  lemma ElementsSnoc(cs: seq<Command>, i: nat)
    requires i < |cs|
    ensures Elements(cs[..i + 1]) == Elements(cs[..i]) + {cs[i]}
  {
    assert cs[..i + 1] == cs[..i] + [cs[i]];
  }

  lemma KeysOfEmpty()
    ensures KeysOf({}) == {}
  {
  }

  lemma KeysOfAdd(cs: set<Command>, c: Command)
    ensures KeysOf(cs + {c}) == KeysOf(cs) + CommandKeys(c)
  {
    forall k | k in KeysOf(cs + {c})
      ensures k in KeysOf(cs) + CommandKeys(c)
    {
      var d :| d in cs + {c} && k in CommandKeys(d);
      if d != c {
        assert d in cs;
      }
    }
    forall k | k in CommandKeys(c)
      ensures k in KeysOf(cs + {c})
    {
      assert c in cs + {c};
    }
  }

  /** The alias pass adds exactly the lower-cased aliases as keys, never
      changes an entry that already existed, and sends every new key to the
      command being registered. */
  lemma {:induction false} PutAliasesEntries(m: map<string, Command>, aliases: seq<string>, c: Command)
    ensures forall k :: k in PutAliases(m, aliases, c) <==> k in m || k in LowerAliases(aliases)
    ensures forall k :: k in m ==> PutAliases(m, aliases, c)[k] == m[k]
    ensures forall k :: k in PutAliases(m, aliases, c) && k !in m ==> PutAliases(m, aliases, c)[k] == c
    decreases |aliases|
  {
    if aliases != [] {
      var m1 := PutIfAbsent(m, Lower(aliases[0]), c);
      PutAliasesEntries(m1, aliases[1..], c);
      assert LowerAliases(aliases) == {Lower(aliases[0])} + LowerAliases(aliases[1..]) by {
        forall k | k in LowerAliases(aliases)
          ensures k in {Lower(aliases[0])} + LowerAliases(aliases[1..])
        {
          var a :| a in aliases && k == Lower(a);
          if a != aliases[0] {
            var i :| 0 <= i < |aliases| && aliases[i] == a;
            assert aliases[1..][i - 1] == a;
          }
        }
        forall k | k in LowerAliases(aliases[1..])
          ensures k in LowerAliases(aliases)
        {
          var a :| a in aliases[1..] && k == Lower(a);
          assert a in aliases;
        }
      }
    }
  }

  /** Registration is refused, with the duplicate message, exactly when the
      raw name is already a key; a refused registration changes nothing. */
  lemma RegisterRefusedIff(m: map<string, Command>, c: Command)
    ensures Register(m, c).Failure? <==> c.name in m
    ensures Register(m, c).Failure? ==> Register(m, c).error == IllegalArgument(DuplicateMessage(c.name))
  {
  }

  /** After a successful registration: the lower-cased name maps to the
      command, so `getCommand(name)` finds it; a lower-cased alias maps to it
      when that key was free before; every other entry that existed is kept;
      and the map gains exactly the lower-cased name and aliases as keys. */
  lemma RegisterEntries(m: map<string, Command>, c: Command)
    requires c.name !in m
    ensures Register(m, c).Success?
    ensures Register(m, c).value.Keys == m.Keys + LowerCommandKeys(c)
    ensures Lookup(Register(m, c).value, c.name) == Some(c)
    ensures forall a :: a in c.aliases && Lower(a) !in m ==> Register(m, c).value[Lower(a)] == c
    ensures forall k :: k in m && k != Lower(c.name) ==> Register(m, c).value[k] == m[k]
  {
    var m0 := m[Lower(c.name) := c];
    PutAliasesEntries(m0, c.aliases, c);
    forall a | a in c.aliases && Lower(a) !in m
      ensures Register(m, c).value[Lower(a)] == c
    {
      assert Lower(a) in LowerAliases(c.aliases);
      if Lower(a) != Lower(c.name) {
        assert Lower(a) !in m0;
      }
    }
  }

  /** Registration keeps the registry well keyed. */
  lemma RegisterKeepsWellKeyed(m: map<string, Command>, c: Command)
    requires WellKeyed(m)
    ensures Register(m, c).Success? ==> WellKeyed(Register(m, c).value)
  {
    if c.name !in m {
      var m0 := m[Lower(c.name) := c];
      PutAliasesEntries(m0, c.aliases, c);
      var m' := Register(m, c).value;
      forall k | k in m'
        ensures k in LowerCommandKeys(m'[k])
      {
        if k !in m0 {
          assert m'[k] == c && k in LowerAliases(c.aliases);
        }
      }
    }
  }

  /** `registerCommands` keeps the registry well keyed and never loses a key,
      whether it runs to the end or stops at a refusal. */
  lemma {:induction false} RegisterEachKeepsWellKeyed(m: map<string, Command>, cs: seq<Command>)
    requires WellKeyed(m)
    ensures WellKeyed(RegisterEach(m, cs).0)
    ensures m.Keys <= RegisterEach(m, cs).0.Keys
    decreases |cs|
  {
    if cs != [] {
      RegisterKeepsWellKeyed(m, cs[0]);
      if cs[0].name !in m {
        RegisterEntries(m, cs[0]);
        RegisterEachKeepsWellKeyed(Register(m, cs[0]).value, cs[1..]);
      }
    }
  }

  /** A refusal of `registerCommands` is the duplicate message of one of the
      listed commands, whose raw name was then a key. */
  lemma {:induction false} RegisterEachRefusal(m: map<string, Command>, cs: seq<Command>)
    requires RegisterEach(m, cs).1.Fail?
    ensures exists i :: 0 <= i < |cs| && cs[i].name in RegisterEach(m, cs).0 &&
              RegisterEach(m, cs).1.error == IllegalArgument(DuplicateMessage(cs[i].name))
    decreases |cs|
  {
    if cs[0].name in m {
      assert cs[0].name in RegisterEach(m, cs).0;
    } else {
      var m' := Register(m, cs[0]).value;
      RegisterEachRefusal(m', cs[1..]);
      var i :| 0 <= i < |cs[1..]| && cs[1..][i].name in RegisterEach(m', cs[1..]).0 &&
               RegisterEach(m', cs[1..]).1.error == IllegalArgument(DuplicateMessage(cs[1..][i].name));
      assert cs[i + 1] == cs[1..][i];
    }
  }

  /** Unregistering keeps the registry well keyed. */
  lemma UnregisterKeepsWellKeyed(m: map<string, Command>, keys: set<string>)
    requires WellKeyed(m)
    ensures WellKeyed(m - keys)
  {
  }

  /** When every registered command has lower-case names and aliases,
      `unregisterAll` empties a well-keyed registry. */
  lemma UnregisterAllEmpties(m: map<string, Command>)
    requires WellKeyed(m)
    requires forall c :: c in m.Values ==> AllLowerCase(c)
    ensures UnregisterAllOf(m) == map[]
  {
    forall k | k in m
      ensures k in KeysOf(m.Values)
    {
      var c := m[k];
      assert c in m.Values;
      LowerOfLowerCase(c.name);
      if k != Lower(c.name) {
        var a :| a in c.aliases && k == Lower(a);
        LowerOfLowerCase(a);
      }
      assert k in CommandKeys(c);
    }
    assert UnregisterAllOf(m).Keys == {};
  }

  /** `exists` tests the raw string, `getCommand` the lower-cased one: the two
      agree on lower-case queries. */
  lemma ExistsAgreesWithLookupOnLowerCase(m: map<string, Command>, name: string)
    requires IsLowerCase(name)
    ensures name in m <==> Lookup(m, name).Some?
  {
    LowerOfLowerCase(name);
  }

  /** The duplicate check compares the raw name while the entry is stored
      lower-cased: registering the same command with a mixed-case name twice is
      accepted both times, and `exists` with the registered name is false. */
  lemma MixedCaseNameIsNotADuplicate(c: Command)
    requires c.name == "Help" && c.aliases == []
    ensures Register(map[], c).Success?
    ensures "Help" !in Register(map[], c).value
    ensures Register(Register(map[], c).value, c).Success?
  {
    assert Lower("Help") == "help" by {
      assert Lower("Help")[0] == 'h';
    }
  }

  /** `unregisterCommand` removes the raw name: a command registered with a
      mixed-case name stays reachable by `getCommand` after it is unregistered. */
  lemma MixedCaseNameSurvivesUnregister(c: Command)
    requires c.name == "Help" && c.aliases == []
    ensures Lookup(Unregister(Register(map[], c).value, c), "Help") == Some(c)
  {
    assert Lower("Help") == "help" by {
      assert Lower("Help")[0] == 'h';
    }
    assert CommandKeys(c) == {"Help"};
  }

  /** The general form of the mismatch: a name that lower-casing changes and
      that is not yet a key is never a key after registration (no lower-cased
      key can equal it), so the same command registers a second time. */
  lemma MixedCaseRegistersTwice(m: map<string, Command>, c: Command)
    requires Lower(c.name) != c.name
    requires c.name !in m
    ensures Register(m, c).Success?
    ensures c.name !in Register(m, c).value
    ensures Register(Register(m, c).value, c).Success?
  {
    RegisterEntries(m, c);
    forall a | a in c.aliases
      ensures Lower(a) != c.name
    {
      LowerOfLowerCase(Lower(a));
    }
  }

  /** The general form of the surviving entry: when the lower-cased name differs
      from the name and is not one of the aliases as given, unregistering the
      command leaves the lower-cased entry, and `getCommand` still finds it. */
  lemma MixedCaseSurvivesUnregister(m: map<string, Command>, c: Command)
    requires Lower(c.name) != c.name
    requires c.name !in m && Lower(c.name) !in AliasSet(c.aliases)
    ensures Lookup(Unregister(Register(m, c).value, c), c.name) == Some(c)
  {
    RegisterEntries(m, c);
    assert Lower(c.name) !in CommandKeys(c);
  }

  // ---------------------------------------------------------------------
  // Collaborators and dispatch values
  // ---------------------------------------------------------------------

  /** A value a part binds into the context. */
  datatype Value = BooleanValue(b: bool) | TextValue(text: string) | CommandValue(command: Command)

  /** The per-dispatch context: the caller, the argument list it was built
      from, the command and label set on it, and the values parts bound. */
  datatype Context = Context(
    accessor: Namespace,
    arguments: seq<string>,
    command: Option<Command>,
    commandLabel: string,
    values: map<string, seq<Value>>)

  /** A fresh context with its command and label set. */
  function ContextFor(accessor: Namespace, arguments: seq<string>, command: Command, commandLabel: string): Context
  {
    Context(accessor, arguments, Some(command), commandLabel, map[])
  }

  /** What a root part's parse leaves behind: the context it filled, or the
      context as far as it got and the argument failure it raised. */
  datatype ParseResult = Parsed(context: Context) | ParseFailed(context: Context, cause: ArgumentError)

  type Authorizer = (Namespace, string) -> bool
  type UsageBuilder = Context -> Component
  type Executor = (Context, UsageBuilder) -> bool
  type Tokenizer = string -> seq<string>
  datatype Translator = Translator(id: string)

  /** The parse of a command's root part over the tokens after the label. */
  type PartParser = (Part, Context, seq<string>) -> ParseResult
  /** The suggestions of a command's root part over the remaining tokens. */
  type PartSuggester = (Part, Context, seq<string>) -> seq<string>

  /** How `execute` ends: it returns the executor's answer (or false for
      input that names no command), or throws. */
  datatype ExecuteOutcome =
    | Returned(executed: bool)
    | NoPermissions(message: Component)
    | Usage(usage: Component, command: Option<Command>, cause: ArgumentError)

  /** A caller-owned, mutable argument list. */
  class TokenList {
    var tokens: seq<string>

    constructor (tokens: seq<string>)
      ensures this.tokens == tokens
    {
      this.tokens := tokens;
    }
  }

  // ---------------------------------------------------------------------
  // The manager
  // ---------------------------------------------------------------------

  class SimpleCommandManager {
    var commandMap: map<string, Command>
    var authorizer: Authorizer
    var tokenizer: Tokenizer
    var executor: Executor
    var translator: Translator
    var usageBuilder: UsageBuilder

    ghost predicate Valid()
      reads this
    {
      WellKeyed(commandMap)
    }

    /** An empty registry with the given authorizer; the other collaborators
        are the defaults, passed in. */
    constructor (authorizer: Authorizer, tokenizer: Tokenizer, executor: Executor,
                 translator: Translator, usageBuilder: UsageBuilder)
      ensures Valid() && commandMap == map[]
      ensures this.authorizer == authorizer && this.tokenizer == tokenizer
      ensures this.executor == executor && this.translator == translator
      ensures this.usageBuilder == usageBuilder
    {
      this.authorizer := authorizer;
      commandMap := map[];
      this.tokenizer := tokenizer;
      this.executor := executor;
      this.translator := translator;
      this.usageBuilder := usageBuilder;
    }

    /** An empty registry whose authorizer allows everything. */
    constructor AllowingAll(tokenizer: Tokenizer, executor: Executor,
                            translator: Translator, usageBuilder: UsageBuilder)
      ensures Valid() && commandMap == map[]
      ensures forall n, p :: this.authorizer(n, p)
      ensures this.tokenizer == tokenizer && this.executor == executor
      ensures this.translator == translator && this.usageBuilder == usageBuilder
    {
      this.authorizer := (n: Namespace, p: string) => true;
      commandMap := map[];
      this.tokenizer := tokenizer;
      this.executor := executor;
      this.translator := translator;
      this.usageBuilder := usageBuilder;
    }

    method RegisterCommand(command: Command) returns (r: Outcome<ManagerError>)
      requires Valid()
      modifies this`commandMap
      ensures Valid()
      ensures r.Fail? <==> command.name in old(commandMap)
      ensures r.Fail? ==> r.error == IllegalArgument(DuplicateMessage(command.name)) && commandMap == old(commandMap)
      ensures r.Pass? ==> Register(old(commandMap), command) == Success(commandMap)
    {
      RegisterKeepsWellKeyed(commandMap, command);
      if command.name in commandMap {
        return Fail(IllegalArgument(DuplicateMessage(command.name)));
      }
      commandMap := commandMap[Lower(command.name) := command];
      ghost var target := PutAliases(commandMap, command.aliases, command);
      var i := 0;
      while i < |command.aliases|
        invariant 0 <= i <= |command.aliases|
        invariant PutAliases(commandMap, command.aliases[i..], command) == target
      {
        assert command.aliases[i..][1..] == command.aliases[i + 1..];
        var key := Lower(command.aliases[i]);
        if key !in commandMap {
          commandMap := commandMap[key := command];
        }
        i := i + 1;
      }
      return Pass;
    }

    method RegisterCommands(commands: seq<Command>) returns (r: Outcome<ManagerError>)
      requires Valid()
      modifies this`commandMap
      ensures Valid()
      ensures (commandMap, r) == RegisterEach(old(commandMap), commands)
    {
      var i := 0;
      while i < |commands|
        invariant 0 <= i <= |commands|
        invariant Valid()
        invariant RegisterEach(commandMap, commands[i..]) == RegisterEach(old(commandMap), commands)
      {
        assert commands[i..][1..] == commands[i + 1..];
        r := RegisterCommand(commands[i]);
        if r.Fail? {
          return;
        }
        i := i + 1;
      }
      return Pass;
    }

    method UnregisterCommand(command: Command)
      requires Valid()
      modifies this`commandMap
      ensures Valid()
      ensures commandMap == Unregister(old(commandMap), command)
    {
      commandMap := commandMap - {command.name};
      var i := 0;
      while i < |command.aliases|
        invariant 0 <= i <= |command.aliases|
        invariant commandMap == old(commandMap) - ({command.name} + AliasSet(command.aliases[..i]))
      {
        AliasSetSnoc(command.aliases, i);
        commandMap := commandMap - {command.aliases[i]};
        i := i + 1;
      }
      assert command.aliases[..i] == command.aliases;
      UnregisterKeepsWellKeyed(old(commandMap), CommandKeys(command));
    }

    method UnregisterCommands(commands: seq<Command>)
      requires Valid()
      modifies this`commandMap
      ensures Valid()
      ensures commandMap == old(commandMap) - KeysOf(Elements(commands))
    {
      var i := 0;
      while i < |commands|
        invariant 0 <= i <= |commands|
        invariant commandMap == old(commandMap) - KeysOf(Elements(commands[..i]))
      {
        ElementsSnoc(commands, i);
        KeysOfAdd(Elements(commands[..i]), commands[i]);
        UnregisterCommand(commands[i]);
        i := i + 1;
      }
      assert commands[..i] == commands;
    }

    method UnregisterAll()
      requires Valid()
      modifies this`commandMap
      ensures Valid()
      ensures commandMap == UnregisterAllOf(old(commandMap))
    {
      var commands := commandMap.Values;
      ghost var done: set<Command> := {};
      KeysOfEmpty();
      while commands != {}
        invariant commands + done == old(commandMap).Values
        invariant commands !! done
        invariant commandMap == old(commandMap) - KeysOf(done)
        decreases commands
      {
        var command :| command in commands;
        KeysOfAdd(done, command);
        UnregisterCommand(command);
        commands := commands - {command};
        done := done + {command};
      }
    }

    method GetCommands() returns (commands: set<Command>)
      ensures forall c :: c in commands <==> exists k :: k in commandMap && commandMap[k] == c
    {
      commands := commandMap.Values;
    }

    method Exists(commandName: string) returns (b: bool)
      ensures b <==> commandName in commandMap
    {
      b := commandName in commandMap;
    }

    method GetCommand(commandName: string) returns (r: Option<Command>)
      ensures r == Lookup(commandMap, commandName)
      ensures r.Some? <==> Lower(commandName) in commandMap
      ensures r.Some? ==> r.value == commandMap[Lower(commandName)]
    {
      var key := Lower(commandName);
      if key in commandMap {
        r := Some(commandMap[key]);
      } else {
        r := None;
      }
    }

    method SetAuthorizer(authorizer: Option<Authorizer>) returns (r: Outcome<ManagerError>)
      modifies this`authorizer
      ensures authorizer.None? ==> r == Fail(IllegalArgument("Trying to set a null authorizer!")) && this.authorizer == old(this.authorizer)
      ensures authorizer.Some? ==> r == Pass && this.authorizer == authorizer.value
    {
      if authorizer.None? {
        return Fail(IllegalArgument("Trying to set a null authorizer!"));
      }
      this.authorizer := authorizer.value;
      return Pass;
    }

    method SetInputTokenizer(tokenizer: Option<Tokenizer>) returns (r: Outcome<ManagerError>)
      modifies this`tokenizer
      ensures tokenizer.None? ==> r == Fail(IllegalArgument("Trying to set a null input tokenizer!")) && this.tokenizer == old(this.tokenizer)
      ensures tokenizer.Some? ==> r == Pass && this.tokenizer == tokenizer.value
    {
      if tokenizer.None? {
        return Fail(IllegalArgument("Trying to set a null input tokenizer!"));
      }
      this.tokenizer := tokenizer.value;
      return Pass;
    }

    method SetExecutor(executor: Option<Executor>) returns (r: Outcome<ManagerError>)
      modifies this`executor
      ensures executor.None? ==> r == Fail(IllegalArgument("Trying to set a null Executor!")) && this.executor == old(this.executor)
      ensures executor.Some? ==> r == Pass && this.executor == executor.value
    {
      if executor.None? {
        return Fail(IllegalArgument("Trying to set a null Executor!"));
      }
      this.executor := executor.value;
      return Pass;
    }

    method SetTranslator(translator: Option<Translator>) returns (r: Outcome<ManagerError>)
      modifies this`translator
      ensures translator.None? ==> r == Fail(IllegalArgument("Trying to set a null Translator!")) && this.translator == old(this.translator)
      ensures translator.Some? ==> r == Pass && this.translator == translator.value
    {
      if translator.None? {
        return Fail(IllegalArgument("Trying to set a null Translator!"));
      }
      this.translator := translator.value;
      return Pass;
    }

    method SetUsageBuilder(usageBuilder: Option<UsageBuilder>) returns (r: Outcome<ManagerError>)
      modifies this`usageBuilder
      ensures usageBuilder.None? ==> r == Fail(IllegalArgument("Trying to set a null UsageBuilder!")) && this.usageBuilder == old(this.usageBuilder)
      ensures usageBuilder.Some? ==> r == Pass && this.usageBuilder == usageBuilder.value
    {
      if usageBuilder.None? {
        return Fail(IllegalArgument("Trying to set a null UsageBuilder!"));
      }
      this.usageBuilder := usageBuilder.value;
      return Pass;
    }

    /** Dispatches a tokenized line. No input, or a first token that names no
        command, gives false whatever the collaborators are. Otherwise the
        authorizer is asked first; then the root part parses the tokens after
        the label (the first token as typed); a parse failure becomes a usage
        failure over the context the parse left, carrying its cause, and the
        executor is not called; a parse success returns the executor's answer. */
    method Execute(accessor: Namespace, arguments: TokenList?, parse: PartParser) returns (r: ExecuteOutcome)
      ensures arguments == null || arguments.tokens == [] ==> r == Returned(false)
      ensures arguments != null && arguments.tokens != [] && Lookup(commandMap, arguments.tokens[0]).None? ==>
                r == Returned(false)
      ensures arguments != null && arguments.tokens != [] && Lookup(commandMap, arguments.tokens[0]).Some? ==>
                var command := Lookup(commandMap, arguments.tokens[0]).value;
                var context := ContextFor(accessor, arguments.tokens, command, arguments.tokens[0]);
                if !authorizer(accessor, command.permission) then
                  r == NoPermissions(command.permissionMessage)
                else
                  match parse(command.part, context, arguments.tokens[1..])
                  case Parsed(done) => r == Returned(executor(done, usageBuilder))
                  case ParseFailed(failed, cause) => r == Usage(usageBuilder(failed), failed.command, cause)
    {
      if arguments == null || arguments.tokens == [] {
        return Returned(false);
      }
      var optionalCommand := GetCommand(arguments.tokens[0]);
      if optionalCommand.None? {
        return Returned(false);
      }
      var tokens := arguments.tokens;
      var typed := tokens[0];
      var remaining := tokens[1..];
      var command := optionalCommand.value;
      if !authorizer(accessor, command.permission) {
        return NoPermissions(command.permissionMessage);
      }
      var context := ContextFor(accessor, tokens, command, typed);
      var parsed := parse(command.part, context, remaining);
      match parsed
      case ParseFailed(failed, cause) =>
        return Usage(usageBuilder(failed), failed.command, cause);
      case Parsed(done) =>
        return Returned(executor(done, usageBuilder));
    }

    /** Completes a tokenized line; raises nothing of its own. No input, or a first token
        that names no command, gives no suggestions and leaves the list alone.
        Otherwise the first token is removed from the caller's list (before
        the authorizer is asked); a refused accessor gets no suggestions; else
        the root part suggests over the remaining tokens, in a context whose
        label is the command's own name. */
    method GetSuggestions(accessor: Namespace, arguments: TokenList?, suggest: PartSuggester) returns (r: seq<string>)
      modifies arguments
      ensures arguments == null ==> r == []
      ensures arguments != null && (old(arguments.tokens) == [] || Lookup(commandMap, old(arguments.tokens)[0]).None?) ==>
                r == [] && arguments.tokens == old(arguments.tokens)
      ensures arguments != null && old(arguments.tokens) != [] && Lookup(commandMap, old(arguments.tokens)[0]).Some? ==>
                var command := Lookup(commandMap, old(arguments.tokens)[0]).value;
                arguments.tokens == old(arguments.tokens)[1..] &&
                if !authorizer(accessor, command.permission) then r == []
                else r == suggest(command.part, ContextFor(accessor, arguments.tokens, command, command.name), arguments.tokens)
    {
      if arguments == null || arguments.tokens == [] {
        return [];
      }
      var optionalCommand := GetCommand(arguments.tokens[0]);
      if optionalCommand.None? {
        return [];
      }
      arguments.tokens := arguments.tokens[1..];
      var command := optionalCommand.value;
      if !authorizer(accessor, command.permission) {
        return [];
      }
      var context := ContextFor(accessor, arguments.tokens, command, command.name);
      r := suggest(command.part, context, arguments.tokens);
    }
  }
}
