/** The fluent command builder used by the annotated front end, without its
    reflection: parts and sub-commands are added explicitly, and `Build`
    decides the shape of the command's root part. */
module CommandBuilders {
  import opened Commands

  /** A part modifier selected by annotation types, applied with the annotations. */
  type PartModifier = (Part, seq<Annotation>) -> Part

  /** The injector's modifier lookup: annotation types to the combined modifier. */
  type Injector = seq<string> -> PartModifier

  /** One `setModifiers` call: the modifier it looked up and its annotations. */
  datatype ModifierStep = ModifierStep(modifier: PartModifier, annotations: seq<Annotation>)

  /** The steps applied in call order: the first call's modifier innermost. */
  function ApplyChain(steps: seq<ModifierStep>, p: Part): Part
    decreases |steps|
  {
    if steps == [] then p
    else ApplyChain(steps[1..], steps[0].modifier(p, steps[0].annotations))
  }

  /** A later `setModifiers` call is applied on top of all earlier ones. */
  lemma {:induction false} ApplyChainSnoc(steps: seq<ModifierStep>, step: ModifierStep, p: Part)
    ensures ApplyChain(steps + [step], p) == step.modifier(ApplyChain(steps, p), step.annotations)
    decreases |steps|
  {
    if steps != [] {
      assert (steps + [step])[1..] == steps[1..] + [step];
      ApplyChainSnoc(steps[1..], step, steps[0].modifier(p, steps[0].annotations));
    }
  }

  function AnnotationTypes(annotations: seq<Annotation>): (types: seq<string>)
    ensures |types| == |annotations|
    ensures forall i :: 0 <= i < |annotations| ==> types[i] == annotations[i].annotationType
  {
    if annotations == [] then [] else [annotations[0].annotationType] + AnnotationTypes(annotations[1..])
  }

  /** The root part of a command builder: the part set by `part(...)`, or
      else the sequence of the parts added so far. */
  function RootOf(name: string, parts: seq<Part>, root: Option<Part>): Part
  {
    if root.Some? then root.value else Sequence(name, parts)
  }

  /** The part `build()` creates for the sub-commands, before modifiers. */
  function SubCommandPartOf(subCommands: seq<Command>, optional: bool, handler: Option<Handler>): Part
  {
    SubCommand("subcommand", subCommands, optional, handler)
  }

  /** The parts and the explicit root part of a command builder. */
  datatype Assembly = Assembly(parts: seq<Part>, root: Option<Part>)

  /** What `build()` does to the builder's parts, given the sub-commands and
      the modified sub-command part `modified`. */
  function Assemble(name: string, parts: seq<Part>, root: Option<Part>, subCommands: seq<Command>,
                    modified: Part, argumentsOrSubcommand: bool): Assembly
  {
    if subCommands == [] then Assembly(parts, root)
    else if argumentsOrSubcommand then
      Assembly(parts, Some(FirstMatching(modified.name + "|arguments", [RootOf(name, parts, root), modified])))
    else Assembly(parts + [modified], root)
  }

  /** Without sub-commands the builder is left as it was, whatever the flags,
      the handler or the modifiers. */
  lemma AssembleWithoutSubCommands(name: string, parts: seq<Part>, root: Option<Part>,
                                   modified: Part, argumentsOrSubcommand: bool)
    ensures Assemble(name, parts, root, [], modified, argumentsOrSubcommand) == Assembly(parts, root)
    ensures RootOf(name, parts, root) == RootOf(name, Assemble(name, parts, root, [], modified, argumentsOrSubcommand).parts,
                                                Assemble(name, parts, root, [], modified, argumentsOrSubcommand).root)
  {
  }

  /** With sub-commands and no choice, exactly one part, the modified
      sub-command part, is appended after all earlier parts; the explicit root
      is untouched. */
  lemma AssembleAppendsSubCommandPart(name: string, parts: seq<Part>, root: Option<Part>, subCommands: seq<Command>,
                                      optional: bool, handler: Option<Handler>, steps: seq<ModifierStep>)
    requires subCommands != []
    ensures var a := Assemble(name, parts, root, subCommands, ApplyChain(steps, SubCommandPartOf(subCommands, optional, handler)), false);
            |a.parts| == |parts| + 1 && a.parts[..|parts|] == parts && a.root == root &&
            a.parts[|parts|] == ApplyChain(steps, SubCommand("subcommand", subCommands, optional, handler))
  {
    var a := Assemble(name, parts, root, subCommands, ApplyChain(steps, SubCommandPartOf(subCommands, optional, handler)), false);
    assert a.parts[..|parts|] == parts;
  }

  /** With sub-commands and the choice flag, the root part becomes a
      first-matching part named after the modified sub-command part, trying
      the previous root part first and the sub-command part second; the part
      list itself is kept. */
  lemma AssembleFirstMatching(name: string, parts: seq<Part>, root: Option<Part>, subCommands: seq<Command>,
                              modified: Part)
    requires subCommands != []
    ensures var a := Assemble(name, parts, root, subCommands, modified, true);
            a.parts == parts &&
            RootOf(name, a.parts, a.root) == FirstMatching(modified.name + "|arguments", [RootOf(name, parts, root), modified]) &&
            RootOf(name, a.parts, a.root).alternatives[0] == RootOf(name, parts, root)
  {
  }

  /** `Command.Builder`, whose own composition of parts is not part of this
      model: it keeps the added parts and an explicit root part. */
  class Builder {
    const name: string
    var aliases: seq<string>
    var permission: string
    var permissionMessage: Component
    var description: Component
    var action: Option<Action>
    var parts: seq<Part>
    var root: Option<Part>

    constructor (name: string)
      ensures this.name == name && aliases == [] && permission == ""
      ensures permissionMessage == Component("") && description == Component("")
      ensures action == None && parts == [] && root == None
    {
      this.name := name;
      aliases := [];
      permission := "";
      permissionMessage := Component("");
      description := Component("");
      action := None;
      parts := [];
      root := None;
    }

    /** The command `build()` would return now. */
    function Snapshot(): Command
      reads this
    {
      Command(name, aliases, permission, permissionMessage, description, action, RootOf(name, parts, root))
    }

    method AddPart(part: Part)
      modifies this`parts
      ensures parts == old(parts) + [part]
    {
      parts := parts + [part];
    }

    /** `part(...)`: replaces the root part. */
    method SetPart(part: Part)
      modifies this`root
      ensures root == Some(part)
    {
      root := Some(part);
    }

    method SetAliases(aliases: seq<string>)
      modifies this`aliases
      ensures this.aliases == aliases
    {
      this.aliases := aliases;
    }

    method AddAlias(alias: string)
      modifies this`aliases
      ensures aliases == old(aliases) + [alias]
    {
      aliases := aliases + [alias];
    }

    method SetPermission(permission: string)
      modifies this`permission
      ensures this.permission == permission
    {
      this.permission := permission;
    }

    method SetPermissionMessage(message: Component)
      modifies this`permissionMessage
      ensures permissionMessage == message
    {
      permissionMessage := message;
    }

    method SetDescription(description: Component)
      modifies this`description
      ensures this.description == description
    {
      this.description := description;
    }

    method SetAction(action: Action)
      modifies this`action
      ensures this.action == Some(action)
    {
      this.action := Some(action);
    }

    method Build() returns (c: Command)
      ensures c == Snapshot()
    {
      c := Command(name, aliases, permission, permissionMessage, description, action, RootOf(name, parts, root));
    }
  }

  datatype BuilderError = IllegalArgument(message: string)

  /** The builder nodes of one command: the data, parts, action and
      sub-command stages share this state. */
  class CommandBuilderNodes {
    const builder: Builder
    const injector: Injector
    var subCommands: seq<Command>
    var subCommandHandler: Option<Handler>
    var optional: bool
    var argumentsOrSubcommand: bool
    var modifierFunction: Part -> Part
    /** The `setModifiers` calls so far, in call order. */
    ghost var modifierSteps: seq<ModifierStep>

    ghost predicate Valid()
      reads this
    {
      forall p :: modifierFunction(p) == ApplyChain(modifierSteps, p)
    }

    constructor (name: string, injector: Injector)
      ensures Valid() && fresh(builder)
      ensures builder.name == name && builder.parts == [] && builder.root == None
      ensures this.injector == injector && subCommands == [] && subCommandHandler == None
      ensures !optional && !argumentsOrSubcommand && modifierSteps == []
      ensures forall p :: modifierFunction(p) == p
    {
      builder := new Builder(name);
      this.injector := injector;
      subCommands := [];
      subCommandHandler := None;
      optional := false;
      argumentsOrSubcommand := false;
      modifierFunction := (p: Part) => p;
      modifierSteps := [];
    }

    method AddPart(part: Part)
      modifies builder`parts
      ensures builder.parts == old(builder.parts) + [part]
    {
      builder.AddPart(part);
    }

    method Aliases(aliases: seq<string>)
      modifies builder`aliases
      ensures builder.aliases == aliases
    {
      builder.SetAliases(aliases);
    }

    method AddAlias(alias: string)
      modifies builder`aliases
      ensures builder.aliases == old(builder.aliases) + [alias]
    {
      builder.AddAlias(alias);
    }

    method Permission(permission: string)
      modifies builder`permission
      ensures builder.permission == permission
    {
      builder.SetPermission(permission);
    }

    method PermissionMessage(message: Component)
      modifies builder`permissionMessage
      ensures builder.permissionMessage == message
    {
      builder.SetPermissionMessage(message);
    }

    method Description(description: Component)
      modifies builder`description
      ensures builder.description == description
    {
      builder.SetDescription(description);
    }

    method Action(action: Action)
      modifies builder`action
      ensures builder.action == Some(action)
    {
      builder.SetAction(action);
    }

    method AddSubCommand(command: Command)
      modifies this`subCommands
      ensures subCommands == old(subCommands) + [command]
    {
      subCommands := subCommands + [command];
    }

    /** Adds the command another node builds now. */
    method AddSubCommandNode(node: CommandBuilderNodes)
      requires node.Valid()
      modifies this`subCommands, node.builder`parts, node.builder`root
      ensures Assembly(node.builder.parts, node.builder.root) ==
              Assemble(node.builder.name, old(node.builder.parts), old(node.builder.root), old(node.subCommands),
                       ApplyChain(node.modifierSteps, SubCommandPartOf(old(node.subCommands), node.optional, node.subCommandHandler)),
                       node.argumentsOrSubcommand)
      ensures subCommands == old(subCommands) + [node.builder.Snapshot()]
    {
      var command := node.Build();
      subCommands := subCommands + [command];
    }

    method SetSubCommandHandler(handler: Option<Handler>) returns (r: Outcome<BuilderError>)
      modifies this`subCommandHandler
      ensures handler.None? ==> r == Fail(IllegalArgument("The provided SubCommandHandler shouldn't be null!")) &&
                                subCommandHandler == old(subCommandHandler)
      ensures handler.Some? ==> r == Pass && subCommandHandler == handler
    {
      if handler.None? {
        return Fail(IllegalArgument("The provided SubCommandHandler shouldn't be null!"));
      }
      subCommandHandler := handler;
      return Pass;
    }

    /** Composes the modifier for these annotations on top of the current
        modifier function. */
    method SetModifiers(modifiers: seq<Annotation>)
      requires Valid()
      modifies this`modifierFunction, this`modifierSteps
      ensures Valid()
      ensures modifierSteps == old(modifierSteps) + [ModifierStep(injector(AnnotationTypes(modifiers)), modifiers)]
      ensures forall p :: modifierFunction(p) == injector(AnnotationTypes(modifiers))(old(modifierFunction)(p), modifiers)
    {
      var modifier := injector(AnnotationTypes(modifiers));
      var oldFunction := modifierFunction;
      modifierFunction := (p: Part) => modifier(oldFunction(p), modifiers);
      ghost var step := ModifierStep(modifier, modifiers);
      forall p
        ensures modifierFunction(p) == ApplyChain(modifierSteps + [step], p)
      {
        ApplyChainSnoc(modifierSteps, step, p);
      }
      modifierSteps := modifierSteps + [step];
    }

    method ArgumentsOrSubCommand()
      modifies this`argumentsOrSubcommand
      ensures argumentsOrSubcommand
    {
      argumentsOrSubcommand := true;
    }

    method Optional()
      modifies this`optional
      ensures optional
    {
      optional := true;
    }

    /** Builds the command. The sub-command part is created only when there
        are sub-commands, gets the composed modifiers applied to it once, and
        is then either appended or made the second choice of the root part. */
    method Build() returns (c: Command)
      requires Valid()
      modifies builder`parts, builder`root
      ensures Assembly(builder.parts, builder.root) ==
              Assemble(builder.name, old(builder.parts), old(builder.root), subCommands,
                       ApplyChain(modifierSteps, SubCommandPartOf(subCommands, optional, subCommandHandler)),
                       argumentsOrSubcommand)
      ensures c == builder.Snapshot()
    {
      if subCommands != [] {
        var part := SubCommand("subcommand", subCommands, optional, subCommandHandler);
        part := modifierFunction(part);
        if argumentsOrSubcommand {
          var command := builder.Build();
          part := FirstMatching(part.name + "|arguments", [command.part, part]);
          builder.SetPart(part);
        } else {
          builder.AddPart(part);
        }
      }
      c := builder.Build();
    }
  }
}
