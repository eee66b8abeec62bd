/** Values shared by the command registry, the argument stack, the boolean part
    and the sub-command builder: commands, the part tree they own, and the
    failures a parse can report. */
module Commands {

  datatype Option<+T> = None | Some(value: T)

  datatype Result<+T, +E> = Success(value: T) | Failure(error: E)

  /** A call that returns nothing or throws `error`. */
  datatype Outcome<+E> = Pass | Fail(error: E)

  /** A rich-text message (a text-library component), carried as opaque data. */
  datatype Component = Component(text: string)

  /** The code a command runs once its arguments are bound; opaque here. */
  datatype Action = Action(id: string)

  /** A custom sub-command handler, known only by identity. */
  datatype Handler = Handler(id: string)

  /** An annotation instance given to the part modifiers; only its type is inspected. */
  datatype Annotation = Annotation(annotationType: string, arguments: seq<string>)

  /** The caller identity handed to the authorizer and stored in the context. */
  datatype Namespace = Namespace(id: nat)

  /** The grammar of a command. Every variant has a name (`getName()`). */
  datatype Part =
    | Sequence(name: string, parts: seq<Part>)
    | SubCommand(name: string, subCommands: seq<Command>, optional: bool, handler: Option<Handler>)
    | FirstMatching(name: string, alternatives: seq<Part>)
    | Opaque(name: string)

  /** An immutable command definition, as `Command.Builder.build()` produces it. */
  datatype Command = Command(
    name: string,
    aliases: seq<string>,
    permission: string,
    permissionMessage: Component,
    description: Component,
    action: Option<Action>,
    part: Part)

  /** The Java type a primitive part reports through `getType()`. */
  datatype ValueType = BooleanType | OtherType(typeName: string)

  /** Parse-time failures of the argument stack and the parts. */
  datatype ArgumentError =
    | NoMoreArguments
    | InvalidValue(token: string, target: ValueType)
}
