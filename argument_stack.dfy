/** The token cursor the parts consume. Only the operations the boolean part
    uses are modelled; the textual boolean rule of the concrete stack is a
    partial function supplied when the stack is created. */
module ArgumentStacks {
  import opened Commands

  /** What a typed boolean take yields on `tokens` at cursor `pos`: the stack
      is exhausted, the token does not convert, or the converted value. */
  function NextBooleanAt(toBoolean: string -> Option<bool>, tokens: seq<string>, pos: nat): (r: Result<bool, ArgumentError>)
    requires pos <= |tokens|
    ensures r == Failure(NoMoreArguments) <==> pos == |tokens|
    ensures r.Success? <==> pos < |tokens| && toBoolean(tokens[pos]).Some?
    ensures r.Success? ==> r.value == toBoolean(tokens[pos]).value
    ensures r.Failure? && pos < |tokens| ==> r.error == InvalidValue(tokens[pos], BooleanType)
  {
    if pos == |tokens| then Failure(NoMoreArguments)
    else match toBoolean(tokens[pos])
      case Some(b) => Success(b)
      case None => Failure(InvalidValue(tokens[pos], BooleanType))
  }

  class ArgumentStack {
    const tokens: seq<string>
    const toBoolean: string -> Option<bool>
    var pos: nat

    ghost predicate Valid()
      reads this
    {
      pos <= |tokens|
    }

    constructor (tokens: seq<string>, toBoolean: string -> Option<bool>)
      ensures Valid()
      ensures this.tokens == tokens && this.toBoolean == toBoolean && pos == 0
    {
      this.tokens := tokens;
      this.toBoolean := toBoolean;
      pos := 0;
    }

    predicate HasNext()
      reads this
    {
      pos < |tokens|
    }

    /** The tokens not yet consumed. */
    function Remaining(): seq<string>
      reads this
      requires Valid()
    {
      tokens[pos..]
    }

    /** Takes one raw token, failing when the stack is exhausted. */
    method Next() returns (r: Result<string, ArgumentError>)
      requires Valid()
      modifies this`pos
      ensures Valid()
      ensures old(pos) < |tokens| ==> r == Success(tokens[old(pos)]) && pos == old(pos) + 1
      ensures old(pos) == |tokens| ==> r == Failure(NoMoreArguments) && pos == old(pos)
    {
      if pos < |tokens| {
        r := Success(tokens[pos]);
        pos := pos + 1;
      } else {
        r := Failure(NoMoreArguments);
      }
    }

    /** Takes one token and converts it; a token that does not convert has
        still been taken. */
    method NextBoolean() returns (r: Result<bool, ArgumentError>)
      requires Valid()
      modifies this`pos
      ensures Valid()
      ensures r == NextBooleanAt(toBoolean, tokens, old(pos))
      ensures pos == if old(pos) < |tokens| then old(pos) + 1 else old(pos)
    {
      var token := Next();
      match token
      case Failure(e) =>
        r := Failure(e);
      case Success(t) =>
        match toBoolean(t)
        case Some(b) =>
          r := Success(b);
        case None =>
          r := Failure(InvalidValue(t, BooleanType));
    }
  }
}
