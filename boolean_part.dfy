/** The boolean primitive part: either one boolean taken from the stack, or
    (with `consumeAll`) one boolean per remaining token. */
module BooleanParts {
  import opened Commands
  import opened ArgumentStacks

  /** Converts every token in order; the first token that does not convert
      decides the failure. */
  function ConvertAll(toBoolean: string -> Option<bool>, tokens: seq<string>): Result<seq<bool>, ArgumentError>
    decreases |tokens|
  {
    if tokens == [] then Success([])
    else match toBoolean(tokens[0])
      case None => Failure(InvalidValue(tokens[0], BooleanType))
      case Some(b) => Prepend([b], ConvertAll(toBoolean, tokens[1..]))
  }

  /** Puts `values` in front of a successful result; keeps a failure as it is. */
  function Prepend(values: seq<bool>, r: Result<seq<bool>, ArgumentError>): (p: Result<seq<bool>, ArgumentError>)
    ensures p.Success? <==> r.Success?
    ensures p.Success? ==> p.value == values + r.value
    ensures p.Failure? ==> p.error == r.error
  {
    match r
    case Success(v) => Success(values + v)
    case Failure(e) => Failure(e)
  }

  /** Converting all tokens succeeds exactly when every token converts, and then
      yields one value per token, in token order. */
  lemma {:induction false} ConvertAllSucceedsIff(toBoolean: string -> Option<bool>, tokens: seq<string>)
    ensures ConvertAll(toBoolean, tokens).Success? <==> forall i :: 0 <= i < |tokens| ==> toBoolean(tokens[i]).Some?
    ensures ConvertAll(toBoolean, tokens).Success? ==>
              |ConvertAll(toBoolean, tokens).value| == |tokens| &&
              forall i :: 0 <= i < |tokens| ==> ConvertAll(toBoolean, tokens).value[i] == toBoolean(tokens[i]).value
    decreases |tokens|
  {
    if tokens != [] {
      ConvertAllSucceedsIff(toBoolean, tokens[1..]);
      if toBoolean(tokens[0]).Some? {
        var rest := ConvertAll(toBoolean, tokens[1..]);
        if rest.Success? {
          forall i | 0 <= i < |tokens|
            ensures ConvertAll(toBoolean, tokens).value[i] == toBoolean(tokens[i]).value
          {
            if i > 0 {
              assert tokens[1..][i - 1] == tokens[i];
            }
          }
        } else {
          var j :| 0 <= j < |tokens[1..]| && toBoolean(tokens[1..][j]).None?;
          assert toBoolean(tokens[j + 1]).None?;
        }
      }
    }
  }

  /** A failure names the first token that does not convert. */
  lemma {:induction false} ConvertAllFailsAtFirstBadToken(toBoolean: string -> Option<bool>, tokens: seq<string>)
    requires ConvertAll(toBoolean, tokens).Failure?
    ensures exists j :: 0 <= j < |tokens| && toBoolean(tokens[j]).None? &&
              (forall i :: 0 <= i < j ==> toBoolean(tokens[i]).Some?) &&
              ConvertAll(toBoolean, tokens).error == InvalidValue(tokens[j], BooleanType)
    decreases |tokens|
  {
    if toBoolean(tokens[0]).None? {
      assert toBoolean(tokens[0]).None? && ConvertAll(toBoolean, tokens).error == InvalidValue(tokens[0], BooleanType);
    } else {
      ConvertAllFailsAtFirstBadToken(toBoolean, tokens[1..]);
      var j :| 0 <= j < |tokens[1..]| && toBoolean(tokens[1..][j]).None? &&
               (forall i :: 0 <= i < j ==> toBoolean(tokens[1..][i]).Some?) &&
               ConvertAll(toBoolean, tokens[1..]).error == InvalidValue(tokens[1..][j], BooleanType);
      assert tokens[1..][j] == tokens[j + 1];
      forall i | 0 <= i < j + 1
        ensures toBoolean(tokens[i]).Some?
      {
        if i > 0 {
          assert tokens[1..][i - 1] == tokens[i];
        }
      }
    }
  }

  /** `Prepend` composes along a sequence of takes. */
  lemma PrependTwice(a: seq<bool>, b: seq<bool>, r: Result<seq<bool>, ArgumentError>)
    ensures Prepend(a, Prepend(b, r)) == Prepend(a + b, r)
  {
    if r.Success? {
      assert a + (b + r.value) == (a + b) + r.value;
    }
  }

  lemma PrependNothing(r: Result<seq<bool>, ArgumentError>)
    ensures Prepend([], r) == r
  {
    if r.Success? {
      assert [] + r.value == r.value;
    }
  }

  datatype BooleanPart = BooleanPart(name: string, consumeAll: bool) {

    /** The type of the values this part binds. */
    function GetType(): (t: ValueType)
      ensures t == BooleanType
    {
      BooleanType
    }

    /** Takes the values of this part from the stack. With `consumeAll` every
        remaining token is converted, in order (none remaining gives the empty
        list); otherwise exactly one. A failed take ends the parse with that
        failure and no list. */
    method ParseValue(stack: ArgumentStack) returns (r: Result<seq<bool>, ArgumentError>)
      requires stack.Valid()
      modifies stack
      ensures stack.Valid()
      ensures consumeAll ==> r == ConvertAll(stack.toBoolean, old(stack.Remaining()))
      ensures consumeAll && r.Success? ==> stack.pos == |stack.tokens|
      ensures consumeAll && old(stack.pos) == |stack.tokens| ==> r == Success([]) && stack.pos == old(stack.pos)
      ensures !consumeAll ==> r == Singleton(NextBooleanAt(stack.toBoolean, stack.tokens, old(stack.pos)))
      ensures !consumeAll && r.Success? ==> stack.pos == old(stack.pos) + 1 && |r.value| == 1
    {
      var objects: seq<bool> := [];
      if consumeAll {
        PrependNothing(ConvertAll(stack.toBoolean, stack.Remaining()));
        while stack.HasNext()
          invariant stack.Valid()
          invariant old(stack.pos) <= stack.pos
          invariant ConvertAll(stack.toBoolean, old(stack.Remaining())) ==
                    Prepend(objects, ConvertAll(stack.toBoolean, stack.Remaining()))
          decreases |stack.tokens| - stack.pos
        {
          ghost var rest := stack.Remaining();
          var b := stack.NextBoolean();
          match b
          case Failure(e) =>
            assert ConvertAll(stack.toBoolean, rest) == Failure(e);
            return Failure(e);
          case Success(v) =>
            assert rest[1..] == stack.Remaining();
            PrependTwice(objects, [v], ConvertAll(stack.toBoolean, stack.Remaining()));
            objects := objects + [v];
        }
        assert stack.Remaining() == [];
        assert objects + [] == objects;
      } else {
        var b := stack.NextBoolean();
        match b
        case Failure(e) =>
          return Failure(e);
        case Success(v) =>
          objects := [v];
      }
      return Success(objects);
    }
  }

  /** A single take as a one-element list. */
  function Singleton(r: Result<bool, ArgumentError>): (s: Result<seq<bool>, ArgumentError>)
    ensures s.Success? <==> r.Success?
    ensures s.Success? ==> s.value == [r.value]
    ensures s.Failure? ==> s.error == r.error
  {
    match r
    case Success(v) => Success([v])
    case Failure(e) => Failure(e)
  }
}
