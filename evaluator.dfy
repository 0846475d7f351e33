/**
 * The evaluator: it walks the token list with a cursor `index` and keeps one
 * current node, starting at the document root. `EvalFrom` is the
 * specification of the walk; the class `Parser` is the walk itself.
 */
module Evaluator {
  import opened Wrappers
  import opened Json
  import opened Tokens

  /** Evaluation errors: the path does not fit the document, or uses an unimplemented feature. */
  datatype EvalError =
    | MisplacedRoot(index: nat)           // a Root token anywhere but token index 0
    | PropertyOfScalar(name: string)      // property access on a string, null, number or boolean
    | PropertyOfArray(name: string)       // property access on an array
    | NoSuchField(name: string)           // the object has no field of that name
    | BracketNotImplemented(expr: string) // bracket expressions are not evaluated

  /** One Property step from the current node. */
  function PropertyStep(cur: Json, name: string): Result<Json, EvalError>
  {
    match cur
    case JObj(fields) =>
      (match FindField(fields, name)
       case Some(v) => Success(v)
       case None => Failure(NoSuchField(name)))
    case JArr(_) => Failure(PropertyOfArray(name))
    case _ => Failure(PropertyOfScalar(name))
  }

  /** The walk over `tokens` from token index `i` with current node `cur`. */
  function EvalFrom(tokens: seq<Token>, i: nat, cur: Json): Result<Json, EvalError>
    decreases |tokens| - i
  {
    if i >= |tokens| then Success(cur)
    else
      match tokens[i].kind
      case Root =>
        if i != 0 then Failure(MisplacedRoot(i)) else EvalFrom(tokens, i + 1, cur)
      case Property =>
        (match PropertyStep(cur, tokens[i].content)
         case Success(next) => EvalFrom(tokens, i + 1, next)
         case Failure(e) => Failure(e))
      case BracketExpression =>
        Failure(BracketNotImplemented(tokens[i].content))
  }

  /** The node a token list selects in a document. */
  function Evaluate(tokens: seq<Token>, doc: Json): Result<Json, EvalError>
  {
    EvalFrom(tokens, 0, doc)
  }

  class Parser {
    const doc: Json
    const tokens: seq<Token>
    var index: nat

    ghost predicate Valid()
      reads this
    {
      index <= |tokens|
    }

    constructor (tokens: seq<Token>, doc: Json)
      ensures Valid() && this.tokens == tokens && this.doc == doc && index == 0
    {
      this.doc := doc;
      this.tokens := tokens;
      index := 0;
    }

    method Consume() returns (t: Token)
      requires Valid() && index < |tokens|
      modifies this
      ensures Valid() && t == tokens[old(index)] && index == old(index) + 1
    {
      t := tokens[index];
      index := index + 1;
    }

    function Peak(): (t: Token)
      reads this
      requires index < |tokens|
      ensures t == tokens[index]
    {
      tokens[index]
    }

    function Eof(): (b: bool)
      reads this
      ensures b <==> index >= |tokens|
    {
      index >= |tokens|
    }

    /** A Root token is accepted only as the first token; on success it is consumed. */
    method EnsureValidRoot() returns (r: Outcome<EvalError>)
      requires Valid() && index < |tokens|
      modifies this
      ensures Valid()
      ensures old(index) != 0 ==> r == Fail(MisplacedRoot(old(index))) && index == old(index)
      ensures old(index) == 0 ==> r == Pass && index == 1
    {
      if index != 0 {
        return Fail(MisplacedRoot(index));
      }
      var _ := Consume();
      r := Pass;
    }

    /** The walk from the current token index, starting at the document root. */
    method Parse() returns (r: Result<Json, EvalError>)
      requires Valid()
      modifies this
      ensures Valid()
      ensures r == EvalFrom(tokens, old(index), doc)
      ensures r.Success? ==> index == |tokens|
    {
      var cur := doc;
      while !Eof()
        invariant Valid()
        invariant EvalFrom(tokens, old(index), doc) == EvalFrom(tokens, index, cur)
        decreases |tokens| - index
      {
        var t := Peak();
        match t.kind
        case Root =>
          var ok := EnsureValidRoot();
          if ok.Fail? {
            return Failure(ok.error);
          }
        case Property =>
          if IsScalar(cur) {
            return Failure(PropertyOfScalar(t.content));
          }
          if cur.JArr? {
            return Failure(PropertyOfArray(t.content));
          }
          var prop := Consume();
          var found := FindField(cur.fields, prop.content);
          if found.None? {
            return Failure(NoSuchField(prop.content));
          }
          cur := found.value;
        case BracketExpression =>
          return Failure(BracketNotImplemented(t.content));
      }
      r := Success(cur);
    }
  }
}
