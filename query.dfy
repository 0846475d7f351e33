/**
 * A whole query, as the driver runs it: tokenize the path expression, then
 * evaluate the tokens against a document. Syntax errors and evaluation
 * errors stay distinct.
 */
module Query {
  import opened Wrappers
  import opened Json
  import opened Tokens
  import opened Lexer
  import opened LexerProperties
  import opened Evaluator
  import opened EvaluatorProperties

  datatype QueryError = SyntaxError(lex: LexError) | EvaluationError(eval: EvalError)

  /** The node `expr` selects in `doc`, or the first error. */
  function RunQuery(expr: string, doc: Json): Result<Json, QueryError>
  {
    match Tokenize(expr)
    case Failure(e) => Failure(SyntaxError(e))
    case Success(ts) =>
      match Evaluate(ts, doc)
      case Success(v) => Success(v)
      case Failure(e) => Failure(EvaluationError(e))
  }

  /** The driver: a tokenizer over the expression, then a parser over its tokens and the document. */
  method Execute(expr: string, doc: Json) returns (r: Result<Json, QueryError>)
    ensures r == RunQuery(expr, doc)
  {
    var tokenizer := new Tokenizer(expr);
    var tokens := tokenizer.GetTokens();
    if tokens.Failure? {
      return Failure(SyntaxError(tokens.error));
    }
    var parser := new Parser(tokens.value, doc);
    var result := parser.Parse();
    if result.Failure? {
      return Failure(EvaluationError(result.error));
    }
    r := Success(result.value);
  }

  /** The text `.p1.p2...` of a chain of property names. */
  function DotPath(names: seq<string>): string
  {
    if names == [] then "" else "." + names[0] + DotPath(names[1..])
  }

  function PropertyTokens(names: seq<string>): (ts: seq<Token>)
    ensures |ts| == |names|
    ensures forall k :: 0 <= k < |ts| ==> ts[k] == Token(names[k], Property)
  {
    if names == [] then [] else [Token(names[0], Property)] + PropertyTokens(names[1..])
  }

  lemma {:induction false} PropertyTokensRender(names: seq<string>)
    ensures RenderAll(PropertyTokens(names)) == DotPath(names)
    ensures PathNames(PropertyTokens(names)) == names
    decreases |names|
  {
    if names != [] {
      var ts := PropertyTokens(names);
      assert ts[1..] == PropertyTokens(names[1..]);
      PropertyTokensRender(names[1..]);
      assert [names[0]] + names[1..] == names;
    }
  }

  /** The tokens of `$.p1.p2...`. */
  function PathTokens(names: seq<string>): seq<Token>
  {
    [RootToken] + PropertyTokens(names)
  }

  lemma PathTokensWellFormed(names: seq<string>)
    requires forall k :: 0 <= k < |names| ==> IsName(names[k])
    ensures WellFormed(PathTokens(names)) && PathFrom(PathTokens(names), 0)
  {
    var props := PropertyTokens(names);
    var ts := PathTokens(names);
    forall k | 0 <= k < |ts| ensures ValidToken(ts[k], k == 0) && PathToken(ts, k) {
      if k > 0 { assert ts[k] == props[k - 1]; }
    }
  }

  lemma PathTokensSpell(names: seq<string>)
    ensures PathNames(PathTokens(names)) == names
    ensures RenderAll(PathTokens(names)) == "$" + DotPath(names)
  {
    PropertyTokensRender(names);
    var ts := PathTokens(names);
    assert ts[1..] == PropertyTokens(names);
    assert PathNames(ts) == [] + names;
  }

  /** `$.p1.p2...` over valid names tokenizes to the Root token and one Property token per name. */
  lemma TokenizePath(names: seq<string>)
    requires forall k :: 0 <= k < |names| ==> IsName(names[k])
    ensures Tokenize("$" + DotPath(names)) == Success(PathTokens(names))
  {
    PathTokensWellFormed(names);
    PathTokensSpell(names);
    TokenizeRendered(PathTokens(names));
  }

  /**
   * An expression `$.p1.p2...` over valid names selects the value at that
   * chain of nested fields, and fails with an evaluation error (property of a
   * scalar or an array, or a missing field) when the document lacks it.
   */
  lemma QuerySelectsPath(names: seq<string>, doc: Json)
    requires forall k :: 0 <= k < |names| ==> IsName(names[k])
    ensures RunQuery("$" + DotPath(names), doc).ToOption() == SelectPath(doc, names)
    ensures RunQuery("$" + DotPath(names), doc).Failure? ==>
            var e := RunQuery("$" + DotPath(names), doc).error;
            e.EvaluationError? &&
            (e.eval.PropertyOfScalar? || e.eval.PropertyOfArray? || e.eval.NoSuchField?)
  {
    var ts := PathTokens(names);
    TokenizePath(names);
    PathTokensWellFormed(names);
    PathTokensSpell(names);
    EvalFromPath(ts, 0, doc);
    assert ts[0..] == ts;
  }

  /**
   * Queries compose: `$.a….b…` selects what `$.b…` selects in the node that
   * `$.a…` selects, and fails when `$.a…` fails.
   */
  lemma QueryPathCompose(a: seq<string>, b: seq<string>, doc: Json)
    requires forall k :: 0 <= k < |a| ==> IsName(a[k])
    requires forall k :: 0 <= k < |b| ==> IsName(b[k])
    ensures RunQuery("$" + DotPath(a), doc).Failure? ==> RunQuery("$" + DotPath(a + b), doc).Failure?
    ensures RunQuery("$" + DotPath(a), doc).Success? ==>
            RunQuery("$" + DotPath(a + b), doc).ToOption() ==
            RunQuery("$" + DotPath(b), RunQuery("$" + DotPath(a), doc).value).ToOption()
  {
    assert forall k :: 0 <= k < |a + b| ==> IsName((a + b)[k]) by {
      forall k | 0 <= k < |a + b| ensures IsName((a + b)[k]) {
        if k < |a| { assert (a + b)[k] == a[k]; } else { assert (a + b)[k] == b[k - |a|]; }
      }
    }
    QuerySelectsPath(a, doc);
    QuerySelectsPath(a + b, doc);
    SelectPathAppend(doc, a, b);
    if RunQuery("$" + DotPath(a), doc).Success? {
      QuerySelectsPath(b, RunQuery("$" + DotPath(a), doc).value);
    }
  }

  // ---- The behaviour on a few concrete queries ----


  lemma BracketTokensRender(names: seq<string>, text: string)
    ensures RenderAll(PathTokens(names) + [Token(text, BracketExpression)]) ==
            ("$" + DotPath(names)) + ("[" + text + "]")
  {
    var bracket := Token(text, BracketExpression);
    PathTokensSpell(names);
    RenderAllAppend(PathTokens(names), [bracket]);
    RenderOne(bracket);
  }

  lemma BracketTokensFacts(names: seq<string>, text: string)
    requires forall k :: 0 <= k < |names| ==> IsName(names[k])
    requires IsBracketText(text)
    ensures var ts := PathTokens(names) + [Token(text, BracketExpression)];
      var k := |PathTokens(names)|;
      WellFormed(ts) && k < |ts| && ts[k] == Token(text, BracketExpression) &&
      (forall m :: 0 <= m < k ==> PathToken(ts, m)) &&
      PathNames(ts[..k]) == names
  {
    var path := PathTokens(names);
    var bracket := Token(text, BracketExpression);
    var ts := path + [bracket];
    PathTokensWellFormed(names);
    PathTokensSpell(names);
    forall k | 0 <= k < |ts| ensures ValidToken(ts[k], k == 0) {
      if k < |path| { assert ts[k] == path[k]; }
    }
    assert ts[..|path|] == path;
    forall m | 0 <= m < |path| ensures PathToken(ts, m) {
      assert PathToken(path, m);
    }
  }

  /**
   * A bracket expression after a path the document has is well formed, and
   * its evaluation aborts: filtering is not implemented.
   */
  lemma QueryBracketAfterPath(names: seq<string>, text: string, doc: Json)
    requires forall k :: 0 <= k < |names| ==> IsName(names[k])
    requires IsBracketText(text)
    requires SelectPath(doc, names).Some?
    ensures RunQuery(("$" + DotPath(names)) + ("[" + text + "]"), doc) ==
            Failure(EvaluationError(BracketNotImplemented(text)))
  {
    BracketTokensFacts(names, text);
    BracketTokensRender(names, text);
    QueryRenderedBracket(PathTokens(names) + [Token(text, BracketExpression)], |PathTokens(names)|, doc);
  }

  lemma QueryRenderedBracket(ts: seq<Token>, k: nat, doc: Json)
    requires WellFormed(ts)
    requires k < |ts| && ts[k].kind == BracketExpression
    requires forall m :: 0 <= m < k ==> PathToken(ts, m)
    requires SelectPath(doc, PathNames(ts[..k])).Some?
    ensures RunQuery(RenderAll(ts), doc) == Failure(EvaluationError(BracketNotImplemented(ts[k].content)))
  {
    TokenizeRendered(ts);
    EvaluateBracketAborts(ts, k, doc);
  }
}
