/**
 * The behaviour of whole queries and of the tokenizer on a few concrete
 * expressions, including the places where the scanner accepts more than the
 * grammar `'$' Step*` of the query language.
 */
module QueryExamples {
  import opened Wrappers
  import opened Json
  import opened Tokens
  import opened Lexer
  import opened LexerProperties
  import opened Evaluator
  import opened Query

  /** `$.user` on `{"user": true}` selects `true`. */
  lemma SelectsField()
    ensures RunQuery("$.user", JObj([("user", JBool(true))])) == Success(JBool(true))
  {
  }

  /** `$.a.b` on `{"a": 1}`: the property `b` of a number. */
  lemma PropertyOfNumberFails()
    ensures RunQuery("$.a.b", JObj([("a", JNum("1"))])) == Failure(EvaluationError(PropertyOfScalar("b")))
  {
    var s := "$.a.b";
    var ts := [RootToken, Token("a", Property), Token("b", Property)];
    DollarToken(s[0]);
    NameEndAt(s, 2, 3);
    NameEndAt(s, 4, 5);
    assert s[2..3] == "a" && s[4..5] == "b";
    assert Scan(s, 5) == Success([]);
    assert Scan(s, 3) == Success([ts[2]] + []);
    assert Scan(s, 1) == Success([ts[1]] + ([ts[2]] + []));
    assert Tokenize(s) == Success([ts[0]] + ([ts[1]] + ([ts[2]] + [])));
    assert [ts[0]] + ([ts[1]] + ([ts[2]] + [])) == ts;
    var doc := JObj([("a", JNum("1"))]);
    assert FindField(doc.fields, "a") == Some(JNum("1"));
    assert EvalFrom(ts, 2, JNum("1")) == Failure(PropertyOfScalar("b"));
    assert EvalFrom(ts, 1, doc) == Failure(PropertyOfScalar("b"));
  }

  /** `$x`: after the root only '.', '[' (or the end) may follow. */
  lemma UnexpectedCharacterAfterRoot()
    ensures RunQuery("$x", JNull) == Failure(SyntaxError(UnexpectedCharacter(1, 'x')))
  {
  }

  /** `$.items[`: a '[' at the very end is unterminated, since `peak()` reads the terminating '\0' there. */
  lemma UnterminatedBracketAtEnd()
    ensures RunQuery("$.items[", JNull) == Failure(SyntaxError(UnterminatedBracket(7)))
  {
  }

  // ---- Where the scanner is more permissive than the grammar `'$' Step*` ----

  /** An expression need not start with '$'. */
  lemma RootIsOptional()
    ensures Tokenize(".a") == Success([Token("a", Property)])
  {
    NameEndAt(".a", 1, 2);
    assert ".a"[1..2] == "a";
    assert Step(".a", 0) == Success((Token("a", Property), 2));
    assert Scan(".a", 2) == Success([]);
    assert [Token("a", Property)] + [] == [Token("a", Property)];
  }

  /** A '$' inside a bracket is raw bracket text, not a misplaced root. */
  lemma DollarInsideBracket()
    ensures Tokenize("$[$]") == Success([RootToken, Token("$", BracketExpression)])
  {
    var s := "$[$]";
    DollarToken(s[0]);
    BracketEndAt(s, 2, 3);
    assert s[2..3] == "$";
    assert Step(s, 1) == Success((Token("$", BracketExpression), 4));
    assert Scan(s, 4) == Success([]);
    assert Scan(s, 1) == Success([Token("$", BracketExpression)] + []);
    assert [RootToken] + ([Token("$", BracketExpression)] + []) == [RootToken, Token("$", BracketExpression)];
  }

  /** Brackets do not nest: the text stops at the first ']' and the second ']' is unexpected. */
  lemma BracketsDoNotNest()
    ensures Tokenize("$[[a]]") == Failure(UnexpectedCharacter(5, ']'))
  {
  }
}
