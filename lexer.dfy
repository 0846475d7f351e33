/**
 * The tokenizer: one left-to-right pass over a path expression. The pure
 * functions below are the specification of the scan; the class `Tokenizer`
 * is the scanner itself, with its cursor `index`.
 */
module Lexer {
  import opened Wrappers
  import opened Tokens

  /** Syntax errors, each with the index of the character that starts the offending token. */
  datatype LexError =
    | RootNotAtStart(index: nat)           // a '$' anywhere but index 0
    | EmptyPropertyName(index: nat)        // '.' not followed by a letter or '_'
    | UnterminatedBracket(index: nat)      // '[' with no later ']'
    | EmptyBracketExpression(index: nat)   // "[]"
    | UnexpectedCharacter(index: nat, c: char)

  /** The end of the greedy run of name characters starting at `i`. */
  function NameEnd(s: string, i: nat): (j: nat)
    requires i <= |s|
    ensures i <= j <= |s|
    ensures forall k :: i <= k < j ==> IsNameChar(s[k])
    ensures j < |s| ==> !IsNameChar(s[j])
    decreases |s| - i
  {
    if i < |s| && IsNameChar(s[i]) then NameEnd(s, i + 1) else i
  }

  /** The index of the first ']' at or after `i`, or |s| when there is none. */
  function BracketEnd(s: string, i: nat): (j: nat)
    requires i <= |s|
    ensures i <= j <= |s|
    ensures forall k :: i <= k < j ==> s[k] != ']'
    ensures j < |s| ==> s[j] == ']'
    decreases |s| - i
  {
    if i < |s| && s[i] != ']' then BracketEnd(s, i + 1) else i
  }

  /**
   * One iteration of the scanning loop at index `i`: the token read there and
   * the index after it, or the error that stops the scan.
   */
  function Step(s: string, i: nat): (r: Result<(Token, nat), LexError>)
    requires i < |s|
    ensures r.Success? ==> i < r.value.1 <= |s|
  {
    if s[i] == '$' then
      if i != 0 then Failure(RootNotAtStart(i)) else Success((CharToken(s[i]), i + 1))
    else if s[i] == '.' then
      var e := NameEnd(s, i + 1);
      if e == i + 1 then Failure(EmptyPropertyName(i))
      else Success((Token(s[i + 1..e], Property), e))
    else if s[i] == '[' then
      var e := BracketEnd(s, i + 1);
      if e == |s| then Failure(UnterminatedBracket(i))
      else if e == i + 1 then Failure(EmptyBracketExpression(i))
      else Success((Token(s[i + 1..e], BracketExpression), e + 1))
    else
      Failure(UnexpectedCharacter(i, s[i]))
  }

  /** `ts` put in front of the tokens of a successful scan. */
  function PrependTokens(ts: seq<Token>, r: Result<seq<Token>, LexError>): Result<seq<Token>, LexError>
  {
    match r
    case Success(rest) => Success(ts + rest)
    case Failure(e) => Failure(e)
  }

  lemma PrependNothing(r: Result<seq<Token>, LexError>)
    ensures PrependTokens([], r) == r
  {
    if r.Success? { assert [] + r.value == r.value; }
  }

  lemma PrependTwice(a: seq<Token>, b: seq<Token>, r: Result<seq<Token>, LexError>)
    ensures PrependTokens(a, PrependTokens(b, r)) == PrependTokens(a + b, r)
  {
    if r.Success? { assert a + (b + r.value) == (a + b) + r.value; }
  }

  /** The list `ts` extended with the token of a successful step. */
  function AppendStep(ts: seq<Token>, r: Result<(Token, nat), LexError>): Result<seq<Token>, LexError>
  {
    match r
    case Success((t, _)) => Success(ts + [t])
    case Failure(e) => Failure(e)
  }

  /** The tokens of `s` from index `i` to the end, or the first error. */
  function Scan(s: string, i: nat): Result<seq<Token>, LexError>
    requires i <= |s|
    decreases |s| - i
  {
    if i == |s| then Success([])
    else
      match Step(s, i)
      case Failure(e) => Failure(e)
      case Success((t, j)) => PrependTokens([t], Scan(s, j))
  }

  /** The tokens of a whole expression. */
  function Tokenize(s: string): Result<seq<Token>, LexError>
  {
    Scan(s, 0)
  }

  class Tokenizer {
    const source: string
    var index: nat

    ghost predicate Valid()
      reads this
    {
      index <= |source|
    }

    constructor (source: string)
      ensures Valid() && this.source == source && index == 0
    {
      this.source := source;
      index := 0;
    }

    method Consume() returns (c: char)
      requires Valid() && index < |source|
      modifies this
      ensures Valid() && c == source[old(index)] && index == old(index) + 1
    {
      c := source[index];
      index := index + 1;
    }

    /** The lookahead character; past the end it is the string's terminating NUL. */
    function Peak(): (c: char)
      reads this
      requires Valid()
      ensures index < |source| ==> c == source[index]
      ensures index == |source| ==> c == '\0'
    {
      if index < |source| then source[index] else '\0'
    }

    function Eof(): (b: bool)
      reads this
      ensures b <==> index >= |source|
    {
      index >= |source|
    }

    method TryConsumeRoot(tokens: seq<Token>) returns (r: Result<seq<Token>, LexError>)
      requires Valid() && index < |source| && source[index] == '$'
      modifies this
      ensures Valid()
      ensures r == AppendStep(tokens, Step(source, old(index)))
      ensures index == if r.Success? then Step(source, old(index)).value.1 else old(index)
    {
      if index != 0 {
        return Failure(RootNotAtStart(index));
      }
      var c := Consume();
      r := Success(tokens + [CharToken(c)]);
    }

    method TryConsumeProperty(tokens: seq<Token>) returns (r: Result<seq<Token>, LexError>)
      requires Valid() && index < |source| && source[index] == '.'
      modifies this
      ensures Valid()
      ensures r == AppendStep(tokens, Step(source, old(index)))
      ensures index == if r.Success? then Step(source, old(index)).value.1 else old(index) + 1
    {
      var start := index;
      var _ := Consume();
      var name := "";
      while !Eof() && (IsNameChar(Peak()))
        invariant Valid() && start + 1 <= index
        invariant name == source[start + 1..index]
        invariant forall k :: start + 1 <= k < index ==> IsNameChar(source[k])
        decreases |source| - index
      {
        var c := Consume();
        name := name + [c];
      }
      assert index == NameEnd(source, start + 1);
      if name == "" {
        return Failure(EmptyPropertyName(start));
      }
      r := Success(tokens + [Token(name, Property)]);
    }

    method TryConsumeBracketExpression(tokens: seq<Token>) returns (r: Result<seq<Token>, LexError>)
      requires Valid() && index < |source| && source[index] == '['
      modifies this
      ensures Valid()
      ensures r == AppendStep(tokens, Step(source, old(index)))
      ensures index == if r.Success? then Step(source, old(index)).value.1
                       else BracketEnd(source, old(index) + 1)
    {
      var start := index;
      var _ := Consume();
      var expr := "";
      while !Eof() && Peak() != ']'
        invariant Valid() && start + 1 <= index
        invariant expr == source[start + 1..index]
        invariant forall k :: start + 1 <= k < index ==> source[k] != ']'
        decreases |source| - index
      {
        var c := Consume();
        expr := expr + [c];
      }
      assert index == BracketEnd(source, start + 1);
      // At the end of input the lookahead is the terminating NUL, not ']'.
      if Peak() != ']' {
        return Failure(UnterminatedBracket(start));
      }
      if expr == "" {
        return Failure(EmptyBracketExpression(start));
      }
      var _ := Consume();
      r := Success(tokens + [Token(expr, BracketExpression)]);
    }

    /** The whole scan from the current index: the tokens, or the first syntax error. */
    method GetTokens() returns (r: Result<seq<Token>, LexError>)
      requires Valid()
      modifies this
      ensures Valid()
      ensures r == Scan(source, old(index))
      ensures r.Success? ==> index == |source|
    {
      var tokens: seq<Token> := [];
      PrependNothing(Scan(source, index));
      while !Eof()
        invariant Valid()
        invariant Scan(source, old(index)) == PrependTokens(tokens, Scan(source, index))
        decreases |source| - index
      {
        var c := Peak();
        var step: Result<seq<Token>, LexError>;
        if c == '$' {
          step := TryConsumeRoot(tokens);
        } else if c == '.' {
          step := TryConsumeProperty(tokens);
        } else if c == '[' {
          step := TryConsumeBracketExpression(tokens);
        } else {
          return Failure(UnexpectedCharacter(index, c));
        }
        if step.Failure? {
          return Failure(step.error);
        }
        PrependTwice(tokens, [step.value[|step.value| - 1]], Scan(source, index));
        tokens := step.value;
      }
      assert tokens + [] == tokens;
      r := Success(tokens);
    }
  }
}
