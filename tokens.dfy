/** Tokens of a path expression and their textual rendering. */
module Tokens {

  datatype TokenType = Root | Property | BracketExpression

  /** A token: its text and its tag (the getters `get_content` / `get_type`). */
  datatype Token = Token(content: string, kind: TokenType)

  /** The character for a decimal digit. */
  function Digit(d: nat): (c: char)
    requires d < 10
    ensures '0' <= c <= '9' && c as int - '0' as int == d
  {
    ('0' as int + d) as char
  }

  predicate IsDigits(r: string)
  {
    forall k :: 0 <= k < |r| ==> '0' <= r[k] <= '9'
  }

  /** The number a string of decimal digits denotes. */
  function DecimalValue(r: string): nat
    requires IsDigits(r)
  {
    if r == [] then 0
    else DecimalValue(r[..|r| - 1]) * 10 + (r[|r| - 1] as int - '0' as int)
  }

  /**
   * The decimal text of a natural number, as `std::to_string` writes it:
   * non-empty, digits only, no leading zero, and denoting `n`.
   */
  function NatToDecimal(n: nat): (r: string)
    ensures |r| > 0 && IsDigits(r)
    ensures r[0] == '0' ==> n == 0 && |r| == 1
    ensures DecimalValue(r) == n
    decreases n
  {
    if n < 10 then [Digit(n)]
    else
      var high := NatToDecimal(n / 10);
      var r := high + [Digit(n % 10)];
      assert r[..|r| - 1] == high;
      r
  }

  /**
   * `std::to_string` applied to a `char`: the character is promoted to an
   * integer, so the text is its decimal code, not the character itself.
   */
  function CharCodeString(c: char): string
  {
    NatToDecimal(c as nat)
  }

  /** The token built by `Token(const char c, TokenType = Root)`. */
  function CharToken(c: char): (t: Token)
    ensures t.kind == Root
    ensures |t.content| > 0 && IsDigits(t.content) && DecimalValue(t.content) == c as nat
    ensures t.content[0] == '0' ==> c as nat == 0 && |t.content| == 1
  {
    Token(CharCodeString(c), Root)
  }

  /** The content of the Root token: the decimal code of '$'. */
  const RootContent: string := "36"

  /** The Root token the tokenizer emits for the '$' at index 0. */
  const RootToken: Token := Token(RootContent, Root)

  /** Characters a property name may hold (`std::isalpha` on ASCII, or '_'). */
  predicate IsNameChar(c: char)
  {
    ('a' <= c <= 'z') || ('A' <= c <= 'Z') || c == '_'
  }

  predicate IsName(s: string)
  {
    |s| > 0 && forall k :: 0 <= k < |s| ==> IsNameChar(s[k])
  }

  /** Raw bracket text: non-empty and free of ']'. */
  predicate IsBracketText(s: string)
  {
    |s| > 0 && forall k :: 0 <= k < |s| ==> s[k] != ']'
  }

  /**
   * What a tokenizer can produce for a token; `first` says whether it is the
   * token that starts at index 0 of the expression.
   */
  predicate ValidToken(t: Token, first: bool)
  {
    match t.kind
    case Root => first && t.content == RootContent
    case Property => IsName(t.content)
    case BracketExpression => IsBracketText(t.content)
  }

  /** Every token valid, and only the first may be Root. */
  predicate WellFormed(ts: seq<Token>)
  {
    forall k :: 0 <= k < |ts| ==> ValidToken(ts[k], k == 0)
  }

  /** The text a token was scanned from: `$`, `.name` or `[text]`. */
  function Render(t: Token): (r: string)
    ensures |r| > 0 && !IsNameChar(r[0]) && r[0] != ']'
  {
    match t.kind
    case Root => "$"
    case Property => "." + t.content
    case BracketExpression => "[" + t.content + "]"
  }

  function RenderAll(ts: seq<Token>): string
  {
    if ts == [] then [] else Render(ts[0]) + RenderAll(ts[1..])
  }

  lemma {:induction false} RenderAllAppend(a: seq<Token>, b: seq<Token>)
    ensures RenderAll(a + b) == RenderAll(a) + RenderAll(b)
    decreases |a|
  {
    if a != [] {
      assert (a + b)[1..] == a[1..] + b;
      RenderAllAppend(a[1..], b);
    } else {
      assert a + b == b;
    }
  }

  lemma RenderOne(t: Token)
    ensures RenderAll([t]) == Render(t)
  {
    assert [t][1..] == [];
  }

  /** The rendering of a non-empty token list starts with the first token's mark. */
  lemma RenderAllStart(ts: seq<Token>)
    requires ts != []
    ensures |RenderAll(ts)| > 0 && RenderAll(ts)[0] == Render(ts[0])[0]
  {
  }

  /** The token built from the character '$' is the Root token: its content is `std::to_string('$')`. */
  lemma DollarToken(c: char)
    requires c == '$'
    ensures CharToken(c) == RootToken
  {
    assert NatToDecimal(3) == ['3'];
    assert NatToDecimal(36) == ['3'] + ['6'];
  }
}
