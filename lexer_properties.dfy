/**
 * Properties of the tokenizer's specification: what a successful scan
 * produces, the round trip between tokens and text in both directions, and
 * the inputs on which the scan fails.
 */
module LexerProperties {
  import opened Wrappers
  import opened Tokens
  import opened Lexer

  // ---- The two greedy scans stop at the only place they can ----

  lemma NameEndAt(s: string, i: nat, e: nat)
    requires i <= e <= |s|
    requires forall k :: i <= k < e ==> IsNameChar(s[k])
    requires e < |s| ==> !IsNameChar(s[e])
    ensures NameEnd(s, i) == e
  {
  }

  lemma BracketEndAt(s: string, i: nat, e: nat)
    requires i <= e <= |s|
    requires forall k :: i <= k < e ==> s[k] != ']'
    requires e < |s| ==> s[e] == ']'
    ensures BracketEnd(s, i) == e
  {
  }

  // ---- Soundness: a successful scan yields valid tokens that spell the input ----

  /** A successful step reads one valid token whose rendering is exactly the text it consumed. */
  lemma StepSound(s: string, i: nat)
    requires i < |s| && Step(s, i).Success?
    ensures ValidToken(Step(s, i).value.0, i == 0)
    ensures s[i..Step(s, i).value.1] == Render(Step(s, i).value.0)
  {
    var (t, j) := Step(s, i).value;
    if s[i] == '$' {
      DollarToken(s[i]);
      assert s[i..j] == [s[i]];
    } else if s[i] == '.' {
      assert s[i..j] == [s[i]] + s[i + 1..j];
    } else {
      assert s[i..j] == [s[i]] + s[i + 1..j - 1] + [s[j - 1]];
    }
  }

  /** A successful scan is a successful step followed by a successful scan. */
  lemma ScanSuccessSplit(s: string, i: nat)
    requires i < |s| && Scan(s, i).Success?
    ensures Step(s, i).Success? && Scan(s, Step(s, i).value.1).Success?
    ensures Scan(s, i).value == [Step(s, i).value.0] + Scan(s, Step(s, i).value.1).value
  {
  }

  /** Text read up to `j` and text from `j` on make up the text from `i` on. */
  lemma JoinAt(s: string, i: nat, j: nat, x: string, y: string)
    requires i <= j <= |s| && s[i..j] == x && s[j..] == y
    ensures s[i..] == x + y
  {
    assert s[i..] == s[i..j] + s[j..];
  }

  /** A valid token in front of valid tokens that are not first gives valid tokens. */
  lemma ValidCons(t: Token, rest: seq<Token>, i: nat, j: nat)
    requires j > 0 && ValidToken(t, i == 0)
    requires forall k :: 0 <= k < |rest| ==> ValidToken(rest[k], j + k == 0)
    ensures forall k :: 0 <= k < |rest| + 1 ==> ValidToken(([t] + rest)[k], i + k == 0)
  {
    forall k | 0 <= k < |rest| + 1 ensures ValidToken(([t] + rest)[k], i + k == 0) {
      if k > 0 { assert ([t] + rest)[k] == rest[k - 1]; }
    }
  }

  lemma {:induction false} ScanSound(s: string, i: nat)
    requires i <= |s| && Scan(s, i).Success?
    ensures RenderAll(Scan(s, i).value) == s[i..]
    ensures forall k :: 0 <= k < |Scan(s, i).value| ==> ValidToken(Scan(s, i).value[k], i + k == 0)
    decreases |s| - i
  {
    if i < |s| {
      ScanSuccessSplit(s, i);
      var (t, j) := Step(s, i).value;
      StepSound(s, i);
      ScanSound(s, j);
      var rest := Scan(s, j).value;
      JoinAt(s, i, j, Render(t), RenderAll(rest));
      assert ([t] + rest)[1..] == rest;
      ValidCons(t, rest, i, j);
    }
  }

  /**
   * On success the tokens are well formed (every Property a non-empty name,
   * every BracketExpression non-empty text without ']', Root only first and
   * with content "36") and rendering them gives back the input exactly.
   */
  lemma TokenizeSound(s: string)
    requires Tokenize(s).Success?
    ensures WellFormed(Tokenize(s).value)
    ensures RenderAll(Tokenize(s).value) == s
  {
    ScanSound(s, 0);
  }

  /** A Root token comes only from a '$' at index 0, and such a '$' always yields one. */
  lemma TokenizeRootFirst(s: string)
    requires Tokenize(s).Success?
    ensures var ts := Tokenize(s).value;
      (|ts| > 0 && ts[0].kind == Root) <==> (|s| > 0 && s[0] == '$')
    ensures var ts := Tokenize(s).value;
      |s| > 0 && s[0] == '$' ==> ts[0] == RootToken
    ensures forall k :: 0 <= k < |Tokenize(s).value| && Tokenize(s).value[k].kind == Root ==> k == 0
  {
    TokenizeSound(s);
    var ts := Tokenize(s).value;
    if |ts| > 0 {
      RenderAllStart(ts);
    }
  }

  /** Token `k` of a list stands between the renderings of the tokens before and after it. */
  lemma RenderAllSplit(ts: seq<Token>, k: nat)
    requires k < |ts|
    ensures RenderAll(ts) == RenderAll(ts[..k]) + (Render(ts[k]) + RenderAll(ts[k + 1..]))
  {
    var rest := ts[k..];
    assert ts == ts[..k] + rest;
    RenderAllAppend(ts[..k], rest);
    assert rest[0] == ts[k] && rest[1..] == ts[k + 1..];
  }

  /** Each scanned token stands in the input at its place: after the text of the tokens before it. */
  lemma TokenAtItsPlace(s: string, ts: seq<Token>, k: nat)
    requires Tokenize(s) == Success(ts)
    requires k < |ts|
    ensures s == RenderAll(ts[..k]) + (Render(ts[k]) + RenderAll(ts[k + 1..]))
  {
    TokenizeSound(s);
    RenderAllSplit(ts, k);
  }

  /**
   * Property names are maximal: the input is the text before the token, then
   * '.' and the name, then a rest that does not start with a letter or '_'.
   */
  lemma PropertyNameMaximal(s: string, ts: seq<Token>, k: nat)
    requires Tokenize(s) == Success(ts)
    requires k < |ts| && ts[k].kind == Property
    ensures var rest := RenderAll(ts[k + 1..]);
      s == RenderAll(ts[..k]) + ("." + ts[k].content + rest) &&
      (rest == [] || !IsNameChar(rest[0]))
  {
    TokenAtItsPlace(s, ts, k);
    if k + 1 < |ts| {
      RenderAllStart(ts[k + 1..]);
    }
  }

  /**
   * Bracket texts stop at the first ']': the input is the text before the
   * token, then '[', the text (which holds no ']'), ']' and the rest.
   */
  lemma BracketTextUpToFirstClose(s: string, ts: seq<Token>, k: nat)
    requires Tokenize(s) == Success(ts)
    requires k < |ts| && ts[k].kind == BracketExpression
    ensures s == RenderAll(ts[..k]) + ("[" + ts[k].content + "]" + RenderAll(ts[k + 1..]))
    ensures IsBracketText(ts[k].content)
  {
    TokenAtItsPlace(s, ts, k);
    TokenizeSound(s);
  }

  // ---- Completeness: rendering a well-formed token list scans back to it ----

  /** At an index where the text of a valid token stands, the step reads exactly that token. */
  lemma StepRendered(s: string, i: nat, t: Token)
    requires ValidToken(t, i == 0)
    requires i + |Render(t)| <= |s| && s[i..i + |Render(t)|] == Render(t)
    requires i + |Render(t)| < |s| ==> !IsNameChar(s[i + |Render(t)|])
    ensures Step(s, i) == Success((t, i + |Render(t)|))
  {
    var c := t.content;
    var e := i + 1 + |c|;
    assert s[i] == Render(t)[0];
    match t.kind
    case Root =>
      DollarToken(s[i]);
    case Property =>
      forall k | i + 1 <= k < e ensures IsNameChar(s[k]) {
        assert s[k] == s[i..i + |Render(t)|][k - i] == c[k - i - 1];
      }
      NameEndAt(s, i + 1, e);
      assert s[i + 1..e] == s[i..e][1..];
    case BracketExpression =>
      forall k | i + 1 <= k < e ensures s[k] != ']' {
        assert s[k] == s[i..i + |Render(t)|][k - i] == c[k - i - 1];
      }
      assert s[e] == s[i..i + |Render(t)|][e - i];
      BracketEndAt(s, i + 1, e);
      forall k | 0 <= k < |c| ensures s[i + 1..e][k] == c[k] {
        assert s[i + 1 + k] == s[i..i + |Render(t)|][k + 1];
      }
      assert s[i + 1..e] == c;
  }

  /** Text known to follow index `i` splits there into its two parts. */
  lemma SplitAfter(s: string, i: nat, x: string, y: string)
    requires i <= |s| && s[i..] == x + y
    ensures i + |x| <= |s| && s[i..i + |x|] == x && s[i + |x|..] == y
    ensures y != [] ==> s[i + |x|] == y[0]
  {
    assert s[i..i + |x|] == s[i..][..|x|];
    assert s[i + |x|..] == s[i..][|x|..];
    if y != [] {
      assert s[i + |x|] == s[i..][|x|];
    }
  }

  /** Dropping the first token of a list of valid tokens leaves valid tokens, none of them first. */
  lemma ValidTail(ts: seq<Token>, i: nat, j: nat)
    requires ts != [] && j > 0
    requires forall k :: 0 <= k < |ts| ==> ValidToken(ts[k], i + k == 0)
    ensures forall k :: 0 <= k < |ts| - 1 ==> ValidToken(ts[1..][k], j + k == 0)
  {
    forall k | 0 <= k < |ts| - 1 ensures ValidToken(ts[1..][k], j + k == 0) {
      assert ts[1..][k] == ts[k + 1];
    }
  }

  /** Where the text of a token list stands in `s`, one step reads its first token, and the rest follows. */
  lemma StepRenderedHead(s: string, i: nat, ts: seq<Token>) returns (j: nat)
    requires i <= |s| && s[i..] == RenderAll(ts) && ts != []
    requires ValidToken(ts[0], i == 0)
    ensures i < j <= |s| && Step(s, i) == Success((ts[0], j)) && s[j..] == RenderAll(ts[1..])
  {
    SplitAfter(s, i, Render(ts[0]), RenderAll(ts[1..]));
    if ts[1..] != [] {
      RenderAllStart(ts[1..]);
    }
    StepRendered(s, i, ts[0]);
    j := i + |Render(ts[0])|;
  }

  /** A successful step followed by a successful scan is a successful scan. */
  lemma ScanAfterStep(s: string, i: nat, t: Token, j: nat, rest: seq<Token>)
    requires i < |s| && Step(s, i) == Success((t, j)) && Scan(s, j) == Success(rest)
    ensures Scan(s, i) == Success([t] + rest)
  {
  }

  lemma {:induction false} ScanRendered(s: string, i: nat, ts: seq<Token>)
    requires i <= |s| && s[i..] == RenderAll(ts)
    requires forall k :: 0 <= k < |ts| ==> ValidToken(ts[k], i + k == 0)
    ensures Scan(s, i) == Success(ts)
    decreases |ts|
  {
    if ts != [] {
      var j := StepRenderedHead(s, i, ts);
      ValidTail(ts, i, j);
      ScanRendered(s, j, ts[1..]);
      ScanAfterStep(s, i, ts[0], j, ts[1..]);
      assert [ts[0]] + ts[1..] == ts;
    }
  }

  /** The converse round trip: a well-formed token list renders to text that scans back to it. */
  lemma TokenizeRendered(ts: seq<Token>)
    requires WellFormed(ts)
    ensures Tokenize(RenderAll(ts)) == Success(ts)
  {
    ScanRendered(RenderAll(ts), 0, ts);
  }

  // ---- Scanning is compositional, which locates every failure ----

  /** A step that succeeds on `p` is unchanged by appending `q`, unless it is a name that `q` would extend. */
  lemma StepExtend(p: string, q: string, i: nat)
    requires i < |p| && Step(p, i).Success?
    requires Step(p, i).value.0.kind == Property && Step(p, i).value.1 == |p| ==>
             q == [] || !IsNameChar(q[0])
    ensures Step(p + q, i) == Step(p, i)
  {
    var s := p + q;
    assert s[i] == p[i];
    if p[i] == '.' {
      var e := NameEnd(p, i + 1);
      forall k | i + 1 <= k < e ensures IsNameChar(s[k]) { assert s[k] == p[k]; }
      if e < |p| { assert s[e] == p[e]; }
      else if e < |s| { assert s[e] == q[0]; }
      NameEndAt(s, i + 1, e);
      assert s[i + 1..e] == p[i + 1..e];
    } else if p[i] == '[' {
      var e := BracketEnd(p, i + 1);
      forall k | i + 1 <= k < e ensures s[k] != ']' { assert s[k] == p[k]; }
      assert s[e] == p[e];
      BracketEndAt(s, i + 1, e);
      assert s[i + 1..e] == p[i + 1..e];
    }
  }

  /** `q` may follow the tokens `ts` of `p` without merging into the last of them. */
  predicate Joinable(ts: seq<Token>, q: string)
  {
    q == [] || !IsNameChar(q[0]) || ts == [] || ts[|ts| - 1].kind != Property
  }

  lemma {:induction false} ScanPrefix(p: string, q: string, i: nat)
    requires i <= |p| && Scan(p, i).Success?
    requires Joinable(Scan(p, i).value, q)
    ensures Scan(p + q, i) == PrependTokens(Scan(p, i).value, Scan(p + q, |p|))
    decreases |p| - i
  {
    if i == |p| {
      PrependNothing(Scan(p + q, |p|));
    } else {
      var (t, j) := Step(p, i).value;
      var rest := Scan(p, j).value;
      assert Scan(p, i).value == [t] + rest;
      if t.kind == Property && j == |p| {
        assert rest == [];
        assert Scan(p, i).value == [t];
      }
      StepExtend(p, q, i);
      if rest != [] {
        assert Scan(p, i).value[|Scan(p, i).value| - 1] == rest[|rest| - 1];
      }
      ScanPrefix(p, q, j);
      PrependTwice([t], rest, Scan(p + q, |p|));
    }
  }

  /** Composition at the top level: tokenizing `p + q` starts with the tokens of `p`. */
  lemma TokenizePrefix(p: string, q: string)
    requires Tokenize(p).Success? && Joinable(Tokenize(p).value, q)
    ensures Tokenize(p + q) == PrependTokens(Tokenize(p).value, Scan(p + q, |p|))
  {
    ScanPrefix(p, q, 0);
  }

  /** A step that fails right after a tokenizable prefix makes the whole expression fail with its error. */
  lemma FailsAfterPrefix(p: string, q: string, e: LexError)
    requires Tokenize(p).Success? && Joinable(Tokenize(p).value, q) && q != []
    requires Step(p + q, |p|) == Failure(e)
    ensures Tokenize(p + q) == Failure(e)
  {
    TokenizePrefix(p, q);
  }

  /** The first two characters of the text after a prefix. */
  lemma CharsAfter(p: string, q: string)
    requires |q| > 0
    ensures (p + q)[|p|] == q[0]
    ensures |q| > 1 ==> (p + q)[|p| + 1] == q[1]
  {
  }

  /** A '$' after a non-empty tokenizable prefix is rejected at its own index. */
  lemma DollarAfterPrefixFails(p: string, q: string)
    requires |p| > 0 && Tokenize(p).Success?
    ensures Tokenize(p + "$" + q) == Failure(RootNotAtStart(|p|))
  {
    assert p + "$" + q == p + ("$" + q);
    CharsAfter(p, "$" + q);
    FailsAfterPrefix(p, "$" + q, RootNotAtStart(|p|));
  }

  lemma StepEmptyProperty(s: string, i: nat)
    requires i < |s| && s[i] == '.'
    requires i + 1 < |s| ==> !IsNameChar(s[i + 1])
    ensures Step(s, i) == Failure(EmptyPropertyName(i))
  {
    NameEndAt(s, i + 1, i + 1);
  }

  /** A '.' not followed by a letter or '_' is an empty property name. */
  lemma EmptyPropertyFails(p: string, q: string)
    requires Tokenize(p).Success?
    requires q == [] || !IsNameChar(q[0])
    ensures Tokenize(p + "." + q) == Failure(EmptyPropertyName(|p|))
  {
    var s := p + ("." + q);
    assert p + "." + q == s;
    CharsAfter(p, "." + q);
    StepEmptyProperty(s, |p|);
    FailsAfterPrefix(p, "." + q, EmptyPropertyName(|p|));
  }

  lemma StepUnterminatedBracket(s: string, i: nat)
    requires i < |s| && s[i] == '['
    requires forall k :: i < k < |s| ==> s[k] != ']'
    ensures Step(s, i) == Failure(UnterminatedBracket(i))
  {
    BracketEndAt(s, i + 1, |s|);
  }

  /** A '[' with no ']' anywhere after it is unterminated, even when nothing follows it. */
  lemma UnterminatedBracketFails(p: string, q: string)
    requires Tokenize(p).Success?
    requires forall k :: 0 <= k < |q| ==> q[k] != ']'
    ensures Tokenize(p + "[" + q) == Failure(UnterminatedBracket(|p|))
  {
    var s := p + ("[" + q);
    assert p + "[" + q == s;
    CharsAfter(p, "[" + q);
    forall k | |p| < k < |s| ensures s[k] != ']' {
      assert s[k] == q[k - |p| - 1];
    }
    StepUnterminatedBracket(s, |p|);
    FailsAfterPrefix(p, "[" + q, UnterminatedBracket(|p|));
  }

  lemma StepEmptyBracket(s: string, i: nat)
    requires i + 1 < |s| && s[i] == '[' && s[i + 1] == ']'
    ensures Step(s, i) == Failure(EmptyBracketExpression(i))
  {
    BracketEndAt(s, i + 1, i + 1);
  }

  /** "[]" is an empty bracket expression. */
  lemma EmptyBracketFails(p: string, q: string)
    requires Tokenize(p).Success?
    ensures Tokenize(p + "[]" + q) == Failure(EmptyBracketExpression(|p|))
  {
    var s := p + ("[]" + q);
    assert p + "[]" + q == s;
    CharsAfter(p, "[]" + q);
    StepEmptyBracket(s, |p|);
    FailsAfterPrefix(p, "[]" + q, EmptyBracketExpression(|p|));
  }

  /**
   * Any other character at the top level is rejected with its index and
   * value. (A letter or '_' right after a property name is part of the name.)
   */
  lemma UnexpectedCharacterFails(p: string, c: char, q: string)
    requires Tokenize(p).Success?
    requires c != '$' && c != '.' && c != '['
    requires Joinable(Tokenize(p).value, [c])
    ensures Tokenize(p + [c] + q) == Failure(UnexpectedCharacter(|p|, c))
  {
    var s := p + ([c] + q);
    assert p + [c] + q == s;
    CharsAfter(p, [c] + q);
    FailsAfterPrefix(p, [c] + q, UnexpectedCharacter(|p|, c));
  }

  /** The empty expression has no tokens. */
  lemma TokenizeEmpty()
    ensures Tokenize("") == Success([])
  {
  }
}
