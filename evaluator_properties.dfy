/**
 * Properties of the evaluator: a list of Root/Property tokens selects the
 * value at the path of field names it spells, and any other list fails.
 */
module EvaluatorProperties {
  import opened Wrappers
  import opened Json
  import opened Tokens
  import opened Evaluator

  /** The value reached by following a chain of nested object fields. */
  function SelectPath(node: Json, names: seq<string>): Option<Json>
    decreases |names|
  {
    if names == [] then Some(node)
    else
      match node
      case JObj(fields) =>
        (match FindField(fields, names[0])
         case Some(v) => SelectPath(v, names[1..])
         case None => None)
      case _ => None
  }

  /** Token `k` of a list may appear in a path: a Property, or the Root at index 0. */
  predicate PathToken(ts: seq<Token>, k: nat)
    requires k < |ts|
  {
    ts[k].kind == Property || (ts[k].kind == Root && k == 0)
  }

  /** Every token from index `i` on may appear in a path. */
  predicate PathFrom(ts: seq<Token>, i: nat)
  {
    forall k :: i <= k < |ts| ==> PathToken(ts, k)
  }

  /** The field names a path spells, in order. */
  function PathNames(ts: seq<Token>): seq<string>
  {
    if ts == [] then []
    else (if ts[0].kind == Property then [ts[0].content] else []) + PathNames(ts[1..])
  }

  lemma {:induction false} SelectPathAppend(node: Json, a: seq<string>, b: seq<string>)
    ensures SelectPath(node, a + b) ==
            match SelectPath(node, a)
            case Some(v) => SelectPath(v, b)
            case None => None
    decreases |a|
  {
    if a == [] {
      assert a + b == b;
    } else {
      assert (a + b)[0] == a[0];
      assert (a + b)[1..] == a[1..] + b;
      if node.JObj? {
        var found := FindField(node.fields, a[0]);
        if found.Some? {
          SelectPathAppend(found.value, a[1..], b);
        }
      }
    }
  }

  /** One Property step, case by case, against the field list itself. */
  lemma PropertyStepCases(cur: Json, name: string)
    ensures IsScalar(cur) ==> PropertyStep(cur, name) == Failure(PropertyOfScalar(name))
    ensures cur.JArr? ==> PropertyStep(cur, name) == Failure(PropertyOfArray(name))
    ensures cur.JObj? && (forall k :: 0 <= k < |cur.fields| ==> cur.fields[k].0 != name) ==>
            PropertyStep(cur, name) == Failure(NoSuchField(name))
    ensures cur.JObj? && PropertyStep(cur, name).Success? ==>
            exists k: nat :: FirstFieldAt(cur.fields, name, k) && cur.fields[k].1 == PropertyStep(cur, name).value
    ensures cur.JObj? && (exists k: nat :: FirstFieldAt(cur.fields, name, k)) ==> PropertyStep(cur, name).Success?
  {
  }

  /** The names of a path suffix: the first token's name, if it is a Property, then the rest. */
  lemma PathNamesFrom(ts: seq<Token>, i: nat)
    requires i < |ts|
    ensures PathNames(ts[i..]) ==
            (if ts[i].kind == Property then [ts[i].content] else []) + PathNames(ts[i + 1..])
  {
    assert ts[i..][1..] == ts[i + 1..];
  }

  /** Following one name and then the rest. */
  lemma SelectPathCons(node: Json, name: string, rest: seq<string>)
    ensures SelectPath(node, [name] + rest) ==
            if PropertyStep(node, name).Success? then SelectPath(PropertyStep(node, name).value, rest) else None
  {
    assert ([name] + rest)[0] == name;
    assert ([name] + rest)[1..] == rest;
  }

  /**
   * Over a path suffix, the walk succeeds exactly when the path exists, with
   * the value at the path, and otherwise fails with a property error.
   */
  lemma {:induction false} EvalFromPath(ts: seq<Token>, i: nat, cur: Json)
    requires i <= |ts| && PathFrom(ts, i)
    ensures EvalFrom(ts, i, cur).ToOption() == SelectPath(cur, PathNames(ts[i..]))
    ensures EvalFrom(ts, i, cur).Failure? ==>
            EvalFrom(ts, i, cur).error.PropertyOfScalar? ||
            EvalFrom(ts, i, cur).error.PropertyOfArray? ||
            EvalFrom(ts, i, cur).error.NoSuchField?
    decreases |ts| - i
  {
    if i < |ts| {
      assert PathToken(ts, i);
      PathNamesFrom(ts, i);
      var rest := PathNames(ts[i + 1..]);
      if ts[i].kind == Root {
        assert [] + rest == rest;
        EvalFromPath(ts, i + 1, cur);
      } else {
        SelectPathCons(cur, ts[i].content, rest);
        match PropertyStep(cur, ts[i].content)
        case Success(next) =>
          EvalFromPath(ts, i + 1, next);
        case Failure(_) =>
      }
    }
  }

  /** A walk that succeeds passed only Property tokens and a leading Root. */
  lemma {:induction false} EvalFromSuccessIsPath(ts: seq<Token>, i: nat, cur: Json)
    requires EvalFrom(ts, i, cur).Success?
    ensures PathFrom(ts, i)
    decreases |ts| - i
  {
    if i < |ts| {
      match ts[i].kind
      case Root =>
        EvalFromSuccessIsPath(ts, i + 1, cur);
      case Property =>
        EvalFromSuccessIsPath(ts, i + 1, PropertyStep(cur, ts[i].content).value);
      case BracketExpression =>
    }
  }

  /**
   * The whole evaluator: a token list selects a node exactly when it is a
   * path (Property tokens after an optional leading Root) and the document
   * has that chain of nested fields; the node is the value at the chain's end.
   */
  lemma EvaluateSelectsPath(ts: seq<Token>, doc: Json)
    ensures Evaluate(ts, doc).ToOption() ==
            if PathFrom(ts, 0) then SelectPath(doc, PathNames(ts)) else None
  {
    if PathFrom(ts, 0) {
      EvalFromPath(ts, 0, doc);
      assert ts[0..] == ts;
    } else if Evaluate(ts, doc).Success? {
      EvalFromSuccessIsPath(ts, 0, doc);
    }
  }

  /** The empty token list selects the whole document. */
  lemma EvaluateEmpty(doc: Json)
    ensures Evaluate([], doc) == Success(doc)
  {
  }

  /** Walking a path prefix that exists lands on its value and continues from there. */
  lemma {:induction false} EvalFromPrefix(ts: seq<Token>, i: nat, j: nat, cur: Json)
    requires i <= j <= |ts|
    requires forall k :: i <= k < j ==> PathToken(ts, k)
    requires SelectPath(cur, PathNames(ts[i..j])).Some?
    ensures EvalFrom(ts, i, cur) == EvalFrom(ts, j, SelectPath(cur, PathNames(ts[i..j])).value)
    decreases j - i
  {
    if i < j {
      assert PathToken(ts, i);
      assert ts[i..j][1..] == ts[i + 1..j];
      var rest := PathNames(ts[i + 1..j]);
      if ts[i].kind == Root {
        assert PathNames(ts[i..j]) == [] + rest == rest;
        EvalFromPrefix(ts, i + 1, j, cur);
      } else {
        var name := ts[i].content;
        assert PathNames(ts[i..j]) == [name] + rest;
        assert ([name] + rest)[1..] == rest;
        EvalFromPrefix(ts, i + 1, j, PropertyStep(cur, name).value);
      }
    } else {
      assert ts[i..j] == [];
    }
  }

  /** A bracket expression reached after an existing path aborts evaluation. */
  lemma EvaluateBracketAborts(ts: seq<Token>, k: nat, doc: Json)
    requires k < |ts| && ts[k].kind == BracketExpression
    requires forall m :: 0 <= m < k ==> PathToken(ts, m)
    requires SelectPath(doc, PathNames(ts[..k])).Some?
    ensures Evaluate(ts, doc) == Failure(BracketNotImplemented(ts[k].content))
  {
    assert ts[0..k] == ts[..k];
    EvalFromPrefix(ts, 0, k, doc);
  }

  /** A Root token after an existing non-empty path is rejected with its token index. */
  lemma EvaluateMisplacedRoot(ts: seq<Token>, k: nat, doc: Json)
    requires 0 < k < |ts| && ts[k].kind == Root
    requires forall m :: 0 <= m < k ==> PathToken(ts, m)
    requires SelectPath(doc, PathNames(ts[..k])).Some?
    ensures Evaluate(ts, doc) == Failure(MisplacedRoot(k))
  {
    assert ts[0..k] == ts[..k];
    EvalFromPrefix(ts, 0, k, doc);
  }

  /** Any bracket expression anywhere in the list makes evaluation fail. */
  lemma EvaluateWithBracketFails(ts: seq<Token>, k: nat, doc: Json)
    requires k < |ts| && ts[k].kind == BracketExpression
    ensures Evaluate(ts, doc).Failure?
  {
    assert !PathFrom(ts, 0) by {
      assert !PathToken(ts, k);
    }
    EvaluateSelectsPath(ts, doc);
  }
}
