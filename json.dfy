/**
 * An abstract JSON document, standing in for the navigable value the
 * document library hands to the evaluator.
 */
module Json {
  import opened Wrappers

  /** Numbers are kept as their literal text: the evaluator never inspects them. */
  datatype Json =
    | JNull
    | JBool(b: bool)
    | JNum(literal: string)
    | JStr(s: string)
    | JArr(elements: seq<Json>)
    | JObj(fields: seq<(string, Json)>)

  /** The kinds the evaluator distinguishes before it looks a field up. */
  predicate IsScalar(j: Json)
  {
    j.JNull? || j.JBool? || j.JNum? || j.JStr?
  }

  /** True when `k` is the first position of a field named `name`. */
  predicate FirstFieldAt(fields: seq<(string, Json)>, name: string, k: nat)
  {
    k < |fields| && fields[k].0 == name && forall m :: 0 <= m < k ==> fields[m].0 != name
  }

  /**
   * Field lookup on an object: the value of the first field with that key,
   * or None when no field has it.
   */
  function FindField(fields: seq<(string, Json)>, name: string): (r: Option<Json>)
    ensures r.None? <==> forall k :: 0 <= k < |fields| ==> fields[k].0 != name
    ensures r.Some? ==> exists k: nat :: FirstFieldAt(fields, name, k) && fields[k].1 == r.value
  {
    if fields == [] then None
    else if fields[0].0 == name then
      assert FirstFieldAt(fields, name, 0);
      Some(fields[0].1)
    else
      var r := FindField(fields[1..], name);
      if r.Some? then
        var k: nat :| FirstFieldAt(fields[1..], name, k) && fields[1..][k].1 == r.value;
        assert FirstFieldAt(fields, name, k + 1);
        r
      else
        r
  }
}
