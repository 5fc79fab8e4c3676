/**
 * The rewrite rule a route hands to WordPress (WP_Route.class.php:193-218):
 * `index.php?` followed by one `name=value` pair per query variable, in
 * order, and a last pair naming the route. `pregIndex` is WordPress's
 * `$wp_rewrite->preg_index`, which turns a capture-group number into the
 * placeholder the dispatcher substitutes.
 */
module Rewrite {
  import opened Php
  import opened Text

  /** `WP_Route::QUERY_VAR`, the query variable that carries the route id. */
  const QUERY_VAR := "WP_Route"

  const PREFIX := "index.php?"

  /** The pairs `foreach ($this->query_vars as $var => $value)` visits; none for a non-array. */
  function Entries(v: Value): seq<(Key, Value)> {
    if v.Arr? then v.entries else []
  }

  /** The right-hand side of a pair: a capture-group placeholder for an integer, the value as a string otherwise. */
  function ValueText(v: Value, pregIndex: int -> string): string {
    if v.Int? then pregIndex(v.i) else ToString(v)
  }

  /** The loop of `generate_rewrite` (WP_Route.class.php:208-214), one pair per entry. */
  function Pairs(es: seq<(Key, Value)>, pregIndex: int -> string): seq<string>
    decreases |es|
  {
    if es == [] then []
    else Pairs(es[..|es| - 1], pregIndex) + [KeyToString(es[|es| - 1].0) + "=" + ValueText(es[|es| - 1].1, pregIndex)]
  }

  /** `generate_rewrite` (WP_Route.class.php:205-218): the rule for the given query variables and id. */
  function Rule(queryVars: Value, id: Value, pregIndex: int -> string): string {
    PREFIX + Join('&', Pairs(Entries(queryVars), pregIndex) + [QUERY_VAR + "=" + ToString(id)])
  }

  lemma {:induction false} PairsAt(es: seq<(Key, Value)>, pregIndex: int -> string, k: nat)
    requires k < |es|
    ensures |Pairs(es, pregIndex)| == |es|
    ensures Pairs(es, pregIndex)[k] == KeyToString(es[k].0) + "=" + ValueText(es[k].1, pregIndex)
    decreases |es|
  {
    PairsLength(es, pregIndex);
    if k < |es| - 1 {
      PairsAt(es[..|es| - 1], pregIndex, k);
    }
  }

  lemma {:induction false} PairsLength(es: seq<(Key, Value)>, pregIndex: int -> string)
    ensures |Pairs(es, pregIndex)| == |es|
    decreases |es|
  {
    if es != [] {
      PairsLength(es[..|es| - 1], pregIndex);
    }
  }

  /** No variable name or value text contains the pair separator. */
  predicate Separable(queryVars: Value, id: Value, pregIndex: int -> string) {
    && (forall e :: e in Entries(queryVars) ==> '&' !in KeyToString(e.0) && '&' !in ValueText(e.1, pregIndex))
    && '&' !in ToString(id)
  }

  /**
   * The rule reads back: it starts with `index.php?`, and when no name or
   * value contains `&`, splitting the rest at `&` yields exactly one
   * `name=value` piece per query variable, in order, then `WP_Route=<id>`.
   */
  lemma RuleParses(queryVars: Value, id: Value, pregIndex: int -> string)
    requires Separable(queryVars, id, pregIndex)
    ensures var r := Rule(queryVars, id, pregIndex);
      var es := Entries(queryVars);
      var pieces := Split('&', r[|PREFIX|..]);
      && |r| >= |PREFIX| && r[..|PREFIX|] == PREFIX
      && |pieces| == |es| + 1
      && (forall k :: 0 <= k < |es| ==> pieces[k] == KeyToString(es[k].0) + "=" + ValueText(es[k].1, pregIndex))
      && pieces[|es|] == QUERY_VAR + "=" + ToString(id)
  {
    var es := Entries(queryVars);
    var parts := Pairs(es, pregIndex) + [QUERY_VAR + "=" + ToString(id)];
    PairsLength(es, pregIndex);
    forall k | 0 <= k < |parts| ensures '&' !in parts[k] {
      if k < |es| {
        PairsAt(es, pregIndex, k);
        assert es[k] in es;
        assert parts[k] == KeyToString(es[k].0) + "=" + ValueText(es[k].1, pregIndex);
      }
    }
    SplitJoin('&', parts);
    var r := Rule(queryVars, id, pregIndex);
    assert r[|PREFIX|..] == Join('&', parts);
    forall k | 0 <= k < |es|
      ensures parts[k] == KeyToString(es[k].0) + "=" + ValueText(es[k].1, pregIndex)
    {
      PairsAt(es, pregIndex, k);
    }
  }

  /**
   * Id `my_route` with query variables `x => 1, y => 'z'` gives
   * `index.php?x=<placeholder 1>&y=z&WP_Route=my_route`.
   */
  lemma RuleExample(pregIndex: int -> string)
    ensures Rule(Arr([(StrKey("x"), Int(1)), (StrKey("y"), Str("z"))]), Str("my_route"), pregIndex)
      == "index.php?x=" + pregIndex(1) + "&y=z&WP_Route=my_route"
  {
    var es := [(StrKey("x"), Int(1)), (StrKey("y"), Str("z"))];
    var a := pregIndex(1);
    var p1, p2, p3 := "x" + "=" + a, "y" + "=" + "z", "WP_Route" + "=" + "my_route";
    assert es[..1] == [(StrKey("x"), Int(1))] && es[..1][..0] == [];
    assert Pairs(es, pregIndex) == [p1, p2];
    var parts := [p1, p2, p3];
    assert parts[1..] == [p2, p3] && parts[1..][1..] == [p3];
    assert Join('&', [p3]) == p3;
    assert Join('&', [p2, p3]) == p2 + "&" + p3;
    assert Join('&', parts) == p1 + "&" + (p2 + "&" + p3);
    assert Pairs(Entries(Arr(es)), pregIndex) + [QUERY_VAR + "=" + ToString(Str("my_route"))] == parts;
    assert Rule(Arr(es), Str("my_route"), pregIndex) == "index.php?" + (p1 + "&" + (p2 + "&" + p3));
    ExampleText(a);
  }

  /** Helper: the string concatenation behind `RuleExample`. */
  lemma ExampleText(a: string)
    ensures "index.php?" + ("x" + "=" + a + "&" + ("y" + "=" + "z" + "&" + ("WP_Route" + "=" + "my_route")))
      == "index.php?x=" + a + "&y=z&WP_Route=my_route"
  {
    assert "y" + "=" + "z" + "&" + ("WP_Route" + "=" + "my_route") == "y=z&WP_Route=my_route";
    assert "x" + "=" == "x=";
  }
}
