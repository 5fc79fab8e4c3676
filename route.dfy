/**
 * `WP_Route` (WP_Route.class.php:8-230) as a mutable object: its declared
 * fields, its extension map, construction, `set`, the argument-resolution
 * loop and the rewrite-rule builder. Each method is proved against the
 * functions of modules Store, Dispatch and Rewrite; `Snapshot` is the
 * object's state as a Store.State value.
 */
module Routes {
  import opened Wrappers
  import opened Php
  import opened Store
  import Dispatch
  import Rewrite
  import Text

  class Route {
    var id: Value
    var path: Value
    var queryVars: Value
    var wpRewrite: Value
    var title: Value
    var titleCallback: Value
    var titleArguments: Value
    var pageCallback: Value
    var pageArguments: Value
    var accessCallback: Value
    var accessArguments: Value
    var template: Value
    var properties: map<string, Value>

    /** The object's fields as a value. */
    function Snapshot(): State
      reads this
    {
      State(
        Fields(id, path, queryVars, wpRewrite, title, titleCallback, titleArguments,
               pageCallback, pageArguments, accessCallback, accessArguments, template),
        properties)
    }

    /** The invariant of a constructed route. */
    ghost predicate Valid()
      reads this
    {
      Store.Valid(Snapshot())
    }

    /** The field initialisers (WP_Route.class.php:11-23), before the constructor's body runs. */
    constructor Blank()
      ensures Snapshot() == Defaults()
    {
      id, path, queryVars, wpRewrite := Str(""), Str(""), Arr([]), Str("");
      title, titleCallback, titleArguments := Str(""), Str("__"), Arr([(IntKey(0), Str(""))]);
      pageCallback, pageArguments := Str(""), Arr([]);
      accessCallback, accessArguments := Bool(true), Arr([]);
      template := Str("");
      properties := map[];
    }

    /**
     * `new WP_Route($id, $properties)` (WP_Route.class.php:33-50): the new
     * route, or the exception its constructor throws.
     */
    static method New(routeId: Value, config: seq<(string, Value)>) returns (r: Result<Route, Error>)
      requires AllAddressable(config) && DistinctKeys(config)
      ensures r.Success? <==> Construct(routeId, config).Success?
      ensures r.Success? ==> fresh(r.value) && r.value.Valid()
      ensures r.Success? ==> r.value.Snapshot() == Construct(routeId, config).value
      ensures r.Success? ==> Get(r.value.Snapshot(), "path") == Success(ConfigValue(config, "path"))
      ensures r.Failure? ==> r.error == Construct(routeId, config).error
    {
      var route := new Route.Blank();
      var o := route.Set("id", routeId);
      if o.Fail? {
        return Failure(o.error);
      }
      if !Truthy(ConfigValue(config, "path")) {
        return Failure(MissingField("path"));
      }
      if !Truthy(ConfigValue(config, "page_callback")) {
        return Failure(MissingField("page_callback"));
      }
      o := route.SetAll(config);
      if o.Fail? {
        return Failure(o.error);
      }
      if Truthy(route.accessArguments) && Truthy(ConfigValue(config, "access_callback")) {
        OverrideSucceeds(route.Snapshot());
        o := route.Set("access_callback", Str(CAPABILITY_CHECK));
      }
      ConstructValid(routeId, config);
      return Success(route);
    }

    /**
     * The constructor's loop `foreach ($properties as $property => $value)
     * $this->set($property, $value)` (WP_Route.class.php:42-44): the entries
     * in order, stopping at the first refused one.
     */
    method SetAll(config: seq<(string, Value)>) returns (o: Outcome<Error>)
      requires AllAddressable(config)
      modifies this
      ensures o.Pass? <==> ApplyAll(old(Snapshot()), config).Success?
      ensures o.Pass? ==> Snapshot() == ApplyAll(old(Snapshot()), config).value
      ensures o.Fail? ==> o.error == ApplyAll(old(Snapshot()), config).error
    {
      ghost var s0 := Snapshot();
      var i := 0;
      while i < |config|
        invariant 0 <= i <= |config|
        invariant AllAddressable(config[..i])
        invariant ApplyAll(s0, config[..i]) == Success(Snapshot())
      {
        assert config[..i + 1][..i] == config[..i];
        o := Set(config[i].0, config[i].1);
        if o.Fail? {
          ApplyAllStops(s0, config, i + 1);
          return;
        }
        i := i + 1;
      }
      assert config[..|config|] == config;
      return Pass;
    }

    /**
     * `set($property, $value)` (WP_Route.class.php:77-89). A refused value
     * changes nothing; otherwise the value goes to the declared field when
     * that field is set, else to the extension map, and `get` then returns it.
     */
    method Set(name: string, v: Value) returns (o: Outcome<Error>)
      requires Addressable(name)
      modifies this
      ensures o.Fail? <==> !Accepts(name, v)
      ensures o.Fail? ==> o.error == InvalidValue(name) && unchanged(this)
      ensures o.Pass? ==> Snapshot() == AfterSet(old(Snapshot()), name, v).value
      ensures o.Pass? && v != Null ==> Get(Snapshot(), name) == Success(v)
      ensures old(Valid()) ==> Valid()
    {
      if MustBeTruthy(name) && !Truthy(v) {
        return Fail(InvalidValue(name));
      }
      if MustBeArray(name) && !v.Arr? {
        return Fail(InvalidValue(name));
      }
      var field := FieldNamed(name);
      if field.Some? && Snapshot().fields.At(field.value) != Null {
        SetField(field.value, v);
      } else {
        properties := properties[name := v];
      }
      SetPreserves(old(Snapshot()), name, v);
      if v != Null {
        SetThenGet(old(Snapshot()), name, v);
      }
      return Pass;
    }

    /** `$this->$property = $value` for a declared field. */
    method SetField(f: Field, v: Value)
      modifies this
      ensures Snapshot() == old(Snapshot()).(fields := old(Snapshot()).fields.With(f, v))
    {
      match f
      case Id => id := v;
      case Path => path := v;
      case QueryVars => queryVars := v;
      case WpRewrite => wpRewrite := v;
      case Title => title := v;
      case TitleCallback => titleCallback := v;
      case TitleArguments => titleArguments := v;
      case PageCallback => pageCallback := v;
      case PageArguments => pageArguments := v;
      case AccessCallback => accessCallback := v;
      case AccessArguments => accessArguments := v;
      case Template => template := v;
    }

    /**
     * `get_query_args` (WP_Route.class.php:163-180): the arguments for a
     * callback, one per descriptor, in order.
     */
    method GetQueryArgs(q: Dispatch.Query, kind: Dispatch.Kind) returns (args: seq<Value>)
      ensures args == Dispatch.QueryArgs(Snapshot().fields.At(Dispatch.ArgumentsField(kind)), q)
      ensures |args| == |Elements(Snapshot().fields.At(Dispatch.ArgumentsField(kind)))|
    {
      var descriptors := match kind
        case PageArgs => pageArguments
        case TitleArgs => titleArguments
        case AccessArgs => accessArguments;
      args := [];
      if Truthy(descriptors) {
        var ds := Elements(descriptors);
        var i := 0;
        while i < |ds|
          invariant 0 <= i <= |ds|
          invariant args == Dispatch.Resolve(ds[..i], q)
        {
          var d := ds[i];
          if Dispatch.IsAQueryVar(d, q) {
            if d.s in q.queryVars && q.queryVars[d.s] != Null {
              args := args + [q.queryVars[d.s]];
            } else {
              args := args + [Null];
            }
          } else {
            args := args + [d];
          }
          assert ds[..i + 1][..i] == ds[..i];
          i := i + 1;
        }
        assert ds[..|ds|] == ds;
      }
    }

    /** `generate_rewrite` (WP_Route.class.php:205-218): caches the rule in `wp_rewrite`. */
    method GenerateRewrite(pregIndex: int -> string)
      modifies this`wpRewrite
      ensures wpRewrite == Str(Rewrite.Rule(queryVars, id, pregIndex))
    {
      var rule := Rewrite.PREFIX;
      var vars: seq<string> := [];
      var es := Rewrite.Entries(queryVars);
      var i := 0;
      while i < |es|
        invariant 0 <= i <= |es|
        invariant vars == Rewrite.Pairs(es[..i], pregIndex)
      {
        var (name, value) := es[i];
        if value.Int? {
          vars := vars + [KeyToString(name) + "=" + pregIndex(value.i)];
        } else {
          vars := vars + [KeyToString(name) + "=" + ToString(value)];
        }
        assert es[..i + 1][..i] == es[..i];
        i := i + 1;
      }
      assert es[..|es|] == es;
      vars := vars + [Rewrite.QUERY_VAR + "=" + ToString(id)];
      rule := rule + Text.Join('&', vars);
      wpRewrite := Str(rule);
    }

    /**
     * `rewrite_rules` (WP_Route.class.php:193-198): the single rule keyed by
     * the route's path. It changes nothing but the cached rule, so calling it
     * again gives the same map.
     */
    method RewriteRules(pregIndex: int -> string) returns (rules: map<Value, string>)
      modifies this`wpRewrite
      ensures rules == map[path := Rewrite.Rule(queryVars, id, pregIndex)]
      ensures wpRewrite == Str(rules[path])
    {
      GenerateRewrite(pregIndex);
      rules := map[path := wpRewrite.s];
    }
  }

  /** Two calls of `rewrite_rules` with nothing in between return the same rules. */
  method RewriteRulesTwice(route: Route, pregIndex: int -> string) returns (first: map<Value, string>, second: map<Value, string>)
    modifies route`wpRewrite
    ensures first == second
  {
    first := route.RewriteRules(pregIndex);
    second := route.RewriteRules(pregIndex);
  }
}
