/**
 * The route's execution pipeline (WP_Route.class.php:97-188): argument
 * resolution against the matched request, the access check, the page
 * render, and title resolution. Callbacks are foreign code: whether a value
 * is callable, what a call returns and what it echoes come from `Env`.
 */
module Dispatch {
  import opened Php
  import opened Store

  /** The parts of WordPress's `WP` query object the route reads. */
  datatype Query = Query(queryVars: map<string, Value>, publicQueryVars: seq<string>)

  /**
   * `is_callable`, and the result and echoed output of
   * `call_user_func_array(callback, args)`.
   */
  datatype Env = Env(
    isCallable: Value -> bool,
    returned: (Value, seq<Value>) -> Value,
    echoed: (Value, seq<Value>) -> string)

  /**
   * PHP's `is_callable` is false for null, booleans and integers: only a
   * string (a function name) or an array (an object or class with a method
   * name) can be a callback.
   */
  ghost predicate EnvOk(env: Env) {
    forall v :: env.isCallable(v) ==> v.Str? || v.Arr?
  }

  /** Which callback an invocation was made for. */
  datatype Role = AccessCheck | PageRender | TitleLookup

  /** One call of a callback, with the arguments it received. */
  datatype Invocation = Invocation(role: Role, callback: Value, args: seq<Value>)

  /** A pipeline stage's result, with the callbacks it invoked, in order. */
  datatype Stage<T> = Stage(result: T, invoked: seq<Invocation>)

  /** What `get_page` produces: `FALSE`, or the page text. */
  datatype Page = Suppressed | Rendered(text: string)

  /** How `execute` ends. */
  datatype Ending = Denied | NoPage | Served(page: string, title: Value)

  /** The argument descriptor lists, `$callback_type.'_arguments'`. */
  datatype Kind = PageArgs | TitleArgs | AccessArgs

  function ArgumentsField(kind: Kind): Field {
    match kind
    case PageArgs => PageArguments
    case TitleArgs => TitleArguments
    case AccessArgs => AccessArguments
  }

  /** `is_a_query_var` (WP_Route.class.php:182-188): the descriptor names a public query variable. */
  predicate IsAQueryVar(d: Value, q: Query) {
    d.Str? && d.s in q.publicQueryVars
  }

  /** One descriptor resolved: a public query variable's matched value (null when unmatched), else the descriptor itself. */
  function ResolveArg(d: Value, q: Query): Value {
    if IsAQueryVar(d, q) then (if d.s in q.queryVars then q.queryVars[d.s] else Null) else d
  }

  /**
   * The foreach of `get_query_args` (WP_Route.class.php:167-177), one
   * descriptor after another: one argument per descriptor, in order, each
   * resolved on its own.
   */
  function Resolve(ds: seq<Value>, q: Query): (r: seq<Value>)
    ensures |r| == |ds|
    ensures forall k :: 0 <= k < |ds| ==> r[k] == ResolveArg(ds[k], q)
    decreases |ds|
  {
    if ds == [] then [] else Resolve(ds[..|ds| - 1], q) + [ResolveArg(ds[|ds| - 1], q)]
  }

  /**
   * `get_query_args` (WP_Route.class.php:163-180) over the value of the
   * descriptor field: one resolved argument per element, so the list is
   * empty exactly when the field holds no elements.
   */
  function QueryArgs(descriptors: Value, q: Query): (r: seq<Value>)
    ensures |r| == |Elements(descriptors)|
    ensures forall k :: 0 <= k < |r| ==> r[k] == ResolveArg(Elements(descriptors)[k], q)
  {
    if Truthy(descriptors) then Resolve(Elements(descriptors), q) else []
  }

  /**
   * `['foo', 'literal']` with `foo` a public query variable matched to
   * `'bar'` and `literal` not public resolves to `['bar', 'literal']`.
   */
  lemma ResolveExample(q: Query)
    requires "foo" in q.publicQueryVars && "literal" !in q.publicQueryVars
    requires "foo" in q.queryVars && q.queryVars["foo"] == Str("bar")
    ensures QueryArgs(Arr([(IntKey(0), Str("foo")), (IntKey(1), Str("literal"))]), q) == [Str("bar"), Str("literal")]
  {
    var ds := [Str("foo"), Str("literal")];
    assert Elements(Arr([(IntKey(0), Str("foo")), (IntKey(1), Str("literal"))])) == ds;
    assert ds[..1] == [Str("foo")] && [Str("foo")][..0] == [];
    assert Resolve([Str("foo")], q) == [Str("bar")];
  }

  /** `check_access` (WP_Route.class.php:151-161). */
  function CheckAccess(f: Fields, q: Query, env: Env): Stage<bool> {
    if f.accessCallback == Bool(false) then Stage(false, [])
    else if env.isCallable(f.accessCallback) then
      var args := QueryArgs(f.accessArguments, q);
      Stage(Truthy(env.returned(f.accessCallback, args)), [Invocation(AccessCheck, f.accessCallback, args)])
    else Stage(Truthy(f.accessCallback), [])
  }

  /**
   * `get_page` (WP_Route.class.php:118-132): the echoed text followed by
   * the returned value, or `FALSE` when the callback cannot be called or
   * returns `FALSE`.
   */
  function GetPage(f: Fields, q: Query, env: Env): Stage<Page> {
    if !env.isCallable(f.pageCallback) then Stage(Suppressed, [])
    else
      var args := QueryArgs(f.pageArguments, q);
      var returned := env.returned(f.pageCallback, args);
      var echoed := env.echoed(f.pageCallback, args);
      var call := [Invocation(PageRender, f.pageCallback, args)];
      if returned == Bool(false) then Stage(Suppressed, call)
      else Stage(Rendered(echoed + ToString(returned)), call)
  }

  /**
   * `get_title` (WP_Route.class.php:134-149): the title callback's result,
   * called with `[title]` when no arguments resolve, or the static title
   * when the callback cannot be called or returns `FALSE`.
   */
  function GetTitle(f: Fields, q: Query, env: Env): Stage<Value> {
    if !env.isCallable(f.titleCallback) then Stage(f.title, [])
    else
      var resolved := QueryArgs(f.titleArguments, q);
      var args := if resolved == [] then [f.title] else resolved;
      var t := env.returned(f.titleCallback, args);
      Stage(if t == Bool(false) then f.title else t, [Invocation(TitleLookup, f.titleCallback, args)])
  }

  /** `execute` (WP_Route.class.php:97-116): access, then page, then title, stopping early. */
  function Execute(f: Fields, q: Query, env: Env): Stage<Ending> {
    var access := CheckAccess(f, q, env);
    if !access.result then Stage(Denied, access.invoked)
    else
      var page := GetPage(f, q, env);
      match page.result
      case Suppressed => Stage(NoPage, access.invoked + page.invoked)
      case Rendered(text) =>
        var title := GetTitle(f, q, env);
        Stage(Served(text, title.result), access.invoked + page.invoked + title.invoked)
  }

  /** Roles of a sequence of invocations. */
  function Roles(calls: seq<Invocation>): seq<Role> {
    seq(|calls|, k requires 0 <= k < |calls| => calls[k].role)
  }

  /** An access callback of `FALSE` denies before any callback is invoked. */
  lemma AccessFalseDenies(f: Fields, q: Query, env: Env)
    requires f.accessCallback == Bool(false)
    ensures Execute(f, q, env) == Stage(Denied, [])
  {
  }

  /**
   * An access callback that cannot be a callback (`TRUE`, null, an integer)
   * decides by its own truthiness, with no call.
   */
  lemma NonCallableDecides(f: Fields, q: Query, env: Env)
    requires EnvOk(env) && !f.accessCallback.Str? && !f.accessCallback.Arr?
    ensures CheckAccess(f, q, env) == Stage(Truthy(f.accessCallback), [])
  {
  }

  /** A route constructed with `access_callback => FALSE` denies every request before any callback runs. */
  lemma ConfiguredDenialDenies(id: Value, config: seq<(string, Value)>, k: nat, q: Query, env: Env)
    requires AllAddressable(config) && DistinctKeys(config) && Construct(id, config).Success?
    requires k < |config| && config[k] == ("access_callback", Bool(false))
    ensures Execute(Construct(id, config).value.fields, q, env) == Stage(Denied, [])
  {
    ConstructKeepsDenial(id, config, k);
  }

  /**
   * A route constructed with access arguments and a truthy `access_callback`
   * entry asks the capability check: when that is callable, the access check
   * calls it once, on the resolved access arguments, and its answer decides.
   */
  lemma DelegatedAccessCalls(id: Value, config: seq<(string, Value)>, q: Query, env: Env)
    requires AllAddressable(config) && DistinctKeys(config) && Construct(id, config).Success?
    requires Truthy(Construct(id, config).value.fields.accessArguments)
    requires Truthy(ConfigValue(config, "access_callback"))
    requires env.isCallable(Str(CAPABILITY_CHECK))
    ensures var f := Construct(id, config).value.fields;
      var args := QueryArgs(f.accessArguments, q);
      && CheckAccess(f, q, env).invoked == [Invocation(AccessCheck, Str(CAPABILITY_CHECK), args)]
      && CheckAccess(f, q, env).result == Truthy(env.returned(Str(CAPABILITY_CHECK), args))
      && (Execute(f, q, env).result.Denied? <==> !Truthy(env.returned(Str(CAPABILITY_CHECK), args)))
  {
    ConstructDelegatesAccess(id, config);
    ExecuteOrder(Construct(id, config).value.fields, q, env);
  }

  /**
   * A route constructed without an `access_callback` entry is open to
   * everyone: its access check passes without calling anything, whatever
   * access arguments it was given.
   */
  lemma DefaultAccessOpen(id: Value, config: seq<(string, Value)>, q: Query, env: Env)
    requires AllAddressable(config) && Construct(id, config).Success?
    requires !HasKey(config, "access_callback") && EnvOk(env)
    ensures CheckAccess(Construct(id, config).value.fields, q, env) == Stage(true, [])
    ensures !Execute(Construct(id, config).value.fields, q, env).result.Denied?
  {
    ConstructDefaultAccess(id, config);
    NonCallableDecides(Construct(id, config).value.fields, q, env);
  }

  /**
   * The stages run in a fixed order and stop early: a denied request invokes
   * at most the access callback, a suppressed page never looks up the title,
   * and a served page invokes the page callback exactly once, after the
   * access check and before the title lookup.
   */
  lemma ExecuteOrder(f: Fields, q: Query, env: Env)
    ensures var r := Execute(f, q, env);
      var accessCalls := if f.accessCallback != Bool(false) && env.isCallable(f.accessCallback) then [AccessCheck] else [];
      var pageCalls := if env.isCallable(f.pageCallback) then [PageRender] else [];
      var titleCalls := if env.isCallable(f.titleCallback) then [TitleLookup] else [];
      && (r.result.Denied? <==> !CheckAccess(f, q, env).result)
      && (r.result.Denied? ==> Roles(r.invoked) == accessCalls)
      && (r.result.NoPage? <==> CheckAccess(f, q, env).result && GetPage(f, q, env).result.Suppressed?)
      && (r.result.NoPage? ==> Roles(r.invoked) == accessCalls + pageCalls)
      && (r.result.Served? ==> Roles(r.invoked) == accessCalls + [PageRender] + titleCalls)
  {
    var access := CheckAccess(f, q, env);
    var page := GetPage(f, q, env);
    var title := GetTitle(f, q, env);
    StageRoles(f, q, env);
    if access.result {
      RolesAppend(access.invoked, page.invoked);
      if page.result.Rendered? {
        RolesAppend(access.invoked + page.invoked, title.invoked);
      }
    }
  }

  /** Helper: each stage invokes its own callback, exactly when that callback is callable (and not `FALSE`, for access). */
  lemma StageRoles(f: Fields, q: Query, env: Env)
    ensures Roles(CheckAccess(f, q, env).invoked)
      == if f.accessCallback != Bool(false) && env.isCallable(f.accessCallback) then [AccessCheck] else []
    ensures Roles(GetPage(f, q, env).invoked) == if env.isCallable(f.pageCallback) then [PageRender] else []
    ensures Roles(GetTitle(f, q, env).invoked) == if env.isCallable(f.titleCallback) then [TitleLookup] else []
    ensures GetPage(f, q, env).result.Rendered? ==> env.isCallable(f.pageCallback)
  {
  }

  lemma RolesAppend(a: seq<Invocation>, b: seq<Invocation>)
    ensures Roles(a + b) == Roles(a) + Roles(b)
  {
  }

  /**
   * What the page callback echoes never decides whether a page is served:
   * only its return value can suppress the page.
   */
  lemma EchoNeverSuppresses(f: Fields, q: Query, env: Env, echoed2: (Value, seq<Value>) -> string)
    ensures Execute(f, q, env).result.Denied? <==> Execute(f, q, env.(echoed := echoed2)).result.Denied?
    ensures Execute(f, q, env).result.NoPage? <==> Execute(f, q, env.(echoed := echoed2)).result.NoPage?
  {
    var env2 := env.(echoed := echoed2);
    assert CheckAccess(f, q, env) == CheckAccess(f, q, env2);
    assert GetPage(f, q, env).result.Suppressed? <==> GetPage(f, q, env2).result.Suppressed?;
  }

  /**
   * A served page is the echoed output followed by the returned value of the
   * page-callback call recorded right after the access check, and that call
   * did not return `FALSE`.
   */
  lemma ServedPage(f: Fields, q: Query, env: Env)
    requires Execute(f, q, env).result.Served?
    ensures var r := Execute(f, q, env);
      var n := |CheckAccess(f, q, env).invoked|;
      && n < |r.invoked|
      && var c := r.invoked[n];
      && c == Invocation(PageRender, f.pageCallback, QueryArgs(f.pageArguments, q))
      && env.returned(c.callback, c.args) != Bool(false)
      && r.result.page == env.echoed(c.callback, c.args) + ToString(env.returned(c.callback, c.args))
  {
    var access := CheckAccess(f, q, env);
    var page := GetPage(f, q, env);
    var title := GetTitle(f, q, env);
    assert page.invoked == [Invocation(PageRender, f.pageCallback, QueryArgs(f.pageArguments, q))];
    assert (access.invoked + page.invoked + title.invoked)[|access.invoked|] == page.invoked[0];
  }

  /**
   * Title resolution: the static title when the callback is not callable or
   * returns `FALSE`, otherwise the callback's result. The callback receives
   * `[title]` when no title arguments are declared, else one resolved
   * argument per descriptor.
   */
  lemma TitleFallback(f: Fields, q: Query, env: Env)
    ensures !env.isCallable(f.titleCallback) ==> GetTitle(f, q, env) == Stage(f.title, [])
    ensures env.isCallable(f.titleCallback) ==>
      var r := GetTitle(f, q, env);
      var ds := Elements(f.titleArguments);
      && |r.invoked| == 1 && r.invoked[0].role == TitleLookup && r.invoked[0].callback == f.titleCallback
      && var args := r.invoked[0].args;
      && (ds == [] ==> args == [f.title])
      && (ds != [] ==> |args| == |ds| && forall k :: 0 <= k < |ds| ==> args[k] == ResolveArg(ds[k], q))
      && (env.returned(f.titleCallback, args) == Bool(false) ==> r.result == f.title)
      && (env.returned(f.titleCallback, args) != Bool(false) ==> r.result == env.returned(f.titleCallback, args))
  {
  }

  /**
   * With the default `title_arguments` (`array('')`), the title callback is
   * called with `''`, not with the static title, unless `''` is a public
   * query variable.
   */
  lemma DefaultTitleArguments(f: Fields, q: Query, env: Env)
    requires f.titleArguments == Defaults().fields.titleArguments
    requires env.isCallable(f.titleCallback) && "" !in q.publicQueryVars
    ensures GetTitle(f, q, env).invoked == [Invocation(TitleLookup, f.titleCallback, [Str("")])]
  {
    assert Elements(f.titleArguments) == [Str("")];
    assert [Str("")][..0] == [];
    assert QueryArgs(f.titleArguments, q) == [Str("")];
  }
}
