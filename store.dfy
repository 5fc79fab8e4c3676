/**
 * The route's property store as a value: the twelve declared fields, the
 * open-ended extension map, and what `get`, `set` and construction do to
 * them (WP_Route.class.php:11-89). The class in module Routes holds the
 * same state in mutable fields and is proved against these functions.
 */
module Store {
  import opened Wrappers
  import opened Php

  /** The three exceptions the route throws. */
  datatype Error =
    | MissingField(name: string)   // construction without path / page_callback
    | InvalidValue(name: string)   // set() rejected the value
    | NotFound(name: string)       // get() found nothing

  /** The declared fields of the route (everything but `$properties`). */
  datatype Field =
    | Id | Path | QueryVars | WpRewrite | Title | TitleCallback | TitleArguments
    | PageCallback | PageArguments | AccessCallback | AccessArguments | Template

  /** The PHP name of a declared field. */
  function FieldName(f: Field): string {
    match f
    case Id => "id"
    case Path => "path"
    case QueryVars => "query_vars"
    case WpRewrite => "wp_rewrite"
    case Title => "title"
    case TitleCallback => "title_callback"
    case TitleArguments => "title_arguments"
    case PageCallback => "page_callback"
    case PageArguments => "page_arguments"
    case AccessCallback => "access_callback"
    case AccessArguments => "access_arguments"
    case Template => "template"
  }

  /** The declared field a property name denotes, if any (`$this->$property`). */
  function FieldNamed(name: string): (r: Option<Field>)
    ensures r.Some? ==> FieldName(r.value) == name
    ensures r.None? ==> forall f :: FieldName(f) != name
  {
    if name == "id" then Some(Id)
    else if name == "path" then Some(Path)
    else if name == "query_vars" then Some(QueryVars)
    else if name == "wp_rewrite" then Some(WpRewrite)
    else if name == "title" then Some(Title)
    else if name == "title_callback" then Some(TitleCallback)
    else if name == "title_arguments" then Some(TitleArguments)
    else if name == "page_callback" then Some(PageCallback)
    else if name == "page_arguments" then Some(PageArguments)
    else if name == "access_callback" then Some(AccessCallback)
    else if name == "access_arguments" then Some(AccessArguments)
    else if name == "template" then Some(Template)
    else None
  }

  /** The values of the declared fields. */
  datatype Fields = Fields(
    id: Value, path: Value, queryVars: Value, wpRewrite: Value,
    title: Value, titleCallback: Value, titleArguments: Value,
    pageCallback: Value, pageArguments: Value,
    accessCallback: Value, accessArguments: Value, template: Value)
  {
    function At(f: Field): Value {
      match f
      case Id => id
      case Path => path
      case QueryVars => queryVars
      case WpRewrite => wpRewrite
      case Title => title
      case TitleCallback => titleCallback
      case TitleArguments => titleArguments
      case PageCallback => pageCallback
      case PageArguments => pageArguments
      case AccessCallback => accessCallback
      case AccessArguments => accessArguments
      case Template => template
    }

    /** The fields with `f` replaced by `v`. */
    function With(f: Field, v: Value): (r: Fields)
      ensures r.At(f) == v
      ensures forall g :: g != f ==> r.At(g) == At(g)
    {
      match f
      case Id => this.(id := v)
      case Path => this.(path := v)
      case QueryVars => this.(queryVars := v)
      case WpRewrite => this.(wpRewrite := v)
      case Title => this.(title := v)
      case TitleCallback => this.(titleCallback := v)
      case TitleArguments => this.(titleArguments := v)
      case PageCallback => this.(pageCallback := v)
      case PageArguments => this.(pageArguments := v)
      case AccessCallback => this.(accessCallback := v)
      case AccessArguments => this.(accessArguments := v)
      case Template => this.(template := v)
    }
  }

  /** Everything a route stores: its declared fields and the extension map. */
  datatype State = State(fields: Fields, properties: map<string, Value>)

  /** A fresh route, before the constructor's body runs (WP_Route.class.php:11-23). */
  function Defaults(): State {
    State(
      Fields(
        id := Str(""), path := Str(""), queryVars := Arr([]), wpRewrite := Str(""),
        title := Str(""), titleCallback := Str("__"), titleArguments := Arr([(IntKey(0), Str(""))]),
        pageCallback := Str(""), pageArguments := Arr([]),
        accessCallback := Bool(true), accessArguments := Arr([]), template := Str("")),
      map[])
  }

  /**
   * A name get/set can address in this model: any but `properties`, the name
   * of the extension map itself, whose replacement through `set` is not modelled.
   */
  predicate Addressable(name: string) {
    name != "properties"
  }

  /** `set` refuses a falsy value for these. */
  predicate MustBeTruthy(name: string) {
    name == "id" || name == "path" || name == "page_callback"
  }

  /** `set` refuses a non-array value for these. */
  predicate MustBeArray(name: string) {
    name == "query_vars" || name == "title_arguments" || name == "page_arguments" || name == "access_arguments"
  }

  /** The validation `set` performs before it writes (WP_Route.class.php:78-83). */
  predicate Accepts(name: string, v: Value) {
    (MustBeTruthy(name) ==> Truthy(v)) && (MustBeArray(name) ==> v.Arr?)
  }

  /** `isset($this->$name)`: a declared field that does not hold null. */
  predicate Isset(s: State, name: string) {
    FieldNamed(name).Some? && s.fields.At(FieldNamed(name).value) != Null
  }

  /**
   * `set(name, v)` (WP_Route.class.php:77-89): the new state, or the
   * exception. A name whose declared field is set is written there; any
   * other name (also a declared field holding null) goes to the extension map.
   */
  function AfterSet(s: State, name: string, v: Value): Result<State, Error>
    requires Addressable(name)
  {
    if !Accepts(name, v) then Failure(InvalidValue(name))
    else if Isset(s, name) then Success(s.(fields := s.fields.With(FieldNamed(name).value, v)))
    else Success(s.(properties := s.properties[name := v]))
  }

  /**
   * `get(name)` (WP_Route.class.php:59-67): the declared field when it is
   * not null, else the non-null extension entry, else NotFound.
   */
  function Get(s: State, name: string): (r: Result<Value, Error>)
    requires Addressable(name)
    ensures r.Success? ==> r.value != Null
    ensures r.Success? ==> (Isset(s, name) && r.value == s.fields.At(FieldNamed(name).value))
                           || (!Isset(s, name) && name in s.properties && r.value == s.properties[name])
    ensures r.Failure? <==> !Isset(s, name) && (name !in s.properties || s.properties[name] == Null)
    ensures r.Failure? ==> r.error == NotFound(name)
  {
    if Isset(s, name) then Success(s.fields.At(FieldNamed(name).value))
    else if name in s.properties && s.properties[name] != Null then Success(s.properties[name])
    else Failure(NotFound(name))
  }

  /** What is true of a constructed route: the three required fields are truthy, the four argument fields arrays. */
  predicate Valid(s: State) {
    && Truthy(s.fields.id) && Truthy(s.fields.path) && Truthy(s.fields.pageCallback)
    && ArraysOk(s)
  }

  predicate ArraysOk(s: State) {
    && s.fields.queryVars.Arr? && s.fields.titleArguments.Arr?
    && s.fields.pageArguments.Arr? && s.fields.accessArguments.Arr?
  }

  /** What holds during construction, once `id` has been accepted. */
  predicate Partial(s: State) {
    && Truthy(s.fields.id) && s.fields.path != Null && s.fields.pageCallback != Null
    && ArraysOk(s)
  }

  /** `set` rejects exactly the values its validation refuses, and then nothing is written. */
  lemma SetRejects(s: State, name: string, v: Value)
    requires Addressable(name)
    ensures AfterSet(s, name, v).Failure? <==> !Accepts(name, v)
    ensures AfterSet(s, name, v).Failure? ==> AfterSet(s, name, v).error == InvalidValue(name)
  {
  }

  /** A successful `set` of a non-null value is what `get` then returns. */
  lemma SetThenGet(s: State, name: string, v: Value)
    requires Addressable(name) && Accepts(name, v) && v != Null
    ensures AfterSet(s, name, v).Success?
    ensures Get(AfterSet(s, name, v).value, name) == Success(v)
  {
  }

  /** A successful `set` leaves what `get` returns for every other name unchanged. */
  lemma SetFrame(s: State, name: string, v: Value, other: string)
    requires Addressable(name) && Addressable(other) && other != name
    requires AfterSet(s, name, v).Success?
    ensures Get(AfterSet(s, name, v).value, other) == Get(s, other)
  {
    var s' := AfterSet(s, name, v).value;
    if Isset(s, name) {
      var f := FieldNamed(name).value;
      if FieldNamed(other).Some? {
        assert FieldNamed(other).value != f;
      }
    }
  }

  /** `set` keeps the route's invariants: required fields stay truthy, argument fields stay arrays. */
  lemma SetPreserves(s: State, name: string, v: Value)
    requires Addressable(name) && AfterSet(s, name, v).Success?
    ensures ArraysOk(s) ==> ArraysOk(AfterSet(s, name, v).value)
    ensures Partial(s) ==> Partial(AfterSet(s, name, v).value)
    ensures Valid(s) ==> Valid(AfterSet(s, name, v).value)
  {
    if Isset(s, name) {
      var f := FieldNamed(name).value;
      assert FieldName(f) == name;
      if f == Id || f == Path || f == PageCallback {
        assert MustBeTruthy(name);
      }
      if f == QueryVars || f == TitleArguments || f == PageArguments || f == AccessArguments {
        assert MustBeArray(name);
      }
    }
  }

  /** A PHP array has distinct keys. */
  predicate DistinctKeys(config: seq<(string, Value)>) {
    forall i, j :: 0 <= i < j < |config| ==> config[i].0 != config[j].0
  }

  predicate AllAddressable(config: seq<(string, Value)>) {
    forall k :: 0 <= k < |config| ==> Addressable(config[k].0)
  }

  predicate HasKey(config: seq<(string, Value)>, name: string) {
    exists k :: 0 <= k < |config| && config[k].0 == name
  }

  /** `$properties[name]`: the entry's value, or null when there is none. */
  function ConfigValue(config: seq<(string, Value)>, name: string): Value
    decreases |config|
  {
    if config == [] then Null
    else if config[|config| - 1].0 == name then config[|config| - 1].1
    else ConfigValue(config[..|config| - 1], name)
  }

  /** `e` is the error `set` throws for some configuration entry whose value it refuses. */
  predicate RefusedEntry(config: seq<(string, Value)>, e: Error) {
    exists k :: 0 <= k < |config| && !Accepts(config[k].0, config[k].1) && e == InvalidValue(config[k].0)
  }

  /**
   * `foreach ($properties as $property => $value) $this->set($property, $value)`
   * (WP_Route.class.php:42-44): every entry in order, stopping at the first rejected one.
   */
  function ApplyAll(s: State, config: seq<(string, Value)>): (r: Result<State, Error>)
    requires AllAddressable(config)
    ensures r.Failure? ==> RefusedEntry(config, r.error)
    decreases |config|
  {
    if config == [] then Success(s)
    else
      var last := config[|config| - 1];
      match ApplyAll(s, config[..|config| - 1])
      case Failure(e) => Failure(e)
      case Success(s') => AfterSet(s', last.0, last.1)
  }

  /** The capability check the constructor delegates to when access arguments are given. */
  const CAPABILITY_CHECK := "current_user_can"

  /** `new WP_Route($id, $properties)` (WP_Route.class.php:33-50). */
  function Construct(id: Value, config: seq<(string, Value)>): (r: Result<State, Error>)
    requires AllAddressable(config)
    ensures r.Success? ==> Truthy(id) && Truthy(ConfigValue(config, "path")) && Truthy(ConfigValue(config, "page_callback"))
    ensures r.Failure? ==>
      || r.error == InvalidValue("id") || r.error == MissingField("path") || r.error == MissingField("page_callback")
      || RefusedEntry(config, r.error)
  {
    match AfterSet(Defaults(), "id", id)
    case Failure(e) => Failure(e)
    case Success(s0) =>
      if !Truthy(ConfigValue(config, "path")) then Failure(MissingField("path"))
      else if !Truthy(ConfigValue(config, "page_callback")) then Failure(MissingField("page_callback"))
      else
        match ApplyAll(s0, config)
        case Failure(e) => Failure(e)
        case Success(s1) =>
          if Truthy(s1.fields.accessArguments) && Truthy(ConfigValue(config, "access_callback"))
          then AfterSet(s1, "access_callback", Str(CAPABILITY_CHECK))
          else Success(s1)
  }

  lemma {:induction false} ConfigValueAt(config: seq<(string, Value)>, k: nat)
    requires DistinctKeys(config) && k < |config|
    ensures ConfigValue(config, config[k].0) == config[k].1
    decreases |config|
  {
    if k < |config| - 1 {
      ConfigValueAt(config[..|config| - 1], k);
    }
  }

  lemma {:induction false} ConfigValueAbsent(config: seq<(string, Value)>, name: string)
    requires !HasKey(config, name)
    ensures ConfigValue(config, name) == Null
    decreases |config|
  {
    if config != [] {
      var init := config[..|config| - 1];
      assert !HasKey(init, name) by {
        forall k | 0 <= k < |init| ensures init[k].0 != name {
          assert init[k] == config[k];
        }
      }
      ConfigValueAbsent(init, name);
    }
  }

  /** The constructor's first step, `set('id', $id)`, on a fresh route. */
  lemma SetIdOnDefaults(id: Value)
    ensures AfterSet(Defaults(), "id", id) ==
      if Truthy(id) then Success(Defaults().(fields := Defaults().fields.(id := id)))
      else Failure(InvalidValue("id"))
    ensures Truthy(id) ==> Partial(AfterSet(Defaults(), "id", id).value)
  {
    assert FieldNamed("id") == Some(Id);
  }

  /** Helper: `set('access_callback', 'current_user_can')` is never refused. */
  lemma OverrideSucceeds(s: State)
    ensures AfterSet(s, "access_callback", Str(CAPABILITY_CHECK)).Success?
  {
    assert !MustBeTruthy("access_callback") && !MustBeArray("access_callback");
  }

  /** The set loop succeeds exactly when every entry passes validation. */
  lemma {:induction false} ApplyAllSucceeds(s: State, config: seq<(string, Value)>)
    requires AllAddressable(config)
    ensures ApplyAll(s, config).Success? <==> forall k :: 0 <= k < |config| ==> Accepts(config[k].0, config[k].1)
    decreases |config|
  {
    if config != [] {
      var init := config[..|config| - 1];
      ApplyAllSucceeds(s, init);
      assert forall k :: 0 <= k < |init| ==> init[k] == config[k];
    }
  }

  /** Once a prefix of the set loop has failed, the whole loop fails with that error. */
  lemma {:induction false} ApplyAllStops(s: State, config: seq<(string, Value)>, j: nat)
    requires AllAddressable(config) && j <= |config|
    requires ApplyAll(s, config[..j]).Failure?
    ensures ApplyAll(s, config) == ApplyAll(s, config[..j])
    decreases |config|
  {
    if j < |config| {
      var init := config[..|config| - 1];
      assert init[..j] == config[..j];
      ApplyAllStops(s, init, j);
    } else {
      assert config[..j] == config;
    }
  }

  /** The set loop keeps the construction invariant. */
  lemma {:induction false} ApplyAllPreserves(s: State, config: seq<(string, Value)>)
    requires AllAddressable(config) && ApplyAll(s, config).Success? && Partial(s)
    ensures Partial(ApplyAll(s, config).value)
    decreases |config|
  {
    if config != [] {
      var init := config[..|config| - 1];
      ApplyAllPreserves(s, init);
      var last := config[|config| - 1];
      SetPreserves(ApplyAll(s, init).value, last.0, last.1);
    }
  }

  /** A name the configuration does not mention reads the same after the set loop. */
  lemma {:induction false} ApplyAllUntouched(s: State, config: seq<(string, Value)>, name: string)
    requires AllAddressable(config) && ApplyAll(s, config).Success?
    requires Addressable(name) && !HasKey(config, name)
    ensures Get(ApplyAll(s, config).value, name) == Get(s, name)
    decreases |config|
  {
    if config != [] {
      var init := config[..|config| - 1];
      var last := config[|config| - 1];
      assert !HasKey(init, name) by {
        forall k | 0 <= k < |init| ensures init[k].0 != name {
          assert init[k] == config[k];
        }
      }
      ApplyAllUntouched(s, init, name);
      SetFrame(ApplyAll(s, init).value, last.0, last.1, name);
    }
  }

  /** After the set loop, every entry with a non-null value is what `get` returns for its name. */
  lemma {:induction false} ApplyAllReadBack(s: State, config: seq<(string, Value)>, k: nat)
    requires AllAddressable(config) && DistinctKeys(config) && ApplyAll(s, config).Success?
    requires k < |config| && config[k].1 != Null
    ensures Get(ApplyAll(s, config).value, config[k].0) == Success(config[k].1)
    decreases |config|
  {
    var init := config[..|config| - 1];
    var last := config[|config| - 1];
    var s' := ApplyAll(s, init).value;
    if k == |config| - 1 {
      SetThenGet(s', last.0, last.1);
    } else {
      assert init[k] == config[k];
      ApplyAllReadBack(s, init, k);
      SetFrame(s', last.0, last.1, config[k].0);
    }
  }

  /**
   * Construction fails without a truthy `path` or `page_callback`: with
   * MissingField, unless the id itself was already refused.
   */
  lemma ConstructNeedsRequired(id: Value, config: seq<(string, Value)>)
    requires AllAddressable(config)
    requires !Truthy(ConfigValue(config, "path")) || !Truthy(ConfigValue(config, "page_callback"))
    ensures Construct(id, config).Failure?
    ensures Construct(id, config).error ==
      if !Truthy(id) then InvalidValue("id")
      else if !Truthy(ConfigValue(config, "path")) then MissingField("path")
      else MissingField("page_callback")
  {
  }

  /**
   * Construction succeeds exactly when the id, `path` and `page_callback`
   * are truthy and every configuration entry passes `set`'s validation.
   */
  lemma ConstructSucceeds(id: Value, config: seq<(string, Value)>)
    requires AllAddressable(config)
    ensures Construct(id, config).Success? <==>
      && Truthy(id) && Truthy(ConfigValue(config, "path")) && Truthy(ConfigValue(config, "page_callback"))
      && forall k :: 0 <= k < |config| ==> Accepts(config[k].0, config[k].1)
  {
    SetIdOnDefaults(id);
    if Truthy(id) {
      var s0 := AfterSet(Defaults(), "id", id).value;
      ConstructAfterId(id, config);
      ApplyAllSucceeds(s0, config);
      if ApplyAll(s0, config).Success? {
        OverrideSucceeds(ApplyAll(s0, config).value);
      }
    }
  }

  /** Helper: construction once `id` has been accepted. */
  lemma ConstructAfterId(id: Value, config: seq<(string, Value)>)
    requires AllAddressable(config) && Truthy(id)
    ensures AfterSet(Defaults(), "id", id).Success?
    ensures var s0 := AfterSet(Defaults(), "id", id).value;
      Construct(id, config) ==
        if !Truthy(ConfigValue(config, "path")) then Failure(MissingField("path"))
        else if !Truthy(ConfigValue(config, "page_callback")) then Failure(MissingField("page_callback"))
        else match ApplyAll(s0, config)
          case Failure(e) => Failure(e)
          case Success(s1) =>
            if Truthy(s1.fields.accessArguments) && Truthy(ConfigValue(config, "access_callback"))
            then AfterSet(s1, "access_callback", Str(CAPABILITY_CHECK))
            else Success(s1)
  {
    SetIdOnDefaults(id);
  }

  /**
   * After construction every non-null configuration entry is what `get`
   * returns for its name, except `access_callback` when the capability
   * check replaced it.
   */
  lemma ConstructReadsBack(id: Value, config: seq<(string, Value)>, k: nat)
    requires AllAddressable(config) && DistinctKeys(config)
    requires Construct(id, config).Success?
    requires k < |config| && config[k].1 != Null
    requires config[k].0 == "access_callback" ==>
      !Truthy(Construct(id, config).value.fields.accessArguments) || !Truthy(ConfigValue(config, "access_callback"))
    ensures Get(Construct(id, config).value, config[k].0) == Success(config[k].1)
  {
    ConstructLastStep(id, config);
    var s0 := AfterSet(Defaults(), "id", id).value;
    var s1 := ApplyAll(s0, config).value;
    ApplyAllReadBack(s0, config, k);
    if Construct(id, config).value != s1 {
      SetFrame(s1, "access_callback", Str(CAPABILITY_CHECK), config[k].0);
    }
  }

  /**
   * Helper: a constructed route is the state after the set loop, with the
   * capability check written over `access_callback` when the override fires;
   * the override leaves the access arguments alone.
   */
  lemma ConstructLastStep(id: Value, config: seq<(string, Value)>)
    requires AllAddressable(config) && Construct(id, config).Success?
    ensures AfterSet(Defaults(), "id", id).Success?
    ensures ApplyAll(AfterSet(Defaults(), "id", id).value, config).Success?
    ensures var s1 := ApplyAll(AfterSet(Defaults(), "id", id).value, config).value;
      && Construct(id, config).value.fields.accessArguments == s1.fields.accessArguments
      && (Truthy(s1.fields.accessArguments) && Truthy(ConfigValue(config, "access_callback"))
          ==> Construct(id, config).value == AfterSet(s1, "access_callback", Str(CAPABILITY_CHECK)).value)
      && (!(Truthy(s1.fields.accessArguments) && Truthy(ConfigValue(config, "access_callback")))
          ==> Construct(id, config).value == s1)
  {
    SetIdOnDefaults(id);
    ConstructAfterId(id, config);
    assert FieldNamed("access_callback") == Some(AccessCallback);
  }

  /** A constructed route is valid and `get` returns the supplied `path` and `page_callback`. */
  lemma ConstructValid(id: Value, config: seq<(string, Value)>)
    requires AllAddressable(config) && DistinctKeys(config)
    requires Construct(id, config).Success?
    ensures Valid(Construct(id, config).value)
    ensures Get(Construct(id, config).value, "path") == Success(ConfigValue(config, "path"))
    ensures Get(Construct(id, config).value, "page_callback") == Success(ConfigValue(config, "page_callback"))
  {
    var s := Construct(id, config).value;
    ConstructPartial(id, config);
    RequiredReadsBack(id, config, "path");
    RequiredReadsBack(id, config, "page_callback");
    RequiredFieldIsset(s, "path");
    RequiredFieldIsset(s, "page_callback");
  }

  /** Helper: a constructed route satisfies the construction invariant. */
  lemma ConstructPartial(id: Value, config: seq<(string, Value)>)
    requires AllAddressable(config) && Construct(id, config).Success?
    ensures Partial(Construct(id, config).value)
  {
    SetIdOnDefaults(id);
    ConstructLastStep(id, config);
    var s0 := AfterSet(Defaults(), "id", id).value;
    var s1 := ApplyAll(s0, config).value;
    ApplyAllPreserves(s0, config);
    if Construct(id, config).value != s1 {
      SetPreserves(s1, "access_callback", Str(CAPABILITY_CHECK));
    }
  }

  /** Helper: the position of the entry behind a truthy `$properties[name]`. */
  lemma EntryOf(config: seq<(string, Value)>, name: string) returns (k: nat)
    requires Truthy(ConfigValue(config, name))
    ensures k < |config| && config[k].0 == name
  {
    if !HasKey(config, name) {
      ConfigValueAbsent(config, name);
      assert false;
    }
    k :| 0 <= k < |config| && config[k].0 == name;
  }

  /** Helper: a required name reads back from its declared field after construction. */
  lemma RequiredReadsBack(id: Value, config: seq<(string, Value)>, name: string)
    requires AllAddressable(config) && DistinctKeys(config)
    requires Construct(id, config).Success?
    requires name == "path" || name == "page_callback"
    ensures Get(Construct(id, config).value, name) == Success(ConfigValue(config, name))
    ensures Truthy(Construct(id, config).value.fields.At(FieldNamed(name).value))
  {
    var s := Construct(id, config).value;
    ConstructPartial(id, config);
    var k := EntryOf(config, name);
    ConfigValueAt(config, k);
    ConstructReadsBack(id, config, k);
    RequiredFieldIsset(s, name);
  }

  /** Helper: during construction `path` and `page_callback` are read from their declared fields. */
  lemma RequiredFieldIsset(s: State, name: string)
    requires Partial(s) && (name == "path" || name == "page_callback")
    ensures FieldNamed(name).Some? && Isset(s, name)
    ensures Get(s, name) == Success(s.fields.At(FieldNamed(name).value))
    ensures Get(s, name) == Success(if name == "path" then s.fields.path else s.fields.pageCallback)
  {
    if name == "path" {
      assert FieldNamed(name) == Some(Path);
    } else {
      assert FieldNamed(name) == Some(PageCallback);
    }
  }

  /**
   * With non-empty access arguments and a truthy `access_callback` in the
   * configuration, the constructed route's access callback is the
   * capability check: `get` returns it, and, the keys of a PHP array being
   * distinct, so does the declared field that `check_access` reads.
   */
  lemma ConstructDelegatesAccess(id: Value, config: seq<(string, Value)>)
    requires AllAddressable(config)
    requires Construct(id, config).Success?
    requires Truthy(Construct(id, config).value.fields.accessArguments)
    requires Truthy(ConfigValue(config, "access_callback"))
    ensures Get(Construct(id, config).value, "access_callback") == Success(Str(CAPABILITY_CHECK))
    ensures DistinctKeys(config) ==> Construct(id, config).value.fields.accessCallback == Str(CAPABILITY_CHECK)
  {
    ConstructLastStep(id, config);
    var s0 := AfterSet(Defaults(), "id", id).value;
    var s1 := ApplyAll(s0, config).value;
    SetThenGet(s1, "access_callback", Str(CAPABILITY_CHECK));
    if DistinctKeys(config) {
      var k := EntryOf(config, "access_callback");
      ConfigValueAt(config, k);
      SetIdOnDefaults(id);
      ApplyAllKeepsAccessSet(s0, config);
      OverrideSucceeds(s1);
      AccessFieldAfterSet(s1, "access_callback", Str(CAPABILITY_CHECK));
    }
  }

  /**
   * Without an `access_callback` entry the route keeps its default access
   * callback `TRUE` (in the declared field that `check_access` reads),
   * whatever access arguments it was given.
   */
  lemma ConstructDefaultAccess(id: Value, config: seq<(string, Value)>)
    requires AllAddressable(config)
    requires Construct(id, config).Success?
    requires !HasKey(config, "access_callback")
    ensures Get(Construct(id, config).value, "access_callback") == Success(Bool(true))
    ensures Construct(id, config).value.fields.accessCallback == Bool(true)
  {
    var s0 := AfterSet(Defaults(), "id", id).value;
    ConfigValueAbsent(config, "access_callback");
    ApplyAllUntouched(s0, config, "access_callback");
    ConstructAccessSet(id, config);
    assert FieldNamed("access_callback") == Some(AccessCallback);
  }

  /**
   * A route configured with `access_callback => FALSE` still holds `FALSE`
   * in the declared field `check_access` reads, whatever its access arguments.
   */
  lemma ConstructKeepsDenial(id: Value, config: seq<(string, Value)>, k: nat)
    requires AllAddressable(config) && DistinctKeys(config)
    requires Construct(id, config).Success?
    requires k < |config| && config[k] == ("access_callback", Bool(false))
    ensures Get(Construct(id, config).value, "access_callback") == Success(Bool(false))
    ensures Construct(id, config).value.fields.accessCallback == Bool(false)
  {
    ConfigValueAt(config, k);
    ConstructReadsBack(id, config, k);
    ConstructAccessSet(id, config);
    assert FieldNamed("access_callback") == Some(AccessCallback);
  }

  /** Helper: `set` writes the access-callback field only under its own name, once that field is set. */
  lemma AccessFieldAfterSet(s: State, name: string, v: Value)
    requires Addressable(name) && AfterSet(s, name, v).Success? && s.fields.accessCallback != Null
    ensures AfterSet(s, name, v).value.fields.accessCallback ==
      if name == "access_callback" then v else s.fields.accessCallback
  {
    if name == "access_callback" {
      assert FieldNamed(name) == Some(AccessCallback);
    } else if Isset(s, name) {
      var f := FieldNamed(name).value;
      assert FieldName(AccessCallback) == "access_callback";
      assert f != AccessCallback;
      assert s.fields.With(f, v).At(AccessCallback) == s.fields.At(AccessCallback);
    }
  }

  /** Helper: the set loop keeps the access-callback field set when no entry writes null to it. */
  lemma {:induction false} ApplyAllKeepsAccessSet(s: State, config: seq<(string, Value)>)
    requires AllAddressable(config) && ApplyAll(s, config).Success?
    requires s.fields.accessCallback != Null
    requires forall k :: 0 <= k < |config| && config[k].0 == "access_callback" ==> config[k].1 != Null
    ensures ApplyAll(s, config).value.fields.accessCallback != Null
    decreases |config|
  {
    if config != [] {
      var init := config[..|config| - 1];
      var last := config[|config| - 1];
      assert forall k :: 0 <= k < |init| ==> init[k] == config[k];
      ApplyAllKeepsAccessSet(s, init);
      AccessFieldAfterSet(ApplyAll(s, init).value, last.0, last.1);
    }
  }

  /** Helper: with no null `access_callback` entry, the constructed route's access-callback field is set. */
  lemma ConstructAccessSet(id: Value, config: seq<(string, Value)>)
    requires AllAddressable(config) && Construct(id, config).Success?
    requires forall k :: 0 <= k < |config| && config[k].0 == "access_callback" ==> config[k].1 != Null
    ensures Construct(id, config).value.fields.accessCallback != Null
  {
    SetIdOnDefaults(id);
    ConstructLastStep(id, config);
    var s0 := AfterSet(Defaults(), "id", id).value;
    var s1 := ApplyAll(s0, config).value;
    ApplyAllKeepsAccessSet(s0, config);
    if Construct(id, config).value != s1 {
      OverrideSucceeds(s1);
      AccessFieldAfterSet(s1, "access_callback", Str(CAPABILITY_CHECK));
    }
  }
}
