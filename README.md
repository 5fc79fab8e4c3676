# WP_Route in Dafny

A model of `WP_Route`, the one class of the WP-Router WordPress plugin. A route binds an id and a
URL pattern (`path`) to three callbacks: one grants access, one renders the page, one gives the
title. The model covers the four deterministic parts of the class:

- **Property store** (modules `Store`, `Routes`). The route keeps twelve declared fields and an
  open-ended extension map. `set` validates a write. It then stores the value in the declared field
  if that field is set, and otherwise in the extension map. `get` reads the declared field, then the
  extension map, and otherwise throws. The constructor sets the id, checks that `path` and
  `page_callback` are present, and applies every configuration entry through `set`. If access
  arguments are given together with a truthy `access_callback`, it then makes
  `current_user_can` the access callback. `Routes.Route` is the mutable object. Its methods are
  proved against the value-level functions `Store.AfterSet`, `Store.Get` and `Store.Construct`.
- **Argument resolution** (module `Dispatch`, method `Routes.Route.GetQueryArgs`). Each argument
  descriptor is resolved in turn. A descriptor that names a public query variable becomes that
  variable's matched value, or null when it is unmatched. Any other descriptor is passed through
  unchanged.
- **Rewrite rule** (module `Rewrite`, methods `GenerateRewrite` and `RewriteRules`). The rule is
  `index.php?name=value&...&WP_Route=<id>`, keyed by the route's path. Integer values become
  capture-group placeholders through WordPress's `preg_index`, which the model takes as a parameter.
- **Execution pipeline** (module `Dispatch`). The stages are the access check, then the page
  render, then title resolution, and each stage can stop the run. Each stage returns its result
  together with the callbacks it invoked, so the lemmas can say which callbacks a run never reaches.

PHP values are the datatype `Php.Value` (null, booleans, integers, strings, arrays as ordered
key/value lists). `Php.Truthy` is PHP's boolean conversion and `Php.ToString` its string
conversion. Whether a value is callable, what a callback returns and what it echoes come from a
`Dispatch.Env` record of functions. `Dispatch.EnvOk` says what PHP guarantees of them: only a string
or an array can be callable. The matched request is `Dispatch.Query`: the matched query
variables and the list of public ones.

Where the behaviour of the code differs from a plain reading of its documentation, the model
follows the code:

- `get` and `set` test a declared field with `isset`, so a declared field that holds null counts as
  absent. `get` then looks in the extension map. `set` then writes to the extension map, and
  `set` never writes that field again (only `generate_rewrite`, which assigns `wp_rewrite`
  directly, can make a null field non-null).
- The id is validated before `path` and `page_callback`. A falsy id therefore makes construction
  fail with InvalidValue, not MissingField (`Store.ConstructNeedsRequired`).
- The id is not read-only: `set('id', v)` with a truthy `v` replaces it.
- Access arguments given without an `access_callback` entry leave the access callback at its
  default `TRUE`, so the route is open to everyone (`Dispatch.DefaultAccessOpen`).
- The default `title_arguments` is `array('')`. So by default the title callback is called with
  `''` and not with the static title (`Dispatch.DefaultTitleArguments`).

## Model

| member | source | states |
|---|---|---|
| `Store.FieldNamed` | WP_Route.class.php:11-22 | a property name denotes a declared field exactly when it is that field's PHP name; every other name denotes none |
| `Store.AfterSet` | WP_Route.class.php:77-89 | `set`: InvalidValue for a refused value; otherwise the value replaces the declared field when that field is set, and is stored in the extension map under its name when it is not |
| `Store.Get` | WP_Route.class.php:59-67 | `get` never returns null; it returns the declared field when that field is set, else the non-null extension entry; it throws NotFound exactly when neither exists |
| `Store.SetRejects` | WP_Route.class.php:78-83 | `set` throws InvalidValue exactly when the value is falsy for `id`/`path`/`page_callback` or is not an array for the four argument fields |
| `Store.SetThenGet` | WP_Route.class.php:84-88 | after a successful `set` of a non-null value, `get` of that name returns that value |
| `Store.SetFrame` | WP_Route.class.php:84-88 | a successful `set` leaves what `get` returns for every other name unchanged |
| `Store.SetPreserves` | WP_Route.class.php:77-89 | `set` keeps the required fields truthy and the argument fields arrays |
| `Store.SetIdOnDefaults` | WP_Route.class.php:34 | on a fresh route, `set('id', $id)` succeeds exactly for a truthy id and writes the declared `id` field |
| `Store.OverrideSucceeds` | WP_Route.class.php:47 | setting the access callback to `current_user_can` is never refused |
| `Store.ConfigValueAt` | WP_Route.class.php:37 | `$properties[name]` is the value of the configuration entry with that name |
| `Store.ConfigValueAbsent` | WP_Route.class.php:37 | `$properties[name]` is null when the configuration has no such entry |
| `Store.ApplyAll` | WP_Route.class.php:42-44 | the set loop applies the entries in order and stops at the first refused one; a failure is InvalidValue naming a configuration entry whose value is refused |
| `Store.ApplyAllSucceeds` | WP_Route.class.php:42-44 | the set loop succeeds exactly when every configuration entry passes validation |
| `Store.ApplyAllStops` | WP_Route.class.php:42-44 | once an entry is refused, the loop fails with that entry's error |
| `Store.ApplyAllPreserves` | WP_Route.class.php:42-44 | the set loop keeps the id truthy, `path` and `page_callback` non-null and the argument fields arrays |
| `Store.ApplyAllUntouched` | WP_Route.class.php:42-44 | a name the configuration does not mention reads the same after the loop |
| `Store.ApplyAllReadBack` | WP_Route.class.php:42-44 | with distinct keys, every entry with a non-null value is what `get` returns for its name after the loop |
| `Store.Construct` | WP_Route.class.php:33-50 | `set('id')`, the two required-field checks, the set loop, then the access override; it succeeds only with a truthy id, path and page callback, and fails only with InvalidValue("id"), MissingField of `path` or `page_callback`, or InvalidValue naming a configuration entry |
| `Store.ConstructNeedsRequired` | WP_Route.class.php:34-40 | construction fails when `path` or `page_callback` is missing or falsy: InvalidValue if the id is falsy, else MissingField naming the first missing field |
| `Store.ConstructSucceeds` | WP_Route.class.php:33-50 | construction succeeds exactly when the id, `path` and `page_callback` are truthy and every entry passes validation |
| `Store.ConstructReadsBack` | WP_Route.class.php:42-48 | after construction every non-null entry reads back as given, `access_callback` too unless the override at line 46 fired |
| `Store.ConstructValid` | WP_Route.class.php:33-50 | a constructed route has truthy id, path and page callback, array argument fields, and `get('path')`/`get('page_callback')` return the supplied values |
| `Store.RequiredReadsBack` | WP_Route.class.php:36-44 | after construction `path` and `page_callback` read back from their declared fields and are truthy |
| `Store.ConstructDelegatesAccess` | WP_Route.class.php:46-48 | with non-empty access arguments and a truthy `access_callback` entry, `get('access_callback')` is `current_user_can`; with the distinct keys of a PHP array, the declared field that `check_access` reads is `current_user_can` too |
| `Store.ConstructDefaultAccess` | WP_Route.class.php:46-48 | without an `access_callback` entry the declared access-callback field, and `get('access_callback')`, stay `TRUE`, whatever the access arguments |
| `Store.ConstructKeepsDenial` | WP_Route.class.php:42-48 | with an `access_callback => FALSE` entry, the declared access-callback field and `get('access_callback')` are `FALSE` after construction, whatever the access arguments |
| `Php.Truthy` | WP_Route.class.php:37 | PHP's conversion to boolean: null, `FALSE`, `0`, `''`, `'0'` and the empty array are false, everything else true |
| `Php.ToString` | WP_Route.class.php:212 | PHP's conversion to string: null and `FALSE` give `''`, `TRUE` gives `'1'`, integers their decimal notation, arrays `'Array'` |
| `Php.NatToString` | WP_Route.class.php:208-215 | a natural number is written as a non-empty string of decimal digits with no leading zero |
| `Php.IntToString` | WP_Route.class.php:208-215 | an integer is written as decimal digits, possibly after a minus sign |
| `Php.NatRoundTrip` | WP_Route.class.php:208-215 | reading back the decimal digits of a natural number gives that number |
| `Php.IntRoundTrip` | WP_Route.class.php:208-215 | reading back the decimal notation of an integer gives that integer |
| `Text.Join` | WP_Route.class.php:216 | `implode` with a one-character glue: the parts with the glue between consecutive ones |
| `Text.Split` | WP_Route.class.php:216 | every piece of an exploded string is free of the separator, and there is at least one piece |
| `Text.SplitPiece` | WP_Route.class.php:216 | a separator-free string explodes to itself alone |
| `Text.SplitAfterPiece` | WP_Route.class.php:216 | a separator-free piece followed by the separator explodes to that piece followed by the pieces of the rest |
| `Text.SplitJoin` | WP_Route.class.php:216 | exploding an imploded list of separator-free pieces gives the list back |
| `Text.JoinSplit` | WP_Route.class.php:216 | imploding the pieces of any string gives the string back |
| `Dispatch.IsAQueryVar` | WP_Route.class.php:182-188 | a descriptor names a query variable when it is a string in the list of public query variables |
| `Dispatch.Resolve` | WP_Route.class.php:167-177 | one argument per descriptor, in order; argument k is the matched value of a public query variable (null if unmatched), else descriptor k itself |
| `Dispatch.QueryArgs` | WP_Route.class.php:163-180 | one resolved argument per element of the descriptor field, so the list is empty exactly when the field holds no elements |
| `Dispatch.ResolveExample` | WP_Route.class.php:163-188 | `['foo', 'literal']`, with `foo` public and matched to `'bar'`, resolves to `['bar', 'literal']` |
| `Dispatch.CheckAccess` | WP_Route.class.php:151-161 | `FALSE` denies without a call; a callable callback decides by the truthiness of its result on the resolved access arguments; any other value decides by its own truthiness |
| `Dispatch.GetPage` | WP_Route.class.php:118-132 | no page when the callback is not callable or returns `FALSE`; otherwise the echoed text followed by the returned value |
| `Dispatch.GetTitle` | WP_Route.class.php:134-149 | the static title when the callback is not callable or returns `FALSE`; otherwise its result, called with the resolved title arguments, or `[title]` when there are none |
| `Dispatch.Execute` | WP_Route.class.php:97-116 | the access check, then the page, then the title, ending early on denial or on no page |
| `Dispatch.AccessFalseDenies` | WP_Route.class.php:151-153 | an access callback of `FALSE` denies with no callback invoked at all |
| `Dispatch.NonCallableDecides` | WP_Route.class.php:155-159 | an access callback that PHP cannot call (`TRUE`, null, an integer) decides access by its own truthiness, with no call |
| `Dispatch.ConfiguredDenialDenies` | WP_Route.class.php:151-153 | a route constructed with `access_callback => FALSE` denies every request before any callback runs |
| `Dispatch.DelegatedAccessCalls` | WP_Route.class.php:152-157 | a route constructed with access arguments and a truthy `access_callback` entry, when `current_user_can` is callable, makes exactly one access call, to `current_user_can` on the resolved access arguments, and is denied exactly when that call returns a falsy value |
| `Dispatch.DefaultAccessOpen` | WP_Route.class.php:155-159 | a route constructed without an `access_callback` entry passes the access check without any call, whatever its access arguments |
| `Dispatch.ExecuteOrder` | WP_Route.class.php:97-116 | execution stops at the first failing stage: a denied run invokes at most the access callback, a suppressed page never reaches the title callback, and a served page invokes access, page and title callbacks in that order |
| `Dispatch.EchoNeverSuppresses` | WP_Route.class.php:123-129 | changing what the page callback echoes never changes whether a run is denied or ends without a page: only the returned value can suppress it |
| `Dispatch.ServedPage` | WP_Route.class.php:104-131 | a served page is the echoed text followed by the returned value of the page-callback call recorded right after the access check, on the resolved page arguments, and that call did not return `FALSE` |
| `Dispatch.TitleFallback` | WP_Route.class.php:134-149 | the static title when the title callback is not callable or returns `FALSE`, else the callback's result; the callback is called once, with `[title]` when no title arguments are declared, else with one resolved argument per descriptor |
| `Dispatch.DefaultTitleArguments` | WP_Route.class.php:134-149 | with the default `title_arguments`, the title callback receives `''` rather than the static title |
| `Rewrite.Pairs` | WP_Route.class.php:208-214 | the foreach of `generate_rewrite`: one `name=value` piece per query variable, integers sent through `preg_index` |
| `Rewrite.Rule` | WP_Route.class.php:205-218 | `index.php?` followed by the pieces and `WP_Route=<id>`, imploded with `&` |
| `Rewrite.PairsAt` | WP_Route.class.php:208-214 | the loop writes one `name=value` pair per query variable, in order, with integers replaced by their placeholder |
| `Rewrite.PairsLength` | WP_Route.class.php:208-214 | the loop writes exactly one pair per query variable |
| `Rewrite.RuleParses` | WP_Route.class.php:205-218 | the rule starts with `index.php?`; when no name or value holds `&`, splitting the rest at `&` gives back each `name=value` pair in order and then `WP_Route=<id>` |
| `Rewrite.RuleExample` | WP_Route.class.php:205-218 | id `my_route` with `x => 1, y => 'z'` gives `index.php?x=<placeholder 1>&y=z&WP_Route=my_route` |
| `Routes.Route.Blank` | WP_Route.class.php:11-23 | a fresh route holds the declared defaults: empty strings, `title_callback` `'__'`, `title_arguments` `array('')`, access `TRUE`, no extension entries |
| `Routes.Route.New` | WP_Route.class.php:33-50 | construction yields a valid route in exactly the state `Store.Construct` describes, whose `get('path')` is the supplied path, or throws exactly the error it describes |
| `Routes.Route.SetAll` | WP_Route.class.php:42-44 | the set loop succeeds exactly when `Store.ApplyAll` does, leaving exactly its state, and otherwise throws its error |
| `Routes.Route.Set` | WP_Route.class.php:77-89 | a refused value throws InvalidValue and changes nothing; otherwise the new state is `Store.AfterSet` of the old, `get` returns the written non-null value, and validity is kept |
| `Routes.Route.SetField` | WP_Route.class.php:85 | a write to a declared field changes that field only |
| `Routes.Route.GetQueryArgs` | WP_Route.class.php:163-180 | the loop builds exactly the resolved argument list, one argument per descriptor |
| `Routes.Route.GenerateRewrite` | WP_Route.class.php:205-218 | the loop caches exactly the rule for the current query variables and id |
| `Routes.Route.RewriteRules` | WP_Route.class.php:193-198 | the result is the single entry `path => rule`, and only the cached rule changes |
| `Routes.RewriteRulesTwice` | WP_Route.class.php:193-198 | two calls with nothing in between return the same rules |

## Left out

- Output buffering (`ob_start`/`ob_get_clean`) is I/O. A page call's echoed text is `Env.echoed`. Text echoed by the access and title callbacks is not captured.
- Calls to callbacks and `is_callable` run foreign code. They are the functions of `Dispatch.Env`. Callbacks are taken to have no side effects on the route, and a callback's result and output depend only on its arguments: two calls of one callback on the same arguments in one run answer alike. Exceptions they throw are not modelled.
- `preg_index` reads the global `$wp_rewrite`. It is the parameter `pregIndex`.
- The localisation helper `self::__` and the base class `WP_Router_Utility` are not part of this model. Exception messages are replaced by the tags of `Store.Error`.
- The TODO page-setup and template steps of `execute` have no behaviour. `execute` is modelled as returning what would be handed to them: denial, no page, or the page text and title.
- Floats, objects and resources are not `Php.Value`s. A closure object cannot stand for a callback, but a function name or an array can.
- `in_array` in `is_a_query_var` compares loosely. Here only a string descriptor can name a query variable, and only by exact string equality.
- PHP's coercion of array keys (numeric strings to integers, and the path used as the key of the rewrite map) is not modelled. The rewrite map is keyed by the path value itself.
- Routes.Route.New: configuration keys are strings and distinct, as the keys of a PHP string-keyed array are. A configuration with integer keys, which PHP would pass to `set` as integer property names, is not modelled.
- Routes.Route.Set: the property name `properties`, which names the extension map itself, is excluded. PHP would replace the map with an arbitrary value, and how later writes behave then depends on that value's type and on the PHP version.
- Store.Get: the property name `properties` is excluded, for the same reason.
- Store.AfterSet: the property name `properties` is excluded, for the same reason.
- PHP notices and warnings are not modelled: "Undefined array key" at WP_Route.class.php:46 when access arguments come without an `access_callback` entry (the missing entry reads as null), and "Array to string conversion" at lines 131, 212 and 215 (the array, a value or the id, becomes `'Array'`).
