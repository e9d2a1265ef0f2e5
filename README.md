# RESTful resource runtime and access-token lifecycle, in Dafny

This project models the core of a Drupal RESTful module:

- **RestfulBase**, the generic resource runtime. `process` routes a request path and verb to a
  handler method through the ordered `$controllers` patterns, or fails with a bad-request error.
  `getEntity` validates an entity id against the configured entity type and bundle. It then
  projects the entity onto the public field map, under the client's comma-separated `fields`
  allow-list. `getPublicFields` layers `id`, `label` and `self` under the resource's own fields.
- **AccessToken__1_0**, the access-token resource. Its one route is GET on the empty path,
  handled by `getOrCreateToken`. That handler finds one token of the caller, deletes an expired
  one when configured to, and creates a new token when no live token remains.

Files:

- `common.dfy`: the `Option`/`Result` wrappers, the caller's `Account` and the error taxonomy.
- `php.dfy`: the PHP built-ins the code depends on, with PHP semantics written out. These are
  string truthiness (`""` and `"0"` are falsy), `empty()`, `strtolower`, `ucfirst` and
  `explode`/`implode` on commas.
- `routing.dfy`: specification functions for the routing scan, with lemmas.
- `fields.dfy`: field maps, PHP's `+=` array union and the projection, with lemmas.
- `restful_base.dfy`: the resource as a value, with its operations. Routing and the projection
  keep the source's `foreach` loops as `while` loops, proved against the specification functions.
- `access_token.dfy`: the `TokenStore` class. Its `tokens` map is updated in place by
  `Delete` and `GenerateAccessToken`. Also here: the `GetOrCreateToken` method, the `Lifecycle`
  function it is proved against, and the lifecycle lemmas.

Routing facts worth knowing:

- POST on a numeric path resolves to the `postEntity` stub, which RestfulBase defines (see
  `RestfulBase.DefaultRoutingPostEntity`).
- Each `$controllers` pattern maps to one controller name, which is prefixed with the
  lower-cased verb.
- A pattern or controller spelled `"0"` is falsy in PHP. Such a pattern therefore only matches
  by equality, and a selected controller `"0"` resolves to nothing.

## Model

| member | source | states |
|---|---|---|
| `Php.Truthy` | plugins/restful/RestfulBase.php:46 | A truthy string is non-empty, and every string of two or more characters is truthy (only `""` and `"0"` are falsy). |
| `Php.Empty` | plugins/restful/RestfulBase.php:89 | A value is empty exactly when it is null, false, 0, `""`, `"0"` or the empty list. |
| `Php.Lower` | plugins/restful/RestfulBase.php:56 | `strtolower` keeps the length and maps each character through the ASCII lower-casing of `LowerChar`. |
| `Php.Ucfirst` | plugins/restful/RestfulBase.php:56 | `ucfirst` keeps the length and every character after the first, and changes the first at most in case. |
| `Routing.PatternMatches` | plugins/restful/RestfulBase.php:46 | An equal path always matches. A falsy pattern (`""`, `"0"`) matches only by equality, so the empty pattern matches only the empty path. |
| `Routing.SelectController` | plugins/restful/RestfulBase.php:44-50 | A selected controller belongs to some route whose pattern matches the path. |
| `Routing.SelectControllerFirstMatch` | plugins/restful/RestfulBase.php:44-50 | The scan selects nothing iff no pattern matches. Otherwise it selects the controller of the first matching route in declaration order, and such a first route exists. |
| `Routing.SelectControllerIgnoresLaterRoutes` | plugins/restful/RestfulBase.php:45-49 | Once route `i` is the first match, appending or replacing routes after it does not change the selection. |
| `Routing.MethodName` | plugins/restful/RestfulBase.php:56 | The handler name has the length of verb plus controller and starts with the lower-cased verb. |
| `Routing.MethodExists` | plugins/restful/RestfulBase.php:57 | A method whose exact name is declared exists; the test ignores ASCII case. |
| `Routing.MethodNameShape` | plugins/restful/RestfulBase.php:56 | The handler name has the length of verb plus controller and begins with the lower-cased verb. Ignoring case, it is verb followed by controller. |
| `Routing.ResolveMethod` | plugins/restful/RestfulBase.php:43-58 | A resolved name always names an existing method, and no selected controller resolves to nothing. |
| `Routing.ResolveMethodSpec` | plugins/restful/RestfulBase.php:43-58 | No matching pattern resolves to nothing. Given the first match, the result is `strtolower(verb).ucfirst(controller)` exactly when the controller is truthy and such a method exists (case-insensitively), else nothing. |
| `RestfulBase.GetControllerFromPath` | plugins/restful/RestfulBase.php:43-58 | The `foreach`/`break` scan returns exactly the resolved handler name of `Routing.ResolveMethodSpec`. |
| `RestfulBase.Process` | plugins/restful/RestfulBase.php:30-41 | Fails with `BadRequest` iff no handler name resolves, whether from no route or from no method. Otherwise it invokes exactly the resolved handler with the path, request and account. |
| `RestfulBase.DefaultRoutingList` | plugins/restful/RestfulBase.php:21-24 | With the default controllers, GET on the empty path resolves to `getList`. |
| `RestfulBase.DefaultRoutingGetEntity` | plugins/restful/RestfulBase.php:21-24 | With the default controllers, GET on `42` resolves to `getEntity`. |
| `RestfulBase.DefaultRoutingPostEntity` | plugins/restful/RestfulBase.php:103-105 | With the default controllers, POST on `42` resolves to the `postEntity` stub. |
| `RestfulBase.DefaultRoutingUnknownVerb` | plugins/restful/RestfulBase.php:56-57 | DELETE on `42` resolves to nothing, because RestfulBase has no `deleteEntity`. |
| `RestfulBase.IsValidEntity` | plugins/restful/RestfulBase.php:107-124 | Valid iff an entity of the resource's type exists under the id and its bundle is the configured one. An unknown id gives `EntityNotFound`; it is checked first. A known id with another bundle gives `EntityMismatch`. |
| `Fields.Union` | plugins/restful/RestfulBase.php:129-133 | `$a += $b` is at least as long as `a` and at most as long as `a` and `b` together. |
| `Fields.UnionKeepsPrefix` | plugins/restful/RestfulBase.php:129-133 | `$a += $b` keeps every entry of `a` in place and in order, as a prefix of the result. |
| `Fields.UnionKeys` | plugins/restful/RestfulBase.php:129-133 | The keys of `$a += $b` are exactly those of `a` together with those of `b`. |
| `Fields.UnionAddsMissing` | plugins/restful/RestfulBase.php:129-133 | Every entry after those of `a` is an entry of `b` whose key `a` lacks. |
| `Fields.UnionUniqueKeys` | plugins/restful/RestfulBase.php:129-133 | If `a` has distinct keys, so does `$a += $b`. |
| `Fields.UnionAppendsMissing` | plugins/restful/RestfulBase.php:129-133 | With distinct keys in `b`, `$a += $b` is `a` followed by the entries of `b` whose key `a` lacks, in `b`'s order. |
| `Fields.MissingDefaults` | plugins/restful/RestfulBase.php:129-133 | When none of `id`, `label`, `self` is declared, all three default entries are missing, in that order. |
| `RestfulBase.GetPublicFields` | plugins/restful/RestfulBase.php:126-136 | The resource's fields come first, unchanged. A falsy entity type returns them as they are. Otherwise the result is the resource's fields followed by the default entries whose key is absent, in the order `id`, `label`, `self`; with none of the three declared, all three follow in that order. |
| `Php.Explode` | plugins/restful/RestfulBase.php:69 | `explode(',', s)` returns at least one piece, and no piece contains a comma. |
| `Php.ImplodeExplode` | plugins/restful/RestfulBase.php:69 | Joining the pieces of `explode` with commas gives back the parameter. |
| `Php.ExplodeImplode` | plugins/restful/RestfulBase.php:69 | Splitting a comma-join of comma-free names gives back the names. |
| `RestfulBase.LimitFields` | plugins/restful/RestfulBase.php:69 | The allow-list is empty iff the `fields` parameter is absent or falsy. A non-empty list joins back to the parameter, and no name in it contains a comma. |
| `Fields.ProjectField` | plugins/restful/RestfulBase.php:73-97 | A field outside a non-empty allow-list is skipped. A `value` field with no property throws `PropertyMissing`. A `value` field is omitted iff its value is empty, and otherwise emits that value. A wrapper-method field emits the method's result verbatim, even when empty; the method is found whatever the case of its name, and a missing one throws `UndefinedMethod`. |
| `Fields.Project` | plugins/restful/RestfulBase.php:71-98 | A successful projection has at most one entry per field of the map. |
| `Fields.ProjectKeysInOrder` | plugins/restful/RestfulBase.php:69-98 | Output keys are a subsequence of the field map's keys, in its order. With a non-empty allow-list, every output key is in it. |
| `Fields.ProjectEntries` | plugins/restful/RestfulBase.php:71-98 | On success, every field's iteration succeeded. Every field that emits a value appears with that value. Every output pair comes from some field emitting it. |
| `Fields.ProjectOmitsSkipped` | plugins/restful/RestfulBase.php:85-91 | With distinct keys, a field whose iteration emits nothing (not allowed, or an empty value) never appears in the output. |
| `Fields.ProjectFirstError` | plugins/restful/RestfulBase.php:85-87 | The projection throws `e` iff some field's iteration throws `e` and every field before it succeeded. So the first failing field in map order decides the error. |
| `Fields.ProjectSingleField` | plugins/restful/RestfulBase.php:69-76 | With the allow-list naming one field whose value is emitted, the output is exactly that one entry. Every other field is skipped before it could throw. |
| `RestfulBase.ProjectStep` | plugins/restful/RestfulBase.php:71-98 | One loop iteration: a throw ends the result with that error. A skip leaves the collected prefix. An emitted value extends the prefix by that entry. |
| `RestfulBase.ProjectFields` | plugins/restful/RestfulBase.php:67-100 | The `foreach` with `continue`/throw returns exactly the projection `Fields.Project` of the field map. |
| `RestfulBase.GetEntity` | plugins/restful/RestfulBase.php:63-101 | Validation comes before any projection: an unknown id gives `EntityNotFound`, a wrong bundle `EntityMismatch`. A valid entity gives its projection onto the public fields under the request's allow-list. |
| `RestfulBase.ValidResourceOmitsSkipped` | plugins/restful/RestfulBase.php:85-91 | For a resource whose public fields have distinct keys (as a PHP array does), a public field that emits nothing is absent from the projected response. |
| `RestfulBase.Access` | plugins/restful/RestfulBase.php:142-144 | Access is always granted. |
| `AccessToken.ControllersInfo` | modules/restful_token_auth/src/Plugin/resource/AccessToken__1_0.php:65-71 | `controllersInfo` has one route, on the empty pattern, whose only verb is GET, handled by `getOrCreateToken`. |
| `AccessToken.OnlyGetOrCreateRoute` | modules/restful_token_auth/src/Plugin/resource/AccessToken__1_0.php:65-71 | The resource declares one route. Its only handler is `getOrCreateToken`, for GET on the empty path. |
| `AccessToken.TokenStore.Query` | modules/restful_token_auth/src/Plugin/resource/AccessToken__1_0.php:84-95 | Returns nothing iff no `access_token` token of the uid exists. Otherwise it returns the id of some such token, in unspecified order. |
| `AccessToken.TokenStore.Delete` | modules/restful_token_auth/src/Plugin/resource/AccessToken__1_0.php:102 | Removes exactly that token and nothing else. |
| `AccessToken.TokenStore.GenerateAccessToken` | modules/restful_token_auth/src/Plugin/resource/AccessToken__1_0.php:111-113 | Adds exactly one token, owned by the uid with bundle `access_token`, under a fresh id, and returns that id. |
| `AccessToken.GetOrCreateToken` | modules/restful_token_auth/src/Plugin/resource/AccessToken__1_0.php:77-118 | Keeps the store's id invariant. The token it found is a legal query answer. The new store and returned id are those of `Lifecycle` for that answer, the clock and the delete flag. |
| `AccessToken.Lifecycle` | modules/restful_token_auth/src/Plugin/resource/AccessToken__1_0.php:92-114 | The returned id always names a stored token. With no token found, or an expired one, it is a new token of the uid with the given value and expiry, and the next id advances; a live found token leaves the store and the next id unchanged. |
| `AccessToken.CreatesWhenAbsent` | modules/restful_token_auth/src/Plugin/resource/AccessToken__1_0.php:109-115 | With no token for the uid, exactly one new token owned by the uid is added under a fresh id, and that id is returned. |
| `AccessToken.ReusesLiveToken` | modules/restful_token_auth/src/Plugin/resource/AccessToken__1_0.php:94-99 | A found token whose expiry is unset, or not strictly before the request time (`expire == now` included), is reused. The store is unchanged and its id is returned. |
| `AccessToken.ReplacesExpiredToken` | modules/restful_token_auth/src/Plugin/resource/AccessToken__1_0.php:99-113 | An expired token is removed iff the delete flag is on, and otherwise stays untouched. In both cases a new token for the uid, with a different id, is created and returned. |
| `AccessToken.LifecycleFrame` | modules/restful_token_auth/src/Plugin/resource/AccessToken__1_0.php:94-114 | At most the found token is deleted and at most the returned token is created. Every token present before and after is unchanged. |
| `AccessToken.KeepsOnePerUid` | modules/restful_token_auth/src/Plugin/resource/AccessToken__1_0.php:92-114 | With the delete flag on, a store with at most one access token per uid keeps that property. |
| `AccessToken.OrphanWhenNotDeleting` | modules/restful_token_auth/src/Plugin/resource/AccessToken__1_0.php:100-113 | With the delete flag off, an expired token stays beside its replacement, so the uid owns two tokens. |
| `AccessToken.RepeatReturnsSameToken` | modules/restful_token_auth/src/Plugin/resource/AccessToken__1_0.php:85-115 | With the delete flag on, a later call made while the returned token is still live finds and reuses it. Nothing changes and the same id comes back. |
| `AccessToken.Scenario` | modules/restful_token_auth/src/Plugin/resource/AccessToken__1_0.php:77-118 | uid 5 with no token gets token 1. A call 10 seconds later returns token 1 unchanged. A call after its expiry deletes it and returns a new token 2. |

## Left out

- The ambient current user: `process` falls back to the global user when no account is given. Here the account is always an explicit parameter.
- Regular-expression semantics of `preg_match`: a parameter `regex(pattern, path)`. Only the exact-match test and the truthiness guard are modelled concretely.
- PHP's loose `==` between numeric strings, and the integer coercion of numeric array keys: patterns, bundles and allow-list names are compared as plain strings (`in_array` is exact membership).
- `method_exists` is membership, ignoring ASCII case, in a given set of method names. Wrapper-method results are keyed by the lower-cased method name, which is how PHP finds a method whatever its spelling. The dynamic call `$this->{$method_name}(...)` is returned as an `Invocation` rather than executed.
- The entity API (`entity_metadata_wrapper`, `entity_load_single`, `entity_extract_ids`, entity queries): replaced by a map from (entity type, id) to bundle and wrapper. The wrapper holds a property map and a map of method results.
- `empty()` on floats, objects and wrapper objects is not modelled; values are null, booleans, integers, strings and lists.
- A field whose `$info` holds a `wrapper_method` key set to null is not distinguished from an absent key.
- The `getList` and `postEntity` stubs (empty bodies) and `getRequest`, which reads an undeclared property. They appear only as method names that routing can resolve to.
- Exception message texts (`format_string`) and HTTP status codes: errors are the constructors of `Common.Error`.
- The AccessToken__1_0 constructor (the `menuItem` path from `variable_get`) and the plugin annotation metadata.
- AccessToken.GetOrCreateToken: returns the id of the token to show, not `$this->view($id)`. The parent class that renders the view is not part of this model.
- The parent class TokenAuthenticationBase, and how it routes a `controllersInfo` verb map, are not part of this model. The route is stated as the data `controllersInfo` returns.
- `REQUEST_TIME` and the `restful_token_auth_delete_expired_tokens` setting are parameters.
- Token value generation and the new token's expiry are opaque; they are parameters of `GenerateAccessToken`. The storage's id assignment is modelled as an increasing counter.
- The order in which the limited query picks among several matching tokens is unspecified; `Query` picks any match.
- Concurrency: the non-atomic find-then-create. Each call is one sequential step over the store.
