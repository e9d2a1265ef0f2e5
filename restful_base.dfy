/**
 * The generic resource runtime RestfulBase: request dispatch, path routing, entity validation,
 * the public field map and the projection of an entity onto it.
 *
 * A resource is never changed after construction, so it is a value here; its two `foreach`
 * loops (the routing scan and the projection) are methods proved against the specification
 * functions of the Routing and Fields modules.
 */
module RestfulBase {
  import opened Common
  import opened Php
  import opened Routing
  import opened Fields

  /** The plugin definition entries the runtime reads; an absent entry is the empty string. */
  datatype Plugin = Plugin(entityType: string, bundle: string, resourceLabel: string)

  /**
   * A resource: its plugin definition, its own public fields, its routing patterns and the
   * names of the methods its class defines (what `method_exists` can find).
   */
  datatype Resource = Resource(plugin: Plugin, publicFields: FieldMap, controllers: seq<Route>, methods: set<string>) {
    /** The public fields come from a PHP array, so their keys are distinct. */
    predicate Valid() {
      UniqueKeys(publicFields)
    }
  }

  /** A request's parameters, such as `fields=a,b`. */
  datatype Request = Request(params: map<string, string>)

  /** A stored entity: its bundle and the wrapper over its properties. */
  datatype StoredEntity = StoredEntity(bundle: string, view: EntityView)

  /** The entity storage, keyed by (entity type, entity id). */
  type EntityStore = map<(string, string), StoredEntity>

  /** The handler call that `process` ends in: the resolved method, given the path, request and account. */
  datatype Invocation = Invocation(handler: string, path: string, request: Request, account: Account)

  /** The default routing patterns: the empty path lists, a numeric path addresses one entity. */
  const DefaultControllers: seq<Route> := [Route("", "list"), Route("\\d+", "entity")]

  /** The methods RestfulBase itself defines. */
  const BaseMethods: set<string> := {
    "__construct", "process", "getControllerFromPath", "getList", "getEntity", "postEntity",
    "isValidEntity", "getPublicFields", "getRequest", "access"
  }

  /**
   * getControllerFromPath: scans the routes in declaration order, stops at the first whose pattern
   * equals or (for a truthy pattern) regex-matches the path, and returns the handler name built from
   * the verb and that route's controller when such a method exists.
   */
  method GetControllerFromPath(res: Resource, path: string, verb: string, regex: Regex) returns (name: Option<string>)
    ensures name == ResolveMethod(res.controllers, path, verb, regex, res.methods)
  {
    var routes := res.controllers;
    var selected: Option<string> := None;
    var i := 0;
    while i < |routes|
      invariant 0 <= i <= |routes|
      invariant SelectController(routes, path, regex) == SelectController(routes[i..], path, regex)
    {
      if PatternMatches(routes[i].pattern, path, regex) {
        selected := Some(routes[i].controller);
        break;
      }
      assert routes[i..][1..] == routes[i + 1..];
      i := i + 1;
    }
    if selected.None? || !Truthy(selected.value) {
      return None;
    }
    var methodName := Lower(verb) + Ucfirst(selected.value);
    name := if MethodExists(res.methods, methodName) then Some(methodName) else None;
  }

  /**
   * process: fails with the same bad-request error whether no route matches or no handler method
   * exists; otherwise calls exactly the resolved handler with the path, request and account.
   */
  method Process(res: Resource, path: string, request: Request, verb: string, account: Account, regex: Regex)
    returns (r: Result<Invocation>)
    ensures r.Err? <==> ResolveMethod(res.controllers, path, verb, regex, res.methods).None?
    ensures r.Err? ==> r.error == BadRequest
    ensures r.Ok? ==> r.value == Invocation(ResolveMethod(res.controllers, path, verb, regex, res.methods).value, path, request, account)
  {
    var methodName := GetControllerFromPath(res, path, verb, regex);
    if methodName.None? {
      return Err(BadRequest);
    }
    r := Ok(Invocation(methodName.value, path, request, account));
  }

  /**
   * isValidEntity: the id must name a stored entity of the resource's type (checked first) and that
   * entity's bundle must be the configured one; both failures are unprocessable-entity errors.
   */
  function IsValidEntity(res: Resource, store: EntityStore, entityId: string): (r: Result<()>)
    ensures r.Ok? <==> (res.plugin.entityType, entityId) in store && store[(res.plugin.entityType, entityId)].bundle == res.plugin.bundle
    ensures (res.plugin.entityType, entityId) !in store ==> r == Err(EntityNotFound(entityId))
    ensures (res.plugin.entityType, entityId) in store && store[(res.plugin.entityType, entityId)].bundle != res.plugin.bundle ==>
              r == Err(EntityMismatch(entityId))
  {
    var key := (res.plugin.entityType, entityId);
    if key !in store then Err(EntityNotFound(entityId))
    else if store[key].bundle != res.plugin.bundle then Err(EntityMismatch(entityId))
    else Ok(())
  }

  /**
   * getPublicFields: the resource's own fields unchanged and first; for an entity-backed resource
   * `id`, `label` and `self` follow, each only when the resource did not declare that key.
   */
  function GetPublicFields(res: Resource): (r: FieldMap)
    ensures |res.publicFields| <= |r| && r[..|res.publicFields|] == res.publicFields
    ensures !Truthy(res.plugin.entityType) ==> r == res.publicFields
    ensures Truthy(res.plugin.entityType) ==>
              forall k :: k in Keys(r) <==> k in Keys(res.publicFields) || k in ["id", "label", "self"]
    ensures forall i :: |res.publicFields| <= i < |r| ==>
              r[i] in DefaultFields && r[i].name !in Keys(res.publicFields)
    ensures UniqueKeys(res.publicFields) ==> UniqueKeys(r)
    ensures Truthy(res.plugin.entityType) ==> r == res.publicFields + Missing(res.publicFields, DefaultFields)
    ensures (Truthy(res.plugin.entityType) && "id" !in Keys(res.publicFields) &&
             "label" !in Keys(res.publicFields) && "self" !in Keys(res.publicFields)) ==>
              r == res.publicFields + DefaultFields
  {
    if Truthy(res.plugin.entityType) then
      UnionAppendsMissing(res.publicFields, DefaultFields);
      MissingDefaults(res.publicFields);
      UnionKeepsPrefix(res.publicFields, DefaultFields);
      UnionKeys(res.publicFields, DefaultFields);
      UnionAddsMissing(res.publicFields, DefaultFields);
      UnionUniqueKeys(res.publicFields, DefaultFields);
      assert Keys(DefaultFields) == ["id", "label", "self"];
      Union(res.publicFields, DefaultFields)
    else res.publicFields
  }

  /**
   * The allow-list: the comma-separated `fields` parameter, empty when it is absent or falsy;
   * a non-empty list joins back to the parameter.
   */
  function LimitFields(request: Request): (limit: seq<string>)
    ensures limit == [] <==> !("fields" in request.params && Truthy(request.params["fields"]))
    ensures limit != [] ==> Implode(limit) == request.params["fields"]
    ensures forall name :: name in limit ==> ',' !in name
  {
    if "fields" in request.params && Truthy(request.params["fields"]) then
      ImplodeExplode(request.params["fields"]);
      Explode(request.params["fields"])
    else []
  }

  /** The result of one projection pass prefixed by the entries already collected. */
  function Prepend(done: Values, r: Result<Values>): Result<Values> {
    match r
    case Ok(rest) => Ok(done + rest)
    case Err(e) => Err(e)
  }

  /** One more field of the loop: the collected prefix absorbs the field's own outcome. */
  lemma ProjectStep(fields: FieldMap, i: int, limit: seq<string>, view: EntityView, done: Values)
    requires 0 <= i < |fields|
    ensures ProjectField(fields[i], limit, view).Err? ==>
              Prepend(done, Project(fields[i..], limit, view)) == Err(ProjectField(fields[i], limit, view).error)
    ensures ProjectField(fields[i], limit, view) == Ok(None) ==>
              Prepend(done, Project(fields[i..], limit, view)) == Prepend(done, Project(fields[i + 1..], limit, view))
    ensures ProjectField(fields[i], limit, view).Ok? && ProjectField(fields[i], limit, view).value.Some? ==>
              Prepend(done, Project(fields[i..], limit, view)) ==
                Prepend(done + [(fields[i].name, ProjectField(fields[i], limit, view).value.value)], Project(fields[i + 1..], limit, view))
  {
    assert fields[i..][0] == fields[i] && fields[i..][1..] == fields[i + 1..];
    if ProjectField(fields[i], limit, view).Ok? && ProjectField(fields[i], limit, view).value.Some? {
      var entry := (fields[i].name, ProjectField(fields[i], limit, view).value.value);
      if Project(fields[i + 1..], limit, view).Ok? {
        var rest := Project(fields[i + 1..], limit, view).value;
        assert done + ([entry] + rest) == (done + [entry]) + rest;
      }
    }
  }

  /**
   * The `foreach` of getEntity: walks the fields in order, skipping fields outside the allow-list,
   * throwing on a missing property, omitting empty property values and copying wrapper-method
   * results verbatim.
   */
  method ProjectFields(fields: FieldMap, limitFields: seq<string>, wrapper: EntityView) returns (r: Result<Values>)
    ensures r == Project(fields, limitFields, wrapper)
  {
    var values: Values := [];
    var i := 0;
    assert fields[0..] == fields;
    assert Prepend(values, Project(fields, limitFields, wrapper)) == Project(fields, limitFields, wrapper) by {
      if Project(fields, limitFields, wrapper).Ok? {
        assert [] + Project(fields, limitFields, wrapper).value == Project(fields, limitFields, wrapper).value;
      }
    }
    while i < |fields|
      invariant 0 <= i <= |fields|
      invariant Project(fields, limitFields, wrapper) == Prepend(values, Project(fields[i..], limitFields, wrapper))
    {
      var field := fields[i];
      ProjectStep(fields, i, limitFields, wrapper, values);
      if limitFields != [] && field.name !in limitFields {
        i := i + 1;
        continue;
      }
      var wrapperMethod := if field.info.wrapperMethod.Some? then field.info.wrapperMethod.value else "value";
      var value: Value;
      if wrapperMethod == "value" {
        var property := field.info.property;
        if property.None? || property.value !in wrapper.properties {
          return Err(PropertyMissing(property));
        }
        value := wrapper.properties[property.value];
        if Empty(value) {
          i := i + 1;
          continue;
        }
      } else {
        if Lower(wrapperMethod) !in wrapper.methods {
          return Err(UndefinedMethod(wrapperMethod));
        }
        value := wrapper.methods[Lower(wrapperMethod)];
      }
      values := values + [(field.name, value)];
      i := i + 1;
    }
    assert fields[i..] == [];
    assert values + [] == values;
    r := Ok(values);
  }

  /**
   * getEntity: validates the entity before any projection (an unknown id first, then a wrong
   * bundle), then projects it onto the public fields under the request's allow-list.
   */
  method GetEntity(res: Resource, store: EntityStore, entityId: string, request: Request) returns (r: Result<Values>)
    ensures (res.plugin.entityType, entityId) !in store ==> r == Err(EntityNotFound(entityId))
    ensures (res.plugin.entityType, entityId) in store && store[(res.plugin.entityType, entityId)].bundle != res.plugin.bundle ==>
              r == Err(EntityMismatch(entityId))
    ensures IsValidEntity(res, store, entityId).Ok? ==>
              r == Project(GetPublicFields(res), LimitFields(request), store[(res.plugin.entityType, entityId)].view)
  {
    var valid := IsValidEntity(res, store, entityId);
    if valid.Err? {
      return Err(valid.error);
    }
    var wrapper := store[(res.plugin.entityType, entityId)].view;
    var limitFields := LimitFields(request);
    r := ProjectFields(GetPublicFields(res), limitFields, wrapper);
  }

  /**
   * In a valid resource, a public field whose iteration emits nothing (outside the allow-list, or an
   * empty property value) is absent from the projected response.
   */
  lemma ValidResourceOmitsSkipped(res: Resource, limit: seq<string>, view: EntityView, i: int)
    requires res.Valid() && 0 <= i < |GetPublicFields(res)|
    requires Project(GetPublicFields(res), limit, view).Ok?
    requires ProjectField(GetPublicFields(res)[i], limit, view) == Ok(None)
    ensures GetPublicFields(res)[i].name !in OutKeys(Project(GetPublicFields(res), limit, view).value)
  {
    ProjectOmitsSkipped(GetPublicFields(res), limit, view, i);
  }

  /** access: the base implementation grants every request. */
  function Access(res: Resource, account: Account): (granted: bool)
    ensures granted
  {
    true
  }

  /** With the default controllers, GET on the empty path reaches `getList`. */
  lemma DefaultRoutingList(regex: Regex)
    ensures ResolveMethod(DefaultControllers, "", "GET", regex, BaseMethods) == Some("getList")
  {
    assert SelectController(DefaultControllers, "", regex) == Some("list");
    assert Lower("GET") == "get" && Ucfirst("list") == "List";
    assert MethodName("GET", "list") == "getList";
    assert "getList" in BaseMethods;
  }

  /** With the default controllers, GET on a numeric path reaches `getEntity`. */
  lemma DefaultRoutingGetEntity(regex: Regex)
    requires regex("\\d+", "42")
    ensures ResolveMethod(DefaultControllers, "42", "GET", regex, BaseMethods) == Some("getEntity")
  {
    assert SelectController(DefaultControllers, "42", regex) == Some("entity");
    assert Lower("GET") == "get" && Ucfirst("entity") == "Entity";
    assert MethodName("GET", "entity") == "getEntity";
    assert "getEntity" in BaseMethods;
  }

  /** With the default controllers, POST on a numeric path reaches the `postEntity` stub. */
  lemma DefaultRoutingPostEntity(regex: Regex)
    requires regex("\\d+", "42")
    ensures ResolveMethod(DefaultControllers, "42", "POST", regex, BaseMethods) == Some("postEntity")
  {
    assert SelectController(DefaultControllers, "42", regex) == Some("entity");
    assert Lower("POST") == "post" && Ucfirst("entity") == "Entity";
    assert MethodName("POST", "entity") == "postEntity";
    assert "postEntity" in BaseMethods;
  }

  /** With the default controllers, a verb whose handler RestfulBase lacks is refused. */
  lemma DefaultRoutingUnknownVerb(regex: Regex)
    requires regex("\\d+", "42")
    ensures ResolveMethod(DefaultControllers, "42", "DELETE", regex, BaseMethods) == None
  {
    assert SelectController(DefaultControllers, "42", regex) == Some("entity");
    assert |MethodName("DELETE", "entity")| == 12;
    forall m | m in BaseMethods ensures |Lower(m)| != 12 {
    }
  }
}
