/**
 * The routing rules of RestfulBase::getControllerFromPath as specification functions:
 * which controller a path selects, and which handler name a verb then resolves to.
 */
module Routing {
  import opened Common
  import opened Php

  /** One routing entry of a resource: a path pattern and the controller it selects. */
  datatype Route = Route(pattern: string, controller: string)

  /** Whether the pattern, used as a regular expression, matches somewhere in the path; a parameter. */
  type Regex = (string, string) -> bool

  /** The test applied to one pattern: equality, or a regex match guarded by the pattern's truthiness. */
  function PatternMatches(pattern: string, path: string, regex: Regex): (r: bool)
    ensures pattern == path ==> r
    ensures !Truthy(pattern) ==> (r <==> pattern == path)
    ensures pattern == "" ==> (r <==> path == "")
  {
    pattern == path || (Truthy(pattern) && regex(pattern, path))
  }

  /** Route `i` is the first one, in declaration order, whose pattern matches `path`. */
  ghost predicate FirstMatchAt(routes: seq<Route>, path: string, regex: Regex, i: int) {
    && 0 <= i < |routes|
    && PatternMatches(routes[i].pattern, path, regex)
    && forall j :: 0 <= j < i ==> !PatternMatches(routes[j].pattern, path, regex)
  }

  /** The controller the routing scan selects before it stops. */
  function SelectController(routes: seq<Route>, path: string, regex: Regex): (c: Option<string>)
    ensures c.Some? ==> exists i :: 0 <= i < |routes| && routes[i].controller == c.value &&
                                    PatternMatches(routes[i].pattern, path, regex)
  {
    if routes == [] then None
    else if PatternMatches(routes[0].pattern, path, regex) then Some(routes[0].controller)
    else SelectController(routes[1..], path, regex)
  }

  /** The scan selects exactly the controller of the first matching route, and nothing if none matches. */
  lemma {:induction false} SelectControllerFirstMatch(routes: seq<Route>, path: string, regex: Regex)
    ensures SelectController(routes, path, regex).None? <==>
              forall i :: 0 <= i < |routes| ==> !PatternMatches(routes[i].pattern, path, regex)
    ensures forall i :: FirstMatchAt(routes, path, regex, i) ==>
              SelectController(routes, path, regex) == Some(routes[i].controller)
    ensures SelectController(routes, path, regex).Some? ==>
              exists i :: FirstMatchAt(routes, path, regex, i) &&
                          SelectController(routes, path, regex) == Some(routes[i].controller)
  {
    if routes != [] {
      var tail := routes[1..];
      SelectControllerFirstMatch(tail, path, regex);
      if PatternMatches(routes[0].pattern, path, regex) {
        assert FirstMatchAt(routes, path, regex, 0);
        forall i | FirstMatchAt(routes, path, regex, i)
          ensures SelectController(routes, path, regex) == Some(routes[i].controller)
        {
          assert i == 0;
        }
      } else {
        forall i | FirstMatchAt(routes, path, regex, i)
          ensures SelectController(routes, path, regex) == Some(routes[i].controller)
        {
          assert i > 0 && tail[i - 1] == routes[i];
          assert FirstMatchAt(tail, path, regex, i - 1);
        }
        if SelectController(tail, path, regex).Some? {
          var k :| FirstMatchAt(tail, path, regex, k) && SelectController(tail, path, regex) == Some(tail[k].controller);
          assert FirstMatchAt(routes, path, regex, k + 1);
        } else {
          forall i | 0 <= i < |routes| ensures !PatternMatches(routes[i].pattern, path, regex) {
            if i > 0 { assert tail[i - 1] == routes[i]; }
          }
        }
      }
    }
  }

  /** Once a route matches, the routes declared after it are never consulted. */
  lemma SelectControllerIgnoresLaterRoutes(routes: seq<Route>, later: seq<Route>, path: string, regex: Regex, i: int)
    requires FirstMatchAt(routes, path, regex, i)
    ensures SelectController(routes[..i + 1] + later, path, regex) == Some(routes[i].controller)
    ensures SelectController(routes, path, regex) == Some(routes[i].controller)
  {
    var extended := routes[..i + 1] + later;
    assert forall j :: 0 <= j <= i ==> extended[j] == routes[j];
    assert FirstMatchAt(extended, path, regex, i);
    SelectControllerFirstMatch(extended, path, regex);
    SelectControllerFirstMatch(routes, path, regex);
  }

  /** The handler name: the lower-cased verb followed by the controller with its first letter capitalised. */
  function MethodName(verb: string, controller: string): (name: string)
    ensures |name| == |verb| + |controller| && name[..|verb|] == Lower(verb)
  {
    Lower(verb) + Ucfirst(controller)
  }

  /** PHP `method_exists`: method names are compared without regard to ASCII case. */
  predicate MethodExists(methods: set<string>, name: string)
    ensures name in methods ==> MethodExists(methods, name)
  {
    exists m :: m in methods && Lower(m) == Lower(name)
  }

  /** A handler name starts with the lower-cased verb and, ignoring case, is verb then controller. */
  lemma MethodNameShape(verb: string, controller: string)
    ensures |MethodName(verb, controller)| == |verb| + |controller|
    ensures MethodName(verb, controller)[..|verb|] == Lower(verb)
    ensures Lower(MethodName(verb, controller)) == Lower(verb) + Lower(controller)
  {
    LowerUcfirst(controller);
    LowerConcat(Lower(verb), Ucfirst(controller));
    assert Lower(Lower(verb)) == Lower(verb);
  }

  /** The result of getControllerFromPath: a handler name, or nothing (`NULL`). */
  function ResolveMethod(routes: seq<Route>, path: string, verb: string, regex: Regex, methods: set<string>): (r: Option<string>)
    ensures r.Some? ==> MethodExists(methods, r.value)
    ensures SelectController(routes, path, regex).None? ==> r.None?
  {
    match SelectController(routes, path, regex)
    case None => None
    case Some(c) =>
      if !Truthy(c) then None
      else if MethodExists(methods, MethodName(verb, c)) then Some(MethodName(verb, c))
      else None
  }

  /**
   * A name is resolved exactly when the first matching route has a truthy controller and a method
   * named by `MethodName(verb, controller)` exists; no match, a falsy controller or a missing
   * method all resolve to nothing.
   */
  lemma ResolveMethodSpec(routes: seq<Route>, path: string, verb: string, regex: Regex, methods: set<string>)
    ensures (forall i :: 0 <= i < |routes| ==> !PatternMatches(routes[i].pattern, path, regex)) ==>
              ResolveMethod(routes, path, verb, regex, methods) == None
    ensures forall i :: FirstMatchAt(routes, path, regex, i) ==>
              ResolveMethod(routes, path, verb, regex, methods) ==
                (if Truthy(routes[i].controller) && MethodExists(methods, MethodName(verb, routes[i].controller))
                 then Some(MethodName(verb, routes[i].controller)) else None)
    ensures ResolveMethod(routes, path, verb, regex, methods).Some? ==>
              exists i :: FirstMatchAt(routes, path, regex, i) && Truthy(routes[i].controller) &&
                          ResolveMethod(routes, path, verb, regex, methods) == Some(MethodName(verb, routes[i].controller)) &&
                          MethodExists(methods, MethodName(verb, routes[i].controller))
  {
    SelectControllerFirstMatch(routes, path, regex);
  }
}
