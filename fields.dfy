/**
 * Field maps and the projection of an entity onto them (RestfulBase::getPublicFields and the
 * loop of RestfulBase::getEntity), as specification functions.
 */
module Fields {
  import opened Common
  import opened Php

  /** The settings of one public field: the property it reads and the wrapper method it calls, both optional. */
  datatype FieldInfo = FieldInfo(property: Option<string>, wrapperMethod: Option<string>)

  /** One `public name => info` entry. */
  datatype Field = Field(name: string, info: FieldInfo)

  /** An ordered PHP array of fields; its order is the order of the response. */
  type FieldMap = seq<Field>

  /**
   * The entity metadata wrapper: readable properties and the results of its methods. PHP finds a
   * method whatever the case of its name, so the method results are keyed by the lower-cased name.
   */
  datatype EntityView = EntityView(properties: map<string, Value>, methods: map<string, Value>)

  /** The projected output: public names paired with their values, in response order. */
  type Values = seq<(string, Value)>

  function Keys(fm: FieldMap): seq<string> {
    seq(|fm|, i requires 0 <= i < |fm| => fm[i].name)
  }

  function OutKeys(vs: Values): seq<string> {
    seq(|vs|, i requires 0 <= i < |vs| => vs[i].0)
  }

  /** The keys of a PHP array are distinct. */
  predicate UniqueKeys(fm: FieldMap) {
    forall i, j :: 0 <= i < j < |fm| ==> fm[i].name != fm[j].name
  }

  predicate IsSubsequence(a: seq<string>, b: seq<string>)
    decreases |b|
  {
    if a == [] then true
    else if b == [] then false
    else (a[0] == b[0] && IsSubsequence(a[1..], b[1..])) || IsSubsequence(a, b[1..])
  }

  /** PHP's array union of two field maps (the `+=` operator). */
  function Union(a: FieldMap, b: FieldMap): (r: FieldMap)
    ensures |a| <= |r| <= |a| + |b|
    decreases |b|
  {
    if b == [] then a
    else Union(UnionStep(a, b[0]), b[1..])
  }

  /** The accumulator of `Union` after its first step. */
  function UnionStep(a: FieldMap, f: Field): FieldMap {
    if f.name in Keys(a) then a else a + [f]
  }

  /** The union keeps every entry of `a` in place and in order. */
  lemma {:induction false} UnionKeepsPrefix(a: FieldMap, b: FieldMap)
    ensures |a| <= |Union(a, b)| && Union(a, b)[..|a|] == a
    decreases |b|
  {
    if b != [] {
      var a' := UnionStep(a, b[0]);
      UnionKeepsPrefix(a', b[1..]);
      assert Union(a, b)[..|a|] == Union(a, b)[..|a'|][..|a|];
    }
  }

  /** The entries of `b`, in `b`'s order, whose key `a` lacks. */
  function Missing(a: FieldMap, b: FieldMap): FieldMap {
    if b == [] then []
    else (if b[0].name in Keys(a) then [] else [b[0]]) + Missing(a, b[1..])
  }

  /** Adding to `a` an entry whose key `c` lacks does not change which entries of `c` are missing. */
  lemma {:induction false} MissingIgnoresAbsentKey(a: FieldMap, f: Field, c: FieldMap)
    requires f.name !in Keys(c)
    ensures Missing(a + [f], c) == Missing(a, c)
  {
    if c != [] {
      assert Keys(c) == [c[0].name] + Keys(c[1..]);
      assert Keys(a + [f]) == Keys(a) + [f.name];
      MissingIgnoresAbsentKey(a, f, c[1..]);
    }
  }

  /** The tail of a map with distinct keys has distinct keys, none of them the head's. */
  lemma UniqueKeysTail(b: FieldMap)
    requires b != [] && UniqueKeys(b)
    ensures UniqueKeys(b[1..]) && b[0].name !in Keys(b[1..])
  {
    forall i, j | 0 <= i < j < |b[1..]| ensures b[1..][i].name != b[1..][j].name {
      assert b[1..][i] == b[i + 1] && b[1..][j] == b[j + 1];
    }
  }

  /** A step of `UnionAppendsMissing` whose head key `a` lacks: the head is appended. */
  lemma UnionAppendsAbsent(a: FieldMap, f: Field, rest: FieldMap)
    requires f.name !in Keys(a)
    requires Missing(a + [f], rest) == Missing(a, rest)
    requires Union(a + [f], rest) == (a + [f]) + Missing(a, rest)
    ensures Union(a, [f] + rest) == a + Missing(a, [f] + rest)
  {
    assert ([f] + rest)[1..] == rest;
    assert Missing(a, [f] + rest) == [f] + Missing(a, rest);
  }

  /** A step of `UnionAppendsMissing` whose head key `a` already has: the head is dropped. */
  lemma UnionAppendsPresent(a: FieldMap, f: Field, rest: FieldMap)
    requires f.name in Keys(a)
    requires Union(a, rest) == a + Missing(a, rest)
    ensures Union(a, [f] + rest) == a + Missing(a, [f] + rest)
  {
    assert ([f] + rest)[1..] == rest;
    assert Union(a, [f] + rest) == Union(a, rest);
    assert Missing(a, [f] + rest) == Missing(a, rest);
  }

  /**
   * With distinct keys in `b`, the union is `a` followed by the entries of `b` that `a` lacks, in
   * `b`'s order.
   */
  lemma {:induction false} UnionAppendsMissing(a: FieldMap, b: FieldMap)
    requires UniqueKeys(b)
    ensures Union(a, b) == a + Missing(a, b)
    decreases |b|
  {
    if b != [] {
      UniqueKeysTail(b);
      UnionAppendsMissing(UnionStep(a, b[0]), b[1..]);
      assert b == [b[0]] + b[1..];
      if b[0].name in Keys(a) {
        UnionAppendsPresent(a, b[0], b[1..]);
      } else {
        MissingIgnoresAbsentKey(a, b[0], b[1..]);
        UnionAppendsAbsent(a, b[0], b[1..]);
      }
    }
  }

  /** The keys of the union are those of `a` and of `b`. */
  lemma {:induction false} UnionKeys(a: FieldMap, b: FieldMap)
    ensures forall k :: k in Keys(Union(a, b)) <==> k in Keys(a) || k in Keys(b)
    decreases |b|
  {
    if b != [] {
      var a' := UnionStep(a, b[0]);
      UnionKeys(a', b[1..]);
      assert Keys(a') == if b[0].name in Keys(a) then Keys(a) else Keys(a) + [b[0].name];
      assert Keys(b) == [b[0].name] + Keys(b[1..]);
    }
  }

  /** Every entry after those of `a` comes from `b` and carries a key `a` lacks. */
  lemma {:induction false} UnionAddsMissing(a: FieldMap, b: FieldMap)
    ensures forall i :: |a| <= i < |Union(a, b)| ==> Union(a, b)[i] in b && Union(a, b)[i].name !in Keys(a)
    decreases |b|
  {
    if b != [] {
      var a' := UnionStep(a, b[0]);
      var r := Union(a', b[1..]);
      UnionAddsMissing(a', b[1..]);
      UnionKeepsPrefix(a', b[1..]);
      assert forall f :: f in b[1..] ==> f in b;
      assert Keys(a') == if b[0].name in Keys(a) then Keys(a) else Keys(a) + [b[0].name];
      forall i | |a| <= i < |r| ensures r[i] in b && r[i].name !in Keys(a) {
        if i < |a'| {
          assert r[i] == a'[i] == b[0];
        }
      }
    }
  }

  /** The union keeps the keys distinct. */
  lemma {:induction false} UnionUniqueKeys(a: FieldMap, b: FieldMap)
    ensures UniqueKeys(a) ==> UniqueKeys(Union(a, b))
    decreases |b|
  {
    if b != [] && UniqueKeys(a) {
      var a' := UnionStep(a, b[0]);
      if b[0].name !in Keys(a) {
        forall i, j | 0 <= i < j < |a'| ensures a'[i].name != a'[j].name {
          if j == |a| { assert a'[i].name == Keys(a)[i]; }
        }
      }
      UnionUniqueKeys(a', b[1..]);
    }
  }

  /** The three fields every entity-backed resource exposes unless it declares the key itself. */
  const DefaultFields: FieldMap := [
    Field("id", FieldInfo(None, Some("getIdentifier"))),
    Field("label", FieldInfo(None, Some("label"))),
    Field("self", FieldInfo(Some("url"), None))
  ]

  /** Missing defaults keep their declared order: `id`, `label`, `self`. */
  lemma MissingDefaults(a: FieldMap)
    ensures ("id" !in Keys(a) && "label" !in Keys(a) && "self" !in Keys(a)) ==> Missing(a, DefaultFields) == DefaultFields
  {
    if "id" !in Keys(a) && "label" !in Keys(a) && "self" !in Keys(a) {
      var d := DefaultFields;
      assert d[1..][1..][1..] == [];
      assert Missing(a, d[1..][1..]) == [d[2]] + [];
      assert Missing(a, d[1..]) == [d[1]] + [d[2]];
      assert Missing(a, d) == [d[0]] + [d[1], d[2]];
    }
  }

  /** The wrapper method a field reads through; a field that names none reads its property by `value`. */
  function WrapperMethod(info: FieldInfo): string {
    match info.wrapperMethod
    case Some(m) => m
    case None => "value"
  }

  /** A field survives the `fields` allow-list: the list is empty, or it names the field. */
  predicate Selected(name: string, limit: seq<string>) {
    limit == [] || name in limit
  }

  /** One iteration of the projection loop: skip it (`Ok(None)`), emit a value, or throw. */
  function ProjectField(f: Field, limit: seq<string>, view: EntityView): (r: Result<Option<Value>>)
    ensures !Selected(f.name, limit) ==> r == Ok(None)
    ensures Selected(f.name, limit) && WrapperMethod(f.info) == "value" ==>
              ((r.Err? <==> (f.info.property.None? || f.info.property.value !in view.properties)) &&
               (r.Err? ==> r.error == PropertyMissing(f.info.property)) &&
               (r.Ok? ==> (r.value.None? <==> Empty(view.properties[f.info.property.value]))) &&
               (r.Ok? && r.value.Some? ==> r.value.value == view.properties[f.info.property.value]))
    ensures Selected(f.name, limit) && Lower(WrapperMethod(f.info)) in view.methods && WrapperMethod(f.info) != "value" ==>
              r == Ok(Some(view.methods[Lower(WrapperMethod(f.info))]))
    ensures Selected(f.name, limit) && Lower(WrapperMethod(f.info)) !in view.methods && WrapperMethod(f.info) != "value" ==>
              r == Err(UndefinedMethod(WrapperMethod(f.info)))
  {
    if !Selected(f.name, limit) then Ok(None)
    else if WrapperMethod(f.info) == "value" then
      if f.info.property.None? || f.info.property.value !in view.properties then Err(PropertyMissing(f.info.property))
      else
        var v := view.properties[f.info.property.value];
        if Empty(v) then Ok(None) else Ok(Some(v))
    else if Lower(WrapperMethod(f.info)) in view.methods then Ok(Some(view.methods[Lower(WrapperMethod(f.info))]))
    else Err(UndefinedMethod(WrapperMethod(f.info)))
  }

  /** The whole loop: the fields in order, stopping at the first thrown error. */
  function Project(fm: FieldMap, limit: seq<string>, view: EntityView): (r: Result<Values>)
    ensures r.Ok? ==> |r.value| <= |fm|
  {
    if fm == [] then Ok([])
    else
      match ProjectField(fm[0], limit, view)
      case Err(e) => Err(e)
      case Ok(None) => Project(fm[1..], limit, view)
      case Ok(Some(v)) =>
        match Project(fm[1..], limit, view)
        case Err(e) => Err(e)
        case Ok(rest) => Ok([(fm[0].name, v)] + rest)
  }

  /** The output keys follow the field map's order, and all lie in a non-empty allow-list. */
  lemma {:induction false} ProjectKeysInOrder(fm: FieldMap, limit: seq<string>, view: EntityView)
    requires Project(fm, limit, view).Ok?
    ensures IsSubsequence(OutKeys(Project(fm, limit, view).value), Keys(fm))
    ensures limit != [] ==> forall k :: k in OutKeys(Project(fm, limit, view).value) ==> k in limit
  {
    if fm != [] {
      ProjectKeysInOrder(fm[1..], limit, view);
      var rest := Project(fm[1..], limit, view).value;
      assert Keys(fm)[1..] == Keys(fm[1..]);
      match ProjectField(fm[0], limit, view)
      case Ok(None) =>
        var ks := OutKeys(rest);
        if ks != [] {
          assert IsSubsequence(ks, Keys(fm));
        }
      case Ok(Some(v)) =>
        var out := [(fm[0].name, v)] + rest;
        assert OutKeys(out)[1..] == OutKeys(rest);
        assert forall k :: k in OutKeys(out) ==> k == fm[0].name || k in OutKeys(rest);
    }
  }

  /**
   * A successful projection emits exactly the fields whose iteration emits a value, with that value:
   * every field's iteration succeeded, every emitted pair comes from a field, every emitting field is
   * in the output.
   */
  lemma {:induction false} ProjectEntries(fm: FieldMap, limit: seq<string>, view: EntityView)
    requires Project(fm, limit, view).Ok?
    ensures forall i :: 0 <= i < |fm| ==> ProjectField(fm[i], limit, view).Ok?
    ensures forall i :: 0 <= i < |fm| && ProjectField(fm[i], limit, view).value.Some? ==>
              (fm[i].name, ProjectField(fm[i], limit, view).value.value) in Project(fm, limit, view).value
    ensures forall p :: p in Project(fm, limit, view).value ==>
              exists i :: 0 <= i < |fm| && fm[i].name == p.0 && ProjectField(fm[i], limit, view) == Ok(Some(p.1))
  {
    if fm != [] {
      var tail := fm[1..];
      ProjectEntries(tail, limit, view);
      var rest := Project(tail, limit, view).value;
      var out := Project(fm, limit, view).value;
      assert forall p :: p in rest ==> p in out;
      forall i | 0 <= i < |fm| ensures ProjectField(fm[i], limit, view).Ok? {
        if i > 0 { assert fm[i] == tail[i - 1]; }
      }
      forall p | p in out
        ensures exists i :: 0 <= i < |fm| && fm[i].name == p.0 && ProjectField(fm[i], limit, view) == Ok(Some(p.1))
      {
        if p in rest {
          var i :| 0 <= i < |tail| && tail[i].name == p.0 && ProjectField(tail[i], limit, view) == Ok(Some(p.1));
          assert fm[i + 1] == tail[i];
        } else {
          assert fm[0].name == p.0 && ProjectField(fm[0], limit, view) == Ok(Some(p.1));
        }
      }
      forall i | 0 <= i < |fm| && ProjectField(fm[i], limit, view).value.Some?
        ensures (fm[i].name, ProjectField(fm[i], limit, view).value.value) in out
      {
        if i > 0 { assert fm[i] == tail[i - 1]; }
      }
    }
  }

  /** A selected field whose value is empty never appears in the output. */
  lemma ProjectOmitsSkipped(fm: FieldMap, limit: seq<string>, view: EntityView, i: int)
    requires UniqueKeys(fm) && 0 <= i < |fm|
    requires Project(fm, limit, view).Ok?
    requires ProjectField(fm[i], limit, view) == Ok(None)
    ensures fm[i].name !in OutKeys(Project(fm, limit, view).value)
  {
    ProjectEntries(fm, limit, view);
  }

  /**
   * The projection throws exactly when some field's iteration throws, and it throws the error of the
   * first such field in the field map's order.
   */
  lemma {:induction false} ProjectFirstError(fm: FieldMap, limit: seq<string>, view: EntityView, e: Error)
    ensures Project(fm, limit, view) == Err(e) <==>
              exists i :: 0 <= i < |fm| && ProjectField(fm[i], limit, view) == Err(e) &&
                          forall j :: 0 <= j < i ==> ProjectField(fm[j], limit, view).Ok?
  {
    if fm != [] {
      var tail := fm[1..];
      ProjectFirstError(tail, limit, view, e);
      if ProjectField(fm[0], limit, view).Err? {
        if Project(fm, limit, view) != Err(e) {
          forall i | 0 <= i < |fm| && ProjectField(fm[i], limit, view) == Err(e)
            ensures !(forall j :: 0 <= j < i ==> ProjectField(fm[j], limit, view).Ok?)
          {
            assert i != 0;
          }
        }
      } else {
        if Project(fm, limit, view) == Err(e) {
          var i :| 0 <= i < |tail| && ProjectField(tail[i], limit, view) == Err(e) &&
                   forall j :: 0 <= j < i ==> ProjectField(tail[j], limit, view).Ok?;
          assert fm[i + 1] == tail[i];
          forall j | 0 <= j < i + 1 ensures ProjectField(fm[j], limit, view).Ok? {
            if j > 0 { assert fm[j] == tail[j - 1]; }
          }
        } else {
          forall i | 0 <= i < |fm| && ProjectField(fm[i], limit, view) == Err(e)
            ensures !(forall j :: 0 <= j < i ==> ProjectField(fm[j], limit, view).Ok?)
          {
            assert i != 0;
            assert fm[i] == tail[i - 1];
          }
        }
      }
    }
  }

  /**
   * Restricting the projection to one field name yields that field alone whenever its value is
   * emitted: the allow-list skips every other field before it can throw.
   */
  lemma {:induction false} ProjectSingleField(fm: FieldMap, view: EntityView, i: int, v: Value)
    requires UniqueKeys(fm) && 0 <= i < |fm|
    requires ProjectField(fm[i], [fm[i].name], view) == Ok(Some(v))
    ensures Project(fm, [fm[i].name], view) == Ok([(fm[i].name, v)])
  {
    var n := fm[i].name;
    if i == 0 {
      forall f | f in fm[1..] ensures f.name !in [n] {
        var j :| 0 <= j < |fm[1..]| && fm[1..][j] == f;
        assert fm[j + 1] == f;
      }
      ProjectSkipsAll(fm[1..], [n], view);
      assert [(n, v)] + [] == [(n, v)];
    } else {
      assert fm[0].name != n;
      assert fm[1..][i - 1] == fm[i];
      ProjectSingleField(fm[1..], view, i - 1, v);
    }
  }

  /** Fields outside the allow-list contribute nothing. */
  lemma {:induction false} ProjectSkipsAll(fm: FieldMap, limit: seq<string>, view: EntityView)
    requires limit != []
    requires forall f :: f in fm ==> f.name !in limit
    ensures Project(fm, limit, view) == Ok([])
  {
    if fm != [] {
      assert fm[0] in fm;
      assert forall f :: f in fm[1..] ==> f in fm;
      ProjectSkipsAll(fm[1..], limit, view);
    }
  }
}
