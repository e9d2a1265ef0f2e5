/** The PHP built-ins the core relies on, with their PHP semantics written out. */
module Php {

  /** Truthiness of a PHP string: `""` and `"0"` are the only falsy strings. */
  predicate Truthy(s: string)
    ensures Truthy(s) ==> |s| > 0
    ensures |s| > 1 ==> Truthy(s)
  {
    s != "" && s != "0"
  }

  /** A PHP value as read from an entity property or returned by a wrapper method (no floats). */
  datatype Value = Null | Bool(b: bool) | Int(i: int) | Str(s: string) | List(items: seq<Value>)

  /** PHP's `empty`: the value converts to false. */
  predicate Empty(v: Value)
    ensures Empty(v) <==> v in {Null, Bool(false), Int(0), Str(""), Str("0"), List([])}
  {
    match v
    case Null => true
    case Bool(b) => !b
    case Int(i) => i == 0
    case Str(s) => !Truthy(s)
    case List(items) => items == []
  }

  predicate IsUpper(c: char) { 'A' <= c <= 'Z' }

  predicate IsLowerLetter(c: char) { 'a' <= c <= 'z' }

  function LowerChar(c: char): char {
    if IsUpper(c) then (c as int + 32) as char else c
  }

  function UpperChar(c: char): char {
    if IsLowerLetter(c) then (c as int - 32) as char else c
  }

  /** `strtolower`: maps the ASCII capitals to small letters, every other character unchanged. */
  function Lower(s: string): (r: string)
    ensures |r| == |s|
    ensures forall i :: 0 <= i < |s| ==> r[i] == LowerChar(s[i])
  {
    if s == [] then [] else [LowerChar(s[0])] + Lower(s[1..])
  }

  /** `ucfirst`: upper-cases the first character when it is an ASCII small letter. */
  function Ucfirst(s: string): (r: string)
    ensures |r| == |s|
    ensures |s| > 0 ==> r[1..] == s[1..] && LowerChar(r[0]) == LowerChar(s[0])
  {
    if s == [] then s else [UpperChar(s[0])] + s[1..]
  }

  lemma LowerConcat(a: string, b: string)
    ensures Lower(a + b) == Lower(a) + Lower(b)
  {
    assert forall i :: 0 <= i < |a + b| ==> Lower(a + b)[i] == (Lower(a) + Lower(b))[i];
  }

  /** Upper-casing the first letter is invisible once the name is lower-cased. */
  lemma LowerUcfirst(s: string)
    ensures |Ucfirst(s)| == |s|
    ensures Lower(Ucfirst(s)) == Lower(s)
  {
    if s != [] {
      assert LowerChar(UpperChar(s[0])) == LowerChar(s[0]);
      assert Ucfirst(s)[1..] == s[1..];
      assert forall i :: 0 <= i < |s| ==> Lower(Ucfirst(s))[i] == Lower(s)[i];
    }
  }

  /** PHP's `explode` on commas: the comma-separated pieces of `s`, never an empty list. */
  function Explode(s: string): (parts: seq<string>)
    ensures |parts| >= 1
    ensures forall p :: p in parts ==> ',' !in p
  {
    if s == [] then [""]
    else
      var rest := Explode(s[1..]);
      if s[0] == ',' then [""] + rest
      else
        assert rest[0] in rest;
        [[s[0]] + rest[0]] + rest[1..]
  }

  /** PHP's `implode` with a comma: the inverse of `Explode`. */
  function Implode(parts: seq<string>): string {
    if parts == [] then ""
    else if |parts| == 1 then parts[0]
    else parts[0] + "," + Implode(parts[1..])
  }

  /** Joining the pieces of `explode` gives back the original string. */
  lemma {:induction false} ImplodeExplode(s: string)
    ensures Implode(Explode(s)) == s
  {
    if s != [] {
      var rest := Explode(s[1..]);
      ImplodeExplode(s[1..]);
      if s[0] == ',' {
        assert Explode(s) == [""] + rest;
        assert ([""] + rest)[1..] == rest;
        assert s == [] + "," + s[1..];
      } else if |rest| == 1 {
        assert Explode(s) == [[s[0]] + rest[0]];
        assert s == [s[0]] + s[1..];
      } else {
        assert Explode(s) == [[s[0]] + rest[0]] + rest[1..];
        assert ([[s[0]] + rest[0]] + rest[1..])[1..] == rest[1..];
        assert s == [s[0]] + s[1..];
      }
    }
  }

  /** A comma-free prefix glues onto the first piece. */
  lemma {:induction false} ExplodeCommaFreePrefix(w: string, t: string)
    requires ',' !in w
    ensures Explode(w + t) == [w + Explode(t)[0]] + Explode(t)[1..]
  {
    if w != [] {
      assert (w + t)[1..] == w[1..] + t;
      assert w[0] in w;
      ExplodeCommaFreePrefix(w[1..], t);
      assert [w[0]] + (w[1..] + Explode(t)[0]) == w + Explode(t)[0];
    } else {
      var e := Explode(t);
      assert w + t == t && w + e[0] == e[0];
      assert e == [e[0]] + e[1..];
    }
  }

  /** Splitting a join of comma-free pieces gives back the pieces. */
  lemma {:induction false} ExplodeImplode(parts: seq<string>)
    requires |parts| >= 1
    requires forall p :: p in parts ==> ',' !in p
    ensures Explode(Implode(parts)) == parts
  {
    assert parts[0] in parts;
    if |parts| == 1 {
      ExplodeCommaFreePrefix(parts[0], "");
      assert parts[0] + "" == parts[0];
    } else {
      var tail := Implode(parts[1..]);
      assert forall p :: p in parts[1..] ==> p in parts;
      ExplodeImplode(parts[1..]);
      assert Implode(parts) == parts[0] + ("," + tail);
      ExplodeCommaFreePrefix(parts[0], "," + tail);
      assert ("," + tail)[1..] == tail;
      assert Explode("," + tail) == [""] + parts[1..];
      assert parts[0] + "" == parts[0];
      assert parts == [parts[0]] + parts[1..];
    }
  }
}
