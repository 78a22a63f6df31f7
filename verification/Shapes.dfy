/** Declared shapes, compatibility policies and field-name matching. */
module Shapes {
  import opened Wrappers

  /** A named member of a struct shape. */
  datatype FieldShape = FieldShape(name: string, shape: TypeShape, hasDefault: bool)

  /** The structural description of a declared type. */
  datatype TypeShape =
    | Primitive(name: string)
    | Optional(inner: TypeShape)
    | Sequence(item: TypeShape)
    | Map(key: TypeShape, value: TypeShape)
    | Struct(fields: seq<FieldShape>)

  datatype SchemaPolicy =
    | Exact
    | ExactUnorderedCI
    | ExactOrdered
    | ExactOrderedCI
    | ExactByPosition
    | Backward
    | Forward
    | Full

  /** How struct fields are paired: by name, index and name, or index alone. */
  datatype Mode = Mode(ci: bool, ordered: bool, byPos: bool)

  function PolicyMode(policy: SchemaPolicy): Mode {
    match policy
    case Exact | ExactUnorderedCI => Mode(true, false, false)
    case ExactOrdered => Mode(false, true, false)
    case ExactOrderedCI => Mode(true, true, false)
    case ExactByPosition => Mode(false, false, true)
    case Backward | Forward | Full => Mode(false, false, false)
  }

  // ---------- names ----------

  function ToAsciiLower(c: char): char {
    if 'A' <= c <= 'Z' then c + 32 as char else c
  }

  function Lower(s: string): string {
    seq(|s|, i requires 0 <= i < |s| => ToAsciiLower(s[i]))
  }

  /** Names agree exactly, or up to the case of ASCII letters. */
  predicate SameName(a: string, b: string, ci: bool) {
    if ci then Lower(a) == Lower(b) else a == b
  }

  /** Only the case of the letters A to Z is ignored. */
  lemma CaseFolding(a: string, b: string)
    ensures SameName(a, b, true) <==> |a| == |b| && forall i :: 0 <= i < |a| ==> SameLetter(a[i], b[i])
  {
    if |a| == |b| {
      forall i | 0 <= i < |a| ensures Lower(a)[i] == Lower(b)[i] <==> SameLetter(a[i], b[i]) {
      }
      if forall i :: 0 <= i < |a| ==> SameLetter(a[i], b[i]) {
        assert Lower(a) == Lower(b);
      } else {
        var i :| 0 <= i < |a| && !SameLetter(a[i], b[i]);
        assert Lower(a)[i] != Lower(b)[i];
      }
    } else {
      assert |Lower(a)| != |Lower(b)|;
    }
  }

  /** The same character, or the two cases of one ASCII letter: their codes are 32 apart. */
  ghost predicate SameLetter(x: char, y: char) {
    var a, b := x as int, y as int;
    a == b || (65 <= a <= 90 && b == a + 32) || (65 <= b <= 90 && a == b + 32)
  }

  method StrEq(a: string, b: string) returns (r: bool)
    ensures r == SameName(a, b, false)
  {
    if |a| != |b| {
      return false;
    }
    var i := 0;
    while i < |a|
      invariant 0 <= i <= |a|
      invariant forall k :: 0 <= k < i ==> a[k] == b[k]
    {
      if a[i] != b[i] {
        return false;
      }
      i := i + 1;
    }
    assert a == b;
    return true;
  }

  method StrEqCi(a: string, b: string) returns (r: bool)
    ensures r == SameName(a, b, true)
  {
    if |a| != |b| {
      assert |Lower(a)| != |Lower(b)|;
      return false;
    }
    var i := 0;
    while i < |a|
      invariant 0 <= i <= |a|
      invariant forall k :: 0 <= k < i ==> Lower(a)[k] == Lower(b)[k]
    {
      if ToAsciiLower(a[i]) != ToAsciiLower(b[i]) {
        assert Lower(a)[i] != Lower(b)[i];
        return false;
      }
      i := i + 1;
    }
    assert Lower(a) == Lower(b);
    return true;
  }

  method NamesMatch(a: string, b: string, ci: bool) returns (r: bool)
    ensures r == SameName(a, b, ci)
  {
    if ci {
      r := StrEqCi(a, b);
    } else {
      r := StrEq(a, b);
    }
  }

  // ---------- fields looked up by name ----------

  /** The first index at or after `from` whose field bears `name`. */
  function FindFrom(fields: seq<FieldShape>, name: string, ci: bool, from: nat): (r: Option<nat>)
    requires from <= |fields|
    ensures r.Some? ==> from <= r.value < |fields| && SameName(fields[r.value].name, name, ci)
    ensures r.Some? ==> forall k :: from <= k < r.value ==> !SameName(fields[k].name, name, ci)
    ensures r.None? ==> forall k :: from <= k < |fields| ==> !SameName(fields[k].name, name, ci)
    decreases |fields| - from
  {
    if from == |fields| then None
    else if SameName(fields[from].name, name, ci) then Some(from)
    else FindFrom(fields, name, ci, from + 1)
  }

  function Find(fields: seq<FieldShape>, name: string, ci: bool): Option<nat> {
    FindFrom(fields, name, ci, 0)
  }

  /** No two fields bear the same name. */
  ghost predicate Unique(fields: seq<FieldShape>, ci: bool) {
    forall i, j :: 0 <= i < j < |fields| ==> !SameName(fields[i].name, fields[j].name, ci)
  }

  /** The later name of the first clashing pair, in the order the pairs are visited. */
  function FirstDuplicate(fields: seq<FieldShape>, ci: bool, from: nat): (r: Option<string>)
    requires from <= |fields|
    ensures r.None? <==> forall i, j :: from <= i < j < |fields| ==> !SameName(fields[i].name, fields[j].name, ci)
    decreases |fields| - from
  {
    if from == |fields| then None
    else
      match FindFrom(fields, fields[from].name, ci, from + 1)
      case Some(j) =>
        assert SameName(fields[from].name, fields[j].name, ci);
        Some(fields[j].name)
      case None => FirstDuplicate(fields, ci, from + 1)
  }

  /** The fields at `i` and `j` share a name, and no pair visited before them does. */
  ghost predicate FirstClash(fields: seq<FieldShape>, ci: bool, from: nat, i: nat, j: nat) {
    && from <= i < j < |fields| && SameName(fields[i].name, fields[j].name, ci)
    && (forall a, b :: from <= a < i && a < b < |fields| ==> !SameName(fields[a].name, fields[b].name, ci))
    && forall b :: i < b < j ==> !SameName(fields[i].name, fields[b].name, ci)
  }

  /** The duplicate reported is the later name of the first clashing pair. */
  lemma {:induction false} DuplicateIsFirst(fields: seq<FieldShape>, ci: bool, from: nat) returns (i: nat, j: nat)
    requires from <= |fields| && FirstDuplicate(fields, ci, from).Some?
    ensures FirstClash(fields, ci, from, i, j) && FirstDuplicate(fields, ci, from) == Some(fields[j].name)
    decreases |fields| - from
  {
    var found := FindFrom(fields, fields[from].name, ci, from + 1);
    if found.Some? {
      i, j := from, found.value;
      assert SameName(fields[i].name, fields[j].name, ci);
      assert forall b :: i < b < j ==> !SameName(fields[i].name, fields[b].name, ci);
    } else {
      i, j := DuplicateIsFirst(fields, ci, from + 1);
    }
  }

  method DuplicateFieldName(fields: seq<FieldShape>, ci: bool) returns (r: Option<string>)
    ensures r == FirstDuplicate(fields, ci, 0)
  {
    var i := 0;
    while i < |fields|
      invariant 0 <= i <= |fields|
      invariant FirstDuplicate(fields, ci, 0) == FirstDuplicate(fields, ci, i)
    {
      var j := NextOfName(fields, i, ci);
      if j.Some? {
        return Some(fields[j.value].name);
      }
      i := i + 1;
    }
    return None;
  }

  /** The first later field that has the name of the one at index `i`. */
  method NextOfName(fields: seq<FieldShape>, i: nat, ci: bool) returns (r: Option<nat>)
    requires i < |fields|
    ensures r == FindFrom(fields, fields[i].name, ci, i + 1)
  {
    var j := i + 1;
    while j < |fields|
      invariant i + 1 <= j <= |fields|
      invariant FindFrom(fields, fields[i].name, ci, i + 1) == FindFrom(fields, fields[i].name, ci, j)
    {
      var same := NamesMatch(fields[j].name, fields[i].name, ci);
      if same {
        return Some(j);
      }
      j := j + 1;
    }
    return None;
  }

  method FindFieldMode(fields: seq<FieldShape>, name: string, ci: bool) returns (r: Option<nat>)
    ensures r == Find(fields, name, ci)
  {
    var i := 0;
    while i < |fields|
      invariant 0 <= i <= |fields|
      invariant Find(fields, name, ci) == FindFrom(fields, name, ci, i)
    {
      var same := NamesMatch(fields[i].name, name, ci);
      if same {
        return Some(i);
      }
      i := i + 1;
    }
    return None;
  }

  // ---------- structural equality ----------

  /** The shape with every default annotation cleared. */
  function EraseDefaults(s: TypeShape): TypeShape {
    match s
    case Primitive(_) => s
    case Optional(inner) => Optional(EraseDefaults(inner))
    case Sequence(item) => Sequence(EraseDefaults(item))
    case Map(key, value) => Map(EraseDefaults(key), EraseDefaults(value))
    case Struct(fields) =>
      Struct(seq(|fields|, i requires 0 <= i < |fields| =>
        FieldShape(fields[i].name, EraseDefaults(fields[i].shape), false)))
  }

  /** Two shapes are the same type up to default annotations. */
  ghost predicate SameShape(a: TypeShape, b: TypeShape) {
    EraseDefaults(a) == EraseDefaults(b)
  }

  lemma SameStruct(a: TypeShape, b: TypeShape)
    requires a.Struct? && b.Struct?
    ensures SameShape(a, b) <==>
      |a.fields| == |b.fields| &&
      forall i :: 0 <= i < |a.fields| ==>
        a.fields[i].name == b.fields[i].name && SameShape(a.fields[i].shape, b.fields[i].shape)
  {
    var x, y := EraseDefaults(a).fields, EraseDefaults(b).fields;
    if SameShape(a, b) {
      forall i | 0 <= i < |a.fields|
        ensures a.fields[i].name == b.fields[i].name && SameShape(a.fields[i].shape, b.fields[i].shape)
      {
        assert x[i] == y[i];
      }
    } else if |a.fields| == |b.fields| {
      assert x != y;
      var i :| 0 <= i < |x| && x[i] != y[i];
      assert !(a.fields[i].name == b.fields[i].name && SameShape(a.fields[i].shape, b.fields[i].shape));
    }
  }

  method ShapeEq(a: TypeShape, b: TypeShape) returns (r: bool)
    ensures r == SameShape(a, b)
    decreases a, 1
  {
    match (a, b)
    case (Primitive(x), Primitive(y)) => r := StrEq(x, y);
    case (Optional(x), Optional(y)) => r := ShapeEq(x, y);
    case (Sequence(x), Sequence(y)) => r := ShapeEq(x, y);
    case (Map(k1, v1), Map(k2, v2)) =>
      r := ShapeEq(k1, k2);
      if r {
        r := ShapeEq(v1, v2);
      }
    case (Struct(_), Struct(_)) => r := FieldsEq(a, b);
    case _ => r := false;
  }

  method FieldsEq(a: TypeShape, b: TypeShape) returns (r: bool)
    requires a.Struct? && b.Struct?
    ensures r == SameShape(a, b)
    decreases a, 0
  {
    SameStruct(a, b);
    if |a.fields| != |b.fields| {
      return false;
    }
    var i := 0;
    while i < |a.fields|
      invariant 0 <= i <= |a.fields|
      invariant forall k :: 0 <= k < i ==>
        a.fields[k].name == b.fields[k].name && SameShape(a.fields[k].shape, b.fields[k].shape)
    {
      var same := StrEq(a.fields[i].name, b.fields[i].name);
      if same {
        same := ShapeEq(a.fields[i].shape, b.fields[i].shape);
      }
      if !same {
        return false;
      }
      i := i + 1;
    }
    return true;
  }
}
