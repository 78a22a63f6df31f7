/** Exact matching stated without search: a one-to-one pairing of fields. */
module ExactBijection {
  import opened Wrappers
  import opened Shapes
  import opened Policies
  import opened PolicyLaws
  import opened Counting

  /** `m` pairs every contract field with a distinct producer field of its name that matches it. */
  ghost predicate Pairing(p: TypeShape, c: TypeShape, m: seq<nat>)
    requires p.Struct? && c.Struct?
  {
    && |m| == |c.fields| == |p.fields|
    && (forall i :: 0 <= i < |m| ==> m[i] < |p.fields|)
    && (forall i, j :: 0 <= i < j < |m| ==> m[i] != m[j])
    && (forall i :: 0 <= i < |m| ==>
      SameName(p.fields[m[i]].name, c.fields[i].name, true) && Accepts(p.fields[m[i]].shape, c.fields[i].shape, Exact))
  }

  /**
   * Exact on structs means: neither side repeats a name up to ASCII case, and some one-to-one pairing
   * of the fields by name matches their shapes.
   */
  lemma ExactIsBijection(p: TypeShape, c: TypeShape)
    requires p.Struct? && c.Struct?
    ensures Compatible(p, c, Exact) <==>
      Unique(p.fields, true) && Unique(c.fields, true) && exists m :: Pairing(p, c, m)
  {
    NamedMeaning(p, c, Exact);
    if Compatible(p, c, Exact) {
      var m := PairingOf(p, c);
    } else if Unique(p.fields, true) && Unique(c.fields, true) && exists m :: Pairing(p, c, m) {
      var m :| Pairing(p, c, m);
      PairingSuffices(p, c, m);
      assert false;
    }
  }

  lemma PairingSuffices(p: TypeShape, c: TypeShape, m: seq<nat>)
    requires p.Struct? && c.Struct? && Unique(p.fields, true) && Unique(c.fields, true) && Pairing(p, c, m)
    ensures Compatible(p, c, Exact)
  {
    NamedMeaning(p, c, Exact);
    Pigeonhole(m, |p.fields|);
    forall i | 0 <= i < |c.fields|
      ensures MeetsNamed(p, c, i, Exact)
    {
      FoundIsOnly(p.fields, c.fields[i].name, true, m[i]);
    }
    forall j | 0 <= j < |p.fields|
      ensures Find(c.fields, p.fields[j].name, true).Some?
    {
      assert j in m;
      var i :| 0 <= i < |m| && m[i] == j;
      FoundIsOnly(c.fields, p.fields[j].name, true, i);
    }
  }

  /** The fields of `b` found under the names of `a`. */
  lemma FoundUnder(a: seq<FieldShape>, b: seq<FieldShape>) returns (m: seq<nat>)
    requires Unique(a, true) && forall i :: 0 <= i < |a| ==> Find(b, a[i].name, true).Some?
    ensures |m| == |a| <= |b|
    ensures forall i :: 0 <= i < |m| ==> Find(b, a[i].name, true) == Some(m[i])
    ensures forall i, j :: 0 <= i < j < |m| ==> m[i] != m[j]
  {
    m := seq(|a|, i requires 0 <= i < |a| => Find(b, a[i].name, true).value);
    Pigeonhole(m, |b|);
  }

  lemma PairingOf(p: TypeShape, c: TypeShape) returns (m: seq<nat>)
    requires p.Struct? && c.Struct? && Compatible(p, c, Exact)
    ensures Pairing(p, c, m)
  {
    NamedMeaning(p, c, Exact);
    forall i | 0 <= i < |c.fields|
      ensures Find(p.fields, c.fields[i].name, true).Some?
      ensures Accepts(p.fields[Find(p.fields, c.fields[i].name, true).value].shape, c.fields[i].shape, Exact)
    {
      assert MeetsNamed(p, c, i, Exact);
    }
    m := FoundUnder(c.fields, p.fields);
    var back := FoundUnder(p.fields, c.fields);
  }
}
