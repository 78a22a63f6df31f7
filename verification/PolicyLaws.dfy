/** Laws of the compatibility relations: equivalences, preorders, duality, and where they stop. */
module PolicyLaws {
  import opened Wrappers
  import opened Shapes
  import opened Policies

  predicate ExactFamily(policy: SchemaPolicy) {
    policy.Exact? || policy.ExactUnorderedCI? || policy.ExactOrdered? || policy.ExactOrderedCI? || policy.ExactByPosition?
  }

  predicate ByName(policy: SchemaPolicy) {
    !PolicyMode(policy).byPos && !PolicyMode(policy).ordered
  }

  /** In a list without duplicates, the field found under a name is the only one bearing it. */
  lemma FoundIsOnly(fields: seq<FieldShape>, name: string, ci: bool, j: nat)
    requires Unique(fields, ci) && j < |fields| && SameName(fields[j].name, name, ci)
    ensures Find(fields, name, ci) == Some(j)
  {
    var found := Find(fields, name, ci);
    if found.value < j {
      assert SameName(fields[found.value].name, fields[j].name, ci);
    }
  }

  // ---------- equivalence ----------

  lemma {:induction false} AcceptsSymmetric(p: TypeShape, c: TypeShape, policy: SchemaPolicy)
    requires ExactFamily(policy) && Accepts(p, c, policy)
    ensures Accepts(c, p, policy)
    decreases c
  {
    match (p, c)
    case (Primitive(_), Primitive(_)) =>
    case (Optional(x), Optional(y)) => AcceptsSymmetric(x, y, policy);
    case (Sequence(x), Sequence(y)) => AcceptsSymmetric(x, y, policy);
    case (Map(k1, v1), Map(k2, v2)) =>
      AcceptsSymmetric(k1, k2, policy);
      AcceptsSymmetric(v1, v2, policy);
    case (Struct(_), Struct(_)) => FieldsSymmetric(p, c, policy);
  }

  lemma FieldsSymmetric(p: TypeShape, c: TypeShape, policy: SchemaPolicy)
    requires ExactFamily(policy) && p.Struct? && c.Struct? && AcceptsFields(p, c, policy)
    ensures AcceptsFields(c, p, policy)
    decreases c, 0
  {
    if ByName(policy) {
      var ci := PolicyMode(policy).ci;
      NamedMeaning(p, c, policy);
      forall j | 0 <= j < |p.fields|
        ensures MeetsNamed(c, p, j, policy)
      {
        var i := Find(c.fields, p.fields[j].name, ci).value;
        FoundIsOnly(p.fields, c.fields[i].name, ci, j);
        assert MeetsNamed(p, c, i, policy);
        AcceptsSymmetric(p.fields[j].shape, c.fields[i].shape, policy);
      }
      forall i | 0 <= i < |c.fields|
        ensures Find(p.fields, c.fields[i].name, ci).Some?
      {
        assert MeetsNamed(p, c, i, policy);
      }
      NamedMeaning(c, p, policy);
    } else {
      AlignedMeaning(p, c, policy);
      forall i | 0 <= i < |p.fields|
        ensures MeetsAt(c, p, i, policy)
      {
        assert MeetsAt(p, c, i, policy);
        AcceptsSymmetric(p.fields[i].shape, c.fields[i].shape, policy);
      }
      AlignedMeaning(c, p, policy);
    }
  }

  /** Every exact policy is symmetric. */
  lemma ExactSymmetric(p: TypeShape, c: TypeShape, policy: SchemaPolicy)
    requires ExactFamily(policy)
    ensures Compatible(p, c, policy) <==> Compatible(c, p, policy)
  {
    if p.Struct? && c.Struct? {
      if AcceptsFields(p, c, policy) {
        FieldsSymmetric(p, c, policy);
      }
      if AcceptsFields(c, p, policy) {
        FieldsSymmetric(c, p, policy);
      }
    }
  }

  lemma {:induction false} AcceptsTransitive(p: TypeShape, q: TypeShape, c: TypeShape, policy: SchemaPolicy)
    requires ExactFamily(policy) || policy.Forward?
    requires Accepts(p, q, policy) && Accepts(q, c, policy)
    ensures Accepts(p, c, policy)
    decreases c
  {
    match (p, q, c)
    case (Primitive(_), Primitive(_), Primitive(_)) =>
    case (Optional(x), Optional(y), Optional(z)) => AcceptsTransitive(x, y, z, policy);
    case (Sequence(x), Sequence(y), Sequence(z)) => AcceptsTransitive(x, y, z, policy);
    case (Map(k1, v1), Map(k2, v2), Map(k3, v3)) =>
      AcceptsTransitive(k1, k2, k3, policy);
      AcceptsTransitive(v1, v2, v3, policy);
    case (Struct(_), Struct(_), Struct(_)) => FieldsTransitive(p, q, c, policy);
  }

  lemma FieldsTransitive(p: TypeShape, q: TypeShape, c: TypeShape, policy: SchemaPolicy)
    requires ExactFamily(policy) || policy.Forward?
    requires p.Struct? && q.Struct? && c.Struct? && AcceptsFields(p, q, policy) && AcceptsFields(q, c, policy)
    ensures AcceptsFields(p, c, policy)
    decreases c, 0
  {
    if ByName(policy) {
      NamedMeaning(p, q, policy);
      NamedMeaning(q, c, policy);
      forall j | 0 <= j < |p.fields|
        ensures Find(c.fields, p.fields[j].name, PolicyMode(policy).ci).Some?
      {
        var k := ThroughMiddle(p, q, c, policy, j);
      }
      forall i | 0 <= i < |c.fields|
        ensures MeetsNamed(p, c, i, policy)
      {
        NamedTransitive(p, q, c, policy, i);
      }
      NamedMeaning(p, c, policy);
    } else {
      AlignedMeaning(p, q, policy);
      AlignedMeaning(q, c, policy);
      forall i | 0 <= i < |c.fields|
        ensures MeetsAt(p, c, i, policy)
      {
        assert MeetsAt(p, q, i, policy) && MeetsAt(q, c, i, policy);
        AcceptsTransitive(p.fields[i].shape, q.fields[i].shape, c.fields[i].shape, policy);
      }
      AlignedMeaning(p, c, policy);
    }
  }

  /** Follows the producer field `j` through the middle contract to the outer one. */
  lemma ThroughMiddle(p: TypeShape, q: TypeShape, c: TypeShape, policy: SchemaPolicy, j: nat) returns (k: nat)
    requires p.Struct? && q.Struct? && c.Struct? && ByName(policy) && !ExtraAllowed(policy)
    requires AcceptsFields(p, q, policy) && AcceptsFields(q, c, policy) && j < |p.fields|
    ensures k < |q.fields| && Find(q.fields, p.fields[j].name, PolicyMode(policy).ci) == Some(k)
    ensures Find(c.fields, p.fields[j].name, PolicyMode(policy).ci).Some?
  {
    var ci := PolicyMode(policy).ci;
    k := Find(q.fields, p.fields[j].name, ci).value;
    var i := Find(c.fields, q.fields[k].name, ci).value;
    assert SameName(c.fields[i].name, p.fields[j].name, ci);
  }

  lemma NamedTransitive(p: TypeShape, q: TypeShape, c: TypeShape, policy: SchemaPolicy, i: nat)
    requires ExactFamily(policy) || policy.Forward?
    requires p.Struct? && q.Struct? && c.Struct? && AcceptsFields(p, q, policy) && AcceptsFields(q, c, policy)
    requires ByName(policy) && i < |c.fields|
    ensures MeetsNamed(p, c, i, policy)
    decreases c, 0, 0
  {
    var ci := PolicyMode(policy).ci;
    NamedMeaning(p, q, policy);
    NamedMeaning(q, c, policy);
    assert MeetsNamed(q, c, i, policy);
    var j := Find(p.fields, c.fields[i].name, ci);
    if j.Some? {
      var k := ThroughMiddle(p, q, c, policy, j.value);
      FoundIsOnly(q.fields, c.fields[i].name, ci, k);
      FoundIsOnly(p.fields, q.fields[k].name, ci, j.value);
      assert MeetsNamed(p, q, k, policy);
      AcceptsTransitive(p.fields[j.value].shape, q.fields[k].shape, c.fields[i].shape, policy);
    } else if ExactFamily(policy) {
      var k := Find(q.fields, c.fields[i].name, ci).value;
      assert MeetsNamed(p, q, k, policy);
      var m := Find(p.fields, q.fields[k].name, ci).value;
      assert SameName(p.fields[m].name, c.fields[i].name, ci);
    }
  }

  /** Every exact policy, and Forward, is transitive on all shapes. */
  lemma CompatibleTransitive(p: TypeShape, q: TypeShape, c: TypeShape, policy: SchemaPolicy)
    requires ExactFamily(policy) || policy.Forward?
    requires Compatible(p, q, policy) && Compatible(q, c, policy)
    ensures Compatible(p, c, policy)
  {
    if p.Struct? && q.Struct? && c.Struct? {
      FieldsTransitive(p, q, c, policy);
    }
  }

  // ---------- the aligned policies as equality of normal forms ----------

  /** The shape with every default cleared and every field renamed. */
  ghost function Normal(s: TypeShape, rename: string -> string): TypeShape {
    match s
    case Primitive(_) => s
    case Optional(inner) => Optional(Normal(inner, rename))
    case Sequence(item) => Sequence(Normal(item, rename))
    case Map(key, value) => Map(Normal(key, rename), Normal(value, rename))
    case Struct(fields) =>
      Struct(seq(|fields|, i requires 0 <= i < |fields| =>
        FieldShape(rename(fields[i].name), Normal(fields[i].shape, rename), false)))
  }

  /** The renaming forgets exactly what an aligned policy does not look at in names. */
  ghost predicate Forgets(policy: SchemaPolicy, rename: string -> string) {
    && (policy.ExactOrdered? || policy.ExactOrderedCI? || policy.ExactByPosition?)
    && forall a, b {:trigger SameName(a, b, policy.ExactOrderedCI?)} ::
      rename(a) == rename(b) <==> policy.ExactByPosition? || SameName(a, b, policy.ExactOrderedCI?)
  }

  /**
   * An aligned policy accepts exactly what is equal once it has forgotten what it does not look at: nothing but
   * defaults, the case of ASCII letters in field names, or field names altogether.
   */
  lemma {:induction false} AlignedIsEquality(p: TypeShape, c: TypeShape, policy: SchemaPolicy, rename: string -> string)
    requires Forgets(policy, rename)
    ensures Accepts(p, c, policy) <==> Normal(p, rename) == Normal(c, rename)
    decreases c
  {
    match (p, c)
    case (Primitive(_), Primitive(_)) =>
    case (Optional(x), Optional(y)) => AlignedIsEquality(x, y, policy, rename);
    case (Sequence(x), Sequence(y)) => AlignedIsEquality(x, y, policy, rename);
    case (Map(k1, v1), Map(k2, v2)) =>
      AlignedIsEquality(k1, k2, policy, rename);
      AlignedIsEquality(v1, v2, policy, rename);
    case (Struct(_), Struct(_)) =>
      AlignedMeaning(p, c, policy);
      if |p.fields| == |c.fields| {
        forall i | 0 <= i < |c.fields|
          ensures MeetsAt(p, c, i, policy) <==> Normal(p, rename).fields[i] == Normal(c, rename).fields[i]
        {
          AlignedFieldIsEquality(p, c, policy, rename, i);
        }
        SameFields(Normal(p, rename).fields, Normal(c, rename).fields);
      } else {
        assert |Normal(p, rename).fields| != |Normal(c, rename).fields|;
      }
    case (_, _) =>
  }

  lemma {:induction false} AlignedFieldIsEquality(p: TypeShape, c: TypeShape, policy: SchemaPolicy, rename: string -> string, i: nat)
    requires Forgets(policy, rename) && p.Struct? && c.Struct? && i < |p.fields| && i < |c.fields|
    ensures MeetsAt(p, c, i, policy) <==> Normal(p, rename).fields[i] == Normal(c, rename).fields[i]
    decreases c, 0
  {
    AlignedIsEquality(p.fields[i].shape, c.fields[i].shape, policy, rename);
    var named := SameName(p.fields[i].name, c.fields[i].name, policy.ExactOrderedCI?);
    assert rename(p.fields[i].name) == rename(c.fields[i].name) <==> policy.ExactByPosition? || named;
  }

  lemma SameFields(a: seq<FieldShape>, b: seq<FieldShape>)
    requires |a| == |b|
    ensures a == b <==> forall i :: 0 <= i < |a| ==> a[i] == b[i]
  {
  }

  /** Such renamings are the identity, the one to lower case, and any constant one. */
  lemma RenamingsForget()
    ensures Forgets(ExactOrdered, (name: string) => name) && Forgets(ExactOrderedCI, Lower)
    ensures Forgets(ExactByPosition, (name: string) => "")
  {
  }

  /** The two names of the unordered policy are one policy. */
  lemma {:induction false} ExactHasTwoNames(p: TypeShape, c: TypeShape)
    ensures Accepts(p, c, Exact) <==> Accepts(p, c, ExactUnorderedCI)
    decreases c
  {
    match (p, c)
    case (Primitive(_), Primitive(_)) =>
    case (Optional(x), Optional(y)) => ExactHasTwoNames(x, y);
    case (Sequence(x), Sequence(y)) => ExactHasTwoNames(x, y);
    case (Map(k1, v1), Map(k2, v2)) =>
      ExactHasTwoNames(k1, k2);
      ExactHasTwoNames(v1, v2);
    case (Struct(_), Struct(_)) =>
      NamedMeaning(p, c, Exact);
      NamedMeaning(p, c, ExactUnorderedCI);
      forall i | 0 <= i < |c.fields| ensures MeetsNamed(p, c, i, Exact) <==> MeetsNamed(p, c, i, ExactUnorderedCI) {
        var j := Find(p.fields, c.fields[i].name, true);
        if j.Some? {
          ExactHasTwoNames(p.fields[j.value].shape, c.fields[i].shape);
        }
      }
    case (_, _) =>
  }

  /** Every struct inside the shape has distinct field names. */
  ghost predicate DuplicateFree(s: TypeShape, ci: bool) {
    match s
    case Primitive(_) => true
    case Optional(x) => DuplicateFree(x, ci)
    case Sequence(x) => DuplicateFree(x, ci)
    case Map(k, v) => DuplicateFree(k, ci) && DuplicateFree(v, ci)
    case Struct(fields) => Unique(fields, ci) && forall i :: 0 <= i < |fields| ==> DuplicateFree(fields[i].shape, ci)
  }

  /** A shape accepts itself under a by-name policy exactly when no struct inside repeats a name. */
  lemma {:induction false} AcceptsReflexive(s: TypeShape, policy: SchemaPolicy)
    requires !policy.Full?
    ensures Accepts(s, s, policy) <==> !ByName(policy) || DuplicateFree(s, PolicyMode(policy).ci)
    decreases s
  {
    match s
    case Primitive(_) =>
    case Optional(x) => AcceptsReflexive(x, policy);
    case Sequence(x) => AcceptsReflexive(x, policy);
    case Map(k, v) =>
      AcceptsReflexive(k, policy);
      AcceptsReflexive(v, policy);
    case Struct(fields) =>
      forall i | 0 <= i < |fields|
        ensures Accepts(fields[i].shape, fields[i].shape, policy)
          <==> !ByName(policy) || DuplicateFree(fields[i].shape, PolicyMode(policy).ci)
      {
        AcceptsReflexive(fields[i].shape, policy);
      }
      FieldsReflexive(s, policy);
  }

  lemma FieldsReflexive(s: TypeShape, policy: SchemaPolicy)
    requires s.Struct? && !policy.Full?
    ensures AcceptsFields(s, s, policy) <==>
      && (ByName(policy) ==> Unique(s.fields, PolicyMode(policy).ci))
      && forall i :: 0 <= i < |s.fields| ==> Accepts(s.fields[i].shape, s.fields[i].shape, policy)
  {
    if ByName(policy) {
      var ci := PolicyMode(policy).ci;
      NamedMeaning(s, s, policy);
      if Unique(s.fields, ci) {
        forall i | 0 <= i < |s.fields|
          ensures Find(s.fields, s.fields[i].name, ci) == Some(i)
          ensures MeetsNamed(s, s, i, policy) <==> Accepts(s.fields[i].shape, s.fields[i].shape, policy)
        {
          FoundIsOnly(s.fields, s.fields[i].name, ci, i);
        }
      }
    } else {
      AlignedMeaning(s, s, policy);
      forall i | 0 <= i < |s.fields|
        ensures MeetsAt(s, s, i, policy) <==> Accepts(s.fields[i].shape, s.fields[i].shape, policy)
      {
      }
    }
  }

  /**
   * A declaration is compatible with itself unless the policy matches by name and some struct
   * reachable from a struct root repeats a name.
   */
  lemma CompatibleReflexive(s: TypeShape, policy: SchemaPolicy)
    requires !policy.Full?
    ensures Compatible(s, s, policy) <==> s.Struct? && ByName(policy) ==> DuplicateFree(s, PolicyMode(policy).ci)
  {
    AcceptsReflexive(s, policy);
  }

  // ---------- the strength of the exact policies ----------

  lemma {:induction false} OrderedIsSameShape(p: TypeShape, c: TypeShape)
    ensures Accepts(p, c, ExactOrdered) <==> SameShape(p, c)
    decreases c
  {
    match (p, c)
    case (Primitive(_), Primitive(_)) =>
    case (Optional(x), Optional(y)) => OrderedIsSameShape(x, y);
    case (Sequence(x), Sequence(y)) => OrderedIsSameShape(x, y);
    case (Map(k1, v1), Map(k2, v2)) =>
      OrderedIsSameShape(k1, k2);
      OrderedIsSameShape(v1, v2);
    case (Struct(_), Struct(_)) =>
      SameStruct(p, c);
      forall i | 0 <= i < |p.fields| && i < |c.fields|
        ensures MeetsAt(p, c, i, ExactOrdered) <==>
          p.fields[i].name == c.fields[i].name && SameShape(p.fields[i].shape, c.fields[i].shape)
      {
        OrderedIsSameShape(p.fields[i].shape, c.fields[i].shape);
      }
      AlignedMeaning(p, c, ExactOrdered);
    case (_, _) =>
  }

  /** ExactOrdered is equality of declarations up to default annotations. */
  lemma ExactOrderedIsSameShape(p: TypeShape, c: TypeShape)
    ensures Compatible(p, c, ExactOrdered) <==> SameShape(p, c)
  {
    OrderedIsSameShape(p, c);
  }

  lemma {:induction false} AcceptsWeaker(p: TypeShape, c: TypeShape, strong: SchemaPolicy, weak: SchemaPolicy)
    requires (strong == ExactOrdered && weak == ExactOrderedCI) || (strong == ExactOrderedCI && weak == ExactByPosition)
    requires Accepts(p, c, strong)
    ensures Accepts(p, c, weak)
    decreases c
  {
    match (p, c)
    case (Primitive(_), Primitive(_)) =>
    case (Optional(x), Optional(y)) => AcceptsWeaker(x, y, strong, weak);
    case (Sequence(x), Sequence(y)) => AcceptsWeaker(x, y, strong, weak);
    case (Map(k1, v1), Map(k2, v2)) =>
      AcceptsWeaker(k1, k2, strong, weak);
      AcceptsWeaker(v1, v2, strong, weak);
    case (Struct(_), Struct(_)) =>
      AlignedMeaning(p, c, strong);
      forall i | 0 <= i < |c.fields|
        ensures MeetsAt(p, c, i, weak)
      {
        assert MeetsAt(p, c, i, strong);
        AcceptsWeaker(p.fields[i].shape, c.fields[i].shape, strong, weak);
      }
      AlignedMeaning(p, c, weak);
  }

  /** Each exact ordered policy implies the next looser one. */
  lemma OrderedChain(p: TypeShape, c: TypeShape)
    ensures Compatible(p, c, ExactOrdered) ==> Compatible(p, c, ExactOrderedCI)
    ensures Compatible(p, c, ExactOrderedCI) ==> Compatible(p, c, ExactByPosition)
  {
    if p.Struct? && c.Struct? {
      if Compatible(p, c, ExactOrdered) {
        assert Accepts(p, c, ExactOrdered);
        AcceptsWeaker(p, c, ExactOrdered, ExactOrderedCI);
      }
      if Compatible(p, c, ExactOrderedCI) {
        assert Accepts(p, c, ExactOrderedCI);
        AcceptsWeaker(p, c, ExactOrderedCI, ExactByPosition);
      }
    }
  }
}
