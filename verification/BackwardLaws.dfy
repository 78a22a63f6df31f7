/**
 * Forward and Backward compared: they are dual up to tolerated fields, and Backward composes
 * exactly when the middle declaration pins down every field the outer one looks at.
 */
module BackwardLaws {
  import opened Wrappers
  import opened Shapes
  import opened Policies
  import opened PolicyLaws

  // ---------- duality ----------

  lemma {:induction false} AcceptsDual(p: TypeShape, c: TypeShape)
    requires Accepts(p, c, Forward)
    ensures Accepts(c, p, Backward)
    decreases p
  {
    match (p, c)
    case (Primitive(_), Primitive(_)) =>
    case (Optional(x), Optional(y)) => AcceptsDual(x, y);
    case (Sequence(x), Sequence(y)) => AcceptsDual(x, y);
    case (Map(k1, v1), Map(k2, v2)) =>
      AcceptsDual(k1, k2);
      AcceptsDual(v1, v2);
    case (Struct(_), Struct(_)) =>
      NamedMeaning(p, c, Forward);
      forall j | 0 <= j < |p.fields|
        ensures MeetsNamed(c, p, j, Backward)
      {
        var i := Find(c.fields, p.fields[j].name, false).value;
        FoundIsOnly(p.fields, c.fields[i].name, false, j);
        assert MeetsNamed(p, c, i, Forward);
        AcceptsDual(p.fields[j].shape, c.fields[i].shape);
      }
      NamedMeaning(c, p, Backward);
  }

  /** What a producer may emit under Forward, a reader of the producer's type accepts under Backward. */
  lemma ForwardIsDualToBackward(p: TypeShape, c: TypeShape)
    requires Compatible(p, c, Forward)
    ensures Compatible(c, p, Backward)
  {
    if p.Struct? && c.Struct? {
      assert Accepts(p, c, Forward);
      AcceptsDual(p, c);
    }
  }

  /** No struct field, at any depth, is optional or defaulted. */
  predicate NoLooseFields(s: TypeShape) {
    match s
    case Primitive(_) => true
    case Optional(x) => NoLooseFields(x)
    case Sequence(x) => NoLooseFields(x)
    case Map(k, v) => NoLooseFields(k) && NoLooseFields(v)
    case Struct(fields) =>
      forall i :: 0 <= i < |fields| ==> !Tolerated(fields[i], Backward) && NoLooseFields(fields[i].shape)
  }

  /** Some producer satisfies the shape under Backward: no struct that must be present repeats a name. */
  ghost predicate Satisfiable(s: TypeShape) {
    match s
    case Primitive(_) => true
    case Optional(x) => Satisfiable(x)
    case Sequence(x) => Satisfiable(x)
    case Map(k, v) => Satisfiable(k) && Satisfiable(v)
    case Struct(fields) =>
      Unique(fields, false) &&
      forall i :: 0 <= i < |fields| ==> Tolerated(fields[i], Backward) || Satisfiable(fields[i].shape)
  }

  /** The least producer of a shape: every tolerated field is left out. */
  function Minimal(s: TypeShape): TypeShape
    decreases s, 1
  {
    match s
    case Primitive(_) => s
    case Optional(x) => Optional(Minimal(x))
    case Sequence(x) => Sequence(Minimal(x))
    case Map(k, v) => Map(Minimal(k), Minimal(v))
    case Struct(fields) => Struct(Least(s, |fields|, s, |fields|))
  }

  /** Least fields for the first `n` of a struct, except that index `k` is kept with shape `t`. */
  function Least(s: TypeShape, k: nat, t: TypeShape, n: nat): seq<FieldShape>
    requires s.Struct? && n <= |s.fields|
    decreases s, 0, n
  {
    if n == 0 then []
    else
      var f := s.fields[n - 1];
      Least(s, k, t, n - 1) +
      (if n - 1 == k then [FieldShape(f.name, t, false)]
       else if Tolerated(f, Backward) then []
       else [FieldShape(f.name, Minimal(f.shape), false)])
  }

  /** The least producer keeps field `i`. */
  predicate Keeps(s: TypeShape, k: nat, i: nat)
    requires s.Struct? && i < |s.fields|
  {
    i == k || !Tolerated(s.fields[i], Backward)
  }

  /** Some kept field of the first `n` bears `name`. */
  ghost predicate NamesKept(s: TypeShape, k: nat, n: nat, name: string)
    requires s.Struct? && n <= |s.fields|
  {
    exists i :: 0 <= i < n && Keeps(s, k, i) && s.fields[i].name == name
  }

  /** The least producer names only kept fields of the prefix, each once. */
  lemma {:induction false} LeastNames(s: TypeShape, k: nat, t: TypeShape, n: nat)
    requires s.Struct? && n <= |s.fields| && Unique(s.fields, false)
    ensures Unique(Least(s, k, t, n), false)
    ensures forall j :: 0 <= j < |Least(s, k, t, n)| ==> NamesKept(s, k, n, Least(s, k, t, n)[j].name)
  {
    if n > 0 {
      LeastNames(s, k, t, n - 1);
      var before, least := Least(s, k, t, n - 1), Least(s, k, t, n);
      forall j | 0 <= j < |before|
        ensures before[j].name != s.fields[n - 1].name && NamesKept(s, k, n, before[j].name)
      {
        assert NamesKept(s, k, n - 1, before[j].name);
      }
      if Keeps(s, k, n - 1) {
        assert NamesKept(s, k, n, s.fields[n - 1].name);
        assert least[..|before|] == before && least[|before|].name == s.fields[n - 1].name;
      } else {
        assert least == before;
      }
    }
  }

  /** Where the least producer puts a kept field. */
  lemma {:induction false} LeastIndex(s: TypeShape, k: nat, t: TypeShape, n: nat, i: nat) returns (j: nat)
    requires s.Struct? && i < n <= |s.fields| && Keeps(s, k, i)
    ensures j < |Least(s, k, t, n)|
    ensures Least(s, k, t, n)[j].name == s.fields[i].name
    ensures Least(s, k, t, n)[j].shape == if i == k then t else Minimal(s.fields[i].shape)
  {
    if i == n - 1 {
      j := |Least(s, k, t, n - 1)|;
    } else {
      j := LeastIndex(s, k, t, n - 1, i);
      assert Least(s, k, t, n)[j] == Least(s, k, t, n - 1)[j];
    }
  }

  /** Looking a field of the struct up in its least producer. */
  lemma LeastFind(s: TypeShape, k: nat, t: TypeShape, i: nat)
    requires s.Struct? && Unique(s.fields, false) && i < |s.fields|
    ensures var least := Least(s, k, t, |s.fields|); var found := Find(least, s.fields[i].name, false);
      if Keeps(s, k, i) then found.Some? && least[found.value].shape == if i == k then t else Minimal(s.fields[i].shape)
      else found.None?
  {
    LeastNames(s, k, t, |s.fields|);
    var least := Least(s, k, t, |s.fields|);
    if Keeps(s, k, i) {
      var j := LeastIndex(s, k, t, |s.fields|, i);
      FoundIsOnly(least, s.fields[i].name, false, j);
    }
  }

  /** The least producer satisfies any satisfiable shape. */
  lemma {:induction false} MinimalSatisfies(s: TypeShape)
    requires Satisfiable(s)
    ensures Accepts(Minimal(s), s, Backward)
    decreases s, 1
  {
    match s
    case Primitive(_) =>
    case Optional(x) => MinimalSatisfies(x);
    case Sequence(x) => MinimalSatisfies(x);
    case Map(k, v) =>
      MinimalSatisfies(k);
      MinimalSatisfies(v);
    case Struct(fields) =>
      LeastSatisfies(s, |fields|, s);
  }

  lemma LeastSatisfies(s: TypeShape, k: nat, t: TypeShape)
    requires Satisfiable(s) && s.Struct?
    requires k < |s.fields| ==> Accepts(t, s.fields[k].shape, Backward)
    ensures Accepts(Struct(Least(s, k, t, |s.fields|)), s, Backward)
    decreases s, 0
  {
    var p := Struct(Least(s, k, t, |s.fields|));
    LeastNames(s, k, t, |s.fields|);
    forall i | 0 <= i < |s.fields|
      ensures MeetsNamed(p, s, i, Backward)
    {
      LeastFind(s, k, t, i);
      if i != k && !Tolerated(s.fields[i], Backward) {
        MinimalSatisfies(s.fields[i].shape);
      }
    }
    NamedMeaning(p, s, Backward);
  }

  lemma {:induction false} SatisfiedIsSatisfiable(p: TypeShape, s: TypeShape)
    requires Accepts(p, s, Backward)
    ensures Satisfiable(s)
    decreases s
  {
    match (p, s)
    case (Primitive(_), Primitive(_)) =>
    case (Optional(x), Optional(y)) => SatisfiedIsSatisfiable(x, y);
    case (Sequence(x), Sequence(y)) => SatisfiedIsSatisfiable(x, y);
    case (Map(k1, v1), Map(k2, v2)) =>
      SatisfiedIsSatisfiable(k1, k2);
      SatisfiedIsSatisfiable(v1, v2);
    case (Struct(_), Struct(_)) =>
      NamedMeaning(p, s, Backward);
      forall i | 0 <= i < |s.fields|
        ensures Tolerated(s.fields[i], Backward) || Satisfiable(s.fields[i].shape)
      {
        assert MeetsNamed(p, s, i, Backward);
        var j := Find(p.fields, s.fields[i].name, false);
        if j.Some? {
          SatisfiedIsSatisfiable(p.fields[j.value].shape, s.fields[i].shape);
        }
      }
  }

  lemma {:induction false} TightConverse(p: TypeShape, c: TypeShape)
    requires NoLooseFields(p) && Accepts(c, p, Backward)
    ensures Accepts(p, c, Forward)
    decreases p
  {
    match (p, c)
    case (Primitive(_), Primitive(_)) =>
    case (Optional(x), Optional(y)) => TightConverse(x, y);
    case (Sequence(x), Sequence(y)) => TightConverse(x, y);
    case (Map(k1, v1), Map(k2, v2)) =>
      TightConverse(k1, k2);
      TightConverse(v1, v2);
    case (Struct(_), Struct(_)) =>
      NamedMeaning(c, p, Backward);
      forall i | 0 <= i < |c.fields|
        ensures MeetsNamed(p, c, i, Forward)
      {
        var j := Find(p.fields, c.fields[i].name, false);
        if j.Some? {
          FoundIsOnly(c.fields, p.fields[j.value].name, false, i);
          assert MeetsNamed(c, p, j.value, Backward);
          TightConverse(p.fields[j.value].shape, c.fields[i].shape);
        }
      }
      forall j | 0 <= j < |p.fields|
        ensures Find(c.fields, p.fields[j].name, false).Some?
      {
        assert MeetsNamed(c, p, j, Backward);
      }
      NamedMeaning(p, c, Forward);
  }

  lemma {:induction false} LooseConverseFails(p: TypeShape)
    requires Satisfiable(p) && !NoLooseFields(p)
    ensures !Accepts(p, Minimal(p), Forward)
    decreases p
  {
    match p
    case Primitive(_) =>
    case Optional(x) => LooseConverseFails(x);
    case Sequence(x) => LooseConverseFails(x);
    case Map(k, v) =>
      if !NoLooseFields(k) {
        LooseConverseFails(k);
      } else {
        LooseConverseFails(v);
      }
    case Struct(fields) =>
      var c := Minimal(p);
      var n := |fields|;
      var i :| 0 <= i < n && !(!Tolerated(fields[i], Backward) && NoLooseFields(fields[i].shape));
      LeastFind(p, n, p, i);
      NamedMeaning(p, c, Forward);
      if !Tolerated(fields[i], Backward) {
        var j := Find(c.fields, fields[i].name, false).value;
        FoundIsOnly(fields, c.fields[j].name, false, i);
        LooseConverseFails(fields[i].shape);
        assert !MeetsNamed(p, c, j, Forward);
      }
  }

  /**
   * Backward read the other way round is Forward for every partner of `p` exactly when `p`, if it can
   * be satisfied at all, has no optional or defaulted field at any depth.
   */
  lemma DualityCondition(p: TypeShape)
    requires p.Struct?
    ensures (forall c :: Compatible(c, p, Backward) ==> Compatible(p, c, Forward))
      <==> (Satisfiable(p) ==> NoLooseFields(p))
  {
    if Satisfiable(p) ==> NoLooseFields(p) {
      forall c | Compatible(c, p, Backward)
        ensures Compatible(p, c, Forward)
      {
        assert c.Struct? by {
          if !c.Struct? {
            assert EraseDefaults(c).Struct?;
          }
        }
        assert Accepts(c, p, Backward);
        SatisfiedIsSatisfiable(c, p);
        TightConverse(p, c);
      }
    } else {
      var c := Minimal(p);
      MinimalSatisfies(p);
      LooseConverseFails(p);
      assert Compatible(c, p, Backward) && !Compatible(p, c, Forward);
    }
  }

  // ---------- composing Backward ----------

  /**
   * Every field the outer declaration names is pinned down by the middle one: present there, not
   * looser there, and, where it can be satisfied, pinned down inside as well.
   */
  ghost predicate PinsDown(q: TypeShape, c: TypeShape)
    decreases c
  {
    match (q, c)
    case (Optional(x), Optional(y)) => PinsDown(x, y)
    case (Sequence(x), Sequence(y)) => PinsDown(x, y)
    case (Map(k1, v1), Map(k2, v2)) => PinsDown(k1, k2) && PinsDown(v1, v2)
    case (Struct(_), Struct(_)) =>
      forall i :: 0 <= i < |c.fields| ==>
        var found := Find(q.fields, c.fields[i].name, false);
        && found.Some?
        && (Tolerated(q.fields[found.value], Backward) ==> Tolerated(c.fields[i], Backward))
        && (Satisfiable(q.fields[found.value].shape) ==> PinsDown(q.fields[found.value].shape, c.fields[i].shape))
    case (_, _) => true
  }

  lemma {:induction false} PinnedComposes(p: TypeShape, q: TypeShape, c: TypeShape)
    requires Accepts(p, q, Backward) && Accepts(q, c, Backward) && PinsDown(q, c)
    ensures Accepts(p, c, Backward)
    decreases c
  {
    match (p, q, c)
    case (Primitive(_), Primitive(_), Primitive(_)) =>
    case (Optional(x), Optional(y), Optional(z)) => PinnedComposes(x, y, z);
    case (Sequence(x), Sequence(y), Sequence(z)) => PinnedComposes(x, y, z);
    case (Map(k1, v1), Map(k2, v2), Map(k3, v3)) =>
      PinnedComposes(k1, k2, k3);
      PinnedComposes(v1, v2, v3);
    case (Struct(_), Struct(_), Struct(_)) =>
      NamedMeaning(p, q, Backward);
      NamedMeaning(q, c, Backward);
      forall i | 0 <= i < |c.fields|
        ensures MeetsNamed(p, c, i, Backward)
      {
        var k := Find(q.fields, c.fields[i].name, false).value;
        assert MeetsNamed(q, c, i, Backward) && MeetsNamed(p, q, k, Backward);
        var j := Find(p.fields, q.fields[k].name, false);
        if j.Some? {
          SatisfiedIsSatisfiable(p.fields[j.value].shape, q.fields[k].shape);
          PinnedComposes(p.fields[j.value].shape, q.fields[k].shape, c.fields[i].shape);
        }
      }
      NamedMeaning(p, c, Backward);
  }

  /** A shape of another kind, which no policy but Full accepts in its place. */
  function OtherKind(s: TypeShape): TypeShape {
    if s.Optional? then Primitive("") else Optional(Primitive(""))
  }

  /** Where the middle declaration leaves a field open, some producer slips through it. */
  lemma {:induction false} UnpinnedFails(q: TypeShape, c: TypeShape) returns (p: TypeShape)
    requires Accepts(q, c, Backward) && Satisfiable(q) && !PinsDown(q, c)
    ensures Accepts(p, q, Backward) && !Accepts(p, c, Backward)
    decreases c
  {
    match (q, c)
    case (Optional(x), Optional(y)) =>
      var inner := UnpinnedFails(x, y);
      p := Optional(inner);
    case (Sequence(x), Sequence(y)) =>
      var item := UnpinnedFails(x, y);
      p := Sequence(item);
    case (Map(k1, v1), Map(k2, v2)) =>
      if !PinsDown(k1, k2) {
        var key := UnpinnedFails(k1, k2);
        MinimalSatisfies(v1);
        p := Map(key, Minimal(v1));
      } else {
        var value := UnpinnedFails(v1, v2);
        MinimalSatisfies(k1);
        p := Map(Minimal(k1), value);
      }
    case (Struct(_), Struct(_)) =>
      var i :| 0 <= i < |c.fields| && !(
        var found := Find(q.fields, c.fields[i].name, false);
        && found.Some?
        && (Tolerated(q.fields[found.value], Backward) ==> Tolerated(c.fields[i], Backward))
        && (Satisfiable(q.fields[found.value].shape) ==> PinsDown(q.fields[found.value].shape, c.fields[i].shape)));
      NamedMeaning(q, c, Backward);
      assert MeetsNamed(q, c, i, Backward);
      var found := Find(q.fields, c.fields[i].name, false);
      if found.None? {
        p := SlipExtra(q, c, i);
      } else {
        var k := found.value;
        if Tolerated(q.fields[k], Backward) && !Tolerated(c.fields[i], Backward) {
          p := SlipAbsent(q, c, i, k);
        } else {
          var inner := UnpinnedFails(q.fields[k].shape, c.fields[i].shape);
          p := SlipInside(q, c, i, k, inner);
        }
      }
  }

  /** The outer declaration tolerates a field the middle one does not mention: send it ill-typed. */
  lemma SlipExtra(q: TypeShape, c: TypeShape, i: nat) returns (p: TypeShape)
    requires q.Struct? && c.Struct? && Satisfiable(q) && i < |c.fields|
    requires Find(q.fields, c.fields[i].name, false).None?
    ensures Accepts(p, q, Backward) && !Accepts(p, c, Backward)
  {
    var n, f := |q.fields|, FieldShape(c.fields[i].name, OtherKind(c.fields[i].shape), false);
    var least := Least(q, n, q, n);
    LeastNames(q, n, q, n);
    LeastSatisfies(q, n, q);
    forall j | 0 <= j < |least|
      ensures least[j].name != f.name
    {
      assert NamesKept(q, n, n, least[j].name);
    }
    ExtraIsHarmless(Struct(least), q, f);
    p := Struct(least + [f]);
    FoundIsOnly(p.fields, f.name, false, |least|);
    assert !MeetsNamed(p, c, i, Backward);
    NamedMeaning(p, c, Backward);
  }

  /** Under Backward a producer may append a field the contract does not name. */
  lemma ExtraIsHarmless(p: TypeShape, q: TypeShape, f: FieldShape)
    requires p.Struct? && q.Struct? && Accepts(p, q, Backward)
    requires Find(q.fields, f.name, false).None? && Find(p.fields, f.name, false).None?
    ensures Accepts(Struct(p.fields + [f]), q, Backward)
    ensures Unique(p.fields + [f], false)
  {
    var wide := Struct(p.fields + [f]);
    NamedMeaning(p, q, Backward);
    forall k | 0 <= k < |q.fields|
      ensures MeetsNamed(wide, q, k, Backward)
    {
      assert MeetsNamed(p, q, k, Backward);
      var j := Find(p.fields, q.fields[k].name, false);
      if j.Some? {
        FoundIsOnly(wide.fields, q.fields[k].name, false, j.value);
      }
    }
    NamedMeaning(wide, q, Backward);
  }

  /** The middle declaration tolerates the absence of a field the outer one requires: leave it out. */
  lemma SlipAbsent(q: TypeShape, c: TypeShape, i: nat, k: nat) returns (p: TypeShape)
    requires q.Struct? && c.Struct? && Satisfiable(q) && i < |c.fields| && k < |q.fields|
    requires q.fields[k].name == c.fields[i].name
    requires Tolerated(q.fields[k], Backward) && !Tolerated(c.fields[i], Backward)
    ensures Accepts(p, q, Backward) && !Accepts(p, c, Backward)
  {
    var n := |q.fields|;
    p := Struct(Least(q, n, q, n));
    LeastSatisfies(q, n, q);
    LeastFind(q, n, q, k);
    assert !MeetsNamed(p, c, i, Backward);
    NamedMeaning(p, c, Backward);
  }

  /** A slip inside one field's shape is a slip of the whole. */
  lemma SlipInside(q: TypeShape, c: TypeShape, i: nat, k: nat, inner: TypeShape) returns (p: TypeShape)
    requires q.Struct? && c.Struct? && Satisfiable(q) && i < |c.fields| && k < |q.fields|
    requires q.fields[k].name == c.fields[i].name
    requires Accepts(inner, q.fields[k].shape, Backward) && !Accepts(inner, c.fields[i].shape, Backward)
    ensures Accepts(p, q, Backward) && !Accepts(p, c, Backward)
  {
    p := Struct(Least(q, k, inner, |q.fields|));
    LeastSatisfies(q, k, inner);
    LeastFind(q, k, inner, k);
    assert !MeetsNamed(p, c, i, Backward);
    NamedMeaning(p, c, Backward);
  }

  /**
   * Given that `q` satisfies `c`, every producer of `q` satisfies `c` too exactly when `q`, if it can be
   * satisfied at all, pins down what `c` asks for.
   */
  lemma BackwardComposesWhen(q: TypeShape, c: TypeShape)
    requires q.Struct? && Compatible(q, c, Backward)
    ensures (forall p :: Compatible(p, q, Backward) ==> Compatible(p, c, Backward))
      <==> (Satisfiable(q) ==> PinsDown(q, c))
  {
    StructPartner(q, c);
    if Satisfiable(q) ==> PinsDown(q, c) {
      forall p | Compatible(p, q, Backward)
        ensures Compatible(p, c, Backward)
      {
        StructPartner(p, q);
        SatisfiedIsSatisfiable(p, q);
        PinnedComposes(p, q, c);
      }
    } else {
      var p := UnpinnedFails(q, c);
      assert Compatible(p, q, Backward) && !Compatible(p, c, Backward);
    }
  }

  lemma StructPartner(p: TypeShape, c: TypeShape)
    requires p.Struct? || c.Struct?
    requires Compatible(p, c, Backward)
    ensures p.Struct? && c.Struct? && Accepts(p, c, Backward)
  {
  }

  /** No struct field, at any depth, has a default. */
  predicate NoDefaults(s: TypeShape) {
    match s
    case Primitive(_) => true
    case Optional(x) => NoDefaults(x)
    case Sequence(x) => NoDefaults(x)
    case Map(k, v) => NoDefaults(k) && NoDefaults(v)
    case Struct(fields) => forall i :: 0 <= i < |fields| ==> !fields[i].hasDefault && NoDefaults(fields[i].shape)
  }

  lemma {:induction false} TightPinsDown(q: TypeShape, c: TypeShape)
    requires Accepts(q, c, Backward) && NoDefaults(q) && NoLooseFields(c)
    ensures PinsDown(q, c)
    decreases c
  {
    match (q, c)
    case (Primitive(_), Primitive(_)) =>
    case (Optional(x), Optional(y)) => TightPinsDown(x, y);
    case (Sequence(x), Sequence(y)) => TightPinsDown(x, y);
    case (Map(k1, v1), Map(k2, v2)) =>
      TightPinsDown(k1, k2);
      TightPinsDown(v1, v2);
    case (Struct(_), Struct(_)) =>
      NamedMeaning(q, c, Backward);
      forall i | 0 <= i < |c.fields|
        ensures Find(q.fields, c.fields[i].name, false).Some?
        ensures var k := Find(q.fields, c.fields[i].name, false).value;
          !Tolerated(q.fields[k], Backward) && PinsDown(q.fields[k].shape, c.fields[i].shape)
      {
        assert MeetsNamed(q, c, i, Backward);
        TightPinsDown(q.fields[Find(q.fields, c.fields[i].name, false).value].shape, c.fields[i].shape);
      }
  }

  /** So Backward composes whenever the middle declaration has no default field and the outer one no loose field. */
  lemma TightComposes(p: TypeShape, q: TypeShape, c: TypeShape)
    requires Compatible(p, q, Backward) && Compatible(q, c, Backward) && NoDefaults(q) && NoLooseFields(c)
    ensures Compatible(p, c, Backward)
  {
    if q.Struct? {
      StructPartner(q, c);
      TightPinsDown(q, c);
      BackwardComposesWhen(q, c);
    }
  }

  /** A producer may omit a field the middle declaration defaults, although the outer one requires it. */
  lemma BackwardNotTransitive() returns (p: TypeShape, q: TypeShape, c: TypeShape)
    ensures Compatible(p, q, Backward) && Compatible(q, c, Backward) && !Compatible(p, c, Backward)
  {
    p := Struct([]);
    q := Struct([FieldShape("a", Primitive("i64"), true)]);
    c := Struct([FieldShape("a", Primitive("i64"), false)]);
    assert Find(p.fields, "a", false) == None;
    FoundIsOnly(q.fields, "a", false, 0);
    NamedMeaning(p, q, Backward);
    NamedMeaning(q, c, Backward);
    NamedMeaning(p, c, Backward);
    assert c.fields[0].name == "a" && q.fields[0].name == "a";
    assert !MeetsNamed(p, c, 0, Backward);
  }
}
