/** What each policy means as a relation between shapes, and the laws of those relations. */
module Policies {
  import opened Wrappers
  import opened Shapes
  import Comparison

  // ---------- declarative meaning ----------

  /** Whether a contract field may be absent from the producer. */
  predicate Tolerated(f: FieldShape, policy: SchemaPolicy) {
    match policy
    case Full | Forward => true
    case Backward => f.shape.Optional? || f.hasDefault
    case _ => false
  }

  /** Whether a producer may carry fields the contract does not name. */
  predicate ExtraAllowed(policy: SchemaPolicy) {
    policy.Full? || policy.Backward?
  }

  /** `p` satisfies `c` below the root. */
  ghost predicate Accepts(p: TypeShape, c: TypeShape, policy: SchemaPolicy)
    decreases c, 2
  {
    policy.Full? ||
    match (p, c)
    case (Primitive(x), Primitive(y)) => x == y
    case (Optional(x), Optional(y)) => Accepts(x, y, policy)
    case (Sequence(x), Sequence(y)) => Accepts(x, y, policy)
    case (Map(k1, v1), Map(k2, v2)) => Accepts(k1, k2, policy) && Accepts(v1, v2, policy)
    case (Struct(_), Struct(_)) => AcceptsFields(p, c, policy)
    case (_, _) => false
  }

  ghost predicate AcceptsFields(p: TypeShape, c: TypeShape, policy: SchemaPolicy)
    requires p.Struct? && c.Struct?
    decreases c, 1
  {
    var mode := PolicyMode(policy);
    policy.Full? ||
    if mode.byPos || mode.ordered then
      && |p.fields| == |c.fields|
      && forall i :: 0 <= i < |c.fields| ==>
        && (mode.byPos || SameName(p.fields[i].name, c.fields[i].name, mode.ci))
        && Accepts(p.fields[i].shape, c.fields[i].shape, policy)
    else
      && Unique(p.fields, mode.ci) && Unique(c.fields, mode.ci)
      && (forall i :: 0 <= i < |c.fields| ==>
        match Find(p.fields, c.fields[i].name, mode.ci)
        case Some(j) => Accepts(p.fields[j].shape, c.fields[i].shape, policy)
        case None => Tolerated(c.fields[i], policy))
      && (ExtraAllowed(policy) || forall j :: 0 <= j < |p.fields| ==> Find(c.fields, p.fields[j].name, mode.ci).Some?)
  }

  /** The fields at index `i` agree. */
  ghost predicate MeetsAt(p: TypeShape, c: TypeShape, i: nat, policy: SchemaPolicy)
    requires p.Struct? && c.Struct? && i < |p.fields| && i < |c.fields|
  {
    && (PolicyMode(policy).byPos || SameName(p.fields[i].name, c.fields[i].name, PolicyMode(policy).ci))
    && Accepts(p.fields[i].shape, c.fields[i].shape, policy)
  }

  /** The contract field at index `i` is met by the producer field of its name, or tolerably absent. */
  ghost predicate MeetsNamed(p: TypeShape, c: TypeShape, i: nat, policy: SchemaPolicy)
    requires p.Struct? && c.Struct? && i < |c.fields|
  {
    match Find(p.fields, c.fields[i].name, PolicyMode(policy).ci)
    case Some(j) => Accepts(p.fields[j].shape, c.fields[i].shape, policy)
    case None => Tolerated(c.fields[i], policy)
  }

  /** `p` satisfies `c`. Roots that are not both structs must be the same type. */
  ghost predicate Compatible(p: TypeShape, c: TypeShape, policy: SchemaPolicy) {
    policy.Full? ||
    if p.Struct? && c.Struct? then AcceptsFields(p, c, policy) else SameShape(p, c)
  }

  lemma AlignedMeaning(p: TypeShape, c: TypeShape, policy: SchemaPolicy)
    requires p.Struct? && c.Struct? && (PolicyMode(policy).byPos || PolicyMode(policy).ordered)
    ensures AcceptsFields(p, c, policy) <==>
      |p.fields| == |c.fields| && forall i :: 0 <= i < |c.fields| ==> MeetsAt(p, c, i, policy)
  {
    if |p.fields| == |c.fields| && forall i :: 0 <= i < |c.fields| ==> MeetsAt(p, c, i, policy) {
      forall i | 0 <= i < |c.fields|
        ensures PolicyMode(policy).byPos || SameName(p.fields[i].name, c.fields[i].name, PolicyMode(policy).ci)
        ensures Accepts(p.fields[i].shape, c.fields[i].shape, policy)
      {
        assert MeetsAt(p, c, i, policy);
      }
    }
  }

  lemma NamedMeaning(p: TypeShape, c: TypeShape, policy: SchemaPolicy)
    requires p.Struct? && c.Struct? && !policy.Full?
    requires !PolicyMode(policy).byPos && !PolicyMode(policy).ordered
    ensures AcceptsFields(p, c, policy) <==>
      && Unique(p.fields, PolicyMode(policy).ci) && Unique(c.fields, PolicyMode(policy).ci)
      && (forall i :: 0 <= i < |c.fields| ==> MeetsNamed(p, c, i, policy))
      && (ExtraAllowed(policy) ||
          forall j :: 0 <= j < |p.fields| ==> Find(c.fields, p.fields[j].name, PolicyMode(policy).ci).Some?)
  {
    if forall i :: 0 <= i < |c.fields| ==> MeetsNamed(p, c, i, policy) {
      forall i | 0 <= i < |c.fields|
        ensures match Find(p.fields, c.fields[i].name, PolicyMode(policy).ci)
          case Some(j) => Accepts(p.fields[j].shape, c.fields[i].shape, policy)
          case None => Tolerated(c.fields[i], policy)
      {
        assert MeetsNamed(p, c, i, policy);
      }
    }
  }

  // ---------- the comparer decides exactly that relation ----------

  ghost predicate Clean(diffs: seq<Comparison.Diff>, policy: SchemaPolicy) {
    Comparison.Rejected(diffs, policy) == []
  }

  lemma CleanJoin(a: seq<Comparison.Diff>, b: seq<Comparison.Diff>, policy: SchemaPolicy)
    ensures Clean(Comparison.Join(a, b), policy) <==> Clean(a, policy) && Clean(b, policy)
  {
    Comparison.RejectedJoin(a, b, policy);
  }

  lemma {:induction false} CleanEach(diffs: seq<Comparison.Diff>, policy: SchemaPolicy)
    ensures Clean(diffs, policy) <==> forall i :: 0 <= i < |diffs| ==> !Comparison.Rejects(diffs[i], policy)
  {
    if diffs != [] {
      var n := |diffs| - 1;
      CleanEach(diffs[..n], policy);
      assert forall i :: 0 <= i < n ==> diffs[..n][i] == diffs[i];
    }
  }

  lemma CleanFull(diffs: seq<Comparison.Diff>)
    ensures Clean(diffs, Full)
  {
    CleanEach(diffs, Full);
  }

  lemma CleanOne(d: Comparison.Diff, policy: SchemaPolicy)
    ensures Clean([d], policy) <==> !Comparison.Rejects(d, policy)
  {
    CleanEach([d], policy);
    assert [d][0] == d;
  }

  lemma {:induction false} ShapeVerdict(p: TypeShape, c: TypeShape, path: seq<string>, policy: SchemaPolicy)
    ensures Clean(Comparison.ShapeDiffs(p, c, path, PolicyMode(policy)), policy) <==> Accepts(p, c, policy)
    decreases c, 2
  {
    var mode := PolicyMode(policy);
    var diffs := Comparison.ShapeDiffs(p, c, path, mode);
    if policy.Full? {
      CleanFull(diffs);
      return;
    }
    match (p, c)
    case (Primitive(x), Primitive(y)) =>
      CleanOne(Comparison.MismatchDiff(path, y, x), policy);
    case (Optional(x), Optional(y)) =>
      ShapeVerdict(x, y, path, policy);
    case (Sequence(x), Sequence(y)) =>
      ShapeVerdict(x, y, path + ["[]"], policy);
    case (Map(k1, v1), Map(k2, v2)) =>
      ShapeVerdict(k1, k2, path + ["<key>"], policy);
      ShapeVerdict(v1, v2, path + ["<value>"], policy);
      CleanJoin(Comparison.ShapeDiffs(k1, k2, path + ["<key>"], mode),
        Comparison.ShapeDiffs(v1, v2, path + ["<value>"], mode), policy);
    case (Struct(_), Struct(_)) =>
      FieldVerdict(p, c, path, policy);
    case (_, _) =>
      CleanOne(Comparison.MismatchDiff(path, Comparison.ShapeLabel(c), Comparison.ShapeLabel(p)), policy);
  }

  lemma {:induction false} FieldVerdict(p: TypeShape, c: TypeShape, path: seq<string>, policy: SchemaPolicy)
    requires p.Struct? && c.Struct?
    ensures Clean(Comparison.FieldDiffs(p, c, path, PolicyMode(policy)), policy) <==> AcceptsFields(p, c, policy)
    decreases c, 1
  {
    var mode := PolicyMode(policy);
    if policy.Full? {
      CleanFull(Comparison.FieldDiffs(p, c, path, mode));
    } else if mode.byPos || mode.ordered {
      AlignedVerdict(p, c, path, policy);
    } else {
      var a, b := FirstDuplicate(p.fields, mode.ci, 0), FirstDuplicate(c.fields, mode.ci, 0);
      if a.Some? {
        CleanOne(Comparison.MismatchDiff(path + [a.value], "unique field name", a.value), policy);
      } else if b.Some? {
        CleanOne(Comparison.MismatchDiff(path + [b.value], "unique field name", b.value), policy);
      } else {
        var named := Comparison.NamedDiffs(p, c, path, mode, |c.fields|);
        var extra := Comparison.UnmatchedExtra(p, c, path, mode, |p.fields|);
        assert Comparison.FieldDiffs(p, c, path, mode) == Comparison.Join(named, extra);
        CleanJoin(named, extra, policy);
        NamedVerdict(p, c, path, policy, |c.fields|);
        ExtraVerdict(p, c, path, policy, |p.fields|);
        NamedMeaning(p, c, policy);
      }
    }
  }

  lemma AlignedVerdict(p: TypeShape, c: TypeShape, path: seq<string>, policy: SchemaPolicy)
    requires p.Struct? && c.Struct? && (PolicyMode(policy).byPos || PolicyMode(policy).ordered)
    ensures Clean(Comparison.FieldDiffs(p, c, path, PolicyMode(policy)), policy) <==> AcceptsFields(p, c, policy)
    decreases c, 0, |c.fields| + 1
  {
    var mode := PolicyMode(policy);
    var shared := Min(|p.fields|, |c.fields|);
    var aligned := Comparison.AlignedDiffs(p, c, path, mode, shared);
    var missing, extra := Comparison.TailMissing(c, path, shared), Comparison.TailExtra(p, path, shared);
    assert Comparison.FieldDiffs(p, c, path, mode) == Comparison.Join(Comparison.Join(aligned, missing), extra);
    CleanJoin(Comparison.Join(aligned, missing), extra, policy);
    CleanJoin(aligned, missing, policy);
    PrefixVerdict(p, c, path, policy, shared);
    TailVerdict(missing, policy);
    TailVerdict(extra, policy);
    assert |missing| == |c.fields| - shared && |extra| == |p.fields| - shared;
    AlignedMeaning(p, c, policy);
  }

  /** An exact policy refuses every leftover field. */
  lemma TailVerdict(tail: seq<Comparison.Diff>, policy: SchemaPolicy)
    requires PolicyMode(policy).byPos || PolicyMode(policy).ordered
    ensures Clean(tail, policy) <==> |tail| == 0
  {
    CleanEach(tail, policy);
    if |tail| > 0 {
      assert Comparison.Rejects(tail[0], policy);
    }
  }

  lemma PrefixVerdict(p: TypeShape, c: TypeShape, path: seq<string>, policy: SchemaPolicy, n: nat)
    requires p.Struct? && c.Struct? && n <= |p.fields| && n <= |c.fields|
    requires PolicyMode(policy).byPos || PolicyMode(policy).ordered
    ensures Clean(Comparison.AlignedDiffs(p, c, path, PolicyMode(policy), n), policy)
      <==> forall i :: 0 <= i < n ==> MeetsAt(p, c, i, policy)
    decreases c, 0, n
  {
    forall i | 0 <= i < n
      ensures CleanAt(p, c, path, PolicyMode(policy), policy, i) <==> MeetsAt(p, c, i, policy)
    {
      AlignedAtVerdict(p, c, path, policy, i);
    }
    PrefixClean(p, c, path, PolicyMode(policy), policy, n);
  }

  ghost predicate CleanAt(p: TypeShape, c: TypeShape, path: seq<string>, mode: Mode, policy: SchemaPolicy, i: nat)
    requires p.Struct? && c.Struct? && i < |p.fields| && i < |c.fields|
  {
    Clean(Comparison.AlignedAt(p, c, path, mode, i), policy)
  }

  /** Index by index, nothing is refused exactly when nothing is refused at any index. */
  lemma {:induction false} PrefixClean(p: TypeShape, c: TypeShape, path: seq<string>, mode: Mode, policy: SchemaPolicy, n: nat)
    requires p.Struct? && c.Struct? && n <= |p.fields| && n <= |c.fields|
    ensures Clean(Comparison.AlignedDiffs(p, c, path, mode, n), policy)
      <==> forall i :: 0 <= i < n ==> CleanAt(p, c, path, mode, policy, i)
  {
    if n == 0 {
      CleanEach([], policy);
    } else {
      assert CleanAt(p, c, path, mode, policy, n - 1) <==> Clean(Comparison.AlignedAt(p, c, path, mode, n - 1), policy);
      CleanJoin(Comparison.AlignedDiffs(p, c, path, mode, n - 1), Comparison.AlignedAt(p, c, path, mode, n - 1), policy);
      PrefixClean(p, c, path, mode, policy, n - 1);
    }
  }

  lemma AlignedAtVerdict(p: TypeShape, c: TypeShape, path: seq<string>, policy: SchemaPolicy, i: nat)
    requires p.Struct? && c.Struct? && i < |p.fields| && i < |c.fields|
    requires PolicyMode(policy).byPos || PolicyMode(policy).ordered
    ensures Clean(Comparison.AlignedAt(p, c, path, PolicyMode(policy), i), policy) <==> MeetsAt(p, c, i, policy)
    decreases c, 0, 0
  {
    var mode := PolicyMode(policy);
    var a, b := p.fields[i], c.fields[i];
    if mode.byPos {
      ShapeVerdict(a.shape, b.shape, path + [a.name], policy);
    } else {
      ShapeVerdict(a.shape, b.shape, path + [b.name], policy);
      CleanJoin(Comparison.NameDiff(a, b, path, mode), Comparison.ShapeDiffs(a.shape, b.shape, path + [b.name], mode), policy);
      TailVerdict(Comparison.NameDiff(a, b, path, mode), policy);
    }
  }

  lemma {:induction false} NamedVerdict(p: TypeShape, c: TypeShape, path: seq<string>, policy: SchemaPolicy, n: nat)
    requires p.Struct? && c.Struct? && n <= |c.fields| && !policy.Full?
    ensures Clean(Comparison.NamedDiffs(p, c, path, PolicyMode(policy), n), policy)
      <==> forall i :: 0 <= i < n ==> MeetsNamed(p, c, i, policy)
    decreases c, 0, n
  {
    if n > 0 {
      var mode := PolicyMode(policy);
      CleanJoin(Comparison.NamedDiffs(p, c, path, mode, n - 1), Comparison.NamedAt(p, c, path, mode, n - 1), policy);
      NamedVerdict(p, c, path, policy, n - 1);
      NamedAtVerdict(p, c, path, policy, n - 1);
    }
  }

  lemma NamedAtVerdict(p: TypeShape, c: TypeShape, path: seq<string>, policy: SchemaPolicy, i: nat)
    requires p.Struct? && c.Struct? && i < |c.fields| && !policy.Full?
    ensures Clean(Comparison.NamedAt(p, c, path, PolicyMode(policy), i), policy) <==> MeetsNamed(p, c, i, policy)
    decreases c, 0, 0
  {
    var f := c.fields[i];
    match Find(p.fields, f.name, PolicyMode(policy).ci)
    case Some(j) =>
      ShapeVerdict(p.fields[j].shape, f.shape, path + [f.name], policy);
    case None =>
      var d := Comparison.MissingAt(c, path, i);
      CleanOne(d, policy);
      assert Comparison.Rejects(d, policy) <==> !Tolerated(f, policy);
  }

  lemma {:induction false} ExtraVerdict(p: TypeShape, c: TypeShape, path: seq<string>, policy: SchemaPolicy, n: nat)
    requires p.Struct? && c.Struct? && n <= |p.fields|
    ensures Clean(Comparison.UnmatchedExtra(p, c, path, PolicyMode(policy), n), policy)
      <==> ExtraAllowed(policy) || forall j :: 0 <= j < n ==> Find(c.fields, p.fields[j].name, PolicyMode(policy).ci).Some?
  {
    if n > 0 {
      var mode := PolicyMode(policy);
      ExtraVerdict(p, c, path, policy, n - 1);
      CleanJoin(Comparison.UnmatchedExtra(p, c, path, mode, n - 1), Comparison.ExtraAt(p, c, path, mode, n - 1), policy);
      CleanOne(Comparison.ExtraDiff(path + [p.fields[n - 1].name]), policy);
    }
  }

  /** The list of refused differences is empty exactly when the relation holds. */
  lemma VerdictMeaning(p: TypeShape, c: TypeShape, policy: SchemaPolicy)
    ensures Comparison.Rejected(Comparison.RootDiffs(p, c, policy), policy) == [] <==> Compatible(p, c, policy)
  {
    if p.Struct? && c.Struct? {
      FieldVerdict(p, c, [], policy);
    } else if !SameShape(p, c) {
      CleanOne(Comparison.MismatchDiff(["<root>"], Comparison.ShapeLabel(c), Comparison.ShapeLabel(p)), policy);
    }
  }

  method Conforms(p: TypeShape, c: TypeShape, policy: SchemaPolicy) returns (r: bool)
    ensures r <==> Compatible(p, c, policy)
  {
    var comparison := Comparison.Compare(p, c, policy);
    VerdictMeaning(p, c, policy);
    r := !comparison.rejected;
  }
}
