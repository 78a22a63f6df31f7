/**
 * The compatibility comparer. The specification lists every difference between two
 * shapes with its whole path; the class keeps only a bounded display of them.
 */
module Comparison {
  import opened Wrappers
  import opened Shapes

  const MAX_PATH_DEPTH: nat := 8
  const MAX_DIFFS: nat := 128

  datatype DiffKind = Missing | Extra | Mismatch

  datatype Diff = Diff(
    kind: DiffKind,
    path: seq<string>,
    optionalOrDefault: bool,
    annotation: string,
    expected: string,
    found: string)

  function OptionalAnnotation(isOptional: bool, hasDefault: bool): string {
    if isOptional then " (optional)" else if hasDefault then " (default)" else ""
  }

  function ShapeLabel(shape: TypeShape): string {
    match shape
    case Primitive(name) => name
    case Optional(_) => "Optional"
    case Sequence(_) => "Sequence"
    case Map(_, _) => "Map"
    case Struct(_) => "Struct"
  }

  function MissingDiff(path: seq<string>, isOptional: bool, hasDefault: bool): Diff {
    Diff(Missing, path, isOptional || hasDefault, OptionalAnnotation(isOptional, hasDefault), "", "")
  }

  function ExtraDiff(path: seq<string>): Diff {
    Diff(Extra, path, false, "", "", "")
  }

  function MismatchDiff(path: seq<string>, expected: string, found: string): Diff {
    Diff(Mismatch, path, false, "", expected, found)
  }

  /** Which differences a policy refuses. */
  predicate Rejects(diff: Diff, policy: SchemaPolicy) {
    match policy
    case Full => false
    case Backward =>
      (match diff.kind
       case Missing => !diff.optionalOrDefault
       case Extra => false
       case Mismatch => true)
    case Forward => !diff.kind.Missing?
    case _ => true
  }

  /** Concatenation, spelled so that an empty side leaves the other as it is. */
  ghost function Join(a: seq<Diff>, b: seq<Diff>): seq<Diff> {
    if a == [] then b else if b == [] then a else a + b
  }

  lemma JoinIsConcat(a: seq<Diff>, b: seq<Diff>)
    ensures Join(a, b) == a + b
  {
  }

  lemma Appended(before: seq<Diff>, a: seq<Diff>, b: seq<Diff>)
    ensures Join(Join(before, a), b) == Join(before, Join(a, b))
  {
  }

  // ---------- specification: every difference, in order, with its whole path ----------

  ghost function ShapeDiffs(p: TypeShape, c: TypeShape, path: seq<string>, mode: Mode): seq<Diff>
    decreases c, 3
  {
    match (p, c)
    case (Primitive(x), Primitive(y)) => if x == y then [] else [MismatchDiff(path, y, x)]
    case (Optional(x), Optional(y)) => ShapeDiffs(x, y, path, mode)
    case (Sequence(x), Sequence(y)) => ShapeDiffs(x, y, path + ["[]"], mode)
    case (Map(k1, v1), Map(k2, v2)) =>
      Join(ShapeDiffs(k1, k2, path + ["<key>"], mode), ShapeDiffs(v1, v2, path + ["<value>"], mode))
    case (Struct(_), Struct(_)) => FieldDiffs(p, c, path, mode)
    case (_, _) => [MismatchDiff(path, ShapeLabel(c), ShapeLabel(p))]
  }

  ghost function FieldDiffs(p: TypeShape, c: TypeShape, path: seq<string>, mode: Mode): seq<Diff>
    requires p.Struct? && c.Struct?
    decreases c, 2
  {
    if mode.byPos || mode.ordered then
      var shared := Min(|p.fields|, |c.fields|);
      Join(Join(AlignedDiffs(p, c, path, mode, shared), TailMissing(c, path, shared)), TailExtra(p, path, shared))
    else
      match FirstDuplicate(p.fields, mode.ci, 0)
      case Some(name) => [MismatchDiff(path + [name], "unique field name", name)]
      case None =>
        match FirstDuplicate(c.fields, mode.ci, 0)
        case Some(name) => [MismatchDiff(path + [name], "unique field name", name)]
        case None =>
          Join(NamedDiffs(p, c, path, mode, |c.fields|), UnmatchedExtra(p, c, path, mode, |p.fields|))
  }

  /** Differences at the first `n` indices, paired by position. */
  ghost function AlignedDiffs(p: TypeShape, c: TypeShape, path: seq<string>, mode: Mode, n: nat): seq<Diff>
    requires p.Struct? && c.Struct? && n <= |p.fields| && n <= |c.fields|
    decreases c, 1, n
  {
    if n == 0 then []
    else Join(AlignedDiffs(p, c, path, mode, n - 1), AlignedAt(p, c, path, mode, n - 1))
  }

  ghost function AlignedAt(p: TypeShape, c: TypeShape, path: seq<string>, mode: Mode, i: nat): seq<Diff>
    requires p.Struct? && c.Struct? && i < |p.fields| && i < |c.fields|
    decreases c, 0
  {
    var a, b := p.fields[i], c.fields[i];
    if mode.byPos then ShapeDiffs(a.shape, b.shape, path + [a.name], mode)
    else
      Join(NameDiff(a, b, path, mode), ShapeDiffs(a.shape, b.shape, path + [b.name], mode))
  }

  /** Under an ordered walk, disagreeing names at one index are a difference of their own. */
  ghost function NameDiff(a: FieldShape, b: FieldShape, path: seq<string>, mode: Mode): seq<Diff> {
    if SameName(a.name, b.name, mode.ci) then []
    else [MismatchDiff(path + [b.name] + ["(name)"], b.name, a.name)]
  }

  ghost function TailMissing(c: TypeShape, path: seq<string>, from: nat): seq<Diff>
    requires c.Struct? && from <= |c.fields|
  {
    seq(|c.fields| - from, k requires 0 <= k < |c.fields| - from => MissingAt(c, path, from + k))
  }

  ghost function MissingAt(c: TypeShape, path: seq<string>, i: nat): Diff
    requires c.Struct? && i < |c.fields|
  {
    var f := c.fields[i];
    MissingDiff(path + [f.name], f.shape.Optional?, f.hasDefault)
  }

  ghost function TailExtra(p: TypeShape, path: seq<string>, from: nat): seq<Diff>
    requires p.Struct? && from <= |p.fields|
  {
    seq(|p.fields| - from, k requires 0 <= k < |p.fields| - from => LeftoverAt(p, path, from + k))
  }

  ghost function LeftoverAt(p: TypeShape, path: seq<string>, i: nat): Diff
    requires p.Struct? && i < |p.fields|
  {
    ExtraDiff(path + [p.fields[i].name])
  }

  /** Differences for the first `n` contract fields, each paired with the producer field of its name. */
  ghost function NamedDiffs(p: TypeShape, c: TypeShape, path: seq<string>, mode: Mode, n: nat): seq<Diff>
    requires p.Struct? && c.Struct? && n <= |c.fields|
    decreases c, 1, n
  {
    if n == 0 then []
    else Join(NamedDiffs(p, c, path, mode, n - 1), NamedAt(p, c, path, mode, n - 1))
  }

  ghost function NamedAt(p: TypeShape, c: TypeShape, path: seq<string>, mode: Mode, i: nat): seq<Diff>
    requires p.Struct? && c.Struct? && i < |c.fields|
    decreases c, 0
  {
    match Find(p.fields, c.fields[i].name, mode.ci)
    case Some(j) => ShapeDiffs(p.fields[j].shape, c.fields[i].shape, path + [c.fields[i].name], mode)
    case None => [MissingAt(c, path, i)]
  }

  /** The first `n` producer fields that no contract field names. */
  ghost function UnmatchedExtra(p: TypeShape, c: TypeShape, path: seq<string>, mode: Mode, n: nat): seq<Diff>
    requires p.Struct? && c.Struct? && n <= |p.fields|
  {
    if n == 0 then []
    else Join(UnmatchedExtra(p, c, path, mode, n - 1), ExtraAt(p, c, path, mode, n - 1))
  }

  ghost function ExtraAt(p: TypeShape, c: TypeShape, path: seq<string>, mode: Mode, j: nat): seq<Diff>
    requires p.Struct? && c.Struct? && j < |p.fields|
  {
    if Find(c.fields, p.fields[j].name, mode.ci).None? then [ExtraDiff(path + [p.fields[j].name])] else []
  }

  ghost function RootDiffs(p: TypeShape, c: TypeShape, policy: SchemaPolicy): seq<Diff> {
    if p.Struct? && c.Struct? then FieldDiffs(p, c, [], PolicyMode(policy))
    else if SameShape(p, c) then []
    else [MismatchDiff(["<root>"], ShapeLabel(c), ShapeLabel(p))]
  }

  /** The differences a policy refuses, in order. */
  ghost function Rejected(diffs: seq<Diff>, policy: SchemaPolicy): seq<Diff> {
    if diffs == [] then []
    else
      var before, last := Rejected(diffs[..|diffs| - 1], policy), diffs[|diffs| - 1];
      if Rejects(last, policy) then before + [last] else before
  }

  lemma {:induction false} RejectedConcat(a: seq<Diff>, b: seq<Diff>, policy: SchemaPolicy)
    ensures Rejected(a + b, policy) == Rejected(a, policy) + Rejected(b, policy)
    decreases |b|
  {
    if b == [] {
      assert a + b == a;
    } else {
      var n := |b| - 1;
      assert (a + b)[..|a + b| - 1] == a + b[..n];
      RejectedConcat(a, b[..n], policy);
    }
  }

  lemma RejectedJoin(a: seq<Diff>, b: seq<Diff>, policy: SchemaPolicy)
    ensures Rejected(Join(a, b), policy) == Join(Rejected(a, policy), Rejected(b, policy))
  {
    JoinIsConcat(a, b);
    JoinIsConcat(Rejected(a, policy), Rejected(b, policy));
    RejectedConcat(a, b, policy);
  }

  // ---------- the bounded display ----------

  /** The eight path slots a difference has room for, padded with empty text. */
  function Window(path: seq<string>): (slots: seq<string>)
    ensures |slots| == MAX_PATH_DEPTH
  {
    seq(MAX_PATH_DEPTH, i requires 0 <= i < MAX_PATH_DEPTH => if i < |path| then path[i] else "")
  }

  /** A difference as displayed: only the outermost segments of its path remain. */
  ghost function Shown(d: Diff): Diff {
    d.(path := Window(d.path))
  }

  /** What is displayed is the difference itself, with the first eight segments of its path. */
  ghost predicate Displays(shown: Diff, d: Diff) {
    && shown == d.(path := shown.path) && |shown.path| == 8
    && forall k :: 0 <= k < 8 ==> shown.path[k] == if k < |d.path| then d.path[k] else ""
  }

  /** Every refused difference that fits, as displayed, padded with empty slots. */
  ghost function Display(log: seq<Diff>): (r: seq<Option<Diff>>)
    ensures |r| == MAX_DIFFS
  {
    seq(MAX_DIFFS, i requires 0 <= i < MAX_DIFFS => if i < |log| then Some(Shown(log[i])) else None)
  }

  /** Appends `segment` to the displayed prefix of `path`; segments beyond the window are dropped. */
  function AppendSegment(slots: seq<string>, depth: nat, segment: string, ghost path: seq<string>): (r: (seq<string>, nat))
    requires slots == Window(path) && depth == Min(|path|, MAX_PATH_DEPTH)
    ensures r.0 == Window(path + [segment]) && r.1 == Min(|path| + 1, MAX_PATH_DEPTH)
  {
    if depth < MAX_PATH_DEPTH then (slots[depth := segment], depth + 1) else (slots, depth)
  }

  /** Keeps the verdict apart from the bounded list of differences that explains it. */
  class Comparison {
    const policy: SchemaPolicy
    var rejected: bool
    const items: array<Option<Diff>>
    var len: nat
    /** Every difference found so far, refused or not, with its whole path. */
    ghost var log: seq<Diff>

    /** The differences found so far that the policy refuses. */
    ghost function Refused(): seq<Diff>
      reads this
    {
      Rejected(log, policy)
    }

    ghost predicate Valid()
      reads this, items
    {
      && items.Length == MAX_DIFFS
      && len == Min(|Refused()|, MAX_DIFFS)
      && (rejected <==> Refused() != [])
      && items[..] == Display(Refused())
    }

    constructor (policy: SchemaPolicy)
      ensures Valid() && fresh(items) && this.policy == policy && log == []
    {
      this.policy := policy;
      rejected := false;
      items := new Option<Diff>[MAX_DIFFS](_ => None);
      len := 0;
      log := [];
    }

    /** Displays `diff` if there is still room for it. */
    method PushDiff(diff: Diff)
      requires items.Length == MAX_DIFFS && len <= MAX_DIFFS
      modifies items, this`len
      ensures len == Min(old(len) + 1, MAX_DIFFS)
      ensures items[..] == if old(len) < MAX_DIFFS then old(items[..])[old(len) := Some(diff)] else old(items[..])
    {
      if len < MAX_DIFFS {
        items[len] := Some(diff);
        len := len + 1;
      }
    }

    /** Records `diff`, keeping it only if the policy refuses it; `whole` is the same difference with its whole path. */
    method Push(diff: Diff, ghost whole: Diff)
      requires Valid() && diff == Shown(whole)
      modifies this, items
      ensures Valid() && log == Join(old(log), [whole])
    {
      assert (log + [whole])[..|log + [whole]| - 1] == log;
      if Rejects(diff, policy) {
        rejected := true;
        PushDiff(diff);
      }
      log := Join(log, [whole]);
    }

    method CompareShapes(p: TypeShape, c: TypeShape, slots: seq<string>, depth: nat, mode: Mode, ghost path: seq<string>)
      requires Valid() && slots == Window(path) && depth == Min(|path|, MAX_PATH_DEPTH)
      modifies this, items
      ensures Valid() && log == Join(old(log), ShapeDiffs(p, c, path, mode))
      decreases c, 3
    {
      match (p, c)
      case (Primitive(x), Primitive(y)) =>
        var same := StrEq(x, y);
        if !same {
          Push(MismatchDiff(slots, y, x), MismatchDiff(path, y, x));
        }
      case (Optional(x), Optional(y)) =>
        CompareShapes(x, y, slots, depth, mode, path);
      case (Sequence(x), Sequence(y)) =>
        var (s, d) := AppendSegment(slots, depth, "[]", path);
        CompareShapes(x, y, s, d, mode, path + ["[]"]);
      case (Map(k1, v1), Map(k2, v2)) =>
        Appended(log, ShapeDiffs(k1, k2, path + ["<key>"], mode), ShapeDiffs(v1, v2, path + ["<value>"], mode));
        var (ks, kd) := AppendSegment(slots, depth, "<key>", path);
        CompareShapes(k1, k2, ks, kd, mode, path + ["<key>"]);
        var (vs, vd) := AppendSegment(slots, depth, "<value>", path);
        CompareShapes(v1, v2, vs, vd, mode, path + ["<value>"]);
      case (Struct(_), Struct(_)) =>
        CompareFields(p, c, slots, depth, mode, path);
      case (_, _) =>
        Push(MismatchDiff(slots, ShapeLabel(c), ShapeLabel(p)), MismatchDiff(path, ShapeLabel(c), ShapeLabel(p)));
    }

    method CompareFields(p: TypeShape, c: TypeShape, slots: seq<string>, depth: nat, mode: Mode, ghost path: seq<string>)
      requires Valid() && p.Struct? && c.Struct? && slots == Window(path) && depth == Min(|path|, MAX_PATH_DEPTH)
      modifies this, items
      ensures Valid() && log == Join(old(log), FieldDiffs(p, c, path, mode))
      decreases c, 2
    {
      if mode.byPos {
        CompareByPosition(p, c, slots, depth, mode, path);
      } else if mode.ordered {
        CompareOrdered(p, c, slots, depth, mode, path);
      } else {
        CompareByName(p, c, slots, depth, mode, path);
      }
    }

    method CompareByName(p: TypeShape, c: TypeShape, slots: seq<string>, depth: nat, mode: Mode, ghost path: seq<string>)
      requires Valid() && p.Struct? && c.Struct? && slots == Window(path) && depth == Min(|path|, MAX_PATH_DEPTH)
      requires !mode.byPos && !mode.ordered
      modifies this, items
      ensures Valid() && log == Join(old(log), FieldDiffs(p, c, path, mode))
      decreases c, 1, 1
    {
      var duplicate := DuplicateFieldName(p.fields, mode.ci);
      if duplicate.None? {
        duplicate := DuplicateFieldName(c.fields, mode.ci);
      }
      if duplicate.Some? {
        PushDuplicate(duplicate.value, slots, depth, path);
        return;
      }
      MatchByName(p, c, slots, depth, mode, path);
      PushLeftovers(p, c, slots, depth, mode, path);
      Appended(old(log), NamedDiffs(p, c, path, mode, |c.fields|), UnmatchedExtra(p, c, path, mode, |p.fields|));
    }

    /** Every contract field against the producer's field of its name. */
    method MatchByName(p: TypeShape, c: TypeShape, slots: seq<string>, depth: nat, mode: Mode, ghost path: seq<string>)
      requires Valid() && p.Struct? && c.Struct? && slots == Window(path) && depth == Min(|path|, MAX_PATH_DEPTH)
      modifies this, items
      ensures Valid() && log == Join(old(log), NamedDiffs(p, c, path, mode, |c.fields|))
      decreases c, 1, 0
    {
      var i := 0;
      while i < |c.fields|
        invariant 0 <= i <= |c.fields| && Valid()
        invariant log == Join(old(log), NamedDiffs(p, c, path, mode, i))
      {
        Appended(old(log), NamedDiffs(p, c, path, mode, i), NamedAt(p, c, path, mode, i));
        CompareNamed(p, c, slots, depth, mode, path, i);
        i := i + 1;
      }
    }

    /** The producer's fields that no contract field names. */
    method PushLeftovers(p: TypeShape, c: TypeShape, slots: seq<string>, depth: nat, mode: Mode, ghost path: seq<string>)
      requires Valid() && p.Struct? && c.Struct? && slots == Window(path) && depth == Min(|path|, MAX_PATH_DEPTH)
      modifies this, items
      ensures Valid() && log == Join(old(log), UnmatchedExtra(p, c, path, mode, |p.fields|))
    {
      var j := 0;
      while j < |p.fields|
        invariant 0 <= j <= |p.fields| && Valid()
        invariant log == Join(old(log), UnmatchedExtra(p, c, path, mode, j))
      {
        Appended(old(log), UnmatchedExtra(p, c, path, mode, j), ExtraAt(p, c, path, mode, j));
        PushUnmatched(p, c, slots, depth, mode, path, j);
        j := j + 1;
      }
    }

    method PushDuplicate(name: string, slots: seq<string>, depth: nat, ghost path: seq<string>)
      requires Valid() && slots == Window(path) && depth == Min(|path|, MAX_PATH_DEPTH)
      modifies this, items
      ensures Valid()
      ensures log == Join(old(log), [MismatchDiff(path + [name], "unique field name", name)])
    {
      var (s, _) := AppendSegment(slots, depth, name, path);
      Push(MismatchDiff(s, "unique field name", name), MismatchDiff(path + [name], "unique field name", name));
    }

    method CompareNamed(p: TypeShape, c: TypeShape, slots: seq<string>, depth: nat, mode: Mode, ghost path: seq<string>, i: nat)
      requires Valid() && p.Struct? && c.Struct? && slots == Window(path) && depth == Min(|path|, MAX_PATH_DEPTH)
      requires i < |c.fields|
      modifies this, items
      ensures Valid() && log == Join(old(log), NamedAt(p, c, path, mode, i))
      decreases c, 0
    {
      var f := c.fields[i];
      var found := FindFieldMode(p.fields, f.name, mode.ci);
      var (s, d) := AppendSegment(slots, depth, f.name, path);
      match found {
        case Some(j) =>
          CompareShapes(p.fields[j].shape, f.shape, s, d, mode, path + [f.name]);
        case None =>
          Push(MissingDiff(s, f.shape.Optional?, f.hasDefault), MissingAt(c, path, i));
      }
    }

    method PushUnmatched(p: TypeShape, c: TypeShape, slots: seq<string>, depth: nat, mode: Mode, ghost path: seq<string>, j: nat)
      requires Valid() && p.Struct? && c.Struct? && slots == Window(path) && depth == Min(|path|, MAX_PATH_DEPTH)
      requires j < |p.fields|
      modifies this, items
      ensures Valid() && log == Join(old(log), ExtraAt(p, c, path, mode, j))
    {
      var name := p.fields[j].name;
      var found := FindFieldMode(c.fields, name, mode.ci);
      if found.None? {
        PushExtra(name, slots, depth, path);
      }
    }

    method PushExtra(name: string, slots: seq<string>, depth: nat, ghost path: seq<string>)
      requires Valid() && slots == Window(path) && depth == Min(|path|, MAX_PATH_DEPTH)
      modifies this, items
      ensures Valid() && log == Join(old(log), [ExtraDiff(path + [name])])
    {
      var (s, _) := AppendSegment(slots, depth, name, path);
      Push(ExtraDiff(s), ExtraDiff(path + [name]));
    }

    method CompareOrdered(p: TypeShape, c: TypeShape, slots: seq<string>, depth: nat, mode: Mode, ghost path: seq<string>)
      requires Valid() && p.Struct? && c.Struct? && slots == Window(path) && depth == Min(|path|, MAX_PATH_DEPTH)
      requires mode.ordered && !mode.byPos
      modifies this, items
      ensures Valid() && log == Join(old(log), FieldDiffs(p, c, path, mode))
      decreases c, 1, 1
    {
      var shared := Min(|p.fields|, |c.fields|);
      WalkInOrder(p, c, slots, depth, mode, path, shared);
      PushTails(p, c, slots, depth, mode, path, shared, old(log));
    }

    method WalkInOrder(p: TypeShape, c: TypeShape, slots: seq<string>, depth: nat, mode: Mode, ghost path: seq<string>, shared: nat)
      requires Valid() && p.Struct? && c.Struct? && slots == Window(path) && depth == Min(|path|, MAX_PATH_DEPTH)
      requires mode.ordered && !mode.byPos && shared == Min(|p.fields|, |c.fields|)
      modifies this, items
      ensures Valid() && log == Join(old(log), AlignedDiffs(p, c, path, mode, shared))
      decreases c, 1, 0
    {
      ghost var before := log;
      var i := 0;
      while i < shared
        invariant 0 <= i <= shared && Valid()
        invariant log == Join(before, AlignedDiffs(p, c, path, mode, i))
      {
        CompareInOrder(p, c, slots, depth, mode, path, i, before);
        i := i + 1;
      }
    }

    method CompareInOrder(p: TypeShape, c: TypeShape, slots: seq<string>, depth: nat, mode: Mode, ghost path: seq<string>, i: nat,
        ghost before: seq<Diff>)
      requires Valid() && p.Struct? && c.Struct? && slots == Window(path) && depth == Min(|path|, MAX_PATH_DEPTH)
      requires mode.ordered && !mode.byPos && i < |p.fields| && i < |c.fields|
      requires log == Join(before, AlignedDiffs(p, c, path, mode, i))
      modifies this, items
      ensures Valid() && log == Join(before, AlignedDiffs(p, c, path, mode, i + 1))
      decreases c, 0
    {
      Appended(before, AlignedDiffs(p, c, path, mode, i), AlignedAt(p, c, path, mode, i));
      var a, b := p.fields[i], c.fields[i];
      var same := NamesMatch(a.name, b.name, mode.ci);
      var (s, d) := AppendSegment(slots, depth, b.name, path);
      Appended(old(log), NameDiff(a, b, path, mode), ShapeDiffs(a.shape, b.shape, path + [b.name], mode));
      if !same {
        PushNameMismatch(a.name, b.name, s, d, path + [b.name]);
      }
      CompareShapes(a.shape, b.shape, s, d, mode, path + [b.name]);
    }

    method PushNameMismatch(found: string, expected: string, slots: seq<string>, depth: nat, ghost path: seq<string>)
      requires Valid() && slots == Window(path) && depth == Min(|path|, MAX_PATH_DEPTH)
      modifies this, items
      ensures Valid() && log == Join(old(log), [MismatchDiff(path + ["(name)"], expected, found)])
    {
      var (s, _) := AppendSegment(slots, depth, "(name)", path);
      Push(MismatchDiff(s, expected, found), MismatchDiff(path + ["(name)"], expected, found));
    }

    method CompareByPosition(p: TypeShape, c: TypeShape, slots: seq<string>, depth: nat, mode: Mode, ghost path: seq<string>)
      requires Valid() && p.Struct? && c.Struct? && slots == Window(path) && depth == Min(|path|, MAX_PATH_DEPTH)
      requires mode.byPos
      modifies this, items
      ensures Valid() && log == Join(old(log), FieldDiffs(p, c, path, mode))
      decreases c, 1, 1
    {
      var shared := Min(|p.fields|, |c.fields|);
      WalkByPosition(p, c, slots, depth, mode, path, shared);
      PushTails(p, c, slots, depth, mode, path, shared, old(log));
    }

    method WalkByPosition(p: TypeShape, c: TypeShape, slots: seq<string>, depth: nat, mode: Mode, ghost path: seq<string>, shared: nat)
      requires Valid() && p.Struct? && c.Struct? && slots == Window(path) && depth == Min(|path|, MAX_PATH_DEPTH)
      requires mode.byPos && shared == Min(|p.fields|, |c.fields|)
      modifies this, items
      ensures Valid() && log == Join(old(log), AlignedDiffs(p, c, path, mode, shared))
      decreases c, 1, 0
    {
      ghost var before := log;
      var i := 0;
      while i < shared
        invariant 0 <= i <= shared && Valid()
        invariant log == Join(before, AlignedDiffs(p, c, path, mode, i))
      {
        CompareAtPosition(p, c, slots, depth, mode, path, i, before);
        i := i + 1;
      }
    }

    method CompareAtPosition(p: TypeShape, c: TypeShape, slots: seq<string>, depth: nat, mode: Mode, ghost path: seq<string>, i: nat,
        ghost before: seq<Diff>)
      requires Valid() && p.Struct? && c.Struct? && slots == Window(path) && depth == Min(|path|, MAX_PATH_DEPTH)
      requires mode.byPos && i < |p.fields| && i < |c.fields|
      requires log == Join(before, AlignedDiffs(p, c, path, mode, i))
      modifies this, items
      ensures Valid() && log == Join(before, AlignedDiffs(p, c, path, mode, i + 1))
      decreases c, 0
    {
      Appended(before, AlignedDiffs(p, c, path, mode, i), AlignedAt(p, c, path, mode, i));
      var a, b := p.fields[i], c.fields[i];
      var (s, d) := AppendSegment(slots, depth, a.name, path);
      CompareShapes(a.shape, b.shape, s, d, mode, path + [a.name]);
    }

    /** The two loops that close both index-aligned walks: leftover contract, then producer, fields. */
    method PushTails(p: TypeShape, c: TypeShape, slots: seq<string>, depth: nat, mode: Mode, ghost path: seq<string>,
        shared: nat, ghost before: seq<Diff>)
      requires Valid() && p.Struct? && c.Struct? && slots == Window(path) && depth == Min(|path|, MAX_PATH_DEPTH)
      requires (mode.byPos || mode.ordered) && shared == Min(|p.fields|, |c.fields|)
      requires log == Join(before, AlignedDiffs(p, c, path, mode, shared))
      modifies this, items
      ensures Valid() && log == Join(before, FieldDiffs(p, c, path, mode))
    {
      ghost var aligned := AlignedDiffs(p, c, path, mode, shared);
      ghost var missing, extra := TailMissing(c, path, shared), TailExtra(p, path, shared);
      PushMissingTail(c, slots, depth, path, shared);
      Appended(before, aligned, missing);
      PushExtraTail(p, slots, depth, path, shared);
      Appended(before, Join(aligned, missing), extra);
    }

    method PushMissingTail(c: TypeShape, slots: seq<string>, depth: nat, ghost path: seq<string>, shared: nat)
      requires Valid() && c.Struct? && slots == Window(path) && depth == Min(|path|, MAX_PATH_DEPTH)
      requires shared <= |c.fields|
      modifies this, items
      ensures Valid() && log == Join(old(log), TailMissing(c, path, shared))
    {
      var j := shared;
      ghost var tail := TailMissing(c, path, shared);
      while j < |c.fields|
        invariant shared <= j <= |c.fields| && Valid()
        invariant log == Join(old(log), tail[..j - shared])
      {
        Appended(old(log), tail[..j - shared], [MissingAt(c, path, j)]);
        assert tail[..j + 1 - shared] == tail[..j - shared] + [MissingAt(c, path, j)];
        PushMissing(c, slots, depth, path, j);
        j := j + 1;
      }
      assert tail[..|c.fields| - shared] == tail;
    }

    method PushMissing(c: TypeShape, slots: seq<string>, depth: nat, ghost path: seq<string>, j: nat)
      requires Valid() && c.Struct? && slots == Window(path) && depth == Min(|path|, MAX_PATH_DEPTH)
      requires j < |c.fields|
      modifies this, items
      ensures Valid() && log == Join(old(log), [MissingAt(c, path, j)])
    {
      var f := c.fields[j];
      var (s, _) := AppendSegment(slots, depth, f.name, path);
      Push(MissingDiff(s, f.shape.Optional?, f.hasDefault), MissingAt(c, path, j));
    }

    method PushExtraTail(p: TypeShape, slots: seq<string>, depth: nat, ghost path: seq<string>, shared: nat)
      requires Valid() && p.Struct? && slots == Window(path) && depth == Min(|path|, MAX_PATH_DEPTH)
      requires shared <= |p.fields|
      modifies this, items
      ensures Valid() && log == Join(old(log), TailExtra(p, path, shared))
    {
      var k := shared;
      ghost var tail := TailExtra(p, path, shared);
      while k < |p.fields|
        invariant shared <= k <= |p.fields| && Valid()
        invariant log == Join(old(log), tail[..k - shared])
      {
        Appended(old(log), tail[..k - shared], [LeftoverAt(p, path, k)]);
        assert tail[..k + 1 - shared] == tail[..k - shared] + [LeftoverAt(p, path, k)];
        PushExtra(p.fields[k].name, slots, depth, path);
        k := k + 1;
      }
      assert tail[..|p.fields| - shared] == tail;
    }
  }

  /** Compares two declarations once, for both the verdict and its display. */
  method Compare(p: TypeShape, c: TypeShape, policy: SchemaPolicy) returns (r: Comparison)
    ensures fresh(r) && fresh(r.items) && r.Valid() && r.policy == policy
    ensures r.log == RootDiffs(p, c, policy)
    ensures var refused := Rejected(RootDiffs(p, c, policy), policy);
      && r.rejected == (refused != [])
      && r.len == Min(|refused|, 128)
      && (forall i :: 0 <= i < r.len ==> r.items[i].Some? && Displays(r.items[i].value, refused[i]))
      && (forall i :: r.len <= i < 128 ==> r.items[i] == None)
  {
    r := CompareRoots(p, c, policy);
    assert forall i :: 0 <= i < MAX_DIFFS ==> r.items[i] == r.items[..][i];
  }

  method CompareRoots(p: TypeShape, c: TypeShape, policy: SchemaPolicy) returns (r: Comparison)
    ensures fresh(r) && fresh(r.items) && r.Valid() && r.policy == policy
    ensures r.log == RootDiffs(p, c, policy)
  {
    r := new Comparison(policy);
    var slots := seq(MAX_PATH_DEPTH, _ => "");
    assert slots == Window([]);
    if p.Struct? && c.Struct? {
      r.CompareFields(p, c, slots, 0, PolicyMode(policy), []);
    } else {
      var same := ShapeEq(p, c);
      if !same {
        var (s, _) := AppendSegment(slots, 0, "<root>", []);
        assert s == Window(["<root>"]) by { assert [] + ["<root>"] == ["<root>"]; }
        r.Push(MismatchDiff(s, ShapeLabel(c), ShapeLabel(p)), MismatchDiff(["<root>"], ShapeLabel(c), ShapeLabel(p)));
      }
    }
  }

}
