/** What a reported difference says of the two shapes. */
module DiffMeaning {
  import opened Wrappers
  import opened Shapes
  import opened Comparison

  /** The word by which a difference calls a shape. */
  ghost predicate Calls(word: string, shape: TypeShape) {
    match shape
    case Primitive(name) => word == name
    case Optional(_) => word == "Optional"
    case Sequence(_) => word == "Sequence"
    case Map(_, _) => word == "Map"
    case Struct(_) => word == "Struct"
  }

  /** A plain mismatch: the contract expects one thing, the producer has another. */
  ghost predicate Clashes(d: Diff, expected: string, found: string) {
    d.kind.Mismatch? && d.expected == expected && d.found == found && !d.optionalOrDefault && d.annotation == ""
  }

  /** The contract's field at index `i` has no counterpart; what excuses it is said of that very field. */
  ghost predicate LacksField(d: Diff, name: string, p: TypeShape, c: TypeShape, mode: Mode, i: nat)
    requires p.Struct? && c.Struct?
  {
    && i < |c.fields| && name == c.fields[i].name && d.kind.Missing? && d.expected == "" && d.found == ""
    && d.optionalOrDefault == (c.fields[i].shape.Optional? || c.fields[i].hasDefault)
    && d.annotation ==
       (if c.fields[i].shape.Optional? then " (optional)" else if c.fields[i].hasDefault then " (default)" else "")
    && if mode.byPos || mode.ordered then i >= |p.fields|
       else forall j :: 0 <= j < |p.fields| ==> !SameName(p.fields[j].name, name, mode.ci)
  }

  /** The producer's field at index `j` is one the contract does not have. */
  ghost predicate AddsField(d: Diff, name: string, p: TypeShape, c: TypeShape, mode: Mode, j: nat)
    requires p.Struct? && c.Struct?
  {
    && j < |p.fields| && name == p.fields[j].name && d.kind.Extra?
    && d.expected == "" && d.found == "" && !d.optionalOrDefault && d.annotation == ""
    && if mode.byPos || mode.ordered then j >= |c.fields|
       else forall i :: 0 <= i < |c.fields| ==> !SameName(c.fields[i].name, name, mode.ci)
  }

  /** Fields are matched by name, and one side or both repeat a name. */
  ghost predicate Ambiguous(p: TypeShape, c: TypeShape, mode: Mode)
    requires p.Struct? && c.Struct?
  {
    !mode.byPos && !mode.ordered && !(Unique(p.fields, mode.ci) && Unique(c.fields, mode.ci))
  }

  /** The first pair of fields to share a name has `name` second. */
  ghost predicate FirstRepeats(fields: seq<FieldShape>, ci: bool, name: string) {
    exists i: nat, j: nat :: FirstClash(fields, ci, 0, i, j) && fields[j].name == name
  }

  /** `name` is the one to complain of: the producer's first repeated name, or else the contract's. */
  ghost predicate RepeatsName(d: Diff, name: string, p: TypeShape, c: TypeShape, mode: Mode)
    requires p.Struct? && c.Struct?
  {
    Clashes(d, "unique field name", name) && FirstRepeats(if Unique(p.fields, mode.ci) then c.fields else p.fields, mode.ci, name)
  }

  /** At one index of an ordered walk the names disagree. */
  ghost predicate RenamesField(d: Diff, p: TypeShape, c: TypeShape, mode: Mode, name: string, i: nat)
    requires p.Struct? && c.Struct?
  {
    && i < |p.fields| && i < |c.fields| && mode.ordered && !mode.byPos && name == c.fields[i].name
    && !SameName(p.fields[i].name, c.fields[i].name, mode.ci) && Clashes(d, c.fields[i].name, p.fields[i].name)
  }

  /** The producer's field at `j` and the contract's at `i` are compared with each other, under this segment. */
  ghost predicate Paired(p: TypeShape, c: TypeShape, mode: Mode, segment: string, j: nat, i: nat)
    requires p.Struct? && c.Struct?
  {
    && j < |p.fields| && i < |c.fields|
    && (if mode.byPos || mode.ordered then j == i else SameName(p.fields[j].name, c.fields[i].name, mode.ci))
    && segment == if mode.byPos then p.fields[j].name else c.fields[i].name
  }

  /**
   * Followed along `rest`, segment by segment into both shapes, the difference is found, and it says what is
   * different there: what the contract's part is and what the producer's is.
   */
  ghost predicate Tells(d: Diff, rest: seq<string>, p: TypeShape, c: TypeShape, mode: Mode)
    decreases c, 1
  {
    match (p, c)
    case (Optional(x), Optional(y)) => Tells(d, rest, x, y, mode)
    case (Sequence(x), Sequence(y)) => rest != [] && rest[0] == "[]" && Tells(d, rest[1..], x, y, mode)
    case (Map(k1, v1), Map(k2, v2)) =>
      rest != [] &&
      ((rest[0] == "<key>" && Tells(d, rest[1..], k1, k2, mode)) || (rest[0] == "<value>" && Tells(d, rest[1..], v1, v2, mode)))
    case (Struct(_), Struct(_)) => TellsField(d, rest, p, c, mode)
    case (Primitive(x), Primitive(y)) => rest == [] && x != y && Clashes(d, y, x)
    case (_, _) => rest == [] && Calls(d.expected, c) && Calls(d.found, p) && Clashes(d, d.expected, d.found)
  }

  ghost predicate TellsField(d: Diff, rest: seq<string>, p: TypeShape, c: TypeShape, mode: Mode)
    requires p.Struct? && c.Struct?
    decreases c, 0
  {
    if Ambiguous(p, c, mode) then |rest| == 1 && RepeatsName(d, rest[0], p, c, mode)
    else
      || (|rest| == 1 && exists i: nat :: LacksField(d, rest[0], p, c, mode, i))
      || (|rest| == 1 && exists j: nat :: AddsField(d, rest[0], p, c, mode, j))
      || (|rest| == 2 && rest[1] == "(name)" && exists i: nat :: RenamesField(d, p, c, mode, rest[0], i))
      || (rest != [] && exists j: nat, i: nat ::
           Paired(p, c, mode, rest[0], j, i) && Tells(d, rest[1..], p.fields[j].shape, c.fields[i].shape, mode))
  }

  /** The difference starts at `path`, and tells. */
  ghost predicate Told(d: Diff, path: seq<string>, p: TypeShape, c: TypeShape, mode: Mode) {
    path <= d.path && Tells(d, d.path[|path|..], p, c, mode)
  }

  /** One segment deeper. */
  lemma Deeper(path: seq<string>, segment: string, whole: seq<string>)
    ensures path + [segment] <= whole <==> path <= whole && |whole| > |path| && whole[|path|] == segment
    ensures path + [segment] <= whole ==> whole[|path|..][1..] == whole[|path + [segment]|..]
  {
    if path <= whole && |whole| > |path| && whole[|path|] == segment {
      assert whole[..|path| + 1] == path + [segment];
    }
  }

  /** A path that goes exactly one segment further. */
  lemma Last(path: seq<string>, segment: string, whole: seq<string>)
    ensures whole == path + [segment] <==> path <= whole && |whole[|path|..]| == 1 && whole[|path|] == segment
  {
    if path <= whole && |whole[|path|..]| == 1 && whole[|path|] == segment {
      assert whole == whole[..|path|] + whole[|path|..];
    }
  }

  lemma InJoin(d: Diff, a: seq<Diff>, b: seq<Diff>)
    ensures d in Join(a, b) <==> d in a || d in b
  {
    JoinIsConcat(a, b);
  }

  // ---------- the list holds exactly what tells ----------

  lemma {:induction false} ShapeDiffsExactly(d: Diff, p: TypeShape, c: TypeShape, path: seq<string>, mode: Mode)
    ensures d in ShapeDiffs(p, c, path, mode) <==> Told(d, path, p, c, mode)
    decreases c, 3
  {
    match (p, c)
    case (Optional(x), Optional(y)) => ShapeDiffsExactly(d, x, y, path, mode);
    case (Sequence(x), Sequence(y)) =>
      Deeper(path, "[]", d.path);
      ShapeDiffsExactly(d, x, y, path + ["[]"], mode);
    case (Map(k1, v1), Map(k2, v2)) =>
      Deeper(path, "<key>", d.path);
      Deeper(path, "<value>", d.path);
      ShapeDiffsExactly(d, k1, k2, path + ["<key>"], mode);
      ShapeDiffsExactly(d, v1, v2, path + ["<value>"], mode);
      InJoin(d, ShapeDiffs(k1, k2, path + ["<key>"], mode), ShapeDiffs(v1, v2, path + ["<value>"], mode));
    case (Struct(_), Struct(_)) => FieldDiffsExactly(d, p, c, path, mode);
    case (_, _) => Nowhere(path, d.path);
  }

  lemma Nowhere(path: seq<string>, whole: seq<string>)
    ensures whole == path <==> path <= whole && whole[|path|..] == []
  {
    if path <= whole && whole[|path|..] == [] {
      assert whole == whole[..|path|] + whole[|path|..];
    }
  }

  lemma {:induction false} FieldDiffsExactly(d: Diff, p: TypeShape, c: TypeShape, path: seq<string>, mode: Mode)
    requires p.Struct? && c.Struct?
    ensures d in FieldDiffs(p, c, path, mode) <==> path <= d.path && TellsField(d, d.path[|path|..], p, c, mode)
    decreases c, 2
  {
    if mode.byPos || mode.ordered {
      AlignedExactly(d, p, c, path, mode);
    } else if Ambiguous(p, c, mode) {
      RepeatedExactly(d, p, c, path, mode);
    } else {
      NamedExactly(d, p, c, path, mode);
    }
  }

  /** Only one pair of fields clashes first. */
  lemma OneFirstClash(fields: seq<FieldShape>, ci: bool, i: nat, j: nat, a: nat, b: nat)
    requires FirstClash(fields, ci, 0, i, j) && FirstClash(fields, ci, 0, a, b)
    ensures i == a && j == b
  {
  }

  lemma RepeatedExactly(d: Diff, p: TypeShape, c: TypeShape, path: seq<string>, mode: Mode)
    requires p.Struct? && c.Struct? && Ambiguous(p, c, mode)
    ensures d in FieldDiffs(p, c, path, mode) <==> path <= d.path && TellsField(d, d.path[|path|..], p, c, mode)
  {
    RepeatedIn(d, p, c, path, mode);
    if path <= d.path {
      RepeatedTold(d, d.path[|path|..], p, c, mode);
    }
  }

  lemma RepeatedAt(d: Diff, path: seq<string>, name: string)
    ensures d == MismatchDiff(path + [name], "unique field name", name) <==>
      path <= d.path && |d.path[|path|..]| == 1 && d.path[|path|..][0] == name && Clashes(d, "unique field name", name)
  {
    Last(path, name, d.path);
  }

  lemma RepeatedTold(d: Diff, rest: seq<string>, p: TypeShape, c: TypeShape, mode: Mode)
    requires p.Struct? && c.Struct? && Ambiguous(p, c, mode)
    ensures TellsField(d, rest, p, c, mode) <==>
      |rest| == 1 && rest[0] == Repeated(p, c, mode) && Clashes(d, "unique field name", Repeated(p, c, mode))
  {
    if |rest| == 1 {
      OneRepeated(if Unique(p.fields, mode.ci) then c.fields else p.fields, mode.ci, rest[0]);
    }
  }

  lemma RepeatedIn(d: Diff, p: TypeShape, c: TypeShape, path: seq<string>, mode: Mode)
    requires p.Struct? && c.Struct? && Ambiguous(p, c, mode)
    ensures d in FieldDiffs(p, c, path, mode) <==>
      && path <= d.path && |d.path[|path|..]| == 1
      && d.path[|path|..][0] == Repeated(p, c, mode) && Clashes(d, "unique field name", Repeated(p, c, mode))
  {
    RepeatedAt(d, path, Repeated(p, c, mode));
  }

  ghost function Repeated(p: TypeShape, c: TypeShape, mode: Mode): string
    requires p.Struct? && c.Struct? && Ambiguous(p, c, mode)
  {
    FirstDuplicate(if Unique(p.fields, mode.ci) then c.fields else p.fields, mode.ci, 0).value
  }

  lemma OneRepeated(fields: seq<FieldShape>, ci: bool, name: string)
    requires FirstDuplicate(fields, ci, 0).Some?
    ensures FirstRepeats(fields, ci, name) <==> name == FirstDuplicate(fields, ci, 0).value
  {
    var i, j := DuplicateIsFirst(fields, ci, 0);
    if FirstRepeats(fields, ci, name) {
      var a: nat, b: nat :| FirstClash(fields, ci, 0, a, b) && fields[b].name == name;
      OneFirstClash(fields, ci, i, j, a, b);
    }
  }

  ghost predicate Lacks(d: Diff, path: seq<string>, p: TypeShape, c: TypeShape, mode: Mode, i: nat)
    requires p.Struct? && c.Struct?
  {
    path <= d.path && |d.path[|path|..]| == 1 && LacksField(d, d.path[|path|..][0], p, c, mode, i)
  }

  ghost predicate Adds(d: Diff, path: seq<string>, p: TypeShape, c: TypeShape, mode: Mode, j: nat)
    requires p.Struct? && c.Struct?
  {
    path <= d.path && |d.path[|path|..]| == 1 && AddsField(d, d.path[|path|..][0], p, c, mode, j)
  }

  lemma LacksExactly(d: Diff, p: TypeShape, c: TypeShape, path: seq<string>, mode: Mode, i: nat)
    requires p.Struct? && c.Struct? && i < |c.fields|
    requires if mode.byPos || mode.ordered then i >= |p.fields|
             else forall j :: 0 <= j < |p.fields| ==> !SameName(p.fields[j].name, c.fields[i].name, mode.ci)
    ensures d == MissingAt(c, path, i) <==> Lacks(d, path, p, c, mode, i)
  {
    Last(path, c.fields[i].name, d.path);
  }

  lemma AddsExactly(d: Diff, p: TypeShape, c: TypeShape, path: seq<string>, mode: Mode, j: nat)
    requires p.Struct? && c.Struct? && j < |p.fields|
    requires if mode.byPos || mode.ordered then j >= |c.fields|
             else forall i :: 0 <= i < |c.fields| ==> !SameName(c.fields[i].name, p.fields[j].name, mode.ci)
    ensures d == ExtraDiff(path + [p.fields[j].name]) <==> Adds(d, path, p, c, mode, j)
  {
    Last(path, p.fields[j].name, d.path);
  }

  /** The fields at `j` and `i` are compared with each other, and the difference lies between those two. */
  ghost predicate Between(d: Diff, path: seq<string>, p: TypeShape, c: TypeShape, mode: Mode, j: nat, i: nat)
    requires p.Struct? && c.Struct?
  {
    && path <= d.path && |d.path| > |path| && Paired(p, c, mode, d.path[|path|], j, i)
    && Tells(d, d.path[|path|..][1..], p.fields[j].shape, c.fields[i].shape, mode)
  }

  lemma {:induction false} BetweenExactly(
      d: Diff, p: TypeShape, c: TypeShape, path: seq<string>, mode: Mode, segment: string, j: nat, i: nat)
    requires p.Struct? && c.Struct? && Paired(p, c, mode, segment, j, i)
    ensures d in ShapeDiffs(p.fields[j].shape, c.fields[i].shape, path + [segment], mode) <==> Between(d, path, p, c, mode, j, i)
    decreases c, 0, 0
  {
    ShapeDiffsExactly(d, p.fields[j].shape, c.fields[i].shape, path + [segment], mode);
    Deeper(path, segment, d.path);
  }

  // ---------- fields in order ----------

  /** At index `i` the names differ, and the difference says so. */
  ghost predicate Renamed(d: Diff, path: seq<string>, p: TypeShape, c: TypeShape, mode: Mode, i: nat)
    requires p.Struct? && c.Struct?
  {
    && path <= d.path && |d.path[|path|..]| == 2 && d.path[|path|..][1] == "(name)"
    && RenamesField(d, p, c, mode, d.path[|path|..][0], i)
  }

  lemma RenamedExactly(d: Diff, p: TypeShape, c: TypeShape, path: seq<string>, mode: Mode, i: nat)
    requires p.Struct? && c.Struct? && mode.ordered && !mode.byPos && i < |p.fields| && i < |c.fields|
    ensures d in NameDiff(p.fields[i], c.fields[i], path, mode) <==> Renamed(d, path, p, c, mode, i)
  {
    var name := c.fields[i].name;
    Last(path, name, path + [name]);
    assert d.path == path + [name] + ["(name)"] <==> path <= d.path && d.path[|path|..] == [name, "(name)"];
  }

  ghost predicate InAligned(d: Diff, p: TypeShape, c: TypeShape, path: seq<string>, mode: Mode, i: nat)
    requires p.Struct? && c.Struct? && i < |p.fields| && i < |c.fields|
  {
    d in AlignedAt(p, c, path, mode, i)
  }

  lemma AlignedStep(d: Diff, p: TypeShape, c: TypeShape, path: seq<string>, mode: Mode, n: nat)
    requires p.Struct? && c.Struct? && n < |p.fields| && n < |c.fields|
    ensures d in AlignedDiffs(p, c, path, mode, n + 1) <==> d in AlignedDiffs(p, c, path, mode, n) || InAligned(d, p, c, path, mode, n)
  {
    InJoin(d, AlignedDiffs(p, c, path, mode, n), AlignedAt(p, c, path, mode, n));
  }

  lemma {:induction false} AlignedIn(d: Diff, p: TypeShape, c: TypeShape, path: seq<string>, mode: Mode, n: nat)
    requires p.Struct? && c.Struct? && n <= |p.fields| && n <= |c.fields|
    ensures d in AlignedDiffs(p, c, path, mode, n) <==> exists i :: 0 <= i < n && InAligned(d, p, c, path, mode, i)
  {
    if n > 0 {
      AlignedStep(d, p, c, path, mode, n - 1);
      AlignedIn(d, p, c, path, mode, n - 1);
      OneMore(d, p, c, path, mode, n - 1);
    }
  }

  lemma OneMore(d: Diff, p: TypeShape, c: TypeShape, path: seq<string>, mode: Mode, n: nat)
    requires p.Struct? && c.Struct? && n < |p.fields| && n < |c.fields|
    ensures (exists i :: 0 <= i < n + 1 && InAligned(d, p, c, path, mode, i)) <==>
      (exists i :: 0 <= i < n && InAligned(d, p, c, path, mode, i)) || InAligned(d, p, c, path, mode, n)
  {
  }

  lemma {:induction false} AlignedAtExactly(d: Diff, p: TypeShape, c: TypeShape, path: seq<string>, mode: Mode, i: nat)
    requires p.Struct? && c.Struct? && (mode.byPos || mode.ordered) && i < |p.fields| && i < |c.fields|
    ensures InAligned(d, p, c, path, mode, i) <==> Renamed(d, path, p, c, mode, i) || Between(d, path, p, c, mode, i, i)
    decreases c, 0, 1
  {
    var a, b := p.fields[i], c.fields[i];
    var segment := if mode.byPos then a.name else b.name;
    BetweenExactly(d, p, c, path, mode, segment, i, i);
    if !mode.byPos {
      RenamedExactly(d, p, c, path, mode, i);
      InJoin(d, NameDiff(a, b, path, mode), ShapeDiffs(a.shape, b.shape, path + [segment], mode));
    }
  }

  lemma {:induction false} AlignedExactly(d: Diff, p: TypeShape, c: TypeShape, path: seq<string>, mode: Mode)
    requires p.Struct? && c.Struct? && (mode.byPos || mode.ordered)
    ensures d in FieldDiffs(p, c, path, mode) <==> path <= d.path && TellsField(d, d.path[|path|..], p, c, mode)
    decreases c, 1
  {
    var shared := Min(|p.fields|, |c.fields|);
    InJoin(d, AlignedDiffs(p, c, path, mode, shared), TailMissing(c, path, shared));
    InJoin(d, Join(AlignedDiffs(p, c, path, mode, shared), TailMissing(c, path, shared)), TailExtra(p, path, shared));
    AlignedIn(d, p, c, path, mode, shared);
    forall i | 0 <= i < shared
      ensures InAligned(d, p, c, path, mode, i) <==> Renamed(d, path, p, c, mode, i) || Between(d, path, p, c, mode, i, i)
    {
      AlignedAtExactly(d, p, c, path, mode, i);
    }
    TailMissingExactly(d, p, c, path, mode, shared);
    TailExtraExactly(d, p, c, path, mode, shared);
    FieldTold(d, p, c, path, mode);
  }

  /** The ways to differ at the fields, one by one. */
  lemma FieldTold(d: Diff, p: TypeShape, c: TypeShape, path: seq<string>, mode: Mode)
    requires p.Struct? && c.Struct? && !Ambiguous(p, c, mode)
    ensures path <= d.path && TellsField(d, d.path[|path|..], p, c, mode) <==>
      || (exists i: nat :: Lacks(d, path, p, c, mode, i)) || (exists j: nat :: Adds(d, path, p, c, mode, j))
      || (exists i: nat :: Renamed(d, path, p, c, mode, i)) || (exists j: nat, i: nat :: Between(d, path, p, c, mode, j, i))
  {
    if path <= d.path {
      var rest := d.path[|path|..];
      if |rest| == 1 && exists i: nat :: LacksField(d, rest[0], p, c, mode, i) {
        var i: nat :| LacksField(d, rest[0], p, c, mode, i);
        assert Lacks(d, path, p, c, mode, i);
      }
      if |rest| == 1 && exists j: nat :: AddsField(d, rest[0], p, c, mode, j) {
        var j: nat :| AddsField(d, rest[0], p, c, mode, j);
        assert Adds(d, path, p, c, mode, j);
      }
      if |rest| == 2 && rest[1] == "(name)" && exists i: nat :: RenamesField(d, p, c, mode, rest[0], i) {
        var i: nat :| RenamesField(d, p, c, mode, rest[0], i);
        assert Renamed(d, path, p, c, mode, i);
      }
      if rest != [] && exists j: nat, i: nat ::
          Paired(p, c, mode, rest[0], j, i) && Tells(d, rest[1..], p.fields[j].shape, c.fields[i].shape, mode) {
        var j: nat, i: nat :| Paired(p, c, mode, rest[0], j, i) && Tells(d, rest[1..], p.fields[j].shape, c.fields[i].shape, mode);
        assert Between(d, path, p, c, mode, j, i);
      }
    }
  }

  /** What the contract has left over, when fields are matched by index. */
  lemma TailMissingExactly(d: Diff, p: TypeShape, c: TypeShape, path: seq<string>, mode: Mode, shared: nat)
    requires p.Struct? && c.Struct? && (mode.byPos || mode.ordered) && shared == Min(|p.fields|, |c.fields|)
    ensures d in TailMissing(c, path, shared) <==> exists i: nat :: Lacks(d, path, p, c, mode, i)
  {
    if d in TailMissing(c, path, shared) {
      var k :| 0 <= k < |c.fields| - shared && TailMissing(c, path, shared)[k] == d;
      LacksExactly(d, p, c, path, mode, shared + k);
    }
    if i: nat :| Lacks(d, path, p, c, mode, i) {
      LacksExactly(d, p, c, path, mode, i);
      assert TailMissing(c, path, shared)[i - shared] == MissingAt(c, path, i);
    }
  }

  /** What the producer has left over. */
  lemma TailExtraExactly(d: Diff, p: TypeShape, c: TypeShape, path: seq<string>, mode: Mode, shared: nat)
    requires p.Struct? && c.Struct? && (mode.byPos || mode.ordered) && shared == Min(|p.fields|, |c.fields|)
    ensures d in TailExtra(p, path, shared) <==> exists j: nat :: Adds(d, path, p, c, mode, j)
  {
    if d in TailExtra(p, path, shared) {
      var k :| 0 <= k < |p.fields| - shared && TailExtra(p, path, shared)[k] == d;
      assert d == LeftoverAt(p, path, shared + k);
      AddsExactly(d, p, c, path, mode, shared + k);
    }
    if j: nat :| Adds(d, path, p, c, mode, j) {
      AddsExactly(d, p, c, path, mode, j);
      assert TailExtra(p, path, shared)[j - shared] == LeftoverAt(p, path, j);
    }
  }

  // ---------- fields by name ----------

  ghost predicate InNamed(d: Diff, p: TypeShape, c: TypeShape, path: seq<string>, mode: Mode, i: nat)
    requires p.Struct? && c.Struct? && i < |c.fields|
  {
    d in NamedAt(p, c, path, mode, i)
  }

  lemma {:induction false} NamedIn(d: Diff, p: TypeShape, c: TypeShape, path: seq<string>, mode: Mode, n: nat)
    requires p.Struct? && c.Struct? && n <= |c.fields|
    ensures d in NamedDiffs(p, c, path, mode, n) <==> exists i :: 0 <= i < n && InNamed(d, p, c, path, mode, i)
  {
    if n > 0 {
      InJoin(d, NamedDiffs(p, c, path, mode, n - 1), NamedAt(p, c, path, mode, n - 1));
      NamedIn(d, p, c, path, mode, n - 1);
      assert InNamed(d, p, c, path, mode, n - 1) <==> d in NamedAt(p, c, path, mode, n - 1);
    }
  }

  lemma {:induction false} UnmatchedIn(d: Diff, p: TypeShape, c: TypeShape, path: seq<string>, mode: Mode, n: nat)
    requires p.Struct? && c.Struct? && !mode.byPos && !mode.ordered && n <= |p.fields|
    ensures d in UnmatchedExtra(p, c, path, mode, n) <==> exists j :: 0 <= j < n && Adds(d, path, p, c, mode, j)
  {
    if n > 0 {
      InJoin(d, UnmatchedExtra(p, c, path, mode, n - 1), ExtraAt(p, c, path, mode, n - 1));
      UnmatchedIn(d, p, c, path, mode, n - 1);
      if Find(c.fields, p.fields[n - 1].name, mode.ci).None? {
        AddsExactly(d, p, c, path, mode, n - 1);
      }
      assert d in ExtraAt(p, c, path, mode, n - 1) <==> Adds(d, path, p, c, mode, n - 1);
    }
  }

  /** Without repeated names, a contract field is paired with the producer field found for it and no other. */
  lemma OnlyPair(p: TypeShape, c: TypeShape, mode: Mode, segment: string, j: nat, i: nat)
    requires p.Struct? && c.Struct? && !mode.byPos && !mode.ordered && Unique(p.fields, mode.ci) && i < |c.fields|
    ensures Paired(p, c, mode, segment, j, i) <==> Find(p.fields, c.fields[i].name, mode.ci) == Some(j) && segment == c.fields[i].name
  {
  }

  lemma {:induction false} NamedAtExactly(d: Diff, p: TypeShape, c: TypeShape, path: seq<string>, mode: Mode, i: nat)
    requires p.Struct? && c.Struct? && !mode.byPos && !mode.ordered && Unique(p.fields, mode.ci) && i < |c.fields|
    ensures InNamed(d, p, c, path, mode, i) <==>
      Lacks(d, path, p, c, mode, i) || exists j: nat :: Between(d, path, p, c, mode, j, i)
    decreases c, 0, 1
  {
    var name := c.fields[i].name;
    match Find(p.fields, name, mode.ci)
    case Some(j) =>
      OnlyPair(p, c, mode, name, j, i);
      BetweenExactly(d, p, c, path, mode, name, j, i);
      forall k: nat | Between(d, path, p, c, mode, k, i) ensures k == j {
        OnlyPair(p, c, mode, d.path[|path|], k, i);
      }
    case None => LacksExactly(d, p, c, path, mode, i);
  }

  lemma {:induction false} MatchedExactly(d: Diff, p: TypeShape, c: TypeShape, path: seq<string>, mode: Mode)
    requires p.Struct? && c.Struct? && !mode.byPos && !mode.ordered && Unique(p.fields, mode.ci)
    ensures d in NamedDiffs(p, c, path, mode, |c.fields|) <==>
      (exists i: nat :: Lacks(d, path, p, c, mode, i)) || exists j: nat, i: nat :: Between(d, path, p, c, mode, j, i)
    decreases c, 1, 0
  {
    NamedIn(d, p, c, path, mode, |c.fields|);
    if d in NamedDiffs(p, c, path, mode, |c.fields|) {
      var i :| 0 <= i < |c.fields| && InNamed(d, p, c, path, mode, i);
      NamedAtExactly(d, p, c, path, mode, i);
    }
    if i: nat :| Lacks(d, path, p, c, mode, i) {
      NamedAtExactly(d, p, c, path, mode, i);
    }
    if j: nat, i: nat :| Between(d, path, p, c, mode, j, i) {
      NamedAtExactly(d, p, c, path, mode, i);
    }
  }

  lemma {:induction false} NamedExactly(d: Diff, p: TypeShape, c: TypeShape, path: seq<string>, mode: Mode)
    requires p.Struct? && c.Struct? && !mode.byPos && !mode.ordered && !Ambiguous(p, c, mode)
    ensures d in FieldDiffs(p, c, path, mode) <==> path <= d.path && TellsField(d, d.path[|path|..], p, c, mode)
    decreases c, 1, 1
  {
    InJoin(d, NamedDiffs(p, c, path, mode, |c.fields|), UnmatchedExtra(p, c, path, mode, |p.fields|));
    MatchedExactly(d, p, c, path, mode);
    UnmatchedIn(d, p, c, path, mode, |p.fields|);
    NothingRenamed(d, p, c, path, mode);
    FieldTold(d, p, c, path, mode);
  }

  lemma NothingRenamed(d: Diff, p: TypeShape, c: TypeShape, path: seq<string>, mode: Mode)
    requires p.Struct? && c.Struct? && !mode.ordered
    ensures forall i: nat :: !Renamed(d, path, p, c, mode, i)
  {
  }

  /**
   * A difference is in the list, refused or not, exactly when following its path into both shapes finds what it
   * says: none is invented and none is left out.
   */
  lemma DiffsTell(p: TypeShape, c: TypeShape, policy: SchemaPolicy, d: Diff)
    ensures d in RootDiffs(p, c, policy) <==>
      if p.Struct? && c.Struct? then Tells(d, d.path, p, c, PolicyMode(policy))
      else !SameShape(p, c) && d.path == ["<root>"] && Calls(d.expected, c) && Calls(d.found, p) && Clashes(d, d.expected, d.found)
  {
    if p.Struct? && c.Struct? {
      FieldDiffsExactly(d, p, c, [], PolicyMode(policy));
      assert d.path[0..] == d.path;
    }
  }
}
