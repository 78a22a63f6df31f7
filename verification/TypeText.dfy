/** Free-text type names: a nested parser over `array<..>` and `struct<..>`, and the grammar it accepts. */
module TypeText {
  import opened Text
  import opened Wrappers
  import opened Shapes
  import opened ArrowSchema

  function PrimitiveFromToken(token: string): Option<Kind> {
    match token
    case "boolean" => Some(Boolean)
    case "bool" => Some(Boolean)
    case "int8" => Some(Int8)
    case "tinyint" => Some(Int8)
    case "int16" => Some(Int16)
    case "smallint" => Some(Int16)
    case "int32" => Some(Int32)
    case "integer" => Some(Int32)
    case "int" => Some(Int32)
    case "int64" => Some(Int64)
    case "bigint" => Some(Int64)
    case "uint8" => Some(UInt8)
    case "uint16" => Some(UInt16)
    case "uint32" => Some(UInt32)
    case "uint64" => Some(UInt64)
    case "float32" => Some(Float32)
    case "float" => Some(Float32)
    case "real" => Some(Float32)
    case "float64" => Some(Float64)
    case "double" => Some(Float64)
    case "double precision" => Some(Float64)
    case "string" => Some(Utf8)
    case "varchar" => Some(Utf8)
    case "text" => Some(Utf8)
    case "character varying" => Some(Utf8)
    case "char" => Some(Utf8)
    case _ => None
  }

  const ARRAY: string := "array<"
  const STRUCT: string := "struct<"

  /** The text between a case-insensitive prefix and a closing bracket. */
  function StripWrapper(s: string, prefix: string): (r: Option<string>)
    ensures r.Some? ==> |r.value| + |prefix| + 1 == |s|
  {
    if |s| > |prefix| && Lower(s[..|prefix|]) == prefix && s[|s| - 1] == '>' then Some(s[|prefix|..|s| - 1]) else None
  }

  // ---------- commas outside brackets ----------

  function NextDepth(depth: nat, c: char): nat {
    if c == '<' then depth + 1 else if c == '>' && depth > 0 then depth - 1 else depth
  }

  /** A first piece, and the pieces after the commas. */
  datatype Pieces = Pieces(first: string, rest: seq<string>)

  function All(p: Pieces): seq<string> {
    [p.first] + p.rest
  }

  /** Every part is shorter than the bound. */
  predicate Short(parts: seq<string>, bound: nat) {
    forall k :: 0 <= k < |parts| ==> |parts[k]| < bound
  }

  /** The pieces between the commas met at depth zero, scanning from the given depth. */
  function Split(s: string, depth: nat): (r: Pieces)
    ensures |r.first| <= |s| && Short(r.rest, |s| + 1)
  {
    if s == "" then Pieces("", [])
    else if s[0] == ',' && depth == 0 then Pieces("", All(Split(s[1..], 0)))
    else
      var tail := Split(s[1..], NextDepth(depth, s[0]));
      Pieces([s[0]] + tail.first, tail.rest)
  }

  lemma Glue(a: string, b: string, c: string)
    ensures a + (b + c) == (a + b) + c
  {
  }

  /** The pieces of `open` followed by what is still to be scanned. */
  ghost function Opened(open: string, tail: Pieces): seq<string> {
    [open + tail.first] + tail.rest
  }

  lemma ScanStep(open: string, s: string, depth: nat)
    requires s != ""
    ensures var next := Split(s[1..], NextDepth(depth, s[0]));
      Opened(open, Split(s, depth)) ==
        if s[0] == ',' && depth == 0 then [open] + Opened("", next) else Opened(open + [s[0]], next)
  {
    var next := Split(s[1..], NextDepth(depth, s[0]));
    if s[0] == ',' && depth == 0 {
      assert "" + next.first == next.first;
      assert Split(s, depth) == Pieces("", All(next)) && open + "" == open;
    } else {
      Glue(open, [s[0]], next.first);
    }
  }

  lemma ScanIndex(s: string, start: nat, index: nat, depth: nat)
    requires start <= index < |s|
    ensures Opened(s[start..index], Split(s[index..], depth)) ==
      if s[index] == ',' && depth == 0 then [s[start..index]] + Opened(s[index + 1..index + 1], Split(s[index + 1..], 0))
      else Opened(s[start..index + 1], Split(s[index + 1..], NextDepth(depth, s[index])))
  {
    var open, rest := s[start..index], s[index..];
    assert rest[0] == s[index] && rest[1..] == s[index + 1..];
    ScanStep(open, rest, depth);
    if s[index] == ',' && depth == 0 {
      assert s[index + 1..index + 1] == "";
    } else {
      assert open + [rest[0]] == s[start..index + 1];
    }
  }

  lemma ScanEnd(s: string, start: nat, depth: nat)
    requires start <= |s|
    ensures Opened(s[start..|s|], Split(s[|s|..], depth)) == [s[start..]]
  {
    assert s[|s|..] == "" && s[start..|s|] + "" == s[start..];
    assert Split("", depth) == Pieces("", []);
  }

  lemma GlueParts(a: seq<string>, b: seq<string>, c: seq<string>)
    ensures a + (b + c) == (a + b) + c
  {
  }

  method SplitTopLevelCommas(s: string) returns (parts: seq<string>)
    ensures parts == All(Split(s, 0))
  {
    parts := [];
    var depth, start := 0, 0;
    assert s[0..] == s && s[0..0] + Split(s, 0).first == Split(s, 0).first;
    for index := 0 to |s|
      invariant start <= index
      invariant All(Split(s, 0)) == parts + Opened(s[start..index], Split(s[index..], depth))
    {
      ScanIndex(s, start, index, depth);
      if s[index] == ',' && depth == 0 {
        GlueParts(parts, [s[start..index]], Opened(s[index + 1..index + 1], Split(s[index + 1..], 0)));
        parts := parts + [s[start..index]];
        start := index + 1;
      } else {
        depth := NextDepth(depth, s[index]);
      }
    }
    ScanEnd(s, start, depth);
    parts := parts + [s[start..]];
  }

  function Join(first: string, rest: seq<string>): string
    decreases |rest|
  {
    if rest == [] then first else first + ("," + Join(rest[0], rest[1..]))
  }

  lemma JoinPrepend(head: string, first: string, rest: seq<string>)
    ensures Join(head + first, rest) == head + Join(first, rest)
  {
    if rest != [] {
      Glue(head, first, "," + Join(rest[0], rest[1..]));
    }
  }

  /** Splitting loses nothing: the pieces joined again are the text. */
  lemma {:induction false} JoinSplit(s: string, depth: nat)
    ensures Join(Split(s, depth).first, Split(s, depth).rest) == s
  {
    if s != "" {
      if s[0] == ',' && depth == 0 {
        var tail := Split(s[1..], 0);
        JoinSplit(s[1..], 0);
        assert All(tail)[0] == tail.first && All(tail)[1..] == tail.rest;
        assert s == "" + ("," + s[1..]);
      } else {
        var tail := Split(s[1..], NextDepth(depth, s[0]));
        JoinSplit(s[1..], NextDepth(depth, s[0]));
        JoinPrepend([s[0]], tail.first, tail.rest);
        assert [s[0]] + s[1..] == s;
      }
    }
  }

  function Scan(s: string, depth: nat): nat {
    if s == "" then depth else Scan(s[1..], NextDepth(depth, s[0]))
  }

  /** No comma of `s` is met at depth zero. */
  predicate NoTopComma(s: string, depth: nat) {
    s == "" || (!(s[0] == ',' && depth == 0) && NoTopComma(s[1..], NextDepth(depth, s[0])))
  }

  /** Every part keeps its commas inside brackets, and all but the last close the brackets they open. */
  ghost predicate Separable(first: string, rest: seq<string>)
    decreases |rest|
  {
    NoTopComma(first, 0) && (rest == [] || (Scan(first, 0) == 0 && Separable(rest[0], rest[1..])))
  }

  /** A part without a top-level comma stays in one piece with whatever follows it. */
  lemma {:induction false} SplitKeepsHead(part: string, more: string, depth: nat)
    requires NoTopComma(part, depth)
    ensures var tail := Split(more, Scan(part, depth)); Split(part + more, depth) == Pieces(part + tail.first, tail.rest)
  {
    var tail := Split(more, Scan(part, depth));
    if part == "" {
      assert part + more == more && part + tail.first == tail.first;
    } else {
      SplitKeepsHead(part[1..], more, NextDepth(depth, part[0]));
      assert (part + more)[1..] == part[1..] + more;
      Glue([part[0]], part[1..], tail.first);
      assert [part[0]] + part[1..] == part;
    }
  }

  /** A part with a top-level comma is cut short. */
  lemma {:induction false} SplitCutsHead(part: string, more: string, depth: nat)
    requires !NoTopComma(part, depth)
    ensures |Split(part + more, depth).first| < |part|
  {
    assert (part + more)[1..] == part[1..] + more;
    if !(part[0] == ',' && depth == 0) {
      SplitCutsHead(part[1..], more, NextDepth(depth, part[0]));
    }
  }

  /** Splitting undoes joining exactly when the parts are separable. */
  lemma {:induction false} SplitJoin(first: string, rest: seq<string>)
    ensures Split(Join(first, rest), 0) == Pieces(first, rest) <==> Separable(first, rest)
    decreases |rest|
  {
    var more := if rest == [] then "" else "," + Join(rest[0], rest[1..]);
    assert first + "" == first;
    if !NoTopComma(first, 0) {
      SplitCutsHead(first, more, 0);
    } else {
      SplitKeepsHead(first, more, 0);
      if rest != [] {
        var tail := Join(rest[0], rest[1..]);
        assert more[0] == ',' && more[1..] == tail;
        if Scan(first, 0) == 0 {
          SplitJoin(rest[0], rest[1..]);
          assert Split(Join(first, rest), 0).rest == All(Split(tail, 0));
          assert rest == [rest[0]] + rest[1..];
          assert All(Split(tail, 0)) == rest <==> Split(tail, 0) == Pieces(rest[0], rest[1..]) by {
            assert All(Split(tail, 0))[0] == Split(tail, 0).first && All(Split(tail, 0))[1..] == Split(tail, 0).rest;
          }
        } else {
          assert |Split(Join(first, rest), 0).first| > |first|;
        }
      }
    }
  }

  // ---------- the parser ----------

  function Token(s: string): string {
    Lower(Trim(BeforeParenthesis(s)))
  }

  function BeforeParenthesis(s: string): (r: string)
    ensures |r| <= |s| && r == s[..|r|] && '(' !in r
    ensures |r| < |s| ==> s[|r|] == '('
  {
    if s == "" || s[0] == '(' then "" else [s[0]] + BeforeParenthesis(s[1..])
  }

  function ColonFrom(s: string, k: nat): (r: nat)
    requires k <= |s|
    ensures k <= r <= |s| && (r < |s| ==> s[r] == ':') && forall i :: k <= i < r ==> s[i] != ':'
    decreases |s| - k
  {
    if k == |s| || s[k] == ':' then k else ColonFrom(s, k + 1)
  }

  /** The text before and after the first colon. */
  function SplitOnce(s: string): Option<(string, string)> {
    var k := ColonFrom(s, 0);
    if k == |s| then None else Some((s[..k], s[k + 1..]))
  }

  function ItemField(t: DataType): Field {
    Plain("item", t, true)
  }

  lemma TrimShrinks(s: string)
    ensures |Trim(s)| <= |s|
  {
    var left, right := TrimSplits(s);
  }

  /** The Arrow type a declared type name stands for. */
  function DeclaredType(declared: string): Option<DataType>
    decreases |declared|, 1, 0
  {
    var trimmed := Trim(declared);
    TrimShrinks(declared);
    var asArray, asStruct := StripWrapper(trimmed, ARRAY), StripWrapper(trimmed, STRUCT);
    if asArray.Some? then
      match DeclaredType(asArray.value)
      case Some(item) => Some(ListOf(ItemField(item)))
      case None => None
    else if asStruct.Some? then
      var pieces := Split(asStruct.value, 0);
      assert Short(All(pieces), |declared|);
      match MembersOf(All(pieces), |All(pieces)|, |declared|)
      case Some(fields) => Some(StructOf(fields))
      case None => None
    else
      match PrimitiveFromToken(Token(trimmed))
      case Some(kind) => Some(Flat(kind))
      case None => None
  }

  /** The fields of the first `count` parts, if all of them are read. */
  function MembersOf(parts: seq<string>, count: nat, bound: nat): (r: Option<seq<Field>>)
    requires count <= |parts| && Short(parts, bound)
    ensures r.Some? ==> |r.value| == count
    decreases bound, 0, count
  {
    if count == 0 then Some([])
    else
      match MembersOf(parts, count - 1, bound)
      case None => None
      case Some(fields) =>
        match MemberOf(parts[count - 1], bound)
        case None => None
        case Some(field) => Some(fields + [field])
  }

  function MemberOf(part: string, bound: nat): Option<Field>
    requires |part| < bound
    decreases |part|, 2, 0
  {
    match SplitOnce(part)
    case None => None
    case Some((name, text)) =>
      match DeclaredType(text)
      case None => None
      case Some(t) => Some(Plain(Trim(name), t, true))
  }

  /** The parts are read one by one: all fields, or none if any part fails. */
  lemma {:induction false} MembersOneByOne(parts: seq<string>, count: nat, bound: nat)
    requires count <= |parts| && Short(parts, bound)
    ensures var r := MembersOf(parts, count, bound);
      if r.Some? then forall i :: 0 <= i < count ==> MemberOf(parts[i], bound) == Some(r.value[i])
      else exists i :: 0 <= i < count && MemberOf(parts[i], bound) == None
    decreases count
  {
    if count > 0 {
      MembersOneByOne(parts, count - 1, bound);
    }
  }

  lemma {:induction false} MembersStuck(parts: seq<string>, bound: nat, count: nat, more: nat)
    requires count <= more <= |parts| && Short(parts, bound) && MembersOf(parts, count, bound).None?
    ensures MembersOf(parts, more, bound).None?
    decreases more
  {
    if count < more {
      MembersStuck(parts, bound, count, more - 1);
    }
  }

  method ParseDeclaredType(declared: string) returns (r: Option<DataType>)
    ensures r == DeclaredType(declared)
    decreases |declared|, 1
  {
    var trimmed := Trim(declared);
    TrimShrinks(declared);
    var asArray := StripWrapper(trimmed, ARRAY);
    if asArray.Some? {
      var item := ParseDeclaredType(asArray.value);
      return if item.Some? then Some(ListOf(ItemField(item.value))) else None;
    }
    var asStruct := StripWrapper(trimmed, STRUCT);
    if asStruct.Some? {
      var parts := SplitTopLevelCommas(asStruct.value);
      var fields := ParseMembers(parts, |declared|);
      return if fields.Some? then Some(StructOf(fields.value)) else None;
    }
    var kind := PrimitiveFromToken(Token(trimmed));
    return if kind.Some? then Some(Flat(kind.value)) else None;
  }

  method ParseMembers(parts: seq<string>, bound: nat) returns (r: Option<seq<Field>>)
    requires Short(parts, bound)
    ensures r == MembersOf(parts, |parts|, bound)
    decreases bound, 0
  {
    var fields: seq<Field> := [];
    for k := 0 to |parts|
      invariant MembersOf(parts, k, bound) == Some(fields)
    {
      var field := ParseMember(parts[k], bound);
      if field.None? {
        MembersStuck(parts, bound, k + 1, |parts|);
        return None;
      }
      fields := fields + [field.value];
    }
    return Some(fields);
  }

  method ParseMember(part: string, bound: nat) returns (r: Option<Field>)
    requires |part| < bound
    ensures r == MemberOf(part, bound)
    decreases |part|, 2
  {
    var once := SplitOnce(part);
    if once.None? {
      return None;
    }
    var t := ParseDeclaredType(once.value.1);
    return if t.Some? then Some(Plain(Trim(once.value.0), t.value, true)) else None;
  }
}
