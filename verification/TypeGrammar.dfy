/** The type names the parser accepts are exactly the spellings of a small grammar. */
module TypeGrammar {
  import opened Text
  import opened Wrappers
  import opened Shapes
  import opened ArrowSchema
  import opened TypeText

  /** A way of writing a type: padding, letter case, aliases and parenthesised suffixes are free. */
  datatype Spelling = Spelling(left: string, body: Body, right: string)

  datatype Body =
    | Word(text: string)
    | ArrayBody(head: string, item: Spelling)
    | StructBody(head: string, members: seq<Member>)

  datatype Member = Member(name: string, spelled: Spelling)

  function Render(sp: Spelling): string {
    sp.left + RenderBody(sp.body) + sp.right
  }

  function RenderBody(b: Body): string {
    match b
    case Word(text) => text
    case ArrayBody(head, item) => head + (Render(item) + ">")
    case StructBody(head, members) => head + (RenderMembers(members) + ">")
  }

  function RenderMembers(members: seq<Member>): string
    decreases members
  {
    if members == [] then ""
    else if |members| == 1 then RenderMember(members[0])
    else RenderMember(members[0]) + ("," + RenderMembers(members[1..]))
  }

  function RenderMember(m: Member): string {
    m.name + (":" + Render(m.spelled))
  }

  /** The words for each kind of primitive. */
  function WordsOf(kind: Kind): set<string> {
    match kind
    case Boolean => {"bool", "boolean"}
    case Int8 => {"int8", "tinyint"}
    case Int16 => {"int16", "smallint"}
    case Int32 => {"int", "int32", "integer"}
    case Int64 => {"bigint", "int64"}
    case UInt8 => {"uint8"}
    case UInt16 => {"uint16"}
    case UInt32 => {"uint32"}
    case UInt64 => {"uint64"}
    case Float32 => {"float", "float32", "real"}
    case Float64 => {"double", "double precision", "float64"}
    case Utf8 => {"char", "character varying", "string", "text", "varchar"}
    case Foreign(_) => {}
  }

  ghost predicate IsWord(token: string) {
    exists kind :: token in WordsOf(kind)
  }

  ghost function KindNamed(token: string): Kind
    requires IsWord(token)
  {
    var kind :| token in WordsOf(kind);
    kind
  }

  /** The parser's table reads each word as its kind, and no other. */
  lemma TokenTable(token: string, kind: Kind)
    ensures PrimitiveFromToken(token) == Some(kind) <==> token in WordsOf(kind)
  {
  }

  lemma WordKind(token: string)
    ensures PrimitiveFromToken(token) == if IsWord(token) then Some(KindNamed(token)) else None
  {
    if IsWord(token) {
      TokenTable(token, KindNamed(token));
    } else if PrimitiveFromToken(token).Some? {
      TokenTable(token, PrimitiveFromToken(token).value);
    }
  }

  /** The type a spelling stands for. */
  ghost function Meaning(sp: Spelling): DataType {
    match sp.body
    case Word(text) => Flat(if IsWord(Token(text)) then KindNamed(Token(text)) else Foreign(""))
    case ArrayBody(_, item) => ListOf(Field("item", Meaning(item), true, map[]))
    case StructBody(_, members) => StructOf(MemberFields(members))
  }

  ghost function MemberField(m: Member): Field {
    Field(Trim(m.name), Meaning(m.spelled), true, map[])
  }

  ghost function MemberFields(members: seq<Member>): (r: seq<Field>)
    ensures |r| == |members|
    decreases members
  {
    seq(|members|, i requires 0 <= i < |members| => MemberField(members[i]))
  }

  function Parts(members: seq<Member>): (r: seq<string>)
    ensures |r| == |members|
  {
    seq(|members|, i requires 0 <= i < |members| => RenderMember(members[i]))
  }

  lemma {:induction false} RenderIsJoin(members: seq<Member>)
    requires members != []
    ensures RenderMembers(members) == Join(Parts(members)[0], Parts(members)[1..])
    decreases |members|
  {
    if |members| > 1 {
      RenderIsJoin(members[1..]);
      assert Parts(members)[1..] == Parts(members[1..]);
    }
  }

  /** The grammar: what a spelling must meet for its text to be read back as it was meant. */
  ghost predicate WellSpelled(sp: Spelling)
    decreases sp
  {
    IsBlank(sp.left) && IsBlank(sp.right) &&
    match sp.body
    case Word(text) =>
      IsTrimmed(text) && StripWrapper(text, ARRAY).None? && StripWrapper(text, STRUCT).None? &&
      IsWord(Token(text))
    case ArrayBody(head, item) => Lower(head) == "array<" && WellSpelled(item)
    case StructBody(head, members) =>
      Lower(head) == "struct<" && members != [] && Separable(Parts(members)[0], Parts(members)[1..]) &&
      WellSpelledMembers(members)
  }

  ghost predicate WellSpelledMembers(members: seq<Member>)
    decreases members
  {
    forall i :: 0 <= i < |members| ==> WellSpelledMember(members[i])
  }

  ghost predicate WellSpelledMember(m: Member)
    decreases m
  {
    ':' !in m.name && WellSpelled(m.spelled)
  }

  // ---------- every spelling is read as it was meant ----------

  lemma SplitOnceColon(name: string, text: string)
    requires ':' !in name
    ensures SplitOnce(name + (":" + text)) == Some((name, text))
  {
    var s := name + (":" + text);
    assert s[|name|] == ':';
    assert s[..|name|] == name && s[|name| + 1..] == text;
  }

  lemma Wrapped(head: string, inner: string, prefix: string)
    requires Lower(head) == prefix && |prefix| > 0 && !IsWhitespace(head[0])
    ensures StripWrapper(head + (inner + ">"), prefix) == Some(inner) && IsTrimmed(head + (inner + ">"))
  {
    var s := head + (inner + ">");
    assert s[..|prefix|] == head && s[|s| - 1] == '>' && s[|prefix|..|s| - 1] == inner;
  }

  lemma LowerAt(s: string, i: nat)
    requires i < |s|
    ensures Lower(s)[i] == ToAsciiLower(s[i]) && Lower(s[..i]) == Lower(s)[..i]
  {
  }

  lemma StructIsNotArray(head: string, inner: string)
    requires Lower(head) == STRUCT
    ensures StripWrapper(head + (inner + ">"), ARRAY).None?
  {
    var s := head + (inner + ">");
    assert s[..|ARRAY|] == head[..|ARRAY|];
    LowerAt(head, 0);
    assert STRUCT[0] == 's' && ARRAY[0] == 'a';
    assert Lower(s[..|ARRAY|])[0] == ToAsciiLower(head[0]) == 's';
  }

  lemma {:induction false} SpellingParses(sp: Spelling)
    requires WellSpelled(sp)
    ensures DeclaredType(Render(sp)) == Some(Meaning(sp))
    decreases sp
  {
    match sp.body
    case Word(text) =>
      TrimPadded(sp.left, text, sp.right);
      WordKind(Token(text));
    case ArrayBody(head, item) =>
      LowerAt(head, 0);
      Wrapped(head, Render(item), ARRAY);
      TrimPadded(sp.left, RenderBody(sp.body), sp.right);
      SpellingParses(item);
    case StructBody(head, members) =>
      LowerAt(head, 0);
      Wrapped(head, RenderMembers(members), STRUCT);
      StructIsNotArray(head, RenderMembers(members));
      TrimPadded(sp.left, RenderBody(sp.body), sp.right);
      StructParses(sp);
  }

  lemma {:induction false} StructParses(sp: Spelling)
    requires WellSpelled(sp) && sp.body.StructBody?
    requires Trim(Render(sp)) == RenderBody(sp.body)
    requires StripWrapper(RenderBody(sp.body), STRUCT) == Some(RenderMembers(sp.body.members))
    requires StripWrapper(RenderBody(sp.body), ARRAY).None?
    ensures DeclaredType(Render(sp)) == Some(Meaning(sp))
    decreases sp, 0
  {
    var members := sp.body.members;
    var inner, parts := RenderMembers(members), Parts(members);
    RenderIsJoin(members);
    SplitJoin(parts[0], parts[1..]);
    assert All(Split(inner, 0)) == parts;
    var bound := |Render(sp)|;
    assert |inner| < bound;
    assert Short(parts, bound);
    MembersParse(members, bound);
  }

  lemma {:induction false} MembersParse(members: seq<Member>, bound: nat)
    requires WellSpelledMembers(members) && Short(Parts(members), bound)
    ensures MembersOf(Parts(members), |members|, bound) == Some(MemberFields(members))
    decreases members
  {
    var parts, fields := Parts(members), MemberFields(members);
    forall i | 0 <= i < |members| ensures MemberOf(parts[i], bound) == Some(fields[i]) {
      assert |parts[i]| < bound;
      MemberParses(members[i], bound);
    }
    MembersOneByOne(parts, |members|, bound);
    var r := MembersOf(parts, |members|, bound);
    assert r.Some? && r.value == fields;
  }

  lemma {:induction false} MemberParses(m: Member, bound: nat)
    requires WellSpelledMember(m) && |RenderMember(m)| < bound
    ensures MemberOf(RenderMember(m), bound) == Some(MemberField(m))
    decreases m
  {
    SplitOnceColon(m.name, Render(m.spelled));
    SpellingParses(m.spelled);
  }

  /** A text without a wrapper is read as a primitive exactly when its token is one of the words of that kind. */
  lemma WordReads(text: string, kind: Kind)
    requires StripWrapper(Trim(text), "array<").None? && StripWrapper(Trim(text), "struct<").None?
    ensures DeclaredType(text) == Some(Flat(kind)) <==> Token(Trim(text)) in WordsOf(kind)
  {
    TokenTable(Token(Trim(text)), kind);
  }

  // ---------- and every text that is read is such a spelling ----------

  lemma Unwrap(t: string, prefix: string)
    requires StripWrapper(t, prefix).Some?
    ensures t == t[..|prefix|] + (StripWrapper(t, prefix).value + ">") && Lower(t[..|prefix|]) == prefix
  {
  }

  lemma {:induction false} Respell(s: string) returns (sp: Spelling)
    requires DeclaredType(s).Some?
    ensures WellSpelled(sp) && Render(sp) == s && DeclaredType(s) == Some(Meaning(sp))
    decreases |s|, 1
  {
    var left, right := TrimSplits(s);
    var t := Trim(s);
    TrimShrinks(s);
    if StripWrapper(t, ARRAY).Some? {
      Unwrap(t, ARRAY);
      var item := Respell(StripWrapper(t, ARRAY).value);
      sp := Spelling(left, ArrayBody(t[..|ARRAY|], item), right);
    } else if StripWrapper(t, STRUCT).Some? {
      Unwrap(t, STRUCT);
      var inner := StripWrapper(t, STRUCT).value;
      var members := RespellStruct(inner, |s|);
      sp := Spelling(left, StructBody(t[..|STRUCT|], members), right);
    } else {
      sp := Spelling(left, Word(t), right);
      WordKind(Token(t));
    }
  }

  lemma {:induction false} RespellStruct(inner: string, bound: nat) returns (members: seq<Member>)
    requires |inner| < bound
    requires Short(All(Split(inner, 0)), bound)
    requires var parts := All(Split(inner, 0)); MembersOf(parts, |parts|, bound).Some?
    ensures members != [] && WellSpelledMembers(members) && RenderMembers(members) == inner
    ensures Separable(Parts(members)[0], Parts(members)[1..])
    ensures var parts := All(Split(inner, 0)); MembersOf(parts, |parts|, bound) == Some(MemberFields(members))
    decreases bound, 0, 1
  {
    var pieces := Split(inner, 0);
    MembersOneByOne(All(pieces), |All(pieces)|, bound);
    var fields := MembersOf(All(pieces), |All(pieces)|, bound).value;
    members := RespellMembers(All(pieces), bound);
    assert Parts(members) == All(pieces) && MemberFields(members) == fields;
    assert Parts(members)[0] == pieces.first && Parts(members)[1..] == pieces.rest;
    RenderIsJoin(members);
    JoinSplit(inner, 0);
    SplitJoin(pieces.first, pieces.rest);
  }

  ghost predicate CanChoose<S, T(!new)>(p: (S, T) -> bool, s: S) {
    exists x :: p(s, x)
  }

  /** One choice for each element, gathered into a sequence. */
  lemma {:induction false} Gather<S, T(!new)>(from: seq<S>, p: (S, T) -> bool) returns (all: seq<T>)
    requires forall i :: 0 <= i < |from| ==> CanChoose(p, from[i])
    ensures |all| == |from| && forall i :: 0 <= i < |from| ==> p(from[i], all[i])
  {
    all := [];
    if from != [] {
      assert CanChoose(p, from[0]);
      var rest := Gather(from[1..], p);
      var first :| p(from[0], first);
      all := [first] + rest;
    }
  }

  lemma {:induction false} RespellMembers(parts: seq<string>, bound: nat) returns (members: seq<Member>)
    requires Short(parts, bound)
    requires forall i :: 0 <= i < |parts| ==> MemberOf(parts[i], bound).Some?
    ensures |members| == |parts|
    ensures forall i :: 0 <= i < |parts| ==> Respells(members[i], parts[i], MemberOf(parts[i], bound))
    decreases bound, 0, 0
  {
    var p := (part: string, m: Member) => |part| < bound && Respells(m, part, MemberOf(part, bound));
    forall i | 0 <= i < |parts| ensures CanChoose(p, parts[i]) {
      var m := RespellMember(parts[i], bound);
      assert p(parts[i], m);
    }
    members := Gather(parts, p);
    forall i | 0 <= i < |parts| ensures Respells(members[i], parts[i], MemberOf(parts[i], bound)) {
      assert p(parts[i], members[i]);
    }
  }

  ghost predicate Respells(m: Member, part: string, field: Option<Field>) {
    RenderMember(m) == part && WellSpelledMember(m) && field == Some(MemberField(m))
  }

  lemma {:induction false} RespellMember(part: string, bound: nat) returns (m: Member)
    requires |part| < bound && MemberOf(part, bound).Some?
    ensures Respells(m, part, MemberOf(part, bound))
    decreases |part|, 2
  {
    var (name, text) := SplitOnce(part).value;
    assert part == name + (":" + text);
    var spelled := Respell(text);
    m := Member(name, spelled);
  }

  /** A text is read as type `t` exactly when it spells `t`. */
  lemma ParsesExactlySpellings(s: string, t: DataType)
    ensures DeclaredType(s) == Some(t) <==> exists sp :: WellSpelled(sp) && Render(sp) == s && Meaning(sp) == t
  {
    if DeclaredType(s) == Some(t) {
      var sp := Respell(s);
      assert WellSpelled(sp) && Render(sp) == s && Meaning(sp) == t;
    }
    forall sp | WellSpelled(sp) && Render(sp) == s && Meaning(sp) == t ensures DeclaredType(s) == Some(t) {
      SpellingParses(sp);
    }
  }
}
