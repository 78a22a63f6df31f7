/** Printing types and reading them back, whatever the letter case, padding and precision suffixes. */
module TypePrinting {
  import opened Text
  import opened Wrappers
  import opened Shapes
  import opened ArrowSchema
  import opened TypeText
  import opened TypeGrammar

  predicate Undelimited(s: string) {
    ',' !in s && '<' !in s && '>' !in s
  }

  /** A spelling whose names and words contain none of the delimiters. */
  ghost predicate Clean(sp: Spelling)
    decreases sp
  {
    IsBlank(sp.left) && IsBlank(sp.right) &&
    match sp.body
    case Word(text) => IsTrimmed(text) && Undelimited(text) && IsWord(Token(text))
    case ArrayBody(head, item) => Lower(head) == "array<" && Clean(item)
    case StructBody(head, members) => Lower(head) == "struct<" && members != [] && CleanMembers(members)
  }

  ghost predicate CleanMembers(members: seq<Member>)
    decreases members
  {
    forall i :: 0 <= i < |members| ==> CleanName(members[i].name) && Clean(members[i].spelled)
  }

  predicate CleanName(name: string) {
    Undelimited(name) && ':' !in name
  }

  // ---------- brackets balance ----------

  /** Scanned from depth `d` the text ends at depth `to`, and no comma of it is met at depth zero. */
  ghost predicate Scans(s: string, d: nat, to: nat) {
    Scan(s, d) == to && NoTopComma(s, d)
  }

  lemma {:induction false} ScansConcat(a: string, b: string, d: nat, mid: nat, to: nat)
    requires Scans(a, d, mid) && Scans(b, mid, to)
    ensures Scans(a + b, d, to)
    decreases |a|
  {
    if a == "" {
      assert a + b == b;
    } else {
      ScansConcat(a[1..], b, NextDepth(d, a[0]), mid, to);
      assert (a + b)[1..] == a[1..] + b;
    }
  }

  lemma {:induction false} UndelimitedScans(s: string, d: nat)
    requires Undelimited(s)
    ensures Scans(s, d, d)
  {
    if s != "" {
      UndelimitedScans(s[1..], d);
    }
  }

  lemma BlankUndelimited(s: string)
    requires IsBlank(s)
    ensures Undelimited(s)
  {
  }

  lemma OneCharScans(c: char, d: nat)
    requires c == ',' ==> d > 0
    ensures Scans([c], d, NextDepth(d, c))
  {
    assert [c][1..] == "";
  }

  lemma HeadScans(head: string, d: nat)
    requires Lower(head) == ARRAY || Lower(head) == STRUCT
    ensures Scans(head, d, d + 1)
  {
    var n := |head| - 1;
    var word := head[..n];
    forall i | 0 <= i < n ensures word[i] != ',' && word[i] != '<' && word[i] != '>' {
      LowerAt(head, i);
      assert ARRAY[..5] == "array" && STRUCT[..6] == "struct";
    }
    LowerAt(head, n);
    assert head[n] == '<';
    UndelimitedScans(word, d);
    OneCharScans('<', d);
    ScansConcat(word, "<", d, d, d + 1);
    assert head == word + "<";
  }

  lemma {:induction false} RenderScans(sp: Spelling, d: nat)
    requires Clean(sp)
    ensures Scans(Render(sp), d, d)
    decreases sp
  {
    BlankUndelimited(sp.left);
    BlankUndelimited(sp.right);
    UndelimitedScans(sp.left, d);
    UndelimitedScans(sp.right, d);
    match sp.body {
      case Word(text) =>
        UndelimitedScans(text, d);
      case ArrayBody(head, item) =>
        RenderScans(item, d + 1);
        WrapScans(head, Render(item), d);
      case StructBody(head, members) =>
        MembersScan(members, d + 1);
        WrapScans(head, RenderMembers(members), d);
    }
    ScansConcat(sp.left, RenderBody(sp.body), d, d, d);
    ScansConcat(sp.left + RenderBody(sp.body), sp.right, d, d, d);
  }

  lemma WrapScans(head: string, inner: string, d: nat)
    requires Lower(head) == ARRAY || Lower(head) == STRUCT
    requires Scans(inner, d + 1, d + 1)
    ensures Scans(head + (inner + ">"), d, d)
  {
    HeadScans(head, d);
    OneCharScans('>', d + 1);
    ScansConcat(inner, ">", d + 1, d + 1, d);
    ScansConcat(head, inner + ">", d, d + 1, d);
  }

  lemma {:induction false} MemberScans(m: Member, d: nat)
    requires CleanName(m.name) && Clean(m.spelled)
    ensures Scans(RenderMember(m), d, d)
    decreases m
  {
    UndelimitedScans(m.name, d);
    OneCharScans(':', d);
    RenderScans(m.spelled, d);
    ScansConcat(":", Render(m.spelled), d, d, d);
    ScansConcat(m.name, ":" + Render(m.spelled), d, d, d);
  }

  lemma {:induction false} MembersScan(members: seq<Member>, d: nat)
    requires CleanMembers(members) && d > 0
    ensures Scans(RenderMembers(members), d, d)
    decreases members
  {
    if members != [] {
      MemberScans(members[0], d);
      if |members| > 1 {
        MembersScan(members[1..], d);
        OneCharScans(',', d);
        ScansConcat(",", RenderMembers(members[1..]), d, d, d);
        ScansConcat(RenderMember(members[0]), "," + RenderMembers(members[1..]), d, d, d);
      }
    }
  }

  lemma {:induction false} CleanSeparable(members: seq<Member>)
    requires members != [] && CleanMembers(members)
    ensures Separable(Parts(members)[0], Parts(members)[1..])
    decreases |members|
  {
    MemberScans(members[0], 0);
    assert Parts(members)[0] == RenderMember(members[0]);
    assert Parts(members)[1..] == Parts(members[1..]);
    if |members| > 1 {
      CleanSeparable(members[1..]);
    }
  }

  lemma WordIsNoWrapper(text: string, prefix: string)
    requires Undelimited(text) && (prefix == ARRAY || prefix == STRUCT)
    ensures StripWrapper(text, prefix).None?
  {
  }

  lemma {:induction false} CleanIsWellSpelled(sp: Spelling)
    requires Clean(sp)
    ensures WellSpelled(sp)
    decreases sp
  {
    match sp.body
    case Word(text) =>
      WordIsNoWrapper(text, ARRAY);
      WordIsNoWrapper(text, STRUCT);
    case ArrayBody(_, item) => CleanIsWellSpelled(item);
    case StructBody(_, members) =>
      CleanSeparable(members);
      forall i | 0 <= i < |members| ensures WellSpelledMember(members[i]) {
        CleanIsWellSpelled(members[i].spelled);
      }
  }

  /** Any clean spelling of a type is read as that type. */
  lemma CleanParses(sp: Spelling)
    requires Clean(sp)
    ensures DeclaredType(Render(sp)) == Some(Meaning(sp))
  {
    CleanIsWellSpelled(sp);
    SpellingParses(sp);
  }

  // ---------- case, padding and suffixes ----------

  lemma LowerKeepsWhitespace(c: char)
    ensures IsWhitespace(ToAsciiLower(c)) <==> IsWhitespace(c)
  {
  }

  lemma LowerParts(s: string, i: nat)
    requires i <= |s|
    ensures Lower(s[..i]) == Lower(s)[..i] && Lower(s[i..]) == Lower(s)[i..]
  {
  }

  lemma {:induction false} TrimStartLower(s: string)
    ensures TrimStart(Lower(s)) == Lower(TrimStart(s))
  {
    if s != "" {
      LowerKeepsWhitespace(s[0]);
      LowerParts(s, 1);
      TrimStartLower(s[1..]);
    }
  }

  lemma {:induction false} TrimEndLower(s: string)
    ensures TrimEnd(Lower(s)) == Lower(TrimEnd(s))
  {
    if s != "" {
      LowerKeepsWhitespace(s[|s| - 1]);
      LowerParts(s, |s| - 1);
      TrimEndLower(s[..|s| - 1]);
    }
  }

  lemma {:induction false} BeforeSuffix(word: string, suffix: string)
    requires '(' !in word && (suffix == "" || suffix[0] == '(')
    ensures BeforeParenthesis(word + suffix) == word
  {
    if word != "" {
      BeforeSuffix(word[1..], suffix);
      assert (word + suffix)[1..] == word[1..] + suffix;
      assert [word[0]] + word[1..] == word;
    } else {
      assert word + suffix == suffix;
    }
  }

  /** The primitive a word names depends neither on its letter case nor on a parenthesised suffix. */
  lemma TokenIgnoresCaseAndSuffix(a: string, b: string, suffix: string)
    requires '(' !in a && '(' !in b && Lower(a) == Lower(b) && (suffix == "" || suffix[0] == '(')
    ensures Token(a + suffix) == Token(b)
  {
    BeforeSuffix(a, suffix);
    BeforeSuffix(b, "");
    assert b + "" == b;
    TrimStartLower(a);
    TrimStartLower(b);
    TrimEndLower(TrimStart(a));
    TrimEndLower(TrimStart(b));
  }

  // ---------- the canonical text of a type ----------

  /** The types the canonical printer covers: listed primitives, nullable items, non-empty structs of nullable members. */
  ghost predicate Printable(t: DataType)
    decreases t
  {
    match t
    case Flat(kind) => !kind.Foreign?
    case ListOf(item) => item == Field("item", item.dataType, true, map[]) && Printable(item.dataType)
    case StructOf(fields) => fields != [] && PrintableFields(fields)
    case MapOf(_, _) | LargeListOf(_) => false
  }

  ghost predicate PrintableFields(fields: seq<Field>)
    decreases fields
  {
    forall i :: 0 <= i < |fields| ==>
      fields[i] == Field(fields[i].name, fields[i].dataType, true, map[]) && IsTrimmed(fields[i].name) &&
      CleanName(fields[i].name) && Printable(fields[i].dataType)
  }

  function WordFor(kind: Kind): string {
    match kind
    case Boolean => "boolean"
    case Int8 => "int8"
    case Int16 => "int16"
    case Int32 => "int32"
    case Int64 => "int64"
    case UInt8 => "uint8"
    case UInt16 => "uint16"
    case UInt32 => "uint32"
    case UInt64 => "uint64"
    case Float32 => "float32"
    case Float64 => "float64"
    case Utf8 => "string"
    case Foreign(_) => ""
  }

  function Canonical(t: DataType): Spelling
    decreases t
  {
    Spelling("", match t
      case Flat(kind) => Word(WordFor(kind))
      case ListOf(item) => ArrayBody(ARRAY, Canonical(item.dataType))
      case StructOf(fields) => StructBody(STRUCT, CanonicalMembers(fields))
      case MapOf(_, _) | LargeListOf(_) => Word(""), "")
  }

  function CanonicalMembers(fields: seq<Field>): (r: seq<Member>)
    ensures |r| == |fields|
    decreases fields
  {
    seq(|fields|, i requires 0 <= i < |fields| => Member(fields[i].name, Canonical(fields[i].dataType)))
  }

  function Print(t: DataType): string {
    Render(Canonical(t))
  }

  /** A word of lower-case letters and digits. */
  predicate Plainword(s: string) {
    s != "" && forall i :: 0 <= i < |s| ==> 'a' <= s[i] <= 'z' || '0' <= s[i] <= '9'
  }

  lemma PlainwordToken(s: string)
    requires Plainword(s)
    ensures Token(s) == s && IsTrimmed(s) && Undelimited(s)
  {
    BeforeSuffix(s, "");
    assert s + "" == s && "" + s + "" == s;
    TrimPadded("", s, "");
    assert Lower(s) == s;
  }

  lemma WordsAreTokens(kind: Kind)
    requires !kind.Foreign?
    ensures Plainword(WordFor(kind)) && WordFor(kind) in WordsOf(kind)
    ensures IsWord(WordFor(kind)) && KindNamed(WordFor(kind)) == kind
  {
    TokenTable(WordFor(kind), kind);
    WordKind(WordFor(kind));
  }

  lemma FixedHeads()
    ensures Lower(ARRAY) == ARRAY && Lower(STRUCT) == STRUCT
  {
  }

  lemma {:induction false} CanonicalMeans(t: DataType)
    requires Printable(t)
    ensures Clean(Canonical(t)) && Meaning(Canonical(t)) == t
    decreases t
  {
    FixedHeads();
    match t
    case Flat(kind) =>
      WordsAreTokens(kind);
      PlainwordToken(WordFor(kind));
    case ListOf(item) => CanonicalMeans(item.dataType);
    case StructOf(fields) => CanonicalMembersMean(fields);
  }

  lemma {:induction false} CanonicalMembersMean(fields: seq<Field>)
    requires PrintableFields(fields)
    ensures CleanMembers(CanonicalMembers(fields)) && MemberFields(CanonicalMembers(fields)) == fields
    decreases fields
  {
    var members := CanonicalMembers(fields);
    forall i | 0 <= i < |fields|
      ensures CleanName(members[i].name) && Clean(members[i].spelled) && MemberField(members[i]) == fields[i]
    {
      CanonicalMeans(fields[i].dataType);
      TrimPadded("", fields[i].name, "");
      assert "" + fields[i].name + "" == fields[i].name;
    }
  }

  /** Printing a type and parsing the text gives the type back. */
  lemma PrintParse(t: DataType)
    requires Printable(t)
    ensures DeclaredType(Print(t)) == Some(t)
  {
    CanonicalMeans(t);
    CleanParses(Canonical(t));
  }
}
