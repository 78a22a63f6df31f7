/** Declarations generated from an Arrow schema. */
module Codegen {
  import opened Wrappers
  import opened Shapes
  import opened ArrowSchema
  import opened ArrowLaws

  /** A type as written: a path is a primitive or a generated struct, depending on what is declared. */
  datatype RustType = Path(name: string) | Vec(item: RustType) | OptionOf(inner: RustType)

  datatype RustField = RustField(name: string, rustType: RustType)

  datatype StructDecl = StructDecl(name: string, fields: seq<RustField>)

  datatype CodegenError =
    | UnsupportedArrowType(field: string)
    | InvalidFieldName(field: string)
    | RenderStruct(structName: string)

  // ---------- names ----------

  predicate IsAsciiAlphabetic(c: char) {
    'a' <= c <= 'z' || 'A' <= c <= 'Z'
  }

  predicate IsIdentifierChar(c: char) {
    IsAsciiAlphabetic(c) || '0' <= c <= '9' || c == '_'
  }

  predicate IsValidRustIdentifier(name: string) {
    name != "" && (IsAsciiAlphabetic(name[0]) || name[0] == '_') && forall i :: 0 <= i < |name| ==> IsIdentifierChar(name[i])
  }

  /** Words of a given length that do not parse as names in Rust, although they look like identifiers. */
  function ReservedWords(length: nat): set<string> {
    match length
    case 2 => {"as", "do", "fn", "if", "in"}
    case 3 => {"box", "dyn", "for", "let", "mod", "mut", "pub", "ref", "try", "use"}
    case 4 => {"else", "enum", "impl", "loop", "move", "priv", "Self", "self", "true", "type"}
    case 5 =>
      {"async", "await", "break", "const", "crate", "false", "final", "macro", "match", "super", "trait", "where",
        "while", "yield"}
    case 6 => {"become", "extern", "return", "static", "struct", "typeof", "unsafe"}
    case 7 => {"unsized", "virtual"}
    case 8 => {"abstract", "continue", "override"}
    case _ => {}
  }

  predicate IsReserved(name: string) {
    name in ReservedWords(|name|)
  }

  function ToAsciiUpper(c: char): char {
    if 'a' <= c <= 'z' then c - 32 as char else c
  }

  /** Every run between underscores or hyphens starts with a capital, and the separators vanish. */
  function Pascal(name: string, starting: bool): string {
    if name == "" then ""
    else if name[0] == '_' || name[0] == '-' then Pascal(name[1..], true)
    else [if starting then ToAsciiUpper(name[0]) else name[0]] + Pascal(name[1..], false)
  }

  function ToPascalCase(name: string): string {
    Pascal(name, true)
  }

  /** An identifier is one of ASCII letters, digits and underscores that does not start with a digit. */
  lemma IdentifierCodes(name: string)
    ensures IsValidRustIdentifier(name) <==>
      name != "" && !(48 <= name[0] as int <= 57) && forall i :: 0 <= i < |name| ==> IsWordCode(name[i] as int)
  {
    if IsValidRustIdentifier(name) {
      forall i | 0 <= i < |name| ensures IsWordCode(name[i] as int) {
        assert IsIdentifierChar(name[i]);
      }
    } else if name != "" && !(48 <= name[0] as int <= 57) && forall i :: 0 <= i < |name| ==> IsWordCode(name[i] as int) {
      assert IsWordCode(name[0] as int);
      forall i | 0 <= i < |name| ensures IsIdentifierChar(name[i]) {
        assert IsWordCode(name[i] as int);
      }
    }
  }

  ghost predicate IsWordCode(n: int) {
    48 <= n <= 57 || 65 <= n <= 90 || n == 95 || 97 <= n <= 122
  }

  /** Parts between separators are capitalized one by one and joined without them. */
  lemma {:induction false} PascalParts(a: string, separator: char, b: string, starting: bool)
    requires separator == '_' || separator == '-'
    ensures Pascal(a + [separator] + b, starting) == Pascal(a, starting) + ToPascalCase(b)
    decreases |a|
  {
    if a == "" {
      assert a + [separator] + b == [separator] + b;
      assert ([separator] + b)[1..] == b;
    } else {
      var rest := a[1..] + [separator] + b;
      assert (a + [separator] + b)[1..] == rest;
      PascalParts(a[1..], separator, b, a[0] == '_' || a[0] == '-');
    }
  }

  /** A part without separators keeps its text, except that a lowercase first letter becomes the uppercase one. */
  lemma {:induction false} PascalPart(part: string)
    requires part != "" && forall i :: 0 <= i < |part| ==> part[i] != '_' && part[i] != '-'
    ensures var r := ToPascalCase(part); |r| == |part| && r[1..] == part[1..]
    ensures var first, r := part[0] as int, ToPascalCase(part)[0] as int;
      r == if 97 <= first <= 122 then first - 32 else first
  {
    PascalRest(part[1..]);
  }

  lemma {:induction false} PascalRest(rest: string)
    requires forall i :: 0 <= i < |rest| ==> rest[i] != '_' && rest[i] != '-'
    ensures Pascal(rest, false) == rest
  {
    if rest != "" {
      PascalRest(rest[1..]);
    }
  }

  function RustPrimitive(kind: Kind): Option<string> {
    if kind.Foreign? then None else Some(KindName(kind))
  }

  // ---------- what is generated for a type ----------

  /** A field's Rust type, with the nested structs it needs, innermost first. */
  datatype Generated = Generated(rustType: RustType, items: seq<StructDecl>)

  function MaybeOptional(nullable: bool, t: RustType): RustType {
    if nullable then OptionOf(t) else t
  }

  function TypeFor(error: string, hint: string, t: DataType): (r: Result<Generated, CodegenError>)
    ensures r.Ok? ==> !r.value.rustType.OptionOf?
    decreases t, 1
  {
    match t
    case ListOf(_) | LargeListOf(_) =>
      (match TypeFor(error + "[]", hint + "Item", t.item.dataType)
       case Err(e) => Err(e)
       case Ok(g) => Ok(Generated(Vec(g.rustType), g.items)))
    case StructOf(fields) =>
      (match FieldsFor(error, hint, fields)
       case Err(e) => Err(e)
       case Ok(body) => Ok(Generated(Path(hint), body.items + [StructDecl(hint, body.fields)])))
    case Flat(kind) =>
      (match RustPrimitive(kind)
       case None => Err(UnsupportedArrowType(error))
       case Some(p) => Ok(Generated(Path(p), [])))
    case MapOf(_, _) => Err(UnsupportedArrowType(error))
  }

  datatype StructBody = StructBody(fields: seq<RustField>, items: seq<StructDecl>)

  /** The error path of a member: plain at the top level, dotted below it. */
  function MemberError(error: string, name: string): string {
    if error == "" then name else error + "." + name
  }

  function MemberFor(error: string, hint: string, f: Field): Result<Generated, CodegenError>
    decreases f.dataType, 2
  {
    if !IsValidRustIdentifier(f.name) then Err(InvalidFieldName(MemberError(error, f.name)))
    else TypeFor(MemberError(error, f.name), hint + ToPascalCase(f.name), f.dataType)
  }

  function FieldsFor(error: string, hint: string, fields: seq<Field>): (r: Result<StructBody, CodegenError>)
    ensures r.Ok? ==> |r.value.fields| == |fields|
    decreases fields
  {
    if fields == [] then Ok(StructBody([], []))
    else
      var before, f := fields[..|fields| - 1], fields[|fields| - 1];
      match FieldsFor(error, hint, before)
      case Err(e) => Err(e)
      case Ok(body) =>
        match MemberFor(error, hint, f)
        case Err(e) => Err(e)
        case Ok(g) =>
          Ok(StructBody(body.fields + [RustField(f.name, MaybeOptional(f.nullable, g.rustType))], body.items + g.items))
  }

  /** A member may be called `_` as far as the parser is concerned, a struct may not. */
  predicate DeclParses(decl: StructDecl) {
    decl.name != "_" && !IsReserved(decl.name) && forall k :: 0 <= k < |decl.fields| ==> !IsReserved(decl.fields[k].name)
  }

  /** The declarations, once put together, parse as a Rust file. */
  predicate Parses(decls: seq<StructDecl>) {
    forall i :: 0 <= i < |decls| ==> DeclParses(decls[i])
  }

  /** The whole generated program: nested structs, then the one for the schema. */
  function ProgramFor(structName: string, schema: seq<Field>): Result<seq<StructDecl>, CodegenError> {
    match FieldsFor("", structName, schema)
    case Err(e) => Err(e)
    case Ok(body) =>
      var decls := body.items + [StructDecl(structName, body.fields)];
      if Parses(decls) then Ok(decls) else Err(RenderStruct(structName))
  }

  // ---------- the generator as written ----------

  method FieldTypeTokens(error: string, hint: string, t: DataType, nested: seq<StructDecl>)
    returns (r: Result<RustType, CodegenError>, items: seq<StructDecl>)
    ensures r.Err? ==> TypeFor(error, hint, t) == Err(r.error)
    ensures r.Ok? ==> TypeFor(error, hint, t).Ok? && TypeFor(error, hint, t).value.rustType == r.value
    ensures r.Ok? ==> items == nested + TypeFor(error, hint, t).value.items
    decreases t, 1
  {
    items := nested;
    match t
    case ListOf(_) | LargeListOf(_) =>
      r, items := FieldTypeTokens(error + "[]", hint + "Item", t.item.dataType, nested);
      if r.Ok? {
        r := Ok(Vec(r.value));
      }
    case StructOf(fields) =>
      var rendered: Result<seq<RustField>, CodegenError>;
      rendered, items := StructFields(error, hint, fields, nested);
      if rendered.Err? {
        r := Err(rendered.error);
        return;
      }
      items := items + [StructDecl(hint, rendered.value)];
      r := Ok(Path(hint));
    case Flat(kind) =>
      var primitive := RustPrimitive(kind);
      r := if primitive.Some? then Ok(Path(primitive.value)) else Err(UnsupportedArrowType(error));
    case MapOf(_, _) =>
      r := Err(UnsupportedArrowType(error));
  }

  lemma FieldsStep(error: string, hint: string, fields: seq<Field>, k: nat)
    requires k < |fields| && FieldsFor(error, hint, fields[..k]).Ok?
    ensures FieldsFor(error, hint, fields[..k + 1]) ==
      match MemberFor(error, hint, fields[k])
      case Err(e) => Err(e)
      case Ok(g) =>
        var body := FieldsFor(error, hint, fields[..k]).value;
        Ok(StructBody(body.fields + [RustField(fields[k].name, MaybeOptional(fields[k].nullable, g.rustType))], body.items + g.items))
  {
    assert fields[..k + 1][..k] == fields[..k];
  }

  lemma {:induction false} FieldsStuck(error: string, hint: string, fields: seq<Field>, count: nat)
    requires count <= |fields| && FieldsFor(error, hint, fields[..count]).Err?
    ensures FieldsFor(error, hint, fields) == FieldsFor(error, hint, fields[..count])
    decreases |fields|
  {
    if count == |fields| {
      assert fields[..count] == fields;
    } else {
      assert fields[..|fields| - 1][..count] == fields[..count];
      FieldsStuck(error, hint, fields[..|fields| - 1], count);
    }
  }

  method StructFields(error: string, hint: string, fields: seq<Field>, nested: seq<StructDecl>)
    returns (r: Result<seq<RustField>, CodegenError>, items: seq<StructDecl>)
    ensures r.Err? ==> FieldsFor(error, hint, fields) == Err(r.error)
    ensures r.Ok? ==> FieldsFor(error, hint, fields).Ok? && FieldsFor(error, hint, fields).value.fields == r.value
    ensures r.Ok? ==> items == nested + FieldsFor(error, hint, fields).value.items
    decreases fields, 0
  {
    items := nested;
    var rendered: seq<RustField> := [];
    for k := 0 to |fields|
      invariant FieldsFor(error, hint, fields[..k]).Ok?
      invariant FieldsFor(error, hint, fields[..k]).value.fields == rendered
      invariant items == nested + FieldsFor(error, hint, fields[..k]).value.items
    {
      var f := fields[k];
      FieldsStep(error, hint, fields, k);
      ghost var before := FieldsFor(error, hint, fields[..k]).value.items;
      if !IsValidRustIdentifier(f.name) {
        FieldsStuck(error, hint, fields, k + 1);
        r := Err(InvalidFieldName(MemberError(error, f.name)));
        return;
      }
      var t;
      t, items := FieldTypeTokens(MemberError(error, f.name), hint + ToPascalCase(f.name), f.dataType, items);
      if t.Err? {
        FieldsStuck(error, hint, fields, k + 1);
        r := Err(t.error);
        return;
      }
      ghost var more := MemberFor(error, hint, f).value.items;
      assert (nested + before) + more == nested + (before + more);
      rendered := rendered + [RustField(f.name, MaybeOptional(f.nullable, t.value))];
    }
    assert fields[..|fields|] == fields;
    r := Ok(rendered);
  }

  method StructSource(structName: string, schema: seq<Field>) returns (r: Result<seq<StructDecl>, CodegenError>)
    ensures r == ProgramFor(structName, schema)
  {
    var fields, nested := StructFields("", structName, schema, []);
    if fields.Err? {
      return Err(fields.error);
    }
    assert nested == FieldsFor("", structName, schema).value.items;
    var decls := nested + [StructDecl(structName, fields.value)];
    r := if Parses(decls) then Ok(decls) else Err(RenderStruct(structName));
  }

  // ---------- which schemas have declarations ----------

  ghost predicate Generable(t: DataType)
    decreases t
  {
    match t
    case Flat(kind) => !kind.Foreign?
    case ListOf(_) | LargeListOf(_) => Generable(t.item.dataType)
    case StructOf(fields) => GenerableFields(fields)
    case MapOf(_, _) => false
  }

  ghost predicate GenerableFields(fields: seq<Field>)
    decreases fields
  {
    forall i :: 0 <= i < |fields| ==> IsValidRustIdentifier(fields[i].name) && Generable(fields[i].dataType)
  }

  lemma {:induction false} TypeGenerable(error: string, hint: string, t: DataType)
    ensures TypeFor(error, hint, t).Ok? <==> Generable(t)
    decreases t
  {
    match t
    case Flat(_) =>
    case MapOf(_, _) =>
    case ListOf(_) | LargeListOf(_) => TypeGenerable(error + "[]", hint + "Item", t.item.dataType);
    case StructOf(fields) => FieldsGenerable(error, hint, fields);
  }

  /** Every member has a Rust type exactly when every name is an identifier and every type supported, at every depth. */
  lemma {:induction false} FieldsGenerable(error: string, hint: string, fields: seq<Field>)
    ensures FieldsFor(error, hint, fields).Ok? <==> GenerableFields(fields)
    decreases fields
  {
    if fields != [] {
      var before, f := fields[..|fields| - 1], fields[|fields| - 1];
      FieldsGenerable(error, hint, before);
      TypeGenerable(MemberError(error, f.name), hint + ToPascalCase(f.name), f.dataType);
      assert fields == before + [f];
      assert GenerableFields(fields) <==> GenerableFields(before) && IsValidRustIdentifier(f.name) && Generable(f.dataType);
    }
  }
}
