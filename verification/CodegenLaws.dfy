/** Which schemas have declarations, what those declarations mean, and when mapping them back returns the schema. */
module CodegenLaws {
  import opened Wrappers
  import opened Shapes
  import opened ArrowSchema
  import opened ArrowLaws
  import opened Codegen

  // ---------- the names that are generated ----------

  /** A struct as far as names go: its own and its members'. */
  datatype Shell = Shell(name: string, members: seq<string>)

  function ShellOf(decl: StructDecl): Shell {
    Shell(decl.name, seq(|decl.fields|, k requires 0 <= k < |decl.fields| => decl.fields[k].name))
  }

  function ShellsOf(decls: seq<StructDecl>): (r: seq<Shell>)
    ensures |r| == |decls|
  {
    seq(|decls|, i requires 0 <= i < |decls| => ShellOf(decls[i]))
  }

  function MembersOf(fields: seq<Field>): seq<string> {
    seq(|fields|, i requires 0 <= i < |fields| => fields[i].name)
  }

  /** The structs that a type needs: one for every struct at every depth, in the order generated. */
  function StructsIn(hint: string, t: DataType): seq<Shell>
    decreases t
  {
    match t
    case Flat(_) | MapOf(_, _) => []
    case ListOf(_) | LargeListOf(_) => StructsIn(hint + "Item", t.item.dataType)
    case StructOf(fields) => StructsBelow(hint, fields) + [Shell(hint, MembersOf(fields))]
  }

  function StructsBelow(hint: string, fields: seq<Field>): seq<Shell>
    decreases fields
  {
    if fields == [] then []
    else
      var before, f := fields[..|fields| - 1], fields[|fields| - 1];
      StructsBelow(hint, before) + StructsIn(hint + ToPascalCase(f.name), f.dataType)
  }

  function AllStructs(structName: string, schema: seq<Field>): seq<Shell> {
    StructsBelow(structName, schema) + [Shell(structName, MembersOf(schema))]
  }

  function Names(structs: seq<Shell>): (r: seq<string>)
    ensures |r| == |structs|
  {
    seq(|structs|, i requires 0 <= i < |structs| => structs[i].name)
  }

  lemma ShellsAppend(a: seq<StructDecl>, b: seq<StructDecl>)
    ensures ShellsOf(a + b) == ShellsOf(a) + ShellsOf(b)
  {
  }

  lemma {:induction false} TypeStructs(error: string, hint: string, t: DataType)
    requires TypeFor(error, hint, t).Ok?
    ensures ShellsOf(TypeFor(error, hint, t).value.items) == StructsIn(hint, t)
    decreases t
  {
    match t
    case Flat(_) =>
    case ListOf(_) | LargeListOf(_) => TypeStructs(error + "[]", hint + "Item", t.item.dataType);
    case StructOf(fields) =>
      FieldsStructs(error, hint, fields);
      var body := FieldsFor(error, hint, fields).value;
      ShellsAppend(body.items, [StructDecl(hint, body.fields)]);
  }

  lemma {:induction false} FieldsStructs(error: string, hint: string, fields: seq<Field>)
    requires FieldsFor(error, hint, fields).Ok?
    ensures var body := FieldsFor(error, hint, fields).value;
      ShellsOf(body.items) == StructsBelow(hint, fields) &&
      forall name :: ShellOf(StructDecl(name, body.fields)) == Shell(name, MembersOf(fields))
    decreases fields
  {
    if fields != [] {
      var before, f := fields[..|fields| - 1], fields[|fields| - 1];
      FieldsStructs(error, hint, before);
      TypeStructs(MemberError(error, f.name), hint + ToPascalCase(f.name), f.dataType);
      var was, g := FieldsFor(error, hint, before).value, MemberFor(error, hint, f).value;
      ShellsAppend(was.items, g.items);
      assert ShellOf(StructDecl("", was.fields)).members == MembersOf(before);
      assert MembersOf(fields) == MembersOf(before) + [f.name];
      var body := FieldsFor(error, hint, fields).value;
      assert ShellOf(StructDecl("", body.fields)).members == MembersOf(before) + [f.name];
    }
  }

  /** The program declares exactly the structs of its schema, with their members' names. */
  lemma ProgramStructs(structName: string, schema: seq<Field>)
    requires FieldsFor("", structName, schema).Ok?
    ensures var body := FieldsFor("", structName, schema).value;
      ShellsOf(body.items + [StructDecl(structName, body.fields)]) == AllStructs(structName, schema)
  {
    FieldsStructs("", structName, schema);
    var body := FieldsFor("", structName, schema).value;
    ShellsAppend(body.items, [StructDecl(structName, body.fields)]);
  }

  // ---------- which schemas have declarations ----------

  /** The reserved words with a given first letter. */
  function KeywordsFrom(letter: char): set<string> {
    match letter
    case 'S' => {"Self"}
    case 'a' => {"abstract", "as", "async", "await"}
    case 'b' => {"become", "box", "break"}
    case 'c' => {"const", "continue", "crate"}
    case 'd' => {"do", "dyn"}
    case 'e' => {"else", "enum", "extern"}
    case 'f' => {"false", "final", "fn", "for"}
    case 'i' => {"if", "impl", "in"}
    case 'l' => {"let", "loop"}
    case 'm' => {"macro", "match", "mod", "move", "mut"}
    case 'o' => {"override"}
    case 'p' => {"priv", "pub"}
    case 'r' => {"ref", "return"}
    case 's' => {"self", "static", "struct", "super"}
    case 't' => {"trait", "true", "try", "type", "typeof"}
    case 'u' => {"unsafe", "unsized", "use"}
    case 'v' => {"virtual"}
    case 'w' => {"where", "while"}
    case 'y' => {"yield"}
    case _ => {}
  }

  /** A name is refused by the renderer exactly when it is one of them. */
  lemma ReservedAreKeywords(name: string)
    ensures IsReserved(name) <==> name != "" && name in KeywordsFrom(name[0])
  {
    if IsReserved(name) {
      ReservedIsKeyword(name);
    }
    if name != "" && name in KeywordsFrom(name[0]) {
      KeywordIsReserved(name, name[0]);
    }
  }

  lemma ReservedIsKeyword(name: string)
    requires name in ReservedWords(|name|)
    ensures name != "" && name in KeywordsFrom(name[0])
  {
  }

  lemma KeywordIsReserved(name: string, letter: char)
    requires name in KeywordsFrom(letter)
    ensures name in ReservedWords(|name|)
  {
  }

  ghost predicate ShellParses(s: Shell) {
    s.name != "_" && !IsReserved(s.name) && forall k :: 0 <= k < |s.members| ==> !IsReserved(s.members[k])
  }

  /** Neither a struct nor a member, at any depth, is named by a reserved word. */
  ghost predicate Renderable(structName: string, schema: seq<Field>) {
    forall s :: s in AllStructs(structName, schema) ==> ShellParses(s)
  }

  lemma ParsesByNames(decls: seq<StructDecl>)
    ensures Parses(decls) <==> forall s :: s in ShellsOf(decls) ==> ShellParses(s)
  {
    forall i | 0 <= i < |decls| ensures DeclParses(decls[i]) <==> ShellParses(ShellsOf(decls)[i]) {
      DeclParsesByNames(decls[i]);
    }
    if Parses(decls) {
      forall s | s in ShellsOf(decls) ensures ShellParses(s) {
        var i :| 0 <= i < |decls| && ShellsOf(decls)[i] == s;
        assert DeclParses(decls[i]);
      }
    } else {
      var i :| 0 <= i < |decls| && !DeclParses(decls[i]);
      assert ShellsOf(decls)[i] in ShellsOf(decls);
    }
  }

  lemma DeclParsesByNames(decl: StructDecl)
    ensures DeclParses(decl) <==> ShellParses(ShellOf(decl))
  {
    var s := ShellOf(decl);
    assert forall k :: 0 <= k < |decl.fields| ==> s.members[k] == decl.fields[k].name;
    if ShellParses(s) {
      forall k | 0 <= k < |decl.fields| ensures !IsReserved(decl.fields[k].name) {
        assert !IsReserved(s.members[k]);
      }
    }
  }

  /**
   * Declarations exist exactly when, at every depth, names are identifiers, types are supported and no name
   * is reserved; rendering is what fails when only the last is missing.
   */
  lemma ProgramExists(structName: string, schema: seq<Field>)
    ensures ProgramFor(structName, schema).Ok? <==> GenerableFields(schema) && Renderable(structName, schema)
    ensures ProgramFor(structName, schema) == Err(RenderStruct(structName)) <==>
      GenerableFields(schema) && !Renderable(structName, schema)
  {
    FieldsGenerable("", structName, schema);
    if GenerableFields(schema) {
      var body := FieldsFor("", structName, schema).value;
      ProgramStructs(structName, schema);
      ParsesByNames(body.items + [StructDecl(structName, body.fields)]);
    } else {
      FieldsFailOtherwise("", structName, schema);
    }
  }

  lemma {:induction false} TypeFailsOtherwise(error: string, hint: string, t: DataType)
    ensures TypeFor(error, hint, t).Err? ==> !TypeFor(error, hint, t).error.RenderStruct?
    decreases t
  {
    match t
    case Flat(_) =>
    case MapOf(_, _) =>
    case ListOf(_) | LargeListOf(_) => TypeFailsOtherwise(error + "[]", hint + "Item", t.item.dataType);
    case StructOf(fields) => FieldsFailOtherwise(error, hint, fields);
  }

  lemma {:induction false} FieldsFailOtherwise(error: string, hint: string, fields: seq<Field>)
    ensures FieldsFor(error, hint, fields).Err? ==> !FieldsFor(error, hint, fields).error.RenderStruct?
    decreases fields
  {
    if fields != [] {
      var f := fields[|fields| - 1];
      FieldsFailOtherwise(error, hint, fields[..|fields| - 1]);
      TypeFailsOtherwise(MemberError(error, f.name), hint + ToPascalCase(f.name), f.dataType);
    }
  }

  // ---------- which error is reported ----------

  /** Everything in a type that has no Rust form, in the order visited, each with its dotted path. */
  ghost function TypeFaults(place: string, t: DataType): seq<CodegenError>
    decreases t
  {
    match t
    case Flat(kind) => if kind.Foreign? then [UnsupportedArrowType(place)] else []
    case ListOf(_) | LargeListOf(_) => TypeFaults(place + "[]", t.item.dataType)
    case StructOf(fields) => FieldFaults(place, fields)
    case MapOf(_, _) => [UnsupportedArrowType(place)]
  }

  ghost function FieldFaults(place: string, fields: seq<Field>): seq<CodegenError>
    decreases fields
  {
    if fields == [] then []
    else
      FieldFaults(place, fields[..|fields| - 1]) + MemberFaults(place, fields[|fields| - 1])
  }

  ghost function MemberFaults(place: string, f: Field): seq<CodegenError>
    decreases f
  {
    var path := if place == "" then f.name else place + "." + f.name;
    if IsValidRustIdentifier(f.name) then TypeFaults(path, f.dataType) else [InvalidFieldName(path)]
  }

  ghost predicate ReportsFirst<T>(r: Result<T, CodegenError>, faults: seq<CodegenError>) {
    if r.Ok? then faults == [] else faults != [] && r.error == faults[0]
  }

  lemma {:induction false} TypeReportsFirst(error: string, hint: string, t: DataType)
    ensures ReportsFirst(TypeFor(error, hint, t), TypeFaults(error, t))
    decreases t
  {
    match t
    case Flat(_) =>
    case MapOf(_, _) =>
    case ListOf(_) | LargeListOf(_) => TypeReportsFirst(error + "[]", hint + "Item", t.item.dataType);
    case StructOf(fields) => FieldsReportFirst(error, hint, fields);
  }

  lemma {:induction false} FieldsReportFirst(error: string, hint: string, fields: seq<Field>)
    ensures ReportsFirst(FieldsFor(error, hint, fields), FieldFaults(error, fields))
    decreases fields
  {
    if fields != [] {
      var f := fields[|fields| - 1];
      FieldsReportFirst(error, hint, fields[..|fields| - 1]);
      TypeReportsFirst(MemberError(error, f.name), hint + ToPascalCase(f.name), f.dataType);
      var before, member := FieldFaults(error, fields[..|fields| - 1]), MemberFaults(error, f);
      assert FieldFaults(error, fields) == before + member;
      assert ReportsFirst(MemberFor(error, hint, f), member);
    }
  }

  /** The generator reports its first fault, and goes on to rendering only without one. */
  lemma ProgramReportsFirst(structName: string, schema: seq<Field>)
    ensures FieldFaults("", schema) != [] ==> ProgramFor(structName, schema) == Err(FieldFaults("", schema)[0])
    ensures FieldFaults("", schema) == [] ==> ProgramFor(structName, schema).Ok? || ProgramFor(structName, schema).error.RenderStruct?
  {
    FieldsReportFirst("", structName, schema);
  }

  // ---------- what the declarations mean ----------

  /** The module the declarations stand in: type names it has from elsewhere, and the declarations. */
  datatype Module = Module(scope: seq<string>, decls: seq<StructDecl>)

  /** The names that no longer mean what the standard prelude says. */
  function Hidden(m: Module): seq<string> {
    m.scope + Names(ShellsOf(m.decls))
  }

  ghost predicate Apart(structs: seq<Shell>) {
    forall i, j :: 0 <= i < j < |structs| ==> structs[i].name != structs[j].name
  }

  function Find(decls: seq<StructDecl>, name: string): (r: Option<nat>)
    ensures r.Some? ==> r.value < |decls| && decls[r.value].name == name
    ensures r.None? <==> name !in Names(ShellsOf(decls))
  {
    var names := Names(ShellsOf(decls));
    if decls == [] then None
    else if decls[|decls| - 1].name == name then
      assert names[|decls| - 1] == name;
      Some(|decls| - 1)
    else
      var r := Find(decls[..|decls| - 1], name);
      assert Names(ShellsOf(decls[..|decls| - 1])) == names[..|decls| - 1];
      assert names == names[..|decls| - 1] + [names[|decls| - 1]];
      r
  }

  /**
   * The shape of a type, where structs are nested at most `budget` deep. `Vec` and `Option` are plain paths, so
   * they mean nothing where a type of that name hides them, and neither does a name that is somebody else's.
   * One that nobody declares is a primitive's.
   */
  function Resolve(m: Module, budget: nat, t: RustType): Option<TypeShape>
    decreases budget, t
  {
    match t
    case Vec(item) =>
      (match Resolve(m, budget, item)
       case None => None
       case Some(s) => if "Vec" in Hidden(m) then None else Some(Sequence(s)))
    case OptionOf(inner) =>
      (match Resolve(m, budget, inner)
       case None => None
       case Some(s) => if "Option" in Hidden(m) then None else Some(Optional(s)))
    case Path(name) =>
      match Find(m.decls, name)
      case None => if name in m.scope then None else Some(Primitive(name))
      case Some(j) =>
        if budget == 0 then None
        else
          match ResolveFields(m, budget - 1, m.decls[j].fields)
          case None => None
          case Some(fields) => Some(Struct(fields))
  }

  function ResolveFields(m: Module, budget: nat, members: seq<RustField>): Option<seq<FieldShape>>
    decreases budget, members
  {
    if members == [] then Some([])
    else
      var last := members[|members| - 1];
      match ResolveFields(m, budget, members[..|members| - 1])
      case None => None
      case Some(fields) =>
        match Resolve(m, budget, last.rustType)
        case None => None
        case Some(s) => Some(fields + [FieldShape(last.name, s, false)])
  }

  /** Words that the parser lets through as names of members and the compiler refuses, in the 2024 edition. */
  predicate IsRefusedWord(name: string) {
    name == "gen" || name == "_"
  }

  /** The compiler has nothing against the names: no refused word, and no member twice. */
  ghost predicate ShellCompiles(s: Shell) {
    !IsRefusedWord(s.name) && (forall k :: 0 <= k < |s.members| ==> !IsRefusedWord(s.members[k])) &&
    forall i, k :: 0 <= i < k < |s.members| ==> s.members[i] != s.members[k]
  }

  /**
   * The structs can be declared where `scope` is: their names are their own, and nothing hides `str`, which the
   * derived connector of the outermost one uses.
   */
  ghost predicate Compile(scope: seq<string>, structs: seq<Shell>) {
    Apart(structs) && "str" !in scope + Names(structs) &&
    forall s :: s in structs ==> ShellCompiles(s) && s.name !in scope
  }

  /**
   * What a module declares under a name. One that does not compile declares nothing, and one whose structs nest
   * deeper than there are structs does not compile, because it contains itself.
   */
  ghost function Meaning(m: Module, name: string): Option<TypeShape> {
    if Compile(m.scope, ShellsOf(m.decls)) then Resolve(m, |m.decls|, Path(name)) else None
  }

  /** None of the names hides a primitive, a `Vec` or an `Option` that the type needs. */
  ghost predicate Unhidden(names: seq<string>, t: DataType)
    decreases t
  {
    match t
    case Flat(kind) => KindName(kind) !in names
    case ListOf(_) | LargeListOf(_) => "Vec" !in names && Unhidden(names, t.item.dataType)
    case StructOf(fields) => UnhiddenFields(names, fields)
    case MapOf(_, _) => true
  }

  ghost predicate UnhiddenFields(names: seq<string>, fields: seq<Field>)
    decreases fields
  {
    forall i :: 0 <= i < |fields| ==>
      Unhidden(names, fields[i].dataType) && (fields[i].nullable ==> "Option" !in names)
  }

  /** The schema as declarations can express it: a `Vec` is a list whose items are required. */
  function DropType(t: DataType): DataType
    decreases t
  {
    match t
    case Flat(_) => t
    case ListOf(item) => ListOf(Field(item.name, DropType(item.dataType), false, item.metadata))
    case LargeListOf(item) => ListOf(Field(item.name, DropType(item.dataType), false, item.metadata))
    case StructOf(fields) => StructOf(DropFields(fields))
    case MapOf(_, _) => t
  }

  function DropFields(fields: seq<Field>): (r: seq<Field>)
    ensures |r| == |fields|
    decreases fields
  {
    seq(|fields|, i requires 0 <= i < |fields| => fields[i].(dataType := DropType(fields[i].dataType)))
  }

  /** There is no large list, and no list in the type has nullable items. */
  ghost predicate ItemsRequired(t: DataType)
    decreases t
  {
    match t
    case Flat(_) => true
    case ListOf(item) => !item.nullable && ItemsRequired(item.dataType)
    case LargeListOf(_) => false
    case StructOf(fields) => FieldsItemsRequired(fields)
    case MapOf(_, _) => true
  }

  ghost predicate FieldsItemsRequired(fields: seq<Field>)
    decreases fields
  {
    forall i :: 0 <= i < |fields| ==> ItemsRequired(fields[i].dataType)
  }

  lemma {:induction false} DropIsIdentity(t: DataType)
    ensures DropType(t) == t <==> ItemsRequired(t)
    decreases t
  {
    match t
    case Flat(_) =>
    case MapOf(_, _) =>
    case LargeListOf(_) =>
    case ListOf(item) => DropIsIdentity(item.dataType);
    case StructOf(fields) => DropFieldsIsIdentity(fields);
  }

  lemma {:induction false} DropFieldsIsIdentity(fields: seq<Field>)
    ensures DropFields(fields) == fields <==> FieldsItemsRequired(fields)
    decreases fields
  {
    forall i | 0 <= i < |fields| ensures DropFields(fields)[i] == fields[i] <==> ItemsRequired(fields[i].dataType) {
      DropIsIdentity(fields[i].dataType);
    }
    if FieldsItemsRequired(fields) {
      assert DropFields(fields) == fields;
    }
  }

  // ---------- the declarations in their place ----------

  /** The declarations `items` stand at position `start` of the program. */
  ghost predicate Placed(decls: seq<StructDecl>, start: nat, items: seq<StructDecl>) {
    start + |items| <= |decls| && forall k :: 0 <= k < |items| ==> decls[start + k] == items[k]
  }

  lemma PlacedParts(decls: seq<StructDecl>, start: nat, a: seq<StructDecl>, b: seq<StructDecl>)
    requires Placed(decls, start, a + b)
    ensures Placed(decls, start, a) && Placed(decls, start + |a|, b)
  {
    assert forall k :: 0 <= k < |a| ==> (a + b)[k] == a[k];
    forall k | 0 <= k < |b| ensures decls[start + |a| + k] == b[k] {
      assert (a + b)[|a| + k] == b[k];
    }
  }

  lemma {:induction false} FindPlaced(decls: seq<StructDecl>, at: nat)
    requires Apart(ShellsOf(decls)) && at < |decls|
    ensures Find(decls, decls[at].name) == Some(at)
  {
    var structs := ShellsOf(decls);
    assert Names(structs)[at] == decls[at].name && Names(structs)[at] in Names(structs);
    var found := Find(decls, decls[at].name).value;
    assert structs[found].name == structs[at].name;
  }

  /** The shape read is this one, up to the string label. */
  ghost predicate Reads(r: Option<TypeShape>, s: TypeShape) {
    r.Some? && Canon(r.value) == s
  }

  ghost predicate ReadsAll(r: Option<seq<FieldShape>>, s: seq<FieldShape>) {
    r.Some? && Canon(Struct(r.value)).fields == s
  }

  /** A type is read as its schema, list items required, exactly when no struct hides a primitive it uses. */
  ghost predicate TypeReadsRight(names: seq<string>, r: Option<TypeShape>, t: DataType) {
    && (Reads(r, ShapeOfType(DropType(t))) <==> Unhidden(names, t))
    && (Reads(r, ShapeOfType(t)) <==> Unhidden(names, t) && ItemsRequired(t))
    && (Unhidden(names, t) ==> r == Some(ShapeOfType(DropType(t))))
  }

  ghost predicate FieldsReadRight(names: seq<string>, r: Option<seq<FieldShape>>, fields: seq<Field>) {
    && (ReadsAll(r, StructShape(DropFields(fields)).fields) <==> UnhiddenFields(names, fields))
    && (ReadsAll(r, StructShape(fields).fields) <==> UnhiddenFields(names, fields) && FieldsItemsRequired(fields))
    && (UnhiddenFields(names, fields) ==> r == Some(StructShape(DropFields(fields)).fields))
  }

  lemma {:induction false} TypeResolves(error: string, hint: string, t: DataType, m: Module, start: nat, budget: nat)
    requires TypeFor(error, hint, t).Ok? && Apart(ShellsOf(m.decls))
    requires Placed(m.decls, start, TypeFor(error, hint, t).value.items) && |TypeFor(error, hint, t).value.items| <= budget
    ensures TypeReadsRight(Hidden(m), Resolve(m, budget, TypeFor(error, hint, t).value.rustType), t)
    decreases t
  {
    match t
    case Flat(_) =>
    case ListOf(_) | LargeListOf(_) =>
      TypeResolves(error + "[]", hint + "Item", t.item.dataType, m, start, budget);
      VecReads(m, budget, TypeFor(error, hint, t).value.rustType, t);
    case StructOf(fields) =>
      var body := FieldsFor(error, hint, fields).value;
      var own := StructDecl(hint, body.fields);
      PlacedParts(m.decls, start, body.items, [own]);
      assert m.decls[start + |body.items| + 0] == [own][0];
      StructResolves(error, hint, fields, m, start, budget);
  }

  lemma VecReads(m: Module, budget: nat, vec: RustType, t: DataType)
    requires (t.ListOf? || t.LargeListOf?) && vec.Vec? && !vec.item.OptionOf?
    ensures var r, inner := Resolve(m, budget, vec), Resolve(m, budget, vec.item);
      && (Reads(r, ShapeOfType(DropType(t))) <==> "Vec" !in Hidden(m) && Reads(inner, ShapeOfType(DropType(t.item.dataType))))
      && (Reads(r, ShapeOfType(t)) <==>
          "Vec" !in Hidden(m) && t.ListOf? && !t.item.nullable && Reads(inner, ShapeOfType(t.item.dataType)))
  {
    var inner := Resolve(m, budget, vec.item);
    if inner.Some? {
      assert !Canon(inner.value).Optional?;
    }
  }

  lemma {:induction false} PathResolves(m: Module, at: nat, budget: nat)
    requires Apart(ShellsOf(m.decls)) && at < |m.decls| && budget > 0
    ensures var r := ResolveFields(m, budget - 1, m.decls[at].fields);
      Resolve(m, budget, Path(m.decls[at].name)) == if r.Some? then Some(Struct(r.value)) else None
  {
    FindPlaced(m.decls, at);
  }

  /** A struct that stands in the program is read through its members. */
  lemma {:induction false} StructResolves(
      error: string, hint: string, fields: seq<Field>, m: Module, start: nat, budget: nat)
    requires FieldsFor(error, hint, fields).Ok? && Apart(ShellsOf(m.decls))
    requires Placed(m.decls, start, FieldsFor(error, hint, fields).value.items)
    requires |FieldsFor(error, hint, fields).value.items| < budget
    requires var body := FieldsFor(error, hint, fields).value;
      start + |body.items| < |m.decls| && m.decls[start + |body.items|] == StructDecl(hint, body.fields)
    ensures TypeReadsRight(Hidden(m), Resolve(m, budget, Path(hint)), StructOf(fields))
    decreases fields, 1
  {
    var body := FieldsFor(error, hint, fields).value;
    PathResolves(m, start + |body.items|, budget);
    FieldsResolve(error, hint, fields, m, start, budget - 1);
    FieldsToStruct(Hidden(m), ResolveFields(m, budget - 1, body.fields), fields);
  }

  lemma FieldsToStruct(names: seq<string>, r: Option<seq<FieldShape>>, fields: seq<Field>)
    requires FieldsReadRight(names, r, fields)
    ensures TypeReadsRight(names, if r.Some? then Some(Struct(r.value)) else None, StructOf(fields))
  {
  }

  lemma ShapeSnoc(before: seq<Field>, f: Field)
    ensures StructShape(before + [f]).fields == StructShape(before).fields + [FieldShape(f.name, ShapeOf(f), false)]
    ensures DropFields(before + [f]) == DropFields(before) + [f.(dataType := DropType(f.dataType))]
  {
  }

  lemma CanonSnoc(before: seq<FieldShape>, f: FieldShape)
    ensures Canon(Struct(before + [f])).fields == Canon(Struct(before)).fields + [FieldShape(f.name, Canon(f.shape), false)]
  {
  }

  lemma SnocEqual<T>(a: seq<T>, x: T, b: seq<T>, y: T)
    ensures a + [x] == b + [y] <==> a == b && x == y
  {
    if a + [x] == b + [y] {
      assert |a| + 1 == |a + [x]| == |b| + 1;
      assert (a + [x])[..|a|] == a && (b + [y])[..|b|] == b;
      assert (a + [x])[|a|] == x && (b + [y])[|b|] == y;
    }
  }

  lemma ResolveSnoc(m: Module, budget: nat, members: seq<RustField>, last: RustField)
    ensures var all, one := ResolveFields(m, budget, members), Resolve(m, budget, last.rustType);
      ResolveFields(m, budget, members + [last]) ==
        if all.Some? && one.Some? then Some(all.value + [FieldShape(last.name, one.value, false)]) else None
  {
    assert (members + [last])[..|members|] == members;
  }

  /** One more member is read exactly when those before it are and it is. */
  lemma ReadsSnoc(before: seq<FieldShape>, f: FieldShape, s: seq<FieldShape>, g: FieldShape)
    requires f.name == g.name && !f.hasDefault && !g.hasDefault
    ensures Canon(Struct(before + [f])).fields == s + [g] <==> Canon(Struct(before)).fields == s && Canon(f.shape) == g.shape
  {
    CanonSnoc(before, f);
    SnocEqual(Canon(Struct(before)).fields, FieldShape(f.name, Canon(f.shape), false), s, g);
  }

  lemma MemberReads(m: Module, budget: nat, t: RustType, f: Field)
    requires !t.OptionOf?
    ensures Reads(Resolve(m, budget, MaybeOptional(f.nullable, t)), ShapeOf(f)) <==>
      Reads(Resolve(m, budget, t), ShapeOfType(f.dataType)) && (f.nullable ==> "Option" !in Hidden(m))
    ensures Resolve(m, budget, t) == Some(ShapeOfType(f.dataType)) && (f.nullable ==> "Option" !in Hidden(m)) ==>
      Resolve(m, budget, MaybeOptional(f.nullable, t)) == Some(ShapeOf(f))
  {
  }

  lemma {:induction false} FieldsResolve(
      error: string, hint: string, fields: seq<Field>, m: Module, start: nat, budget: nat)
    requires FieldsFor(error, hint, fields).Ok? && Apart(ShellsOf(m.decls))
    requires Placed(m.decls, start, FieldsFor(error, hint, fields).value.items)
    requires |FieldsFor(error, hint, fields).value.items| <= budget
    ensures FieldsReadRight(Hidden(m), ResolveFields(m, budget, FieldsFor(error, hint, fields).value.fields), fields)
    decreases fields, 0
  {
    if fields != [] {
      var before, f := fields[..|fields| - 1], fields[|fields| - 1];
      var was, g := FieldsFor(error, hint, before).value, MemberFor(error, hint, f).value;
      PlacedParts(m.decls, start, was.items, g.items);
      FieldsResolve(error, hint, before, m, start, budget);
      TypeResolves(MemberError(error, f.name), hint + ToPascalCase(f.name), f.dataType, m, start + |was.items|, budget);
      assert fields == before + [f];
      LastResolves(m, budget, was.fields, g.rustType, before, f);
    }
  }

  /** The members read so far and the type of the last one make up what is read of all of them. */
  lemma LastResolves(
      m: Module, budget: nat, members: seq<RustField>, t: RustType, before: seq<Field>, f: Field)
    requires !t.OptionOf?
    requires FieldsReadRight(Hidden(m), ResolveFields(m, budget, members), before)
    requires TypeReadsRight(Hidden(m), Resolve(m, budget, t), f.dataType)
    ensures var last := RustField(f.name, MaybeOptional(f.nullable, t));
      FieldsReadRight(Hidden(m), ResolveFields(m, budget, members + [last]), before + [f])
  {
    var dropped := f.(dataType := DropType(f.dataType));
    var last := RustField(f.name, MaybeOptional(f.nullable, t));
    MemberReads(m, budget, t, f);
    MemberReads(m, budget, t, dropped);
    ConditionsSnoc(Hidden(m), before, f);
    MembersRead(m, budget, members, last, StructShape(before).fields, FieldShape(f.name, ShapeOf(f), false));
    MembersRead(m, budget, members, last, StructShape(DropFields(before)).fields, FieldShape(f.name, ShapeOf(dropped), false));
    ShapeSnoc(before, f);
    ShapeSnoc(DropFields(before), dropped);
  }

  lemma MembersRead(
      m: Module, budget: nat, members: seq<RustField>, last: RustField, s: seq<FieldShape>, g: FieldShape)
    requires last.name == g.name && !g.hasDefault
    ensures ReadsAll(ResolveFields(m, budget, members + [last]), s + [g]) <==>
      ReadsAll(ResolveFields(m, budget, members), s) && Reads(Resolve(m, budget, last.rustType), g.shape)
    ensures ResolveFields(m, budget, members) == Some(s) ==> Resolve(m, budget, last.rustType) == Some(g.shape) ==>
      ResolveFields(m, budget, members + [last]) == Some(s + [g])
  {
    ResolveSnoc(m, budget, members, last);
    var all, one := ResolveFields(m, budget, members), Resolve(m, budget, last.rustType);
    if all.Some? && one.Some? {
      ReadsSnoc(all.value, FieldShape(last.name, one.value, false), s, g);
    }
  }

  lemma ConditionsSnoc(names: seq<string>, before: seq<Field>, f: Field)
    ensures UnhiddenFields(names, before + [f]) <==>
      UnhiddenFields(names, before) && Unhidden(names, f.dataType) && (f.nullable ==> "Option" !in names)
    ensures FieldsItemsRequired(before + [f]) <==> FieldsItemsRequired(before) && ItemsRequired(f.dataType)
  {
    var all := before + [f];
    assert all[|before|] == f && forall i :: 0 <= i < |before| ==> all[i] == before[i];
  }

  // ---------- there and back ----------

  /**
   * Where `scope` is, the names a schema gives rise to are good: the structs compile, and neither they nor the
   * names in scope hide a type that the schema needs.
   */
  ghost predicate GoodNames(scope: seq<string>, structName: string, schema: seq<Field>) {
    var structs := AllStructs(structName, schema);
    Compile(scope, structs) && UnhiddenFields(scope + Names(structs), schema)
  }

  /** The program declares the schema's own shape, list items required, exactly when the schema's names are good. */
  lemma ProgramShape(scope: seq<string>, structName: string, schema: seq<Field>)
    requires ProgramFor(structName, schema).Ok?
    ensures var r := Meaning(Module(scope, ProgramFor(structName, schema).value), structName);
      && (Reads(r, StructShape(DropFields(schema))) <==> GoodNames(scope, structName, schema))
      && (Reads(r, StructShape(schema)) <==> GoodNames(scope, structName, schema) && FieldsItemsRequired(schema))
      && (GoodNames(scope, structName, schema) ==> r == Some(StructShape(DropFields(schema))))
  {
    var m := Module(scope, ProgramFor(structName, schema).value);
    ProgramStructs(structName, schema);
    if Apart(ShellsOf(m.decls)) {
      StructResolves("", structName, schema, m, 0, |m.decls|);
    }
  }

  /** Generates declarations, compiles them where `scope` is and maps what they declare. */
  ghost function Regenerate(scope: seq<string>, structName: string, schema: seq<Field>): Option<seq<Field>> {
    match ProgramFor(structName, schema)
    case Err(_) => None
    case Ok(decls) =>
      match Meaning(Module(scope, decls), structName)
      case None => None
      case Some(shape) =>
        match SchemaOf(shape)
        case Err(_) => None
        case Ok(fields) => Some(fields)
  }

  lemma RegenerateReads(scope: seq<string>, structName: string, schema: seq<Field>, target: seq<Field>)
    requires ProgramFor(structName, schema).Ok?
    ensures var r := Meaning(Module(scope, ProgramFor(structName, schema).value), structName);
      && (Regenerate(scope, structName, schema) == Some(target) ==> Reads(r, StructShape(target)))
      && (r == Some(StructShape(target)) ==>
        (Regenerate(scope, structName, schema) == Some(target) <==>
         StandardMembers(target) && Height(StructShape(target)) <= MAX_DEPTH))
  {
    var r := Meaning(Module(scope, ProgramFor(structName, schema).value), structName);
    if r.Some? {
      SchemaRoundTrip(r.value);
      MembersRange(target, "", 0);
      assert |StructShape(target).fields| == |target|;
    }
  }

  /**
   * Generating declarations and mapping them back returns the schema, with lists plain and their items
   * required, exactly when it can be declared, its names are good and the result is one the mapping returns.
   */
  lemma RegenerateRoundTrip(scope: seq<string>, structName: string, schema: seq<Field>)
    ensures Regenerate(scope, structName, schema) == Some(DropFields(schema)) <==>
      && GenerableFields(schema) && Renderable(structName, schema) && GoodNames(scope, structName, schema)
      && StandardMembers(DropFields(schema)) && Height(StructShape(DropFields(schema))) <= MAX_DEPTH
  {
    ProgramExists(structName, schema);
    if ProgramFor(structName, schema).Ok? {
      ProgramShape(scope, structName, schema);
      RegenerateReads(scope, structName, schema, DropFields(schema));
    }
  }

  /** The schema itself comes back exactly when, besides, it has no large list and none of its lists has nullable items. */
  lemma RegenerateExact(scope: seq<string>, structName: string, schema: seq<Field>)
    ensures Regenerate(scope, structName, schema) == Some(schema) <==>
      && GenerableFields(schema) && Renderable(structName, schema) && GoodNames(scope, structName, schema)
      && FieldsItemsRequired(schema) && StandardMembers(schema) && Height(StructShape(schema)) <= MAX_DEPTH
  {
    ProgramExists(structName, schema);
    if ProgramFor(structName, schema).Ok? {
      ProgramShape(scope, structName, schema);
      DropFieldsIsIdentity(schema);
      RegenerateReads(scope, structName, schema, schema);
    }
  }

  // ---------- names that are not good ----------

  /** A program that does not compile gives nothing back. */
  lemma Refused(scope: seq<string>, structName: string, schema: seq<Field>)
    requires !Compile(scope, AllStructs(structName, schema))
    ensures Regenerate(scope, structName, schema) == None
  {
    if ProgramFor(structName, schema).Ok? {
      ProgramStructs(structName, schema);
    }
  }

  lemma RepeatedName(a: seq<Shell>, b: seq<Shell>, i: nat, j: nat)
    requires i < |a| && j < |b| && a[i].name == b[j].name
    ensures !Apart(a + b)
  {
    assert (a + b)[i].name == (a + b)[|a| + j].name;
  }

  lemma {:induction false} OneMember(hint: string, f: Field)
    ensures StructsBelow(hint, [f]) == StructsIn(hint + ToPascalCase(f.name), f.dataType)
  {
    assert [f][..0] == [] && StructsBelow(hint, []) == [];
  }

  lemma {:induction false} TwoMembers(structName: string, a: Field, b: Field)
    ensures AllStructs(structName, [a, b]) ==
      StructsIn(structName + ToPascalCase(a.name), a.dataType) +
      (StructsIn(structName + ToPascalCase(b.name), b.dataType) + [Shell(structName, MembersOf([a, b]))])
  {
    assert [a, b][..1] == [a];
    OneMember(structName, a);
    var x, y := StructsIn(structName + ToPascalCase(a.name), a.dataType), StructsIn(structName + ToPascalCase(b.name), b.dataType);
    var own := [Shell(structName, MembersOf([a, b]))];
    assert x + y + own == x + (y + own);
  }

  /** Two members with a struct of one name below them each do not compile. */
  lemma TwoCollide(scope: seq<string>, structName: string, a: Field, b: Field, i: nat, j: nat)
    requires var x, y := StructsIn(structName + ToPascalCase(a.name), a.dataType), StructsIn(structName + ToPascalCase(b.name), b.dataType);
      i < |x| && j < |y| && x[i].name == y[j].name
    ensures !Apart(AllStructs(structName, [a, b])) && Regenerate(scope, structName, [a, b]) == None
  {
    TwoMembers(structName, a, b);
    RepeatedName(StructsIn(structName + ToPascalCase(a.name), a.dataType),
      StructsIn(structName + ToPascalCase(b.name), b.dataType) + [Shell(structName, MembersOf([a, b]))], i, j);
    Refused(scope, structName, [a, b]);
  }

  /** Two struct members whose names differ only in separators or capitals give two structs one name. */
  lemma CollidingNames(scope: seq<string>, structName: string, a: Field, b: Field)
    requires a.dataType.StructOf? && b.dataType.StructOf? && ToPascalCase(a.name) == ToPascalCase(b.name)
    ensures !Apart(AllStructs(structName, [a, b])) && Regenerate(scope, structName, [a, b]) == None
  {
    var hint := structName + ToPascalCase(a.name);
    TwoCollide(scope, structName, a, b, |StructsBelow(hint, a.dataType.fields)|, |StructsBelow(hint, b.dataType.fields)|);
  }

  /** A struct member named by separators only gets the name of the struct around it. */
  lemma NamelessCollides(scope: seq<string>, structName: string, f: Field)
    requires f.dataType.StructOf? && ToPascalCase(f.name) == ""
    ensures !Apart(AllStructs(structName, [f])) && Regenerate(scope, structName, [f]) == None
  {
    OneMember(structName, f);
    assert structName + ToPascalCase(f.name) == structName;
    var below := StructsIn(structName, f.dataType);
    RepeatedName(below, [Shell(structName, MembersOf([f]))], |below| - 1, 0);
    Refused(scope, structName, [f]);
  }

  /** The items of a list collide with a member that is called like them. */
  lemma ItemsCollide(scope: seq<string>, structName: string, a: Field, b: Field)
    requires a.dataType.ListOf? && a.dataType.item.dataType.StructOf? && b.dataType.StructOf?
    requires ToPascalCase(b.name) == ToPascalCase(a.name) + "Item"
    ensures !Apart(AllStructs(structName, [a, b])) && Regenerate(scope, structName, [a, b]) == None
  {
    var hint := structName + ToPascalCase(b.name);
    assert structName + ToPascalCase(a.name) + "Item" == hint;
    TwoCollide(scope, structName, a, b,
      |StructsBelow(hint, a.dataType.item.dataType.fields)|, |StructsBelow(hint, b.dataType.fields)|);
  }

  /** Structs inside two different members collide when the paths to them read alike. */
  lemma DepthsCollide(scope: seq<string>, structName: string, a: Field, b: Field, inA: Field, inB: Field)
    requires a.dataType == StructOf([inA]) && b.dataType == StructOf([inB]) && inA.dataType.StructOf? && inB.dataType.StructOf?
    requires ToPascalCase(a.name) + ToPascalCase(inA.name) == ToPascalCase(b.name) + ToPascalCase(inB.name)
    ensures !Apart(AllStructs(structName, [a, b])) && Regenerate(scope, structName, [a, b]) == None
  {
    var hintA, hintB := structName + ToPascalCase(a.name), structName + ToPascalCase(b.name);
    OneMember(hintA, inA);
    OneMember(hintB, inB);
    var hint := structName + (ToPascalCase(a.name) + ToPascalCase(inA.name));
    assert hintA + ToPascalCase(inA.name) == hint && hintB + ToPascalCase(inB.name) == hint;
    TwoCollide(scope, structName, a, b, |StructsBelow(hint, inA.dataType.fields)|, |StructsBelow(hint, inB.dataType.fields)|);
  }

  /** Distinctness is a real condition: `a_b` and `aB` are such names, and so is `__`. */
  lemma NamesMayCollide()
    ensures ToPascalCase("a_b") == ToPascalCase("aB") && ToPascalCase("__") == ""
    ensures IsValidRustIdentifier("a_b") && IsValidRustIdentifier("aB") && IsValidRustIdentifier("__")
  {
    assert "__"[1..] == "_" && "_"[1..] == "" && Pascal("_", true) == Pascal("", true);
    assert "a_b"[1..] == "_b" && "_b"[1..] == "b" && "b"[1..] == "" && "aB"[1..] == "B" && "B"[1..] == "";
    assert Pascal("_b", false) == Pascal("b", true) == "B" + Pascal("", false);
    assert Pascal("B", false) == "B" + Pascal("", false);
    assert Pascal("a_b", true) == "A" + Pascal("_b", false) && Pascal("aB", true) == "A" + Pascal("B", false);
  }
  // ---------- names that mean something else ----------

  /** The last of a program's structs is the one for the schema. */
  lemma OwnStruct(structName: string, schema: seq<Field>)
    ensures Shell(structName, MembersOf(schema)) in AllStructs(structName, schema)
    ensures structName in Names(AllStructs(structName, schema))
  {
    var structs := AllStructs(structName, schema);
    assert structs[|structs| - 1] == Shell(structName, MembersOf(schema));
    assert Names(structs)[|structs| - 1] == structName;
  }

  /** A member called `gen` or `_` passes the generator and is refused by the compiler. */
  lemma WordsRefused(scope: seq<string>, structName: string, schema: seq<Field>, i: nat)
    requires i < |schema| && IsRefusedWord(schema[i].name)
    ensures Regenerate(scope, structName, schema) == None
  {
    OwnStruct(structName, schema);
    assert IsRefusedWord(MembersOf(schema)[i]);
    Refused(scope, structName, schema);
  }

  /** A struct called `str`, or like something in scope, does not compile. */
  lemma TakenRefused(scope: seq<string>, structName: string, schema: seq<Field>)
    requires structName == "str" || structName in scope
    ensures Regenerate(scope, structName, schema) == None
  {
    OwnStruct(structName, schema);
    Refused(scope, structName, schema);
  }

  lemma {:induction false} OneMeansNothing(m: Module, budget: nat, members: seq<RustField>, i: nat)
    requires i < |members| && Resolve(m, budget, members[i].rustType) == None
    ensures ResolveFields(m, budget, members) == None
    decreases |members|
  {
    if i < |members| - 1 {
      OneMeansNothing(m, budget, members[..|members| - 1], i);
    }
  }

  lemma {:induction false} FieldGenerated(error: string, hint: string, fields: seq<Field>, i: nat)
    requires FieldsFor(error, hint, fields).Ok? && i < |fields|
    ensures var t := FieldsFor(error, hint, fields).value.fields[i].rustType;
      && (t.OptionOf? <==> fields[i].nullable)
      && (fields[i].dataType.ListOf? || fields[i].dataType.LargeListOf? ==> (if t.OptionOf? then t.inner else t).Vec?)
    decreases |fields|
  {
    if i < |fields| - 1 {
      FieldGenerated(error, hint, fields[..|fields| - 1], i);
    } else {
      var f := fields[i];
      assert FieldsFor(error, hint, fields).value.fields[i].rustType ==
        MaybeOptional(f.nullable, TypeFor(MemberError(error, f.name), hint + ToPascalCase(f.name), f.dataType).value.rustType);
    }
  }

  lemma HiddenMeansNothing(m: Module, budget: nat, t: RustType)
    requires (t.OptionOf? && "Option" in Hidden(m)) || (t.Vec? && "Vec" in Hidden(m)) ||
      (t.OptionOf? && t.inner.Vec? && "Vec" in Hidden(m))
    ensures Resolve(m, budget, t) == None
  {
  }

  /** A struct called `Option` beside a nullable member, or `Vec` beside a list, hides what it needs itself. */
  lemma HidingRefused(scope: seq<string>, structName: string, schema: seq<Field>, i: nat)
    requires i < |schema|
    requires (structName == "Option" && schema[i].nullable) ||
      (structName == "Vec" && (schema[i].dataType.ListOf? || schema[i].dataType.LargeListOf?))
    ensures Regenerate(scope, structName, schema) == None
  {
    if ProgramFor(structName, schema).Ok? {
      ProgramStructs(structName, schema);
      OwnStruct(structName, schema);
      var body := FieldsFor("", structName, schema).value;
      var m := Module(scope, ProgramFor(structName, schema).value);
      FieldGenerated("", structName, schema, i);
      HiddenMeansNothing(m, |body.items|, body.fields[i].rustType);
      OneMeansNothing(m, |body.items|, body.fields, i);
      RootMeansNothing(m, |body.items|);
    }
  }

  lemma RootMeansNothing(m: Module, at: nat)
    requires at + 1 == |m.decls| && ResolveFields(m, at, m.decls[at].fields) == None
    ensures Meaning(m, m.decls[at].name) == None
  {
    if Apart(ShellsOf(m.decls)) {
      PathResolves(m, at, |m.decls|);
    }
  }
  /** The generator accepts a schema of one scalar or list member unless one of the two names is reserved. */
  lemma OneMemberGenerated(structName: string, f: Field)
    requires f.dataType == Flat(Int64) || f.dataType == ListOf(Plain("item", Flat(Int64), false))
    requires IsValidRustIdentifier(f.name) && !IsReserved(f.name) && !IsReserved(structName) && structName != "_"
    ensures ProgramFor(structName, [f]).Ok?
  {
    OneMember(structName, f);
    var own := Shell(structName, MembersOf([f]));
    assert MembersOf([f]) == [f.name];
    assert AllStructs(structName, [f]) == [own];
    ProgramExists(structName, [f]);
  }

  lemma UsableNames()
    ensures forall name :: name in ["S", "gen", "_", "a", "Option", "Vec", "str"] ==>
      IsValidRustIdentifier(name) && !IsReserved(name)
  {
    assert IsValidRustIdentifier("S") && !IsReserved("S");
    assert IsValidRustIdentifier("gen") && !IsReserved("gen");
    assert IsValidRustIdentifier("_") && !IsReserved("_");
    assert IsValidRustIdentifier("a") && !IsReserved("a");
    assert IsValidRustIdentifier("Option") && !IsReserved("Option");
    assert IsValidRustIdentifier("Vec") && !IsReserved("Vec");
    assert IsValidRustIdentifier("str") && !IsReserved("str");
  }

  /** So the generator writes programs that do not compile: with a member called `gen` or `_`, ... */
  lemma WordsGenerated(scope: seq<string>, word: string)
    requires word == "gen" || word == "_"
    ensures var schema := [Plain(word, Flat(Int64), false)];
      ProgramFor("S", schema).Ok? && Regenerate(scope, "S", schema) == None
  {
    UsableNames();
    OneMemberGenerated("S", Plain(word, Flat(Int64), false));
    WordsRefused(scope, "S", [Plain(word, Flat(Int64), false)], 0);
  }

  /** ... with a struct called `Option` or `Vec` that needs the type it hides, ... */
  lemma HidingGenerated(scope: seq<string>)
    ensures var a := [Plain("a", Flat(Int64), true)]; ProgramFor("Option", a).Ok? && Regenerate(scope, "Option", a) == None
    ensures var a := [Plain("a", ListOf(Plain("item", Flat(Int64), false)), false)];
      ProgramFor("Vec", a).Ok? && Regenerate(scope, "Vec", a) == None
  {
    UsableNames();
    OneMemberGenerated("Option", Plain("a", Flat(Int64), true));
    HidingRefused(scope, "Option", [Plain("a", Flat(Int64), true)], 0);
    var items := ListOf(Plain("item", Flat(Int64), false));
    OneMemberGenerated("Vec", Plain("a", items, false));
    HidingRefused(scope, "Vec", [Plain("a", items, false)], 0);
  }

  /** ... or called `str`. */
  lemma TakenGenerated(scope: seq<string>)
    ensures var a := [Plain("a", Flat(Int64), false)]; ProgramFor("str", a).Ok? && Regenerate(scope, "str", a) == None
  {
    UsableNames();
    OneMemberGenerated("str", Plain("a", Flat(Int64), false));
    TakenRefused(scope, "str", [Plain("a", Flat(Int64), false)]);
  }
}
