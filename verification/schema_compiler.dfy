/** The schema compiler (axum-open-api-codegen/src/compilation/schema.rs):
    an OpenAPI schema node becomes a Rust type, and every named type it
    needs becomes a declaration appended to the caller's sink.

    The sink is write-only in the source and every error reaches the top of
    the compilation, so declarations pushed before an error are never
    observed. Each function therefore returns the declarations it appends;
    the caller's sink afterwards is its old contents followed by them. */
module SchemaCompiler {
  import opened Common
  import opened OpenApi
  import opened RustTypes

  /** A compiled type and the declarations appended while compiling it. */
  datatype Compiled = Compiled(ty: Ty, decls: seq<Decl>)

  datatype CompiledFields = CompiledFields(fields: seq<Field>, decls: seq<Decl>)

  datatype CompiledVariants = CompiledVariants(variants: seq<Variant>, decls: seq<Decl>)

  const ParamWithoutSchema := Error("Query parameter does not have a schema in OpenAPI spec", CallSite)
  const UnsupportedCombinator := Error("allOf and anyOf are not (yet) supported", CallSite)
  const MissingSchemaType := Error("schema is missing `schema_type` and `one_of`", CallSite)
  const MissingItems := Error("Array must contain `items` field", CallSite)
  const AnonymousSchema := Error("Anonymous schema's are not supported", CallSite)

  /** The primitive a primitive schema kind maps to. */
  function PrimFor(t: SchemaType): PrimTy
    requires t != ObjectType && t != ArrayType
  {
    match t
    case StringType => Str
    case NumberType => F64
    case IntegerType => I64
    case BooleanType => Bool
  }

  /** `try_merge_titles`: the title handed down by the caller wins over the
      schema's own; with neither the schema is anonymous. */
  function MergeTitles(title: Option<string>, s: Schema): (r: Result<string>)
    ensures r.Ok? <==> title.Some? || s.title.Some?
    ensures title.Some? ==> r == Ok(title.value)
    ensures title.None? && s.title.Some? ==> r == Ok(s.title.value)
    ensures r.Err? ==> r.error == AnonymousSchema
  {
    if title.Some? then Ok(title.value)
    else if s.title.Some? then Ok(s.title.value)
    else Err(AnonymousSchema)
  }

  /** `compile_schema_ref`: `super::` once per level of depth, then
      `schemas::` and the last `/`-separated piece of the reference. */
  function CompileRef(refPath: string, depth: nat): Ty
  {
    SchemasPath(depth, AfterLast(refPath, '/'))
  }

  /** `compile_schema`. */
  function CompileSchema(sr: SchemaRef, title: Option<string>, depth: nat): Result<Compiled>
    decreases sr, 0
  {
    match sr
    case Ref(p) => Ok(Compiled(CompileRef(p, depth), []))
    case Inline(s) => CompileInline(s, title, depth)
  }

  /** `compile_schema` on an inline schema: combinators are refused first,
      then `oneOf` is handled, then the schema kind is required. */
  function CompileInline(s: Schema, title: Option<string>, depth: nat): Result<Compiled>
    decreases s, 3
  {
    if |s.allOf| > 0 || |s.anyOf| > 0 then Err(UnsupportedCombinator)
    else if |s.oneOf| > 0 then CompileOneOf(s, title, depth)
    else if s.schemaType.None? then Err(MissingSchemaType)
    else
      match s.schemaType.value
      case ObjectType => CompileObject(s, title, depth)
      case ArrayType => CompileArray(s, title, depth)
      case StringType => Ok(CompileBase(Str, title, s))
      case NumberType => Ok(CompileBase(F64, title, s))
      case IntegerType => Ok(CompileBase(I64, title, s))
      case BooleanType => Ok(CompileBase(Bool, title, s))
  }

  /** `compile_one_of`: a title is required; the alternatives are compiled
      untitled, in order, and an enum is appended after their declarations. */
  function CompileOneOf(s: Schema, title: Option<string>, depth: nat): Result<Compiled>
    decreases s, 2
  {
    var ident :- MergeTitles(title, s);
    var vs :- CompileVariants(s, 0, depth);
    Ok(Compiled(Named(ident), vs.decls + [EnumDecl(ident, vs.variants)]))
  }

  /** The loop over `oneOf` from alternative `i` on. */
  function CompileVariants(parent: Schema, i: nat, depth: nat): Result<CompiledVariants>
    requires i <= |parent.oneOf|
    decreases parent, 1, |parent.oneOf| - i
  {
    if i == |parent.oneOf| then Ok(CompiledVariants([], []))
    else
      var c :- CompileSchema(parent.oneOf[i], None, depth);
      var rest :- CompileVariants(parent, i + 1, depth);
      Ok(CompiledVariants([Variant(c.ty)] + rest.variants, c.decls + rest.decls))
  }

  /** `compile_array`: `items` is required; the element is compiled
      untitled. With a title the result is an alias to `Vec<elem>`, without
      one it is `Vec<elem>` itself. */
  function CompileArray(s: Schema, title: Option<string>, depth: nat): Result<Compiled>
    decreases s, 2
  {
    var merged := MergeTitles(title, s);
    if s.items.None? then Err(MissingItems)
    else
      var elem :- CompileSchema(s.items.value, None, depth);
      var ty := VecOf(elem.ty);
      if merged.Ok? then Ok(Compiled(Named(merged.value), elem.decls + [AliasDecl(merged.value, ty)]))
      else Ok(Compiled(ty, elem.decls))
  }

  /** `compile_object`: a title is required; the properties are compiled
      untitled, in order, and a struct is appended after their
      declarations. */
  function CompileObject(s: Schema, title: Option<string>, depth: nat): Result<Compiled>
    decreases s, 2
  {
    var ident :- MergeTitles(title, s);
    var fs :- CompileFields(s, 0, depth);
    Ok(Compiled(Named(ident), fs.decls + [StructDecl(ident, fs.fields)]))
  }

  /** The field a property becomes once its type is known: `Option<T>`
      unless the property is listed in `required`. */
  function FieldFor(parent: Schema, p: Property, ty: Ty): Field
  {
    Field(p.name, if p.name in parent.required then ty else OptionOf(ty))
  }

  /** The loop over the properties from property `i` on. */
  function CompileFields(parent: Schema, i: nat, depth: nat): Result<CompiledFields>
    requires i <= |parent.properties|
    decreases parent, 1, |parent.properties| - i
  {
    if i == |parent.properties| then Ok(CompiledFields([], []))
    else
      var p := parent.properties[i];
      var c :- CompileSchema(p.schema, None, depth);
      var rest :- CompileFields(parent, i + 1, depth);
      Ok(CompiledFields([FieldFor(parent, p, c.ty)] + rest.fields, c.decls + rest.decls))
  }

  /** `compile_base_type`: with a title, an alias to the primitive; without
      one, the primitive itself and no declaration. */
  function CompileBase(p: PrimTy, title: Option<string>, s: Schema): Compiled
  {
    match MergeTitles(title, s)
    case Ok(ident) => Compiled(Named(ident), [AliasDecl(ident, Prim(p))])
    case Err(_) => Compiled(Prim(p), [])
  }

  /** `compile_param`: the parameter's schema is compiled untitled and
      wrapped in `Option` unless the parameter says `required: true`. */
  function CompileParam(param: Parameter, depth: nat): Result<Compiled>
  {
    if param.schema.None? then Err(ParamWithoutSchema)
    else
      var c :- CompileSchema(Inline(param.schema.value), None, depth);
      Ok(Compiled(if param.required == Some(true) then c.ty else OptionOf(c.ty), c.decls))
  }

  // ---------------------------------------------------------------------
  // Reference definitions: each property and each alternative compiled on
  // its own, untitled, at the same depth
  // ---------------------------------------------------------------------

  function PropResult(parent: Schema, j: nat, depth: nat): Result<Compiled>
    requires j < |parent.properties|
  {
    CompileSchema(parent.properties[j].schema, None, depth)
  }

  /** Every property from `i` on compiles on its own. */
  predicate PropsOk(parent: Schema, i: nat, depth: nat)
    decreases |parent.properties| - i
  {
    i >= |parent.properties| || (PropResult(parent, i, depth).Ok? && PropsOk(parent, i + 1, depth))
  }

  /** The declarations of properties `i..`, one property after another. */
  function PropDecls(parent: Schema, i: nat, depth: nat): seq<Decl>
    requires PropsOk(parent, i, depth)
    decreases |parent.properties| - i
  {
    if i >= |parent.properties| then []
    else PropResult(parent, i, depth).value.decls + PropDecls(parent, i + 1, depth)
  }

  /** One field per property from `i` on, in property order. */
  function PropFields(parent: Schema, i: nat, depth: nat): seq<Field>
    requires PropsOk(parent, i, depth)
    decreases |parent.properties| - i
  {
    if i >= |parent.properties| then []
    else [FieldFor(parent, parent.properties[i], PropResult(parent, i, depth).value.ty)] + PropFields(parent, i + 1, depth)
  }

  function AltResult(parent: Schema, j: nat, depth: nat): Result<Compiled>
    requires j < |parent.oneOf|
  {
    CompileSchema(parent.oneOf[j], None, depth)
  }

  /** Every alternative from `i` on compiles on its own. */
  predicate AltsOk(parent: Schema, i: nat, depth: nat)
    decreases |parent.oneOf| - i
  {
    i >= |parent.oneOf| || (AltResult(parent, i, depth).Ok? && AltsOk(parent, i + 1, depth))
  }

  function AltDecls(parent: Schema, i: nat, depth: nat): seq<Decl>
    requires AltsOk(parent, i, depth)
    decreases |parent.oneOf| - i
  {
    if i >= |parent.oneOf| then []
    else AltResult(parent, i, depth).value.decls + AltDecls(parent, i + 1, depth)
  }

  /** One variant per alternative from `i` on, in order. */
  function AltVariants(parent: Schema, i: nat, depth: nat): seq<Variant>
    requires AltsOk(parent, i, depth)
    decreases |parent.oneOf| - i
  {
    if i >= |parent.oneOf| then []
    else [Variant(AltResult(parent, i, depth).value.ty)] + AltVariants(parent, i + 1, depth)
  }

  // ---------------------------------------------------------------------
  // Properties
  // ---------------------------------------------------------------------

  /** A `$ref` compiles, whatever the title, to `depth` hops up and then
      `schemas::` and the reference's last piece, with no declaration. */
  lemma RefCompiles(refPath: string, title: Option<string>, depth: nat)
    ensures var r := CompileSchema(Ref(refPath), title, depth);
            var name := AfterLast(refPath, '/');
            && r == Ok(Compiled(SchemasPath(depth, name), []))
            && TypeText(r.value.ty) == Supers(depth) + "schemas :: " + name
            && NoChar(name, '/')
  {
  }

  /** `allOf` and `anyOf` are refused before anything else is looked at,
      `oneOf` included. */
  lemma CombinatorsRefused(s: Schema, title: Option<string>, depth: nat)
    requires |s.allOf| > 0 || |s.anyOf| > 0
    ensures CompileSchema(Inline(s), title, depth) == Err(UnsupportedCombinator)
  {
  }

  /** Without `oneOf`, a schema must say what kind it is. */
  lemma KindRequired(s: Schema, title: Option<string>, depth: nat)
    requires |s.allOf| == 0 && |s.anyOf| == 0 && |s.oneOf| == 0
    requires s.schemaType.None?
    ensures CompileSchema(Inline(s), title, depth) == Err(MissingSchemaType)
  {
  }

  /** Primitive kinds map to `String`, `f64`, `i64` and `bool`; a title
      turns the primitive into an alias, and without one the primitive is
      used directly with no declaration. */
  lemma PrimitiveSchema(s: Schema, title: Option<string>, depth: nat)
    requires |s.allOf| == 0 && |s.anyOf| == 0 && |s.oneOf| == 0
    requires s.schemaType.Some? && s.schemaType.value !in {ObjectType, ArrayType}
    ensures var p := PrimFor(s.schemaType.value);
            var t := MergeTitles(title, s);
            && PrimText(p) == (match s.schemaType.value
                               case StringType => "String" case NumberType => "f64"
                               case IntegerType => "i64" case _ => "bool")
            && CompileSchema(Inline(s), title, depth)
               == Ok(if t.Ok? then Compiled(Named(t.value), [AliasDecl(t.value, Prim(p))])
                     else Compiled(Prim(p), []))
  {
  }

  /** An array needs `items`, titled or not. Its element is compiled
      untitled at the same depth; a title gives an alias to `Vec<elem>`
      appended after the element's declarations, and without one the
      result is `Vec<elem>` with only the element's declarations. */
  lemma ArraySchema(s: Schema, title: Option<string>, depth: nat)
    requires |s.allOf| == 0 && |s.anyOf| == 0 && |s.oneOf| == 0
    requires s.schemaType == Some(ArrayType)
    ensures s.items.None? ==> CompileSchema(Inline(s), title, depth) == Err(MissingItems)
    ensures s.items.Some? ==>
              var r := CompileSchema(Inline(s), title, depth);
              var elem := CompileSchema(s.items.value, None, depth);
              var t := MergeTitles(title, s);
              && (r.Ok? <==> elem.Ok?)
              && (elem.Err? ==> r == Err(elem.error))
              && (elem.Ok? && t.Ok? ==>
                    r.value == Compiled(Named(t.value), elem.value.decls + [AliasDecl(t.value, VecOf(elem.value.ty))]))
              && (elem.Ok? && t.Err? ==> r.value == Compiled(VecOf(elem.value.ty), elem.value.decls))
  {
    assert CompileSchema(Inline(s), title, depth) == CompileArray(s, title, depth);
  }

  /** A field is unwrapped exactly when its property is required. */
  lemma FieldWrapping(parent: Schema, p: Property, ty: Ty)
    ensures FieldFor(parent, p, ty).name == p.name
    ensures FieldFor(parent, p, ty).ty == ty <==> p.name in parent.required
    ensures p.name !in parent.required ==> FieldFor(parent, p, ty).ty == OptionOf(ty)
  {
    WrapChanges(ty);
  }

  /** The property loop from `i` on succeeds exactly when every property
      from `i` on compiles on its own, and then yields their fields and
      declarations in property order. */
  lemma {:induction false} FieldsLoop(parent: Schema, i: nat, depth: nat)
    requires i <= |parent.properties|
    ensures CompileFields(parent, i, depth).Ok? <==> PropsOk(parent, i, depth)
    ensures PropsOk(parent, i, depth) ==>
              CompileFields(parent, i, depth) == Ok(CompiledFields(PropFields(parent, i, depth), PropDecls(parent, i, depth)))
    decreases |parent.properties| - i
  {
    if i < |parent.properties| {
      FieldsLoop(parent, i + 1, depth);
      FieldsStep(parent, i, depth);
    }
  }

  /** One turn of the property loop. */
  lemma FieldsStep(parent: Schema, i: nat, depth: nat)
    requires i < |parent.properties|
    ensures var r := CompileFields(parent, i, depth);
            var c := PropResult(parent, i, depth);
            var rest := CompileFields(parent, i + 1, depth);
            && (r.Ok? <==> c.Ok? && rest.Ok?)
            && (r.Ok? ==> r.value == CompiledFields([FieldFor(parent, parent.properties[i], c.value.ty)] + rest.value.fields,
                                                    c.value.decls + rest.value.decls))
            && (c.Err? ==> r == Err(c.error))
  {
  }

  /** The first property that fails decides the property loop's error. */
  lemma {:induction false} FieldsFirstError(parent: Schema, i: nat, e: nat, depth: nat)
    requires i <= e < |parent.properties|
    requires forall j :: i <= j < e ==> PropResult(parent, j, depth).Ok?
    requires PropResult(parent, e, depth).Err?
    ensures CompileFields(parent, i, depth) == Err(PropResult(parent, e, depth).error)
    decreases e - i
  {
    FieldsStep(parent, i, depth);
    if i < e {
      FieldsFirstError(parent, i + 1, e, depth);
    }
  }

  /** `PropsOk` says that each property from `i` on compiles. */
  lemma {:induction false} PropsOkEach(parent: Schema, i: nat, depth: nat)
    ensures PropsOk(parent, i, depth) <==> forall j :: i <= j < |parent.properties| ==> PropResult(parent, j, depth).Ok?
    decreases |parent.properties| - i
  {
    if i < |parent.properties| {
      PropsOkEach(parent, i + 1, depth);
    }
  }

  /** The fields are the properties, one each, in order. */
  lemma {:induction false} PropFieldsInOrder(parent: Schema, i: nat, depth: nat)
    requires i <= |parent.properties| && PropsOk(parent, i, depth)
    ensures |PropFields(parent, i, depth)| == |parent.properties| - i
    ensures forall j :: i <= j < |parent.properties| ==>
              && PropResult(parent, j, depth).Ok?
              && PropFields(parent, i, depth)[j - i] == FieldFor(parent, parent.properties[j], PropResult(parent, j, depth).value.ty)
    decreases |parent.properties| - i
  {
    if i < |parent.properties| {
      PropFieldsInOrder(parent, i + 1, depth);
      assert PropResult(parent, i, depth).Ok? && PropsOk(parent, i + 1, depth);
      assert PropFields(parent, i, depth) == [FieldFor(parent, parent.properties[i], PropResult(parent, i, depth).value.ty)] + PropFields(parent, i + 1, depth);
    }
  }

  /** An object needs a title and compiles when all its properties do. Its
      type is the title; its declarations are those of its properties, in
      property order, followed by exactly one struct with one field per
      property. Otherwise the first property that fails gives the object's
      error. */
  lemma ObjectSchema(s: Schema, title: Option<string>, depth: nat)
    requires |s.allOf| == 0 && |s.anyOf| == 0 && |s.oneOf| == 0
    requires s.schemaType == Some(ObjectType)
    ensures var r := CompileSchema(Inline(s), title, depth);
            var t := MergeTitles(title, s);
            && (r.Ok? <==> t.Ok? && PropsOk(s, 0, depth))
            && (t.Err? ==> r == Err(AnonymousSchema))
            && (r.Ok? ==> r.value == Compiled(Named(t.value), PropDecls(s, 0, depth) + [StructDecl(t.value, PropFields(s, 0, depth))]))
            && (forall e :: 0 <= e < |s.properties| && t.Ok? && PropResult(s, e, depth).Err?
                            && (forall j :: 0 <= j < e ==> PropResult(s, j, depth).Ok?)
                            ==> r == Err(PropResult(s, e, depth).error))
  {
    assert CompileSchema(Inline(s), title, depth) == CompileObject(s, title, depth);
    FieldsLoop(s, 0, depth);
    forall e | 0 <= e < |s.properties| && MergeTitles(title, s).Ok? && PropResult(s, e, depth).Err?
                && (forall j :: 0 <= j < e ==> PropResult(s, j, depth).Ok?)
      ensures CompileFields(s, 0, depth) == Err(PropResult(s, e, depth).error)
    {
      FieldsFirstError(s, 0, e, depth);
    }
  }

  /** The `oneOf` loop from `i` on, like the property loop. */
  lemma {:induction false} VariantsLoop(parent: Schema, i: nat, depth: nat)
    requires i <= |parent.oneOf|
    ensures CompileVariants(parent, i, depth).Ok? <==> AltsOk(parent, i, depth)
    ensures AltsOk(parent, i, depth) ==>
              CompileVariants(parent, i, depth) == Ok(CompiledVariants(AltVariants(parent, i, depth), AltDecls(parent, i, depth)))
    decreases |parent.oneOf| - i
  {
    if i < |parent.oneOf| {
      VariantsLoop(parent, i + 1, depth);
      VariantsStep(parent, i, depth);
    }
  }

  /** One turn of the `oneOf` loop. */
  lemma VariantsStep(parent: Schema, i: nat, depth: nat)
    requires i < |parent.oneOf|
    ensures var r := CompileVariants(parent, i, depth);
            var c := AltResult(parent, i, depth);
            var rest := CompileVariants(parent, i + 1, depth);
            && (r.Ok? <==> c.Ok? && rest.Ok?)
            && (r.Ok? ==> r.value == CompiledVariants([Variant(c.value.ty)] + rest.value.variants,
                                                      c.value.decls + rest.value.decls))
            && (c.Err? ==> r == Err(c.error))
  {
  }

  /** The first alternative that fails decides the `oneOf` loop's error. */
  lemma {:induction false} VariantsFirstError(parent: Schema, i: nat, e: nat, depth: nat)
    requires i <= e < |parent.oneOf|
    requires forall j :: i <= j < e ==> AltResult(parent, j, depth).Ok?
    requires AltResult(parent, e, depth).Err?
    ensures CompileVariants(parent, i, depth) == Err(AltResult(parent, e, depth).error)
    decreases e - i
  {
    VariantsStep(parent, i, depth);
    if i < e {
      VariantsFirstError(parent, i + 1, e, depth);
    }
  }

  /** `AltsOk` says that each alternative from `i` on compiles. */
  lemma {:induction false} AltsOkEach(parent: Schema, i: nat, depth: nat)
    ensures AltsOk(parent, i, depth) <==> forall j :: i <= j < |parent.oneOf| ==> AltResult(parent, j, depth).Ok?
    decreases |parent.oneOf| - i
  {
    if i < |parent.oneOf| {
      AltsOkEach(parent, i + 1, depth);
    }
  }

  /** The variants are the alternatives, one each, in order. */
  lemma {:induction false} AltVariantsInOrder(parent: Schema, i: nat, depth: nat)
    requires i <= |parent.oneOf| && AltsOk(parent, i, depth)
    ensures |AltVariants(parent, i, depth)| == |parent.oneOf| - i
    ensures forall j :: i <= j < |parent.oneOf| ==>
              && AltResult(parent, j, depth).Ok?
              && AltVariants(parent, i, depth)[j - i] == Variant(AltResult(parent, j, depth).value.ty)
    decreases |parent.oneOf| - i
  {
    if i < |parent.oneOf| {
      AltVariantsInOrder(parent, i + 1, depth);
      assert AltResult(parent, i, depth).Ok? && AltsOk(parent, i + 1, depth);
      assert AltVariants(parent, i, depth) == [Variant(AltResult(parent, i, depth).value.ty)] + AltVariants(parent, i + 1, depth);
    }
  }

  /** A `oneOf` needs a title and compiles when all its alternatives do.
      Its type is the title; its declarations are those of the
      alternatives, in order, followed by exactly one enum with one variant
      per alternative. Otherwise the first alternative that fails gives
      its error. */
  lemma OneOfSchema(s: Schema, title: Option<string>, depth: nat)
    requires |s.allOf| == 0 && |s.anyOf| == 0 && |s.oneOf| > 0
    ensures var r := CompileSchema(Inline(s), title, depth);
            var t := MergeTitles(title, s);
            && (r.Ok? <==> t.Ok? && AltsOk(s, 0, depth))
            && (t.Err? ==> r == Err(AnonymousSchema))
            && (r.Ok? ==> r.value == Compiled(Named(t.value), AltDecls(s, 0, depth) + [EnumDecl(t.value, AltVariants(s, 0, depth))]))
            && (forall e :: 0 <= e < |s.oneOf| && t.Ok? && AltResult(s, e, depth).Err?
                            && (forall j :: 0 <= j < e ==> AltResult(s, j, depth).Ok?)
                            ==> r == Err(AltResult(s, e, depth).error))
  {
    assert CompileSchema(Inline(s), title, depth) == CompileOneOf(s, title, depth);
    VariantsLoop(s, 0, depth);
    forall e | 0 <= e < |s.oneOf| && MergeTitles(title, s).Ok? && AltResult(s, e, depth).Err?
                && (forall j :: 0 <= j < e ==> AltResult(s, j, depth).Ok?)
      ensures CompileVariants(s, 0, depth) == Err(AltResult(s, e, depth).error)
    {
      VariantsFirstError(s, 0, e, depth);
    }
  }

  /** A parameter needs a schema; its type is the schema's, untitled, and
      is left unwrapped exactly when the parameter says `required: true`
      (an absent `required` counts as optional). A schema that fails gives
      the parameter's error. */
  lemma ParamWrapping(param: Parameter, depth: nat)
    ensures param.schema.None? ==> CompileParam(param, depth) == Err(ParamWithoutSchema)
    ensures param.schema.Some? ==>
              var r := CompileParam(param, depth);
              var inner := CompileSchema(Inline(param.schema.value), None, depth);
              && (r.Ok? <==> inner.Ok?)
              && (inner.Err? ==> r == Err(inner.error))
              && (r.Ok? ==> r.value.decls == inner.value.decls)
              && (r.Ok? ==> (r.value.ty == inner.value.ty <==> param.required == Some(true)))
              && (r.Ok? && param.required != Some(true) ==> r.value.ty == OptionOf(inner.value.ty))
  {
    if param.schema.Some? && CompileParam(param, depth).Ok? {
      var inner := CompileSchema(Inline(param.schema.value), None, depth).value;
      WrapChanges(inner.ty);
    }
  }

  /** A schema of one primitive kind carrying its own title. */
  function TitledPrim(t: SchemaType, title: string): Schema
  {
    Schema(Some(title), Some(t), [], [], [], None, [], [])
  }

  /** The shape of the `OneOfSchema` component of the crate's own test
      document: a titled number, a plain string and a reference to another
      component, compiled under the component's name. */
  function ThreeAlternatives(numberTitle: string, refPath: string): Schema
  {
    Schema(None, None, [], [], [Inline(TitledPrim(NumberType, numberTitle)), Inline(PlainSchema(StringType)), Ref(refPath)],
           None, [], [])
  }

  /** It becomes an enum named after the component, declared after the
      alias the titled number needs, with variants tagged after the number's
      title, `String`, and the referenced component's name preceded by the
      space the printed path puts before it (the case conversion drops it:
      `NumberTitle`, `String`, `BooleanAlias` in the test). */
  lemma OneOfExample(outer: string, numberTitle: string, prefix: string, target: string, depth: nat)
    requires NoChar(numberTitle, ':') && NoChar(target, ':') && NoChar(target, '/')
    ensures var r := CompileSchema(Inline(ThreeAlternatives(numberTitle, prefix + "/" + target)), Some(outer), depth);
            var vs := [Variant(Named(numberTitle)), Variant(Prim(Str)), Variant(SchemasPath(depth, target))];
            && r == Ok(Compiled(Named(outer), [AliasDecl(numberTitle, Prim(F64)), EnumDecl(outer, vs)]))
            && vs[0].Tag() == UpperCamel(numberTitle)
            && vs[1].Tag() == UpperCamel("String")
            && vs[2].Tag() == UpperCamel(" " + target)
  {
    var s := ThreeAlternatives(numberTitle, prefix + "/" + target);
    ExampleAlternatives(numberTitle, prefix, target, depth);
    var c0, c1, c2 := AltResult(s, 0, depth).value, AltResult(s, 1, depth).value, AltResult(s, 2, depth).value;
    ThreeVariants(s, depth);
    var v0, v1, v2 := Variant(Named(numberTitle)), Variant(Prim(Str)), Variant(SchemasPath(depth, target));
    var alias := AliasDecl(numberTitle, Prim(F64));
    ExampleLists(v0, v1, v2, alias, EnumDecl(outer, [v0, v1, v2]));
    assert CompileVariants(s, 0, depth) == Ok(CompiledVariants([v0, v1, v2], [alias]));
    assert CompileSchema(Inline(s), Some(outer), depth) == CompileOneOf(s, Some(outer), depth);
    NamedTag(numberTitle);
    PrimTag(Str);
    SchemasPathTag(depth, target);
  }

  /** What each of the three alternatives compiles to on its own. */
  lemma ExampleAlternatives(numberTitle: string, prefix: string, target: string, depth: nat)
    requires NoChar(target, '/')
    ensures var s := ThreeAlternatives(numberTitle, prefix + "/" + target);
            && AltResult(s, 0, depth) == Ok(Compiled(Named(numberTitle), [AliasDecl(numberTitle, Prim(F64))]))
            && AltResult(s, 1, depth) == Ok(Compiled(Prim(Str), []))
            && AltResult(s, 2, depth) == Ok(Compiled(SchemasPath(depth, target), []))
  {
    AfterLastSep(prefix, '/', target);
    assert prefix + ['/'] + target == prefix + "/" + target;
    PrimitiveSchema(TitledPrim(NumberType, numberTitle), None, depth);
    PrimitiveSchema(PlainSchema(StringType), None, depth);
    RefCompiles(prefix + "/" + target, None, depth);
  }

  /** The alternative loop over three alternatives that each compile. */
  lemma ThreeVariants(s: Schema, depth: nat)
    requires |s.oneOf| == 3
    requires AltResult(s, 0, depth).Ok? && AltResult(s, 1, depth).Ok? && AltResult(s, 2, depth).Ok?
    ensures var c0, c1, c2 := AltResult(s, 0, depth).value, AltResult(s, 1, depth).value, AltResult(s, 2, depth).value;
            CompileVariants(s, 0, depth)
            == Ok(CompiledVariants([Variant(c0.ty)] + ([Variant(c1.ty)] + ([Variant(c2.ty)] + [])),
                                   c0.decls + (c1.decls + (c2.decls + []))))
  {
    assert CompileVariants(s, 3, depth) == Ok(CompiledVariants([], []));
    VariantsStep(s, 2, depth);
    VariantsStep(s, 1, depth);
    VariantsStep(s, 0, depth);
  }

  /** Sequence facts the example needs, kept apart from the compiler. */
  lemma ExampleLists(a: Variant, b: Variant, c: Variant, d: Decl, e: Decl)
    ensures [c] + [] == [c] && [b] + [c] == [b, c] && [a] + [b, c] == [a, b, c]
    ensures [d] + ([] + []) == [d] && [d] + [e] == [d, e]
  {
  }

}
