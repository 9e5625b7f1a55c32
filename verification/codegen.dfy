/** The emitter (axum-open-api-codegen/src/codegen/mod.rs): the compiled
    tree and what each node expands to. The expansion is modelled as the
    structure of the generated Rust items rather than as their tokens: the
    struct with its fields, the route it declares, the extractor trait it
    implements, the extraction steps in order with the rejection each one
    reports, and the fields its `Self { .. }` expression names. */
module Codegen {
  import opened Common
  import opened Parsing
  import opened RustTypes

  /** `codegen::Extractor`: the body's type, the extractor wrapping it and
      the `Rejection` variant reporting its failure. The body is always
      bound to `body`. */
  datatype Extractor = Extractor(bodyTy: Ty, extractorTy: Ty, rejection: string)

  /** `codegen::MethodItem`, without the summary and description the
      compiler never fills in. */
  datatype CMethod = CMethod(
    verb: Verb,
    axumPath: string,
    oapiPath: string,
    structName: string,
    structVis: Vis,
    pathNames: seq<string>,
    pathTypes: seq<Ty>,
    queryNames: seq<string>,
    queryTypes: seq<Ty>,
    extractor: Option<Extractor>)

  /** `codegen::Item`: a module, a method, or a declaration from the
      schema compiler. */
  datatype CItem =
    | CModule(vis: Vis, name: string, items: seq<CItem>)
    | CMethodItem(item: CMethod)
    | CSchema(decl: Decl)

  datatype CRoot = CRoot(items: seq<CItem>)

  /** Names and types are paired up by the emitter's repetitions. */
  predicate Paired(m: CMethod)
  {
    |m.pathNames| == |m.pathTypes| && |m.queryNames| == |m.queryTypes|
  }

  predicate PairedItem(it: CItem)
    decreases it, 1
  {
    match it
    case CModule(_, _, items) => PairedItems(items)
    case CMethodItem(m) => Paired(m)
    case CSchema(_) => true
  }

  predicate PairedItems(items: seq<CItem>)
    decreases items, 0
  {
    forall i :: 0 <= i < |items| ==> PairedItem(items[i])
  }

  // ---------------------------------------------------------------------
  // The generated items
  // ---------------------------------------------------------------------

  /** `FromRequestParts` (no body: the request parts are borrowed) or
      `FromRequest` (a body: the whole request is consumed). */
  datatype RequestTrait = FromRequestParts | FromRequest

  /** One `let .. = match req.<extract>().await { .. }` of the generated
      extractor function, with the `Rejection` variant its error arm
      returns. The path and query steps call the method named by
      `extractFn` (`extract_parts` with a body, `extract` without); the
      body step always calls `extract`. */
  datatype Extraction =
    | PathExtraction(names: seq<string>)
    | QueryExtraction(fields: seq<Field>)
    | BodyExtraction(extractorTy: Ty, binding: string, rejection: string)

  /** What one method expands to: the struct, its `OapiPath` impl and its
      extractor impl. */
  datatype Generated = Generated(
    doc: string,
    structVis: Vis,
    structName: string,
    fields: seq<Field>,
    routePath: string,
    routerFn: string,
    requestTrait: RequestTrait,
    traitFn: string,
    requestType: string,
    extractFn: string,
    steps: seq<Extraction>,
    selfFields: seq<string>)

  /** What an item expands to. */
  datatype Emitted =
    | EmittedModule(vis: Vis, name: string, items: seq<Emitted>)
    | EmittedMethod(generated: Generated)
    | EmittedDecl(decl: Decl)

  /** The name of the body field and binding. */
  const BodyName := "body"

  /** `#(pub #name: #ty,)*` over two repetitions of the same length. */
  function Zip(names: seq<string>, types: seq<Ty>): seq<Field>
    requires |names| == |types|
  {
    seq(|names|, i requires 0 <= i < |names| => Field(names[i], types[i]))
  }

  const DocHead := "\nGenerated from OpenAPI spec.\n- Method: `"

  /** The doc comment on the struct (`struct_doc`); the summary and
      description are always `None`, printed with `Debug`. */
  function StructDoc(m: CMethod): string
  {
    DocHead + DisplayName(m.verb) + " " + m.oapiPath
      + "`\n- Summary: None\n- Description: None\n    "
  }

  /** The `Rejection` variant a step's error arm names. */
  function RejectionOf(e: Extraction): string
  {
    match e
    case PathExtraction(_) => "Path"
    case QueryExtraction(_) => "Query"
    case BodyExtraction(_, _, r) => r
  }

  /** `ToTokens for MethodItem`. */
  function EmitMethod(m: CMethod): Generated
    requires Paired(m)
  {
    var bodyField := match m.extractor
                     case Some(x) => [Field(BodyName, x.bodyTy)]
                     case None => [];
    var bodyStep := match m.extractor
                    case Some(x) => [BodyExtraction(x.extractorTy, BodyName, x.rejection)]
                    case None => [];
    var queryFields := Zip(m.queryNames, m.queryTypes);
    Generated(
      StructDoc(m),
      m.structVis,
      m.structName,
      Zip(m.pathNames, m.pathTypes) + queryFields + bodyField,
      m.axumPath,
      LowerName(m.verb),
      if m.extractor.Some? then FromRequest else FromRequestParts,
      if m.extractor.Some? then "from_request" else "from_request_parts",
      if m.extractor.Some? then ":: axum :: extract :: Request" else "& mut :: axum :: http :: request :: Parts",
      if m.extractor.Some? then "extract_parts" else "extract",
      [PathExtraction(m.pathNames), QueryExtraction(queryFields)] + bodyStep,
      m.pathNames + m.queryNames + (if m.extractor.Some? then [BodyName] else []))
  }

  /** `ToTokens for Item` and `ToTokens for ModuleItem`: a module expands
      to `vis mod name { .. }` around its items, in order. */
  function EmitItem(it: CItem): Emitted
    requires PairedItem(it)
    decreases it, 1
  {
    match it
    case CModule(vis, name, items) => EmittedModule(vis, name, EmitItems(items))
    case CMethodItem(m) => EmittedMethod(EmitMethod(m))
    case CSchema(d) => EmittedDecl(d)
  }

  function EmitItems(items: seq<CItem>): seq<Emitted>
    requires PairedItems(items)
    decreases items, 0
  {
    if |items| == 0 then [] else [EmitItem(items[0])] + EmitItems(items[1..])
  }

  /** `ToTokens for Root`: the items, in order. */
  function EmitRoot(root: CRoot): seq<Emitted>
    requires PairedItems(root.items)
  {
    EmitItems(root.items)
  }

  function FieldNames(fs: seq<Field>): seq<string>
  {
    seq(|fs|, i requires 0 <= i < |fs| => fs[i].name)
  }

  // ---------------------------------------------------------------------
  // Properties
  // ---------------------------------------------------------------------

  /** The struct has one public field per path parameter, then one per
      query parameter, each with its compiled type, then `body` exactly
      when there is a body extractor. */
  lemma FieldLayout(m: CMethod)
    requires Paired(m)
    ensures var g := EmitMethod(m);
            var np, nq := |m.pathNames|, |m.queryNames|;
            && |g.fields| == np + nq + (if m.extractor.Some? then 1 else 0)
            && (forall i :: 0 <= i < np ==> g.fields[i] == Field(m.pathNames[i], m.pathTypes[i]))
            && (forall i :: 0 <= i < nq ==> g.fields[np + i] == Field(m.queryNames[i], m.queryTypes[i]))
            && (m.extractor.Some? ==> g.fields[np + nq] == Field(BodyName, m.extractor.value.bodyTy))
  {
    var g := EmitMethod(m);
    var np, nq := |m.pathNames|, |m.queryNames|;
    assert forall i :: 0 <= i < nq ==> g.fields[np + i] == Zip(m.queryNames, m.queryTypes)[i];
  }

  /** The value built at the end names exactly the struct's fields, in
      order, so every field is initialised from the binding of the same
      name. */
  lemma SelfMatchesFields(m: CMethod)
    requires Paired(m)
    ensures FieldNames(EmitMethod(m).fields) == EmitMethod(m).selfFields
  {
    var g := EmitMethod(m);
    FieldLayout(m);
    var np, nq := |m.pathNames|, |m.queryNames|;
    assert forall i :: np <= i < np + nq ==> g.selfFields[i] == m.queryNames[i - np];
  }

  /** A body extractor and only a body extractor makes the struct a
      `FromRequest` that consumes the whole `Request`; otherwise it is a
      `FromRequestParts` over borrowed `&mut Parts`. */
  lemma TraitSelection(m: CMethod)
    requires Paired(m)
    requires BodyName !in m.pathNames && BodyName !in m.queryNames
    ensures var g := EmitMethod(m);
            && (g.requestTrait == FromRequest <==> m.extractor.Some?)
            && (g.requestTrait == FromRequest <==> BodyName in g.selfFields)
            && (g.requestTrait == FromRequest ==>
                  g.traitFn == "from_request" && g.requestType == ":: axum :: extract :: Request"
                  && g.extractFn == "extract_parts")
            && (g.requestTrait == FromRequestParts ==>
                  g.traitFn == "from_request_parts" && g.requestType == "& mut :: axum :: http :: request :: Parts"
                  && g.extractFn == "extract")
  {
  }

  /** The extractions run path first, then query, then the body if any;
      their error arms report `Path`, `Query` and the extractor's own
      variant, in that order. */
  lemma ExtractionOrder(m: CMethod)
    requires Paired(m)
    ensures var g := EmitMethod(m);
            && |g.steps| == 2 + (if m.extractor.Some? then 1 else 0)
            && g.steps[0] == PathExtraction(m.pathNames)
            && g.steps[1] == QueryExtraction(Zip(m.queryNames, m.queryTypes))
            && (m.extractor.Some? ==> g.steps[2] == BodyExtraction(m.extractor.value.extractorTy, BodyName, m.extractor.value.rejection))
            && RejectionOf(g.steps[0]) == "Path" && RejectionOf(g.steps[1]) == "Query"
            && (m.extractor.Some? ==> RejectionOf(g.steps[2]) == m.extractor.value.rejection)
  {
  }

  /** The route is the axum form of the path and the router method is the
      lower-case verb; the doc comment names the verb in upper case and the
      OpenAPI template. */
  lemma RouteAndDoc(m: CMethod)
    requires Paired(m)
    ensures var g := EmitMethod(m);
            && g.routePath == m.axumPath
            && g.routerFn == LowerName(m.verb)
            && g.routerFn == AsciiLower(DisplayName(m.verb))
            && var mid := DisplayName(m.verb) + " " + m.oapiPath;
               |DocHead| + |mid| <= |g.doc| && g.doc[|DocHead|..|DocHead| + |mid|] == mid
  {
    LowerNameIsLowercasedDisplay(m.verb);
    var g := EmitMethod(m);
    var mid := DisplayName(m.verb) + " " + m.oapiPath;
    var post := "`\n- Summary: None\n- Description: None\n    ";
    assert g.doc == DocHead + mid + post;
    assert g.doc[|DocHead|..|DocHead| + |mid|] == mid;
  }

  /** Emission keeps items in order, one output per item, and a module
      keeps its visibility and name. */
  lemma {:induction false} EmitItemsInOrder(items: seq<CItem>)
    requires PairedItems(items)
    ensures |EmitItems(items)| == |items|
    ensures forall i :: 0 <= i < |items| ==> EmitItems(items)[i] == EmitItem(items[i])
    decreases |items|
  {
    if |items| > 0 {
      EmitItemsInOrder(items[1..]);
      assert forall i :: 1 <= i < |items| ==> items[1..][i - 1] == items[i];
    }
  }

  lemma ModuleShape(vis: Vis, name: string, items: seq<CItem>)
    requires PairedItems(items)
    ensures var e := EmitItem(CModule(vis, name, items));
            && e.EmittedModule? && e.vis == vis && e.name == name
            && |e.items| == |items|
            && forall i :: 0 <= i < |items| ==> e.items[i] == EmitItem(items[i])
  {
    EmitItemsInOrder(items);
  }

  /** The variants of the runtime crate's `Rejection` enum
      (axum-open-api/src/lib.rs). */
  const RuntimeRejections: set<string> := {"Query", "Path", "Json", "Form", "String", "Bytes", "Other"}

  /** The path and query steps always name a variant the runtime enum has;
      a body step does exactly when its extractor's variant is one of them. */
  lemma RejectionsResolve(m: CMethod)
    requires Paired(m)
    ensures var g := EmitMethod(m);
            forall i :: 0 <= i < |g.steps| ==>
              (RejectionOf(g.steps[i]) in RuntimeRejections
               <==> i < 2 || m.extractor.value.rejection in RuntimeRejections)
  {
  }
}
