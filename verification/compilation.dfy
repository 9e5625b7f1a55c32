/** The route compiler (axum-open-api-codegen/src/compilation/mod.rs): the
    parsed declaration tree is checked against the OpenAPI document and
    turned into the compiled tree the emitter expands.

    As in the schema compiler, each function returns the declarations it
    appends to the caller's sink instead of mutating one. */
module Compilation {
  import opened Common
  import opened OpenApi
  import opened RustTypes
  import opened SchemaCompiler
  import opened Parsing
  import opened PathEncoding
  import opened Codegen

  const PathNotFound := "Path not found in OpenAPI spec"
  const MethodNotFound := "Method not found in OpenAPI spec"
  const OneMediaType := Error("Exactly one media type is supported", CallSite)
  const MediaWithoutSchema := Error("Schema not found in media type", CallSite)

  function ParamNotFound(name: string): Error
  {
    Error("Path parameter " + name + " not found in OpenAPI spec", At(name))
  }

  function ParamNotInPath(name: string): Error
  {
    Error("Path parameter " + name + " is not in: `path` in OpenAPI spec", At(name))
  }

  /** `MethodPath::span`: the first segment's identifier. */
  function PathSpan(segs: seq<Segment>): Span
    requires |segs| > 0
  {
    At(segs[0].ident)
  }

  /** The operation a path item holds for a verb. */
  function OperationFor(item: PathItem, v: Verb): Option<Operation>
  {
    match v
    case Get => item.get
    case Post => item.post
    case Put => item.put
    case Delete => item.delete
    case Patch => item.patch
    case Head => item.head
    case Trace => item.trace
    case Options => item.options
  }

  /** The two lookups that report their error at the path. Both take the
      span of the path's first segment, which an empty path does not have
      (the source then panics): an empty path is only usable when both
      lookups succeed. */
  predicate LookupsReportable(spec: Spec, m: MethodItem)
  {
    |m.path| > 0
    || (OapiPath(m.path) in spec.paths && OperationFor(spec.paths[OapiPath(m.path)], m.verb).Some?)
  }

  /** Looks the declared path and verb up in the document. */
  function ResolveOperation(spec: Spec, m: MethodItem): (r: Result<Operation>)
    requires LookupsReportable(spec, m)
    ensures r.Ok? <==> OapiPath(m.path) in spec.paths && OperationFor(spec.paths[OapiPath(m.path)], m.verb).Some?
    ensures r.Ok? ==> Some(r.value) == OperationFor(spec.paths[OapiPath(m.path)], m.verb)
    ensures OapiPath(m.path) !in spec.paths ==> r == Err(Error(PathNotFound, PathSpan(m.path)))
    ensures OapiPath(m.path) in spec.paths && r.Err? ==> r == Err(Error(MethodNotFound, PathSpan(m.path)))
  {
    var key := OapiPath(m.path);
    if key !in spec.paths then Err(Error(PathNotFound, PathSpan(m.path)))
    else
      match OperationFor(spec.paths[key], m.verb)
      case None => Err(Error(MethodNotFound, PathSpan(m.path)))
      case Some(op) => Ok(op)
  }

  /** The position of the first parameter called `name`, or `|params|`
      when there is none (`Iterator::find`). */
  function FirstNamed(params: seq<Parameter>, name: string): (k: nat)
    ensures k <= |params|
    ensures k < |params| ==> params[k].name == name
    ensures forall i :: 0 <= i < k ==> params[i].name != name
    decreases |params|
  {
    if |params| == 0 then 0
    else if params[0].name == name then 0
    else 1 + FirstNamed(params[1..], name)
  }

  /** Types compiled in order, and the declarations they appended. */
  datatype Typed = Typed(types: seq<Ty>, decls: seq<Decl>)

  /** The parameter a path identifier resolves to: the first one of that
      name, which must be located in the path. */
  function PathParam(params: seq<Parameter>, name: string): Result<Parameter>
  {
    var k := FirstNamed(params, name);
    if k == |params| then Err(ParamNotFound(name))
    else if params[k].location != "path" then Err(ParamNotInPath(name))
    else Ok(params[k])
  }

  /** One path identifier: its parameter, compiled. */
  function CompilePathParam(params: seq<Parameter>, name: string, depth: nat): Result<Compiled>
  {
    var p :- PathParam(params, name);
    CompileParam(p, depth)
  }

  /** The loop over the path's parameter identifiers from `i` on. */
  function CompilePathParams(params: seq<Parameter>, names: seq<string>, i: nat, depth: nat): Result<Typed>
    requires i <= |names|
    decreases |names| - i
  {
    if i == |names| then Ok(Typed([], []))
    else
      var c :- CompilePathParam(params, names[i], depth);
      var rest :- CompilePathParams(params, names, i + 1, depth);
      Ok(Typed([c.ty] + rest.types, c.decls + rest.decls))
  }

  /** The operation's parameters located in the query, in order. */
  function QueryParams(params: seq<Parameter>): seq<Parameter>
  {
    if |params| == 0 then []
    else (if params[0].location == "query" then [params[0]] else []) + QueryParams(params[1..])
  }

  function NamesOf(params: seq<Parameter>): seq<string>
  {
    seq(|params|, i requires 0 <= i < |params| => params[i].name)
  }

  /** The loop over the query parameters from `i` on. */
  function CompileQueryParams(qs: seq<Parameter>, i: nat, depth: nat): Result<Typed>
    requires i <= |qs|
    decreases |qs| - i
  {
    if i == |qs| then Ok(Typed([], []))
    else
      var c :- CompileParam(qs[i], depth);
      var rest :- CompileQueryParams(qs, i + 1, depth);
      Ok(Typed([c.ty] + rest.types, c.decls + rest.decls))
  }

  /** How a body is extracted, chosen from its media type. */
  datatype BodyKind = JsonBody | FormBody | MultipartBody | TextBody | BytesBody

  /** The media type's text before its first `/` and after its last `/`
      select the extractor. */
  function KindOf(mime: string): BodyKind
  {
    var top, sub := BeforeFirst(mime, '/'), AfterLast(mime, '/');
    if top == "application" && sub == "json" then JsonBody
    else if top == "application" && sub == "x-www-form-urlencoded" then FormBody
    else if top == "multipart" && sub == "form-data" then MultipartBody
    else if top == "text" then TextBody
    else BytesBody
  }

  /** The name of the axum extractor, also the `Rejection` variant used. */
  function ExtractorName(k: BodyKind): string
  {
    match k
    case JsonBody => "Json"
    case FormBody => "Form"
    case MultipartBody => "Multipart"
    case TextBody => "Text"
    case BytesBody => "Bytes"
  }

  datatype CompiledBody = CompiledBody(extractor: Option<Extractor>, decls: seq<Decl>)

  /** The body extractor: exactly one media type with a schema is
      required; JSON and form bodies compile the schema untitled, the other
      kinds take the extractor's own type as the body type. */
  function CompileBody(body: Option<RequestBody>, depth: nat): Result<CompiledBody>
  {
    if body.None? then Ok(CompiledBody(None, []))
    else if |body.value.content| != 1 then Err(OneMediaType)
    else
      var entry := body.value.content[0];
      if entry.media.schema.None? then Err(MediaWithoutSchema)
      else
        var kind := KindOf(entry.mime);
        var name := ExtractorName(kind);
        if kind == JsonBody || kind == FormBody then
          var c :- CompileSchema(entry.media.schema.value, None, depth);
          Ok(CompiledBody(Some(Extractor(c.ty, AxumExtract(name), name)), c.decls))
        else
          Ok(CompiledBody(Some(Extractor(AxumExtract(name), AxumExtract(name), name)), []))
  }

  datatype CompiledMethod = CompiledMethod(cmethod: CMethod, decls: seq<Decl>)

  /** `compile_method`: the operation is resolved, then the path
      parameters, the query parameters and the body are compiled in that
      order, each appending its declarations after the previous ones. */
  function CompileMethod(spec: Spec, m: MethodItem, depth: nat): (r: Result<CompiledMethod>)
    requires LookupsReportable(spec, m)
    ensures r.Ok? ==> Paired(r.value.cmethod)
  {
    var op :- ResolveOperation(spec, m);
    var names := ParamNames(m.path);
    var pp :- CompilePathParams(op.parameters, names, 0, depth);
    PathTypesPaired(op.parameters, names, 0, depth);
    var qs := QueryParams(op.parameters);
    var qp :- CompileQueryParams(qs, 0, depth);
    QueryTypesPaired(qs, 0, depth);
    var b :- CompileBody(op.requestBody, depth);
    Ok(CompiledMethod(
      CMethod(m.verb, AxumPath(m.path), OapiPath(m.path), m.structName, m.structVis,
              names, pp.types, NamesOf(qs), qp.types, b.extractor),
      pp.decls + qp.decls + b.decls))
  }

  lemma {:induction false} PathTypesPaired(params: seq<Parameter>, names: seq<string>, i: nat, depth: nat)
    requires i <= |names|
    ensures CompilePathParams(params, names, i, depth).Ok? ==>
              |CompilePathParams(params, names, i, depth).value.types| == |names| - i
    decreases |names| - i
  {
    if i < |names| {
      PathTypesPaired(params, names, i + 1, depth);
    }
  }

  lemma {:induction false} QueryTypesPaired(qs: seq<Parameter>, i: nat, depth: nat)
    requires i <= |qs|
    ensures CompileQueryParams(qs, i, depth).Ok? ==> |CompileQueryParams(qs, i, depth).value.types| == |qs| - i
    decreases |qs| - i
  {
    if i < |qs| {
      QueryTypesPaired(qs, i + 1, depth);
    }
  }

  /** Every declared method, however deeply nested, can report its lookup
      errors. */
  predicate ReportableItem(spec: Spec, it: Item)
    decreases it, 1
  {
    match it
    case Method(m) => LookupsReportable(spec, m)
    case Module(mi) => ReportableItems(spec, mi.items)
  }

  predicate ReportableItems(spec: Spec, items: seq<Item>)
    decreases items, 0
  {
    forall i :: 0 <= i < |items| ==> ReportableItem(spec, items[i])
  }

  datatype CompiledItem = CompiledItem(item: CItem, decls: seq<Decl>)

  function AsItems(decls: seq<Decl>): seq<CItem>
  {
    seq(|decls|, i requires 0 <= i < |decls| => CSchema(decls[i]))
  }

  /** `compile_item`: a method is compiled at the current depth and appends
      to the caller's sink; a module appends nothing there. */
  function CompileItem(spec: Spec, it: Item, depth: nat): (r: Result<CompiledItem>)
    requires ReportableItem(spec, it)
    ensures r.Ok? ==> PairedItem(r.value.item)
    ensures r.Ok? && it.Module? ==> r.value.decls == []
    decreases it, 1
  {
    match it
    case Method(m) =>
      var cm :- CompileMethod(spec, m, depth);
      Ok(CompiledItem(CMethodItem(cm.cmethod), cm.decls))
    case Module(mi) =>
      var cmod :- CompileModule(spec, mi, depth);
      Ok(CompiledItem(cmod, []))
  }

  /** `compile_module`: the children are compiled one level deeper into a
      sink of the module's own, whose declarations follow them inside the
      module. */
  function CompileModule(spec: Spec, mi: ModuleItem, depth: nat): (r: Result<CItem>)
    requires ReportableItems(spec, mi.items)
    ensures r.Ok? ==> PairedItem(r.value)
    decreases mi, 2
  {
    var cs :- CompileChildren(spec, mi, 0, depth + 1);
    Ok(CModule(mi.vis, mi.name, cs.items + AsItems(cs.decls)))
  }

  datatype CompiledItems = CompiledItems(items: seq<CItem>, decls: seq<Decl>)

  /** The loop over a module's children from `i` on, sharing one sink. */
  function CompileChildren(spec: Spec, parent: ModuleItem, i: nat, depth: nat): (r: Result<CompiledItems>)
    requires i <= |parent.items|
    requires ReportableItems(spec, parent.items)
    ensures r.Ok? ==> PairedItems(r.value.items)
    decreases parent, 1, |parent.items| - i
  {
    if i == |parent.items| then Ok(CompiledItems([], []))
    else
      var c :- CompileItem(spec, parent.items[i], depth);
      var rest :- CompileChildren(spec, parent, i + 1, depth);
      Ok(CompiledItems([c.item] + rest.items, c.decls + rest.decls))
  }

  /** `compile_schemas_from_spec`: every component schema is compiled under
      its own name, the resulting types discarded; only the declarations
      remain. */
  function CompileComponents(comps: seq<Component>, i: nat): Result<seq<Decl>>
    requires i <= |comps|
    decreases |comps| - i
  {
    if i == |comps| then Ok([])
    else
      var c :- CompileSchema(comps[i].schema, Some(comps[i].name), 1);
      var rest :- CompileComponents(comps, i + 1);
      Ok(c.decls + rest)
  }

  /** The loop over the top-level items from `i` on: each item is followed
      by the declarations it appended. */
  function CompileTopItems(spec: Spec, items: seq<Item>, i: nat): (r: Result<seq<CItem>>)
    requires i <= |items|
    requires ReportableItems(spec, items)
    ensures r.Ok? ==> PairedItems(r.value)
    decreases |items| - i
  {
    if i == |items| then Ok([])
    else
      var c :- CompileItem(spec, items[i], 0);
      var rest :- CompileTopItems(spec, items, i + 1);
      Ok([c.item] + AsItems(c.decls) + rest)
  }

  /** `Compiler::compile`: the `schemas` module first, then the declared
      items. The document must have a `components` section. */
  function CompileRoot(spec: Spec, root: Root): (r: Result<CRoot>)
    requires spec.components.Some?
    requires ReportableItems(spec, root.items)
    ensures r.Ok? ==> PairedItems(r.value.items)
  {
    var decls :- CompileComponents(spec.components.value, 0);
    var items :- CompileTopItems(spec, root.items, 0);
    assert PairedItem(CModule(Pub, "schemas", AsItems(decls)));
    Ok(CRoot([CModule(Pub, "schemas", AsItems(decls))] + items))
  }

  // ---------------------------------------------------------------------
  // Properties
  // ---------------------------------------------------------------------

  /** A path identifier resolves to the first parameter of that name, and
      only when that one sits in the path: a later namesake in the path
      does not rescue it. Either error is reported at the identifier. */
  lemma PathParamResolution(params: seq<Parameter>, name: string)
    ensures var r := PathParam(params, name);
            && (r.Ok? <==> exists k :: 0 <= k < |params| && params[k].name == name && params[k].location == "path"
                                       && forall i :: 0 <= i < k ==> params[i].name != name)
            && (r.Ok? ==> r.value in params && r.value.name == name && r.value.location == "path")
            && ((forall k :: 0 <= k < |params| ==> params[k].name != name) ==> r == Err(ParamNotFound(name)))
            && (forall k :: 0 <= k < |params| && params[k].name == name && params[k].location != "path"
                            && (forall i :: 0 <= i < k ==> params[i].name != name)
                            ==> r == Err(ParamNotInPath(name)))
            && (r.Err? ==> r.error.span == At(name))
  {
    var k := FirstNamed(params, name);
    forall k' | 0 <= k' < |params| && params[k'].name == name && (forall i :: 0 <= i < k' ==> params[i].name != name)
      ensures k' == k
    {
    }
  }

  /** Reference definitions for the path-parameter loop: every identifier
      from `i` on resolves and compiles, and the types they compile to. */
  predicate PathParamsOk(params: seq<Parameter>, names: seq<string>, i: nat, depth: nat)
    requires i <= |names|
    decreases |names| - i
  {
    i == |names| || (CompilePathParam(params, names[i], depth).Ok? && PathParamsOk(params, names, i + 1, depth))
  }

  function PathTypes(params: seq<Parameter>, names: seq<string>, i: nat, depth: nat): seq<Ty>
    requires i <= |names| && PathParamsOk(params, names, i, depth)
    decreases |names| - i
  {
    if i == |names| then [] else [CompilePathParam(params, names[i], depth).value.ty] + PathTypes(params, names, i + 1, depth)
  }

  /** The declarations the identifiers from `i` on append, each
      identifier's after the previous one's. */
  function PathDecls(params: seq<Parameter>, names: seq<string>, i: nat, depth: nat): seq<Decl>
    requires i <= |names| && PathParamsOk(params, names, i, depth)
    decreases |names| - i
  {
    if i == |names| then [] else CompilePathParam(params, names[i], depth).value.decls + PathDecls(params, names, i + 1, depth)
  }

  /** The path-parameter loop succeeds exactly when every identifier does,
      and then yields their types. */
  lemma {:induction false} PathParamsLoop(params: seq<Parameter>, names: seq<string>, i: nat, depth: nat)
    requires i <= |names|
    ensures CompilePathParams(params, names, i, depth).Ok? <==> PathParamsOk(params, names, i, depth)
    ensures PathParamsOk(params, names, i, depth) ==>
              && CompilePathParams(params, names, i, depth).value.types == PathTypes(params, names, i, depth)
              && CompilePathParams(params, names, i, depth).value.decls == PathDecls(params, names, i, depth)
    decreases |names| - i
  {
    if i < |names| {
      PathParamsLoop(params, names, i + 1, depth);
      PathParamsStep(params, names, i, depth);
    }
  }

  lemma {:induction false} PathParamsOkEach(params: seq<Parameter>, names: seq<string>, i: nat, depth: nat)
    requires i <= |names|
    ensures PathParamsOk(params, names, i, depth) <==> forall j :: i <= j < |names| ==> CompilePathParam(params, names[j], depth).Ok?
    decreases |names| - i
  {
    if i < |names| {
      PathParamsOkEach(params, names, i + 1, depth);
    }
  }

  /** One type per identifier, in order. */
  lemma {:induction false} PathTypesInOrder(params: seq<Parameter>, names: seq<string>, i: nat, depth: nat)
    requires i <= |names| && PathParamsOk(params, names, i, depth)
    ensures |PathTypes(params, names, i, depth)| == |names| - i
    ensures forall j :: i <= j < |names| ==>
              && CompilePathParam(params, names[j], depth).Ok?
              && PathTypes(params, names, i, depth)[j - i] == CompilePathParam(params, names[j], depth).value.ty
    decreases |names| - i
  {
    if i < |names| {
      PathTypesInOrder(params, names, i + 1, depth);
      assert CompilePathParam(params, names[i], depth).Ok? && PathParamsOk(params, names, i + 1, depth);
      assert PathTypes(params, names, i, depth)
             == [CompilePathParam(params, names[i], depth).value.ty] + PathTypes(params, names, i + 1, depth);
    }
  }

  /** One turn of the path-parameter loop. */
  lemma PathParamsStep(params: seq<Parameter>, names: seq<string>, i: nat, depth: nat)
    requires i < |names|
    ensures var r := CompilePathParams(params, names, i, depth);
            var c := CompilePathParam(params, names[i], depth);
            var rest := CompilePathParams(params, names, i + 1, depth);
            && (r.Ok? <==> c.Ok? && rest.Ok?)
            && (r.Ok? ==> r.value.types == [c.value.ty] + rest.value.types)
            && (r.Ok? ==> r.value.decls == c.value.decls + rest.value.decls)
            && (c.Err? ==> r == Err(c.error))
  {
  }

  /** The first identifier that fails decides the loop's error. */
  lemma {:induction false} PathParamsFirstError(params: seq<Parameter>, names: seq<string>, i: nat, e: nat, depth: nat)
    requires i <= e < |names|
    requires forall j :: i <= j < e ==> CompilePathParam(params, names[j], depth).Ok?
    requires CompilePathParam(params, names[e], depth).Err?
    ensures CompilePathParams(params, names, i, depth) == Err(CompilePathParam(params, names[e], depth).error)
    decreases e - i
  {
    PathParamsStep(params, names, i, depth);
    if i < e {
      PathParamsFirstError(params, names, i + 1, e, depth);
    }
  }

  /** The query parameters are exactly the operation's parameters located
      in the query, in their order: filtering distributes over
      concatenation. */
  lemma {:induction false} QueryParamsFilter(params: seq<Parameter>)
    ensures forall p :: p in QueryParams(params) <==> p in params && p.location == "query"
    ensures |QueryParams(params)| <= |params|
    decreases |params|
  {
    if |params| > 0 {
      QueryParamsFilter(params[1..]);
      HeadTail(params);
    }
  }

  lemma {:induction false} QueryParamsAppend(a: seq<Parameter>, b: seq<Parameter>)
    ensures QueryParams(a + b) == QueryParams(a) + QueryParams(b)
    decreases |a|
  {
    if |a| > 0 {
      assert (a + b)[1..] == a[1..] + b;
      QueryParamsAppend(a[1..], b);
    } else {
      assert a + b == b;
    }
  }

  /** The query loop succeeds exactly when every query parameter compiles,
      and then yields one type per parameter, in order. */
  lemma {:induction false} QueryParamsLoop(qs: seq<Parameter>, i: nat, depth: nat)
    requires i <= |qs|
    ensures var r := CompileQueryParams(qs, i, depth);
            && (r.Ok? <==> forall j :: i <= j < |qs| ==> CompileParam(qs[j], depth).Ok?)
            && (r.Ok? ==> |r.value.types| == |qs| - i)
            && (r.Ok? ==> forall j :: i <= j < |qs| ==> r.value.types[j - i] == CompileParam(qs[j], depth).value.ty)
    decreases |qs| - i
  {
    if i < |qs| {
      QueryParamsLoop(qs, i + 1, depth);
      QueryParamsStep(qs, i, depth);
    }
  }

  /** The declarations the query parameters from `i` on append, in
      parameter order. */
  function QueryDecls(qs: seq<Parameter>, i: nat, depth: nat): seq<Decl>
    requires i <= |qs| && forall j :: i <= j < |qs| ==> CompileParam(qs[j], depth).Ok?
    decreases |qs| - i
  {
    if i == |qs| then [] else CompileParam(qs[i], depth).value.decls + QueryDecls(qs, i + 1, depth)
  }

  /** What the query loop appends to the sink. */
  lemma {:induction false} QueryDeclsLoop(qs: seq<Parameter>, i: nat, depth: nat)
    requires i <= |qs|
    ensures var r := CompileQueryParams(qs, i, depth);
            r.Ok? ==> (forall j :: i <= j < |qs| ==> CompileParam(qs[j], depth).Ok?)
                      && r.value.decls == QueryDecls(qs, i, depth)
    decreases |qs| - i
  {
    if i < |qs| {
      QueryDeclsLoop(qs, i + 1, depth);
      QueryParamsStep(qs, i, depth);
    }
  }

  /** One turn of the query loop. */
  lemma QueryParamsStep(qs: seq<Parameter>, i: nat, depth: nat)
    requires i < |qs|
    ensures var r := CompileQueryParams(qs, i, depth);
            var c := CompileParam(qs[i], depth);
            var rest := CompileQueryParams(qs, i + 1, depth);
            && (r.Ok? <==> c.Ok? && rest.Ok?)
            && (r.Ok? ==> r.value.types == [c.value.ty] + rest.value.types)
            && (r.Ok? ==> r.value.decls == c.value.decls + rest.value.decls)
            && (c.Err? ==> r == Err(c.error))
  {
  }

  /** The first query parameter that fails decides the loop's error. */
  lemma {:induction false} QueryParamsFirstError(qs: seq<Parameter>, i: nat, e: nat, depth: nat)
    requires i <= e < |qs|
    requires forall j :: i <= j < e ==> CompileParam(qs[j], depth).Ok?
    requires CompileParam(qs[e], depth).Err?
    ensures CompileQueryParams(qs, i, depth) == Err(CompileParam(qs[e], depth).error)
    decreases e - i
  {
    QueryParamsStep(qs, i, depth);
    if i < e {
      QueryParamsFirstError(qs, i + 1, e, depth);
    }
  }

  /** A body needs exactly one media type, and that one needs a schema,
      whatever its kind. */
  lemma BodyErrors(body: RequestBody, depth: nat)
    ensures |body.content| != 1 ==> CompileBody(Some(body), depth) == Err(OneMediaType)
    ensures |body.content| == 1 && body.content[0].media.schema.None? ==>
              CompileBody(Some(body), depth) == Err(MediaWithoutSchema)
    ensures CompileBody(None, depth) == Ok(CompiledBody(None, []))
  {
  }

  /** The media type `top/sub` selects the extractor by both halves for
      JSON, form and multipart bodies and by the top level alone for text;
      everything else is taken as raw bytes. */
  lemma MediaTypeKinds(top: string, sub: string)
    requires NoChar(top, '/') && NoChar(sub, '/')
    ensures var k := KindOf(top + "/" + sub);
            && (k == JsonBody <==> top == "application" && sub == "json")
            && (k == FormBody <==> top == "application" && sub == "x-www-form-urlencoded")
            && (k == MultipartBody <==> top == "multipart" && sub == "form-data")
            && (k == TextBody <==> top == "text")
            && (k == BytesBody <==> !(top == "application" && (sub == "json" || sub == "x-www-form-urlencoded"))
                                     && !(top == "multipart" && sub == "form-data") && top != "text")
  {
    BeforeFirstSep(top, '/', sub);
    AfterLastSep(top, '/', sub);
  }

  /** Only the text before the first `/` and after the last one matter:
      any middle part is ignored. */
  lemma MiddleIgnored(top: string, mid: string, sub: string)
    requires NoChar(top, '/') && NoChar(sub, '/')
    ensures KindOf(top + "/" + mid + "/" + sub) == KindOf(top + "/" + sub)
  {
    LongMimeHalves(top, mid, sub);
    BeforeFirstSep(top, '/', sub);
    AfterLastSep(top, '/', sub);
  }

  lemma LongMimeHalves(top: string, mid: string, sub: string)
    requires NoChar(top, '/') && NoChar(sub, '/')
    ensures BeforeFirst(top + "/" + mid + "/" + sub, '/') == top
    ensures AfterLast(top + "/" + mid + "/" + sub, '/') == sub
  {
    BeforeFirstSep(top, '/', mid + "/" + sub);
    assert top + "/" + mid + "/" + sub == top + ['/'] + (mid + "/" + sub);
    AfterLastSep(top + "/" + mid, '/', sub);
  }

  /** JSON and form bodies compile the schema untitled at the method's
      depth and extract into its type; the other kinds never look at the
      schema and extract into the extractor's own type. The rejection
      variant is always the extractor's name. */
  lemma BodyExtractors(body: RequestBody, depth: nat)
    requires |body.content| == 1 && body.content[0].media.schema.Some?
    ensures var e := body.content[0];
            var kind := KindOf(e.mime);
            var name := ExtractorName(kind);
            var r := CompileBody(Some(body), depth);
            && ((kind == JsonBody || kind == FormBody) ==>
                  var c := CompileSchema(e.media.schema.value, None, depth);
                  && (r.Ok? <==> c.Ok?)
                  && (c.Err? ==> r == Err(c.error))
                  && (r.Ok? ==> r.value == CompiledBody(Some(Extractor(c.value.ty, AxumExtract(name), name)), c.value.decls)))
            && ((kind != JsonBody && kind != FormBody) ==>
                  r == Ok(CompiledBody(Some(Extractor(AxumExtract(name), AxumExtract(name), name)), [])))
  {
  }

  /** A JSON body that refers to a component extracts into that component
      reached through one `super` per enclosing module, and declares
      nothing. */
  lemma RefBodyHops(mime: string, refPath: string, depth: nat)
    requires KindOf(mime) == JsonBody
    ensures CompileBody(Some(RequestBody([MediaEntry(mime, MediaType(Some(Ref(refPath))))])), depth)
            == Ok(CompiledBody(Some(Extractor(SchemasPath(depth, AfterLast(refPath, '/')), AxumExtract("Json"), "Json")), []))
  {
    RefCompiles(refPath, None, depth);
  }

  /** The body's rejection variant exists in the runtime `Rejection` enum
      exactly when the body is neither multipart nor text. */
  lemma BodyRejection(body: RequestBody, depth: nat)
    ensures var r := CompileBody(Some(body), depth);
            r.Ok? ==>
              && |body.content| == 1
              && r.value.extractor.Some?
              && var kind := KindOf(body.content[0].mime);
                 (r.value.extractor.value.rejection in RuntimeRejections
                  <==> kind != MultipartBody && kind != TextBody)
  {
  }

  /** The lookups' errors, reported at the path's first segment. */
  lemma MethodLookupErrors(spec: Spec, m: MethodItem, depth: nat)
    requires LookupsReportable(spec, m)
    ensures OapiPath(m.path) !in spec.paths ==>
              CompileMethod(spec, m, depth) == Err(Error(PathNotFound, PathSpan(m.path)))
    ensures OapiPath(m.path) in spec.paths && OperationFor(spec.paths[OapiPath(m.path)], m.verb).None? ==>
              CompileMethod(spec, m, depth) == Err(Error(MethodNotFound, PathSpan(m.path)))
  {
  }

  /** Once the operation is found, the first path identifier that fails
      decides the method's error. */
  lemma MethodPathParamError(spec: Spec, m: MethodItem, depth: nat, e: nat)
    requires LookupsReportable(spec, m)
    requires ResolveOperation(spec, m).Ok?
    requires e < |ParamNames(m.path)|
    requires var ps := ResolveOperation(spec, m).value.parameters;
             && (forall j :: 0 <= j < e ==> CompilePathParam(ps, ParamNames(m.path)[j], depth).Ok?)
             && CompilePathParam(ps, ParamNames(m.path)[e], depth).Err?
    ensures var ps := ResolveOperation(spec, m).value.parameters;
            CompileMethod(spec, m, depth) == Err(CompilePathParam(ps, ParamNames(m.path)[e], depth).error)
  {
    var ps := ResolveOperation(spec, m).value.parameters;
    PathParamsFirstError(ps, ParamNames(m.path), 0, e, depth);
  }

  /** Once the path parameters compile, the first query parameter that
      fails decides the method's error. */
  lemma MethodQueryParamError(spec: Spec, m: MethodItem, depth: nat, e: nat)
    requires LookupsReportable(spec, m)
    requires ResolveOperation(spec, m).Ok?
    requires CompilePathParams(ResolveOperation(spec, m).value.parameters, ParamNames(m.path), 0, depth).Ok?
    requires var qs := QueryParams(ResolveOperation(spec, m).value.parameters);
             && e < |qs|
             && (forall j :: 0 <= j < e ==> CompileParam(qs[j], depth).Ok?)
             && CompileParam(qs[e], depth).Err?
    ensures var qs := QueryParams(ResolveOperation(spec, m).value.parameters);
            CompileMethod(spec, m, depth) == Err(CompileParam(qs[e], depth).error)
  {
    QueryParamsFirstError(QueryParams(ResolveOperation(spec, m).value.parameters), 0, e, depth);
  }

  /** Once the path and query parameters compile, a body that fails gives
      the method's error. */
  lemma MethodBodyError(spec: Spec, m: MethodItem, depth: nat)
    requires LookupsReportable(spec, m)
    requires ResolveOperation(spec, m).Ok?
    requires var op := ResolveOperation(spec, m).value;
             && CompilePathParams(op.parameters, ParamNames(m.path), 0, depth).Ok?
             && CompileQueryParams(QueryParams(op.parameters), 0, depth).Ok?
             && CompileBody(op.requestBody, depth).Err?
    ensures CompileMethod(spec, m, depth) == Err(CompileBody(ResolveOperation(spec, m).value.requestBody, depth).error)
  {
  }

  /** A compiled method serves the axum form of its declared path and was
      checked against the document entry under the OpenAPI form; its path
      fields are the path's identifiers, each typed by the parameter it
      resolves to, and its query fields are the operation's query
      parameters, each typed by its own schema. */
  lemma MethodLayout(spec: Spec, m: MethodItem, depth: nat)
    requires LookupsReportable(spec, m)
    ensures var r := CompileMethod(spec, m, depth);
            r.Ok? ==>
              && ResolveOperation(spec, m).Ok?
              && var op := ResolveOperation(spec, m).value;
                 var cm := r.value.cmethod;
                 && Some(op) == OperationFor(spec.paths[cm.oapiPath], m.verb)
                 && cm.verb == m.verb && cm.structName == m.structName && cm.structVis == m.structVis
                 && cm.axumPath == AxumPath(m.path) && cm.oapiPath == OapiPath(m.path)
                 && cm.pathNames == ParamNames(m.path)
                 && (forall j :: 0 <= j < |cm.pathNames| ==>
                       CompilePathParam(op.parameters, cm.pathNames[j], depth).Ok?
                       && cm.pathTypes[j] == CompilePathParam(op.parameters, cm.pathNames[j], depth).value.ty)
                 && cm.queryNames == NamesOf(QueryParams(op.parameters))
                 && (forall j :: 0 <= j < |cm.queryNames| ==>
                       CompileParam(QueryParams(op.parameters)[j], depth).Ok?
                       && cm.queryTypes[j] == CompileParam(QueryParams(op.parameters)[j], depth).value.ty)
                 && CompileBody(op.requestBody, depth).Ok?
                 && cm.extractor == CompileBody(op.requestBody, depth).value.extractor
  {
    if CompileMethod(spec, m, depth).Ok? {
      CompiledMethodParts(spec, m, depth);
      MethodPathFields(spec, m, depth);
      MethodQueryFields(spec, m, depth);
    }
  }

  /** A compiled method, taken apart into the results of its steps. */
  lemma CompiledMethodParts(spec: Spec, m: MethodItem, depth: nat)
    requires LookupsReportable(spec, m)
    requires CompileMethod(spec, m, depth).Ok?
    ensures ResolveOperation(spec, m).Ok?
    ensures var op := ResolveOperation(spec, m).value;
            var names := ParamNames(m.path);
            var qs := QueryParams(op.parameters);
            && CompilePathParams(op.parameters, names, 0, depth).Ok?
            && CompileQueryParams(qs, 0, depth).Ok?
            && CompileBody(op.requestBody, depth).Ok?
            && var pp, qp, b := CompilePathParams(op.parameters, names, 0, depth).value,
                                CompileQueryParams(qs, 0, depth).value,
                                CompileBody(op.requestBody, depth).value;
               CompileMethod(spec, m, depth).value
               == CompiledMethod(CMethod(m.verb, AxumPath(m.path), OapiPath(m.path), m.structName, m.structVis,
                                         names, pp.types, NamesOf(qs), qp.types, b.extractor),
                                 pp.decls + qp.decls + b.decls)
  {
  }

  lemma MethodPathFields(spec: Spec, m: MethodItem, depth: nat)
    requires LookupsReportable(spec, m)
    requires CompileMethod(spec, m, depth).Ok?
    ensures ResolveOperation(spec, m).Ok?
    ensures var ps := ResolveOperation(spec, m).value.parameters;
            var cm := CompileMethod(spec, m, depth).value.cmethod;
            forall j :: 0 <= j < |cm.pathNames| ==>
              CompilePathParam(ps, cm.pathNames[j], depth).Ok?
              && cm.pathTypes[j] == CompilePathParam(ps, cm.pathNames[j], depth).value.ty
  {
    CompiledMethodParts(spec, m, depth);
    var cm := CompileMethod(spec, m, depth).value.cmethod;
    PathFieldsTyped(ResolveOperation(spec, m).value.parameters, cm.pathNames, cm.pathTypes, depth);
  }

  lemma MethodQueryFields(spec: Spec, m: MethodItem, depth: nat)
    requires LookupsReportable(spec, m)
    requires CompileMethod(spec, m, depth).Ok?
    ensures ResolveOperation(spec, m).Ok?
    ensures var qs := QueryParams(ResolveOperation(spec, m).value.parameters);
            var cm := CompileMethod(spec, m, depth).value.cmethod;
            forall j :: 0 <= j < |cm.queryNames| ==>
              CompileParam(qs[j], depth).Ok? && cm.queryTypes[j] == CompileParam(qs[j], depth).value.ty
  {
    CompiledMethodParts(spec, m, depth);
    var cm := CompileMethod(spec, m, depth).value.cmethod;
    QueryFieldsTyped(QueryParams(ResolveOperation(spec, m).value.parameters), cm.queryNames, cm.queryTypes, depth);
  }

  /** The path loop's types, one per identifier, from the parameter each
      resolves to. */
  lemma PathFieldsTyped(ps: seq<Parameter>, names: seq<string>, types: seq<Ty>, depth: nat)
    requires CompilePathParams(ps, names, 0, depth).Ok?
    requires types == CompilePathParams(ps, names, 0, depth).value.types
    ensures |types| == |names|
    ensures forall j :: 0 <= j < |names| ==>
              CompilePathParam(ps, names[j], depth).Ok? && types[j] == CompilePathParam(ps, names[j], depth).value.ty
  {
    PathParamsLoop(ps, names, 0, depth);
    PathTypesInOrder(ps, names, 0, depth);
  }

  /** The query loop's types, one per query parameter, named after it. */
  lemma QueryFieldsTyped(qs: seq<Parameter>, names: seq<string>, types: seq<Ty>, depth: nat)
    requires CompileQueryParams(qs, 0, depth).Ok?
    requires names == NamesOf(qs) && types == CompileQueryParams(qs, 0, depth).value.types
    ensures |names| == |qs| && |types| == |qs|
    ensures forall j :: 0 <= j < |names| ==> CompileParam(qs[j], depth).Ok? && types[j] == CompileParam(qs[j], depth).value.ty
  {
    QueryParamsLoop(qs, 0, depth);
  }

  /** What a compiled method appends to the caller's sink: the path
      parameters' declarations in path order, then the query parameters'
      in parameter order, then the body's. */
  lemma MethodDecls(spec: Spec, m: MethodItem, depth: nat)
    requires LookupsReportable(spec, m)
    ensures var r := CompileMethod(spec, m, depth);
            r.Ok? ==>
              && ResolveOperation(spec, m).Ok?
              && var op := ResolveOperation(spec, m).value;
                 var qs := QueryParams(op.parameters);
                 && PathParamsOk(op.parameters, ParamNames(m.path), 0, depth)
                 && (forall j :: 0 <= j < |qs| ==> CompileParam(qs[j], depth).Ok?)
                 && CompileBody(op.requestBody, depth).Ok?
                 && r.value.decls == PathDecls(op.parameters, ParamNames(m.path), 0, depth)
                                     + QueryDecls(qs, 0, depth)
                                     + CompileBody(op.requestBody, depth).value.decls
  {
    if CompileMethod(spec, m, depth).Ok? {
      CompiledMethodParts(spec, m, depth);
      var op := ResolveOperation(spec, m).value;
      PathParamsLoop(op.parameters, ParamNames(m.path), 0, depth);
      QueryDeclsLoop(QueryParams(op.parameters), 0, depth);
    }
  }

  /** For identifier paths the route reads back as the declared path, and
      so does the template it was checked under; two compiled methods share
      a route exactly when they were checked against the same entry. */
  lemma RouteMatchesEntry(spec: Spec, m: MethodItem, depth: nat)
    requires LookupsReportable(spec, m)
    requires PlainPath(m.path)
    ensures var r := CompileMethod(spec, m, depth);
            r.Ok? ==>
              && DecodeAxum(r.value.cmethod.axumPath) == Some(m.path)
              && DecodeOapi(r.value.cmethod.oapiPath) == Some(m.path)
              && r.value.cmethod.oapiPath in spec.paths
  {
    AxumRoundTrip(m.path);
    OapiRoundTrip(m.path);
  }

  /** The two forms of the path a compiled method carries. */
  lemma CompiledPaths(spec: Spec, m: MethodItem, depth: nat)
    requires LookupsReportable(spec, m)
    ensures var r := CompileMethod(spec, m, depth);
            r.Ok? ==> r.value.cmethod.axumPath == AxumPath(m.path) && r.value.cmethod.oapiPath == OapiPath(m.path)
  {
  }

  lemma SameRouteSameEntry(spec: Spec, a: MethodItem, b: MethodItem, depth: nat)
    requires LookupsReportable(spec, a) && LookupsReportable(spec, b)
    requires PlainPath(a.path) && PlainPath(b.path)
    requires CompileMethod(spec, a, depth).Ok? && CompileMethod(spec, b, depth).Ok?
    ensures var ca, cb := CompileMethod(spec, a, depth).value.cmethod, CompileMethod(spec, b, depth).value.cmethod;
            ca.axumPath == cb.axumPath <==> ca.oapiPath == cb.oapiPath
  {
    CompiledPaths(spec, a, depth);
    CompiledPaths(spec, b, depth);
    EncodingsAgree(a.path, b.path);
  }

  /** The generated extractor's error arms all name variants the runtime
      `Rejection` enum has exactly when the body is not multipart or
      text. */
  lemma GeneratedRejections(spec: Spec, m: MethodItem, depth: nat)
    requires LookupsReportable(spec, m)
    requires CompileMethod(spec, m, depth).Ok?
    ensures var cm := CompileMethod(spec, m, depth).value.cmethod;
            var op := ResolveOperation(spec, m).value;
            var g := EmitMethod(cm);
            && (op.requestBody.None? ==> forall i :: 0 <= i < |g.steps| ==> RejectionOf(g.steps[i]) in RuntimeRejections)
            && (op.requestBody.Some? ==>
                  var kind := KindOf(op.requestBody.value.content[0].mime);
                  (forall i :: 0 <= i < |g.steps| ==> RejectionOf(g.steps[i]) in RuntimeRejections)
                  <==> kind != MultipartBody && kind != TextBody)
  {
    var cm := CompileMethod(spec, m, depth).value.cmethod;
    var op := ResolveOperation(spec, m).value;
    MethodLayout(spec, m, depth);
    RejectionsResolve(cm);
    ExtractionOrder(cm);
    if op.requestBody.Some? {
      BodyRejection(op.requestBody.value, depth);
    }
  }

  /** Reference definitions for the children loop: every child from `i`
      on compiles, and the items they compile to. */
  predicate ChildrenOk(spec: Spec, parent: ModuleItem, i: nat, depth: nat)
    requires i <= |parent.items| && ReportableItems(spec, parent.items)
    decreases |parent.items| - i
  {
    i == |parent.items| || (CompileItem(spec, parent.items[i], depth).Ok? && ChildrenOk(spec, parent, i + 1, depth))
  }

  function ChildItems(spec: Spec, parent: ModuleItem, i: nat, depth: nat): seq<CItem>
    requires i <= |parent.items| && ReportableItems(spec, parent.items) && ChildrenOk(spec, parent, i, depth)
    decreases |parent.items| - i
  {
    if i == |parent.items| then []
    else [CompileItem(spec, parent.items[i], depth).value.item] + ChildItems(spec, parent, i + 1, depth)
  }

  /** The declarations the children from `i` on append to the module's
      sink, each child's after the previous one's. */
  function ChildDecls(spec: Spec, parent: ModuleItem, i: nat, depth: nat): seq<Decl>
    requires i <= |parent.items| && ReportableItems(spec, parent.items) && ChildrenOk(spec, parent, i, depth)
    decreases |parent.items| - i
  {
    if i == |parent.items| then []
    else CompileItem(spec, parent.items[i], depth).value.decls + ChildDecls(spec, parent, i + 1, depth)
  }

  /** The children loop succeeds exactly when every child does, and then
      yields their compiled items. */
  lemma {:induction false} ChildrenLoop(spec: Spec, parent: ModuleItem, i: nat, depth: nat)
    requires i <= |parent.items|
    requires ReportableItems(spec, parent.items)
    ensures CompileChildren(spec, parent, i, depth).Ok? <==> ChildrenOk(spec, parent, i, depth)
    ensures ChildrenOk(spec, parent, i, depth) ==>
              && CompileChildren(spec, parent, i, depth).value.items == ChildItems(spec, parent, i, depth)
              && CompileChildren(spec, parent, i, depth).value.decls == ChildDecls(spec, parent, i, depth)
    decreases |parent.items| - i
  {
    if i < |parent.items| {
      ChildrenLoop(spec, parent, i + 1, depth);
      ChildrenStep(spec, parent, i, depth);
    }
  }

  lemma {:induction false} ChildrenOkEach(spec: Spec, parent: ModuleItem, i: nat, depth: nat)
    requires i <= |parent.items| && ReportableItems(spec, parent.items)
    ensures ChildrenOk(spec, parent, i, depth) <==>
              forall j :: i <= j < |parent.items| ==> CompileItem(spec, parent.items[j], depth).Ok?
    decreases |parent.items| - i
  {
    if i < |parent.items| {
      ChildrenOkEach(spec, parent, i + 1, depth);
    }
  }

  /** One compiled item per child, in order. */
  lemma {:induction false} ChildItemsInOrder(spec: Spec, parent: ModuleItem, i: nat, depth: nat)
    requires i <= |parent.items| && ReportableItems(spec, parent.items) && ChildrenOk(spec, parent, i, depth)
    ensures |ChildItems(spec, parent, i, depth)| == |parent.items| - i
    ensures forall j :: i <= j < |parent.items| ==>
              && CompileItem(spec, parent.items[j], depth).Ok?
              && ChildItems(spec, parent, i, depth)[j - i] == CompileItem(spec, parent.items[j], depth).value.item
    decreases |parent.items| - i
  {
    if i < |parent.items| {
      ChildItemsInOrder(spec, parent, i + 1, depth);
      ChildItemsCons(spec, parent, i, depth);
      forall j | i <= j < |parent.items|
        ensures && CompileItem(spec, parent.items[j], depth).Ok?
                && ChildItems(spec, parent, i, depth)[j - i] == CompileItem(spec, parent.items[j], depth).value.item
      {
        if j > i {
          assert ChildItems(spec, parent, i, depth)[j - i] == ChildItems(spec, parent, i + 1, depth)[j - (i + 1)];
        }
      }
    }
  }

  /** The first child's item in front of the rest's. */
  lemma ChildItemsCons(spec: Spec, parent: ModuleItem, i: nat, depth: nat)
    requires i < |parent.items| && ReportableItems(spec, parent.items) && ChildrenOk(spec, parent, i, depth)
    ensures CompileItem(spec, parent.items[i], depth).Ok? && ChildrenOk(spec, parent, i + 1, depth)
    ensures ChildItems(spec, parent, i, depth)
            == [CompileItem(spec, parent.items[i], depth).value.item] + ChildItems(spec, parent, i + 1, depth)
  {
  }

  /** One turn of the children loop. */
  lemma ChildrenStep(spec: Spec, parent: ModuleItem, i: nat, depth: nat)
    requires i < |parent.items|
    requires ReportableItems(spec, parent.items)
    ensures var r := CompileChildren(spec, parent, i, depth);
            var c := CompileItem(spec, parent.items[i], depth);
            var rest := CompileChildren(spec, parent, i + 1, depth);
            && (r.Ok? <==> c.Ok? && rest.Ok?)
            && (r.Ok? ==> r.value.items == [c.value.item] + rest.value.items)
            && (r.Ok? ==> r.value.decls == c.value.decls + rest.value.decls)
            && (c.Err? ==> r == Err(c.error))
  {
  }

  /** The first child that fails decides the children loop's error. */
  lemma {:induction false} ChildrenFirstError(spec: Spec, parent: ModuleItem, i: nat, e: nat, depth: nat)
    requires i <= e < |parent.items|
    requires ReportableItems(spec, parent.items)
    requires forall j :: i <= j < e ==> CompileItem(spec, parent.items[j], depth).Ok?
    requires CompileItem(spec, parent.items[e], depth).Err?
    ensures CompileChildren(spec, parent, i, depth) == Err(CompileItem(spec, parent.items[e], depth).error)
    decreases e - i
  {
    ChildrenStep(spec, parent, i, depth);
    if i < e {
      ChildrenFirstError(spec, parent, i + 1, e, depth);
    }
  }

  /** A module holds its compiled children in order, then the
      declarations they appended, in child order; it hands its caller
      none. Otherwise the first child that fails gives the module's
      error. */
  lemma ModuleLayout(spec: Spec, mi: ModuleItem, depth: nat)
    requires ReportableItems(spec, mi.items)
    ensures var r := CompileModule(spec, mi, depth);
            && (r.Ok? <==> forall j :: 0 <= j < |mi.items| ==> CompileItem(spec, mi.items[j], depth + 1).Ok?)
            && (r.Ok? ==>
                  && r.value.CModule? && r.value.vis == mi.vis && r.value.name == mi.name
                  && |mi.items| <= |r.value.items|
                  && (forall j :: 0 <= j < |mi.items| ==>
                        r.value.items[j] == CompileItem(spec, mi.items[j], depth + 1).value.item)
                  && (forall j :: |mi.items| <= j < |r.value.items| ==> r.value.items[j].CSchema?)
                  && ChildrenOk(spec, mi, 0, depth + 1)
                  && r.value.items[|mi.items|..] == AsItems(ChildDecls(spec, mi, 0, depth + 1)))
            && (forall e :: 0 <= e < |mi.items| && CompileItem(spec, mi.items[e], depth + 1).Err?
                            && (forall j :: 0 <= j < e ==> CompileItem(spec, mi.items[j], depth + 1).Ok?)
                            ==> r == Err(CompileItem(spec, mi.items[e], depth + 1).error))
    ensures CompileItem(spec, Module(mi), depth).Ok? ==>
              CompileItem(spec, Module(mi), depth).value == CompiledItem(CompileModule(spec, mi, depth).value, [])
  {
    ChildrenLoop(spec, mi, 0, depth + 1);
    ChildrenOkEach(spec, mi, 0, depth + 1);
    if ChildrenOk(spec, mi, 0, depth + 1) {
      ChildItemsInOrder(spec, mi, 0, depth + 1);
      var cs := CompileChildren(spec, mi, 0, depth + 1).value;
      ItemsThenDecls(cs.items, cs.decls);
    }
    forall e | 0 <= e < |mi.items| && CompileItem(spec, mi.items[e], depth + 1).Err?
                && (forall j :: 0 <= j < e ==> CompileItem(spec, mi.items[j], depth + 1).Ok?)
      ensures CompileChildren(spec, mi, 0, depth + 1) == Err(CompileItem(spec, mi.items[e], depth + 1).error)
    {
      ChildrenFirstError(spec, mi, 0, e, depth + 1);
    }
  }

  /** Items followed by declarations: the declarations fill exactly the
      positions after the items. */
  lemma ItemsThenDecls(items: seq<CItem>, decls: seq<Decl>)
    ensures var all := items + AsItems(decls);
            && |all| == |items| + |decls|
            && (forall j :: 0 <= j < |items| ==> all[j] == items[j])
            && all[|items|..] == AsItems(decls)
            && (forall j :: |items| <= j < |all| ==> all[j].CSchema?)
  {
  }

  /** The declarations of the components from `i` on, each component's
      after the previous one's. */
  function ComponentDecls(comps: seq<Component>, i: nat): seq<Decl>
    requires i <= |comps| && forall j :: i <= j < |comps| ==> CompileSchema(comps[j].schema, Some(comps[j].name), 1).Ok?
    decreases |comps| - i
  {
    if i == |comps| then []
    else CompileSchema(comps[i].schema, Some(comps[i].name), 1).value.decls + ComponentDecls(comps, i + 1)
  }

  /** The components are compiled under their own names one module deep,
      so that a reference among them climbs out of `schemas` once. */
  lemma {:induction false} ComponentsLoop(comps: seq<Component>, i: nat)
    requires i <= |comps|
    ensures var r := CompileComponents(comps, i);
            && (r.Ok? <==> forall j :: i <= j < |comps| ==> CompileSchema(comps[j].schema, Some(comps[j].name), 1).Ok?)
            && (r.Ok? ==> forall j, d :: i <= j < |comps| && d in CompileSchema(comps[j].schema, Some(comps[j].name), 1).value.decls
                                         ==> d in r.value)
    decreases |comps| - i
  {
    if i < |comps| {
      ComponentsLoop(comps, i + 1);
    }
  }

  /** One turn of the components loop. */
  lemma ComponentsStep(comps: seq<Component>, i: nat)
    requires i < |comps|
    ensures var r := CompileComponents(comps, i);
            var c := CompileSchema(comps[i].schema, Some(comps[i].name), 1);
            var rest := CompileComponents(comps, i + 1);
            && (r.Ok? <==> c.Ok? && rest.Ok?)
            && (r.Ok? ==> r.value == c.value.decls + rest.value)
            && (c.Err? ==> r == Err(c.error))
  {
  }

  /** The first component that fails decides the components loop's error. */
  lemma {:induction false} ComponentsFirstError(comps: seq<Component>, i: nat, e: nat)
    requires i <= e < |comps|
    requires forall j :: i <= j < e ==> CompileSchema(comps[j].schema, Some(comps[j].name), 1).Ok?
    requires CompileSchema(comps[e].schema, Some(comps[e].name), 1).Err?
    ensures CompileComponents(comps, i) == Err(CompileSchema(comps[e].schema, Some(comps[e].name), 1).error)
    decreases e - i
  {
    ComponentsStep(comps, i);
    if i < e {
      ComponentsFirstError(comps, i + 1, e);
    }
  }

  /** The `schemas` module's declarations are the components'
      declarations, component by component, in order. */
  lemma {:induction false} ComponentsInOrder(comps: seq<Component>, i: nat)
    requires i <= |comps|
    ensures var r := CompileComponents(comps, i);
            r.Ok? ==> (forall j :: i <= j < |comps| ==> CompileSchema(comps[j].schema, Some(comps[j].name), 1).Ok?)
                      && r.value == ComponentDecls(comps, i)
    decreases |comps| - i
  {
    if i < |comps| {
      ComponentsInOrder(comps, i + 1);
      ComponentsStep(comps, i);
    }
  }

  /** The output of the top-level items from `i` on: each compiled item
      directly followed by the declarations it appended. */
  function TopItemsOf(spec: Spec, items: seq<Item>, i: nat): seq<CItem>
    requires i <= |items| && ReportableItems(spec, items)
    requires forall j :: i <= j < |items| ==> CompileItem(spec, items[j], 0).Ok?
    decreases |items| - i
  {
    if i == |items| then []
    else
      var c := CompileItem(spec, items[i], 0).value;
      [c.item] + AsItems(c.decls) + TopItemsOf(spec, items, i + 1)
  }

  /** Every top-level item is compiled at depth zero and appears in the
      output followed by its declarations. */
  lemma {:induction false} TopItemsLoop(spec: Spec, items: seq<Item>, i: nat)
    requires i <= |items|
    requires ReportableItems(spec, items)
    ensures var r := CompileTopItems(spec, items, i);
            && (r.Ok? <==> forall j :: i <= j < |items| ==> CompileItem(spec, items[j], 0).Ok?)
            && (r.Ok? ==> forall j :: i <= j < |items| ==> CompileItem(spec, items[j], 0).value.item in r.value)
    decreases |items| - i
  {
    if i < |items| {
      TopItemsLoop(spec, items, i + 1);
      TopItemsStep(spec, items, i);
    }
  }

  /** The top-level output is exactly each compiled item directly followed
      by its declarations, item by item, in order. */
  lemma {:induction false} TopItemsInOrder(spec: Spec, items: seq<Item>, i: nat)
    requires i <= |items|
    requires ReportableItems(spec, items)
    ensures var r := CompileTopItems(spec, items, i);
            r.Ok? ==> (forall j :: i <= j < |items| ==> CompileItem(spec, items[j], 0).Ok?)
                      && r.value == TopItemsOf(spec, items, i)
    decreases |items| - i
  {
    if i < |items| {
      TopItemsInOrder(spec, items, i + 1);
      TopItemsStep(spec, items, i);
    }
  }

  /** One turn of the top-level loop. */
  lemma TopItemsStep(spec: Spec, items: seq<Item>, i: nat)
    requires i < |items|
    requires ReportableItems(spec, items)
    ensures var r := CompileTopItems(spec, items, i);
            var c := CompileItem(spec, items[i], 0);
            var rest := CompileTopItems(spec, items, i + 1);
            && (r.Ok? <==> c.Ok? && rest.Ok?)
            && (r.Ok? ==> r.value == [c.value.item] + AsItems(c.value.decls) + rest.value)
            && (c.Err? ==> r == Err(c.error))
  {
  }

  /** The first top-level item that fails decides the loop's error. */
  lemma {:induction false} TopItemsFirstError(spec: Spec, items: seq<Item>, i: nat, e: nat)
    requires i <= e < |items|
    requires ReportableItems(spec, items)
    requires forall j :: i <= j < e ==> CompileItem(spec, items[j], 0).Ok?
    requires CompileItem(spec, items[e], 0).Err?
    ensures CompileTopItems(spec, items, i) == Err(CompileItem(spec, items[e], 0).error)
    decreases e - i
  {
    TopItemsStep(spec, items, i);
    if i < e {
      TopItemsFirstError(spec, items, i + 1, e);
    }
  }

  /** The `schemas` module comes first, public, holding the components'
      declarations; the declared items follow; and the whole tree is ready
      for emission, one emitted item per compiled one. Otherwise the first
      component that fails gives the error, and only when all components
      compile does the first failing item give it. */
  lemma RootLayout(spec: Spec, root: Root)
    requires spec.components.Some?
    requires ReportableItems(spec, root.items)
    ensures var r := CompileRoot(spec, root);
            && (r.Ok? <==> CompileComponents(spec.components.value, 0).Ok? && CompileTopItems(spec, root.items, 0).Ok?)
            && (r.Ok? ==>
                  && |r.value.items| >= 1
                  && r.value.items[0] == CModule(Pub, "schemas", AsItems(CompileComponents(spec.components.value, 0).value))
                  && r.value.items[1..] == CompileTopItems(spec, root.items, 0).value
                  && |EmitRoot(r.value)| == |r.value.items|)
            && var comps := spec.components.value;
               && (forall e :: 0 <= e < |comps| && CompileSchema(comps[e].schema, Some(comps[e].name), 1).Err?
                               && (forall j :: 0 <= j < e ==> CompileSchema(comps[j].schema, Some(comps[j].name), 1).Ok?)
                               ==> r == Err(CompileSchema(comps[e].schema, Some(comps[e].name), 1).error))
               && (forall e :: 0 <= e < |root.items| && CompileItem(spec, root.items[e], 0).Err?
                               && (forall j :: 0 <= j < |comps| ==> CompileSchema(comps[j].schema, Some(comps[j].name), 1).Ok?)
                               && (forall j :: 0 <= j < e ==> CompileItem(spec, root.items[j], 0).Ok?)
                               ==> r == Err(CompileItem(spec, root.items[e], 0).error))
  {
    var r := CompileRoot(spec, root);
    if r.Ok? {
      EmitItemsInOrder(r.value.items);
    }
    var comps := spec.components.value;
    ComponentsLoop(comps, 0);
    forall e | 0 <= e < |comps| && CompileSchema(comps[e].schema, Some(comps[e].name), 1).Err?
                && (forall j :: 0 <= j < e ==> CompileSchema(comps[j].schema, Some(comps[j].name), 1).Ok?)
      ensures CompileComponents(comps, 0) == Err(CompileSchema(comps[e].schema, Some(comps[e].name), 1).error)
    {
      ComponentsFirstError(comps, 0, e);
    }
    forall e | 0 <= e < |root.items| && CompileItem(spec, root.items[e], 0).Err?
                && (forall j :: 0 <= j < e ==> CompileItem(spec, root.items[j], 0).Ok?)
      ensures CompileTopItems(spec, root.items, 0) == Err(CompileItem(spec, root.items[e], 0).error)
    {
      TopItemsFirstError(spec, root.items, 0, e);
    }
  }
}
