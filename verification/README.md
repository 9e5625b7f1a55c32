# validate_routes! compile-time pipeline, in Dafny

This project models the procedural macro `validate_routes!` from the
axum-open-api-codegen crate. The macro reads a small routing language and
checks every declared route against an OpenAPI document. It then generates
one typed request struct per route, together with its axum extractor.
The model covers the four pure stages of that pipeline:

- **Parsing** (`parsing.dfy`) covers the `path = "..";` header and
  `vis mod name { .. }` modules. It also covers methods of the form
  `VERB /a/{b} as vis Name;`, read from an abstract token tree with syn's
  cursor discipline: no rollback after a failed step, and stray tokens are
  reported at the end.
- **The schema compiler** (`schema_compiler.dfy`, `rust_types.dfy`,
  `openapi.dfy`) turns an OpenAPI schema into a Rust type term. It also
  turns every named type the schema needs into a declaration appended to
  a sink.
- **The route compiler** (`compilation.dfy`, `path_encoding.dfy`) resolves
  each method's path and verb in the document. It resolves and checks the
  path parameters, collects the query parameters and picks the body
  extractor from the media type. It places declarations by module depth,
  and converts the declared path to its axum form (`/:x`) and its OpenAPI
  form (`/{x}`).
- **The emitter** (`codegen.dfy`) is modelled as the structure of what each
  compiled item expands to, not as token text. That structure is the
  struct fields, the route and router method, the extractor trait, the
  extraction steps with their rejection variants, and the `Self { .. }`
  field list.

`common.dfy` holds the shared `Option`, `Result`, `Error`, `Span` and `Vis`
types. It also holds the text helpers for Rust's `split(c).next()` and
`split(c).last()`.

The declaration sink is write-only in the source, and errors abort the
whole compilation. Each compile function therefore returns the declarations
it appends. The caller's sink afterwards is its old contents followed by
those declarations.

The model follows the code as written, including these easily missed
behaviours:

- `allOf`/`anyOf` are refused before `oneOf` is looked at.
- Declarations are never deduplicated, and nested declarations are not
  bubbled up. A module gets a sink of its own, and its children's
  declarations stay inside it.
- A `multipart/form-data` body without a schema is an error, as is any
  other body media type without one.
- A failure inside a module's braces is fatal to that module, but not to
  the input. `Item::parse` discards a failed module attempt with
  `if let Ok` and tries a method where the module attempt stopped. At the
  root, `while let Ok` then simply stops. So `path = "x"; mod Users { GET }`
  is accepted, with no items and no error.

## Model

| member | source | states |
|---|---|---|
| Parsing.ParseVerb | axum-open-api-codegen/src/parsing/mod.rs:151-163 | A verb is one identifier. Success returns the verb whose upper-case name is that identifier, and only the five parseable verbs. Any other identifier fails with "Invalid method" at that identifier and stays consumed. |
| Parsing.VerbNamedExactly | axum-open-api-codegen/src/parsing/mod.rs:154-161 | Exactly GET, POST, PUT, DELETE and PATCH are recognised; HEAD, OPTIONS and TRACE are not. None of the five is a Rust keyword. |
| Parsing.ParseVerbAccepts | axum-open-api-codegen/src/parsing/mod.rs:151-163 | The verb parser succeeds exactly on an identifier among the five names. |
| Parsing.DisplayThenParse | axum-open-api-codegen/src/parsing/mod.rs:151-178 | Parsing a verb's `Display` text gives back the verb for the five parseable verbs. For HEAD, OPTIONS and TRACE it fails with "Invalid method". |
| Parsing.LowerNameIsLowercasedDisplay | axum-open-api-codegen/src/parsing/mod.rs:165-193 | The `ToTokens` name of every verb is the ASCII lower-case form of its `Display` name. |
| Parsing.ParsePath | axum-open-api-codegen/src/parsing/mod.rs:133-149 | The path parser stops, having read nothing, at the first token that is not `/`; a path of zero segments is accepted. |
| Parsing.PathRoundTrip | axum-open-api-codegen/src/parsing/mod.rs:133-149 | Rendering identifier segments (`/x` or `/{x}`) and parsing them back gives the same segments, however the rest of the input continues after a non-`/` token. |
| Parsing.PathSound | axum-open-api-codegen/src/parsing/mod.rs:133-149 | Whatever the path parser accepts is exactly the rendering of the segments it returns. |
| Parsing.ParseMethod | axum-open-api-codegen/src/parsing/mod.rs:97-114 | A parsed method starts with its verb's name and consumes at least that token. |
| Parsing.ParseMethodTail | axum-open-api-codegen/src/parsing/mod.rs:102-112 | After the path, `as vis Name ;` completes the method, keeping the verb and path already read. |
| Parsing.MethodRoundTrip | axum-open-api-codegen/src/parsing/mod.rs:97-114 | A well-formed method `VERB path as vis Name ;` renders to tokens that parse back to the same method. |
| Parsing.TailSound | axum-open-api-codegen/src/parsing/mod.rs:102-112 | Whatever the tail parser accepts is exactly the rendering of `as vis Name ;`. |
| Parsing.MethodSound | axum-open-api-codegen/src/parsing/mod.rs:97-114 | Whatever the method parser accepts is exactly the rendering of the method it returns. |
| Parsing.MethodRefusesNonIdent | axum-open-api-codegen/src/parsing/mod.rs:97-99 | A method must start with an identifier; otherwise nothing is consumed. |
| Parsing.ModuleRefusesNonMod | axum-open-api-codegen/src/parsing/mod.rs:80-84 | The module parser fails without consuming input that starts with neither `pub` nor `mod`. |
| Parsing.ModuleRefusesPubNonMod | axum-open-api-codegen/src/parsing/mod.rs:80-84 | A `pub` not followed by `mod` fails the module parser with the `pub` consumed. |
| Parsing.FailedModuleDropped | axum-open-api-codegen/src/parsing/mod.rs:71-127 | `path = "x"; mod Users { GET }` is accepted as a root with no items. The module's failure consumed the whole group, the method attempt after it fails, and the root loop stops quietly. |
| Parsing.StrayPubBeforeMethod | axum-open-api-codegen/src/parsing/mod.rs:71-78 | An item is tried as a module first, with no rollback. So `pub VERB path as vis Name;` parses as the method, and the leading `pub` is silently dropped. |
| Parsing.ItemRefusesPunct | axum-open-api-codegen/src/parsing/mod.rs:71-78 | An item cannot start with punctuation: both attempts fail without consuming anything. |
| Parsing.ItemFallsThrough | axum-open-api-codegen/src/parsing/mod.rs:71-78 | When both the module and the method attempt fail without consuming input, the item parser fails the same way. The method's error is the one returned. |
| Parsing.ItemAfterFailedModule | axum-open-api-codegen/src/parsing/mod.rs:71-78 | After a failed module attempt, the item is whatever the method parser makes of the tokens after those the module attempt consumed. It succeeds exactly when the method does, consumes both attempts' tokens, and on failure reports the method's error. |
| Parsing.ParseModule | axum-open-api-codegen/src/parsing/mod.rs:80-95 | A parsed module consumes input. |
| Parsing.ModuleRoundTrip | axum-open-api-codegen/src/parsing/mod.rs:80-95 | `vis mod name { items }` parses back to the module when its braced items do. |
| Parsing.ParseItemsIn | axum-open-api-codegen/src/parsing/mod.rs:88-91 | Inside a module's braces, items are read until the group is empty, so success consumes the whole group. An item that fails there fails the whole body with that item's error. |
| Parsing.ItemRoundTrip | axum-open-api-codegen/src/parsing/mod.rs:71-95 | Every well-formed item, however deeply nested, renders to tokens that parse back to it. |
| Parsing.ItemsInRoundTrip | axum-open-api-codegen/src/parsing/mod.rs:88-91 | A well-formed item list renders to a brace-group body that parses back to the list. |
| Parsing.ParseItemsWhileOk | axum-open-api-codegen/src/parsing/mod.rs:124-127 | The root's item loop never fails: an item that does not parse ends it, and it never reads past the input. |
| Parsing.WhileOkStops | axum-open-api-codegen/src/parsing/mod.rs:124-127 | At punctuation or at the end of input the root loop stops, having read nothing. |
| Parsing.ItemsWhileOkRoundTrip | axum-open-api-codegen/src/parsing/mod.rs:124-127 | The root loop reads back every rendered item of a well-formed list and stops before trailing punctuation. |
| Parsing.ParseRoot | axum-open-api-codegen/src/parsing/mod.rs:116-131 | A parsed root begins with the header `path = "lit" ;` naming its spec path. |
| Parsing.RootHeader | axum-open-api-codegen/src/parsing/mod.rs:116-131 | After the header, the items are whatever the root loop reads, and their leftovers carry through. |
| Parsing.ParseMacroInput | axum-open-api-codegen/src/parsing/mod.rs:116-131 | The macro input parses exactly when the root parses, left no stray token in a brace group, and consumed every token. |
| Parsing.RootRoundTrip | axum-open-api-codegen/src/parsing/mod.rs:116-131 | A well-formed declaration tree renders to macro input that parses back to the same tree. |
| Parsing.TrailingPunctRefused | axum-open-api-codegen/src/parsing/mod.rs:124-129 | Trailing punctuation quietly ends the root loop. The entry point then rejects it with "unexpected token" at that token. |
| SchemaCompiler.MergeTitles | axum-open-api-codegen/src/compilation/schema.rs:196-205 | An explicit title wins over the schema's own title. With neither, the result is the "Anonymous schema's are not supported" error. |
| SchemaCompiler.RefCompiles | axum-open-api-codegen/src/compilation/schema.rs:67-72 | A `$ref` compiles, whatever the title, to `super::` written `depth` times, then `schemas::` and the text after the reference's last `/`. It declares nothing. |
| SchemaCompiler.CombinatorsRefused | axum-open-api-codegen/src/compilation/schema.rs:39-44 | A non-empty `allOf` or `anyOf` is refused, even when `oneOf` is also present. |
| SchemaCompiler.KindRequired | axum-open-api-codegen/src/compilation/schema.rs:51-54 | A schema with neither `oneOf` nor a type is refused. |
| SchemaCompiler.PrimitiveSchema | axum-open-api-codegen/src/compilation/schema.rs:60-63 | Strings, numbers, integers and booleans map to `String`, `f64`, `i64` and `bool`. A titled primitive declares one alias under its title and is used by that name. An untitled one is the primitive itself, with nothing declared. |
| SchemaCompiler.ArraySchema | axum-open-api-codegen/src/compilation/schema.rs:110-141 | An array without `items` is refused. Otherwise the element is compiled untitled first and the array is `Vec<elem>`. With a title, one alias to it is declared after the element's declarations; without one, the title failure is swallowed. |
| SchemaCompiler.FieldWrapping | axum-open-api-codegen/src/compilation/schema.rs:153-161 | A property's field keeps the property's name. Its type is the compiled type exactly when the name is in `required`, and `Option` of it otherwise. |
| SchemaCompiler.FieldsLoop | axum-open-api-codegen/src/compilation/schema.rs:153-162 | The property loop succeeds exactly when every property compiles. It then yields the reference field list and the properties' declarations in order. |
| SchemaCompiler.FieldsFirstError | axum-open-api-codegen/src/compilation/schema.rs:153-162 | When the properties before one all compile and that one fails, the property loop fails with that property's error. |
| SchemaCompiler.PropsOkEach | axum-open-api-codegen/src/compilation/schema.rs:153-162 | The recursive success condition holds exactly when each property compiles on its own. |
| SchemaCompiler.PropFieldsInOrder | axum-open-api-codegen/src/compilation/schema.rs:153-162 | There is one field per property, in property order, built from that property's compiled type. |
| SchemaCompiler.ObjectSchema | axum-open-api-codegen/src/compilation/schema.rs:143-173 | An object needs a title and compiles exactly when all its properties do. It is used by its title. It declares its properties' declarations followed by exactly one struct with one field per property. When the title is present and a property fails, the first failing property's error is the object's error. |
| SchemaCompiler.VariantsLoop | axum-open-api-codegen/src/compilation/schema.rs:84-97 | The alternative loop succeeds exactly when every alternative compiles untitled. It then yields the reference variants and declarations in order. |
| SchemaCompiler.VariantsFirstError | axum-open-api-codegen/src/compilation/schema.rs:84-97 | When the alternatives before one all compile and that one fails, the alternative loop fails with that alternative's error. |
| SchemaCompiler.AltsOkEach | axum-open-api-codegen/src/compilation/schema.rs:84-97 | The recursive success condition holds exactly when each alternative compiles on its own. |
| SchemaCompiler.AltVariantsInOrder | axum-open-api-codegen/src/compilation/schema.rs:84-97 | There is one variant per alternative, in order, carrying that alternative's compiled type. |
| SchemaCompiler.OneOfSchema | axum-open-api-codegen/src/compilation/schema.rs:74-108 | A `oneOf` needs a title and compiles exactly when all alternatives do. It declares their declarations followed by exactly one enum with one variant per alternative. When the title is present and an alternative fails, the first failing alternative's error is the `oneOf`'s error. |
| SchemaCompiler.OneOfExample | axum-open-api/tests/test.rs:38-47 | The shape the test relies on: a titled number, an untitled string and a reference. They compile to an alias and an enum with variants tagged by the number's title, by `String`, and by the referenced name. |
| SchemaCompiler.ParamWrapping | axum-open-api-codegen/src/compilation/schema.rs:11-24 | A parameter without a schema is refused. Otherwise the type is the schema's compiled type exactly when `required` is `Some(true)`, and `Option` of it when `required` is false or absent. A schema that fails gives the parameter's error. |
| RustTypes.PieceStartSpec | axum-open-api-codegen/src/compilation/schema.rs:86-93 | The last `::` piece starts at the beginning or right after a separator, and no separator starts inside it. |
| RustTypes.LastPieceSpec | axum-open-api-codegen/src/compilation/schema.rs:86-93 | The last piece is a suffix with no separator in it, and is either the whole text or preceded by a separator. |
| RustTypes.SchemasPathTag | axum-open-api-codegen/src/compilation/schema.rs:86-93 | The tag of a referenced component is the UpperCamel form of its name with the space that precedes it in the token text, whatever the number of `super` hops. |
| RustTypes.NamedTag | axum-open-api-codegen/src/compilation/schema.rs:86-93 | A declared name is its own last piece, so it is its own tag source. |
| RustTypes.PrimTag | axum-open-api-codegen/src/compilation/schema.rs:86-93 | A primitive's tag source is its type name. |
| PathEncoding.AxumRoundTrip | axum-open-api-codegen/src/compilation/mod.rs:222-234 | The axum form of an identifier path reads back segment by segment as the same path. |
| PathEncoding.OapiRoundTrip | axum-open-api-codegen/src/compilation/mod.rs:236-248 | The OpenAPI form of an identifier path reads back as the same path. |
| PathEncoding.EncodingsAgree | axum-open-api-codegen/src/compilation/mod.rs:222-248 | Two identifier paths have the same axum form exactly when they are equal, and likewise for the OpenAPI form. |
| PathEncoding.PathsStartWithSlash | axum-open-api-codegen/src/compilation/mod.rs:222-248 | Both forms are empty exactly for the empty path, and otherwise start with `/`. |
| PathEncoding.AxumPathAppend | axum-open-api-codegen/src/compilation/mod.rs:222-234 | The axum form is built segment by segment: the form of a concatenation is the concatenation of the forms. |
| PathEncoding.OapiPathAppend | axum-open-api-codegen/src/compilation/mod.rs:236-248 | The same holds for the OpenAPI form. |
| PathEncoding.ParamNamesAppend | axum-open-api-codegen/src/compilation/mod.rs:250-254 | The parameter identifiers of a concatenation are those of each part, in order. |
| PathEncoding.ParamNamesMembers | axum-open-api-codegen/src/compilation/mod.rs:250-254 | A name is among the parameter identifiers exactly when some parameter segment carries it. There are never more identifiers than segments. |
| Compilation.ResolveOperation | axum-open-api-codegen/src/compilation/mod.rs:92-108 | The operation is found exactly when the OpenAPI form of the path is a document path and that entry has the verb. Otherwise the error is "Path not found in OpenAPI spec" or "Method not found in OpenAPI spec", at the path's first segment. |
| Compilation.FirstNamed | axum-open-api-codegen/src/compilation/mod.rs:114-118 | The position of the first parameter with the given name, or the list's length when none has it. |
| Compilation.PathParamResolution | axum-open-api-codegen/src/compilation/mod.rs:112-128 | A path identifier resolves exactly when the first parameter of that name is located in the path. With no such parameter, the error is "Path parameter X not found". When the first one lies elsewhere, it is "is not in: `path`", even if a later namesake is in the path. Both errors are reported at the identifier. |
| Compilation.PathParamsLoop | axum-open-api-codegen/src/compilation/mod.rs:111-131 | The path-parameter loop succeeds exactly when every identifier resolves and compiles. It then yields their types in the reference order, and appends each identifier's declarations after the previous one's. |
| Compilation.PathParamsOkEach | axum-open-api-codegen/src/compilation/mod.rs:111-131 | The recursive success condition holds exactly when each identifier resolves and compiles on its own. |
| Compilation.PathTypesInOrder | axum-open-api-codegen/src/compilation/mod.rs:111-131 | One type per path identifier, in path order, each compiled from the parameter that identifier resolves to. |
| Compilation.PathParamsFirstError | axum-open-api-codegen/src/compilation/mod.rs:111-131 | The first identifier that fails decides the loop's error. |
| Compilation.QueryParamsFilter | axum-open-api-codegen/src/compilation/mod.rs:136-141 | The query parameters are exactly the operation's parameters located in the query, whatever the declared path. |
| Compilation.QueryParamsAppend | axum-open-api-codegen/src/compilation/mod.rs:136-141 | The filter keeps parameter-list order: it distributes over concatenation. |
| Compilation.QueryParamsLoop | axum-open-api-codegen/src/compilation/mod.rs:133-144 | The query loop succeeds exactly when every query parameter compiles. It then yields one type per parameter, in order. |
| Compilation.QueryParamsFirstError | axum-open-api-codegen/src/compilation/mod.rs:136-144 | When the query parameters before one all compile and that one fails, the query loop fails with that parameter's error. |
| Compilation.QueryDeclsLoop | axum-open-api-codegen/src/compilation/mod.rs:133-144 | The query loop appends each query parameter's declarations after the previous one's, in parameter order. |
| Compilation.BodyErrors | axum-open-api-codegen/src/compilation/mod.rs:147-156 | No body means no extractor. A body whose content does not hold exactly one media type is refused. A media type without a schema is refused, whatever the media type. |
| Compilation.MediaTypeKinds | axum-open-api-codegen/src/compilation/mod.rs:158-198 | For `top/sub`, `application/json`, `application/x-www-form-urlencoded` and `multipart/form-data` are recognised by both halves. `text/*` is recognised by the top level alone, and everything else is raw bytes. |
| Compilation.MiddleIgnored | axum-open-api-codegen/src/compilation/mod.rs:158-161 | Only the text before the first `/` and after the last `/` is looked at. `top/mid/sub` is treated like `top/sub`. |
| Compilation.BodyExtractors | axum-open-api-codegen/src/compilation/mod.rs:157-198 | JSON and form bodies compile their schema untitled at the method's depth and extract into that type; a schema that fails gives the body's error. Multipart, text and byte bodies never look at the schema and extract into the extractor type itself. The rejection variant is always the extractor's name. |
| Compilation.RefBodyHops | axum-open-api-codegen/src/compilation/mod.rs:162-170 | A JSON body that refers to a component extracts into that component through one `super` per enclosing module, and declares nothing. |
| Compilation.BodyRejection | axum-open-api-codegen/src/compilation/mod.rs:180-197 | A compiled body's rejection variant exists in the runtime `Rejection` enum exactly when the body is neither multipart nor text. |
| Compilation.CompileMethod | axum-open-api-codegen/src/compilation/mod.rs:86-218 | A compiled method has as many path types as path identifiers and as many query types as query names, so it can always be emitted. |
| Compilation.MethodLookupErrors | axum-open-api-codegen/src/compilation/mod.rs:92-108 | A method whose path or verb is missing from the document fails with the matching message, reported at the path. |
| Compilation.MethodPathParamError | axum-open-api-codegen/src/compilation/mod.rs:110-131 | Once the operation is found, the first path identifier that fails decides the method's error. |
| Compilation.MethodQueryParamError | axum-open-api-codegen/src/compilation/mod.rs:133-144 | Once the path parameters compile, the first query parameter that fails gives the method's error. |
| Compilation.MethodBodyError | axum-open-api-codegen/src/compilation/mod.rs:146-202 | Once the path and query parameters compile, a body that fails gives the method's error. |
| Compilation.MethodLayout | axum-open-api-codegen/src/compilation/mod.rs:86-218 | A compiled method keeps the verb, struct name and visibility. It serves the axum form of its path and was checked under the OpenAPI form. Its path fields are the path's identifiers, typed by the parameters they resolve to. Its query fields are the operation's query parameters, typed by their schemas. |
| Compilation.MethodDecls | axum-open-api-codegen/src/compilation/mod.rs:110-202 | A compiled method appends to its caller's sink the path parameters' declarations in path order, then the query parameters' in parameter order, then the body's. |
| Compilation.RouteMatchesEntry | axum-open-api-codegen/src/compilation/mod.rs:92-96 | For identifier paths, the served route and the document entry it was checked under both read back as the declared path, and that entry exists. |
| Compilation.SameRouteSameEntry | axum-open-api-codegen/src/compilation/mod.rs:204-207 | Two compiled methods share a route exactly when they were checked against the same document path. |
| Compilation.GeneratedRejections | axum-open-api-codegen/src/compilation/mod.rs:180-191 | Every error arm of a generated extractor names a variant of the runtime `Rejection` enum exactly when the body is not multipart or text. Without a body, they always do. |
| Compilation.CompileItem | axum-open-api-codegen/src/compilation/mod.rs:47-61 | A compiled item can be emitted. A module appends nothing to the caller's sink. |
| Compilation.ChildrenLoop | axum-open-api-codegen/src/compilation/mod.rs:71-73 | The children loop succeeds exactly when every child compiles. It then yields the reference list of compiled children, and the module's sink holds each child's declarations after the previous one's. |
| Compilation.ChildrenFirstError | axum-open-api-codegen/src/compilation/mod.rs:71-73 | When the children before one all compile and that one fails, the children loop fails with that child's error. |
| Compilation.ChildrenOkEach | axum-open-api-codegen/src/compilation/mod.rs:71-73 | The recursive success condition holds exactly when each child compiles on its own. |
| Compilation.ChildItemsInOrder | axum-open-api-codegen/src/compilation/mod.rs:71-73 | There is one compiled item per child, in order. |
| Compilation.ModuleLayout | axum-open-api-codegen/src/compilation/mod.rs:63-84 | A module compiles exactly when each child compiles one level deeper. It keeps its visibility and name. It holds the compiled children in order, followed by exactly the declarations the children appended, in child order. It gives its caller none. Otherwise the first failing child's error is the module's error. |
| Compilation.CompileModule | axum-open-api-codegen/src/compilation/mod.rs:63-84 | A compiled module can be emitted. |
| Compilation.ComponentsLoop | axum-open-api-codegen/src/compilation/mod.rs:32-38 | The components compile exactly when each compiles under its own name at depth 1. Every declaration a component produces ends up in the `schemas` module. |
| Compilation.ComponentsFirstError | axum-open-api-codegen/src/compilation/mod.rs:32-38 | When the components before one all compile and that one fails, the components loop fails with that component's error. |
| Compilation.ComponentsInOrder | axum-open-api-codegen/src/compilation/mod.rs:32-44 | The `schemas` module's declarations are the components' declarations, component by component, in order. |
| Compilation.TopItemsLoop | axum-open-api-codegen/src/compilation/mod.rs:20-27 | The top-level items compile exactly when each compiles at depth 0. Each compiled item appears in the output. |
| Compilation.TopItemsFirstError | axum-open-api-codegen/src/compilation/mod.rs:20-27 | When the items before one all compile and that one fails, the top-level loop fails with that item's error. |
| Compilation.TopItemsInOrder | axum-open-api-codegen/src/compilation/mod.rs:20-27 | The top-level output is each compiled item directly followed by the declarations it appended, item by item, in order. |
| Compilation.RootLayout | axum-open-api-codegen/src/compilation/mod.rs:13-45 | The root compiles exactly when the components and the items do. Its first item is the public `schemas` module holding the components' declarations, and the declared items follow. The whole tree can be emitted, one emitted item per compiled one. On failure, the first failing component's error is returned. Only when every component compiles does the first failing item's error come back. |
| Compilation.CompileRoot | axum-open-api-codegen/src/compilation/mod.rs:13-30 | A compiled root can be emitted. |
| Codegen.FieldLayout | axum-open-api-codegen/src/codegen/mod.rs:142-164 | The struct has one field per path parameter, then one per query parameter, with the compiled types verbatim. It has `body` exactly when there is an extractor. |
| Codegen.SelfMatchesFields | axum-open-api-codegen/src/codegen/mod.rs:213-217 | The final `Self { .. }` names exactly the struct's fields, in order. |
| Codegen.TraitSelection | axum-open-api-codegen/src/codegen/mod.rs:147-153 | With an extractor, the struct implements `FromRequest` via `from_request` over an `::axum::extract::Request`, and its path and query steps extract with `extract_parts`. Without one, it implements `FromRequestParts` via `from_request_parts` over `&mut ::axum::http::request::Parts`, and its path and query steps extract with `extract`. The body step calls `extract` in either case. The `body` field is initialised exactly in the first case. |
| Codegen.ExtractionOrder | axum-open-api-codegen/src/codegen/mod.rs:196-211 | Extraction runs path, then query, then the body if any. Their error arms report `Path`, `Query` and the extractor's own variant. |
| Codegen.RouteAndDoc | axum-open-api-codegen/src/codegen/mod.rs:133-180 | `path()` returns the axum form of the path, and the router method is the lower-case verb. The doc comment names the upper-case verb and the OpenAPI form. |
| Codegen.EmitItemsInOrder | axum-open-api-codegen/src/codegen/mod.rs:66-81 | The root and every item list are emitted in order, one output per item. |
| Codegen.ModuleShape | axum-open-api-codegen/src/codegen/mod.rs:83-97 | A module expands to `vis mod name { .. }` around its items, in order. |
| Codegen.RejectionsResolve | axum-open-api/src/lib.rs:79-87 | Measured against the runtime enum's variants, the path and query arms always resolve. The body arm resolves exactly when its variant is one of them. |

## Left out

- The macro entry point: reading the spec file with its `../` fallback and parsing YAML. The model takes the OpenAPI document as an already-built value.
- `$ref` resolution of parameters and request bodies (`resolve().unwrap()`). The document model holds resolved values, so that panic is not modelled.
- The panic on a missing `components` section is a precondition of `Compilation.CompileRoot`.
- The panic of `MethodPath::span` on an empty path is a precondition too. It is needed only where that span is used, which is `Compilation.LookupsReportable`.
- `Ident::new` panics on names that are not identifiers (query parameter names, reference targets, titles). Those names are kept as text.
- The debug dumps (`{schema:#?}` and similar) appended to several error messages. Errors carry the fixed part of the message and the span.
- Restricted visibilities (`pub(crate)` and so on): visibility is `pub` or inherited.
- Map iteration order: properties, components and media types are given as sequences in whatever order the document library yields them.
- convert_case's UpperCamel conversion: variant tags are kept as the text it is applied to.
- Token text is modelled only where a property needs it: a type's printed form, for variant tags.
- `#[derive]` attributes and doc comments on generated declarations.
- The summary and description of a method are always `None` in the source and are not carried.
- The runtime crate beyond its `Rejection` enum, and the async behaviour of the generated extractors.
- Codegen.TraitSelection: requires that no path or query parameter is itself called `body`, since such a name would put `body` among the fields regardless of the extractor.
