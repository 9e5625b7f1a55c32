/** The part of an OpenAPI 3 document the compiler reads, as the oas3 crate
    hands it over once loaded. Maps whose iteration order the compiler
    observes (object properties, component schemas, request-body content)
    are sequences in the order the loader yields them. */
module OpenApi {
  import opened Common

  datatype SchemaType = ObjectType | ArrayType | StringType | NumberType | IntegerType | BooleanType

  /** `ObjectOrReference<Schema>`: a `$ref` reference or an inline schema. */
  datatype SchemaRef = Ref(refPath: string) | Inline(schema: Schema)

  datatype Property = Property(name: string, schema: SchemaRef)

  /** The schema fields the compiler looks at. */
  datatype Schema = Schema(
    title: Option<string>,
    schemaType: Option<SchemaType>,
    allOf: seq<SchemaRef>,
    anyOf: seq<SchemaRef>,
    oneOf: seq<SchemaRef>,
    items: Option<SchemaRef>,
    properties: seq<Property>,
    required: seq<string>)

  /** An operation parameter, already resolved from any `$ref`. The
      location is the document's `in` field, kept as text. */
  datatype Parameter = Parameter(name: string, location: string, required: Option<bool>, schema: Option<Schema>)

  datatype MediaType = MediaType(schema: Option<SchemaRef>)

  /** One entry of a request body's `content` map. */
  datatype MediaEntry = MediaEntry(mime: string, media: MediaType)

  /** A request body, already resolved from any `$ref`. */
  datatype RequestBody = RequestBody(content: seq<MediaEntry>)

  datatype Operation = Operation(parameters: seq<Parameter>, requestBody: Option<RequestBody>)

  datatype PathItem = PathItem(
    get: Option<Operation>,
    post: Option<Operation>,
    put: Option<Operation>,
    delete: Option<Operation>,
    patch: Option<Operation>,
    head: Option<Operation>,
    trace: Option<Operation>,
    options: Option<Operation>)

  /** A named entry of `components/schemas`. */
  datatype Component = Component(name: string, schema: SchemaRef)

  /** The document: path templates (`/items/{id}`) to path items, and the
      component schemas when the document has a `components` section. */
  datatype Spec = Spec(paths: map<string, PathItem>, components: Option<seq<Component>>)

  /** An untitled schema of one primitive kind and nothing else. */
  function PlainSchema(t: SchemaType): Schema
  {
    Schema(None, Some(t), [], [], [], None, [], [])
  }
}
