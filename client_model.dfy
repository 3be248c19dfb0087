/** What the processor reads about an annotated HTTP-client interface, and the statements it
    emits into each generated method body, as data. The `Method`, `Parameter` and `Utils`
    helpers of the repository are not part of this model; their accessors become the fields
    below. */
module ClientModel {
  import opened Wrappers
  import opened JavaPoet

  /** A type-level `@RequestMapping`: its `value()` array and its `name()`. */
  datatype RequestMapping = RequestMapping(values: seq<string>, name: string)

  /** The annotated interface: its simple name, its type, its optional `@RequestMapping`, and
      the `value()` of its `@GoudaiClient` annotation (the client's logical name). */
  datatype TypeElement = TypeElement(
    simpleName: string,
    asType: TypeRef,
    requestMapping: Option<RequestMapping>,
    clientName: string)

  /** The constants of Spring's `HttpMethod`, written as `HttpMethod.<verb>` in the dispatch. */
  datatype HttpMethod = GET | HEAD | POST | PUT | PATCH | DELETE | OPTIONS | TRACE

  /** A property of a bean-shaped query parameter: its name and the Java expression that
      reads it (for instance `query.getPage()`). */
  datatype Property = Property(name: string, reader: string)

  /** A query parameter with the shape tests the processor asks of it. */
  datatype QueryParam = QueryParam(
    name: string,
    isMap: bool,
    isArray: bool,
    isCollection: bool,
    isIterable: bool,
    properties: seq<Property>)

  /** A URI variable: the parameter name, its `@PathVariable` name (null or blank when the
      variable is positional) and its declared index. */
  datatype UriVariable = UriVariable(name: string, uriVariableName: Option<string>, index: int)

  datatype HeaderParam = HeaderParam(name: string, headerName: string)

  datatype BodyParam = BodyParam(name: string, declaredType: TypeRef)

  /** One interface method, as the processor sees it. */
  datatype Method = Method(
    path: string,
    verb: HttpMethod,
    queryParams: seq<QueryParam>,
    uriVariables: seq<UriVariable>,
    headers: seq<HeaderParam>,
    body: Option<BodyParam>,
    returnType: TypeRef,
    returnsVoid: bool)

  /** How a query parameter is appended to the URI builder. */
  datatype Append =
    | EachEntry(entries: string)                // m.forEach((k, v) -> builder.queryParam(k, v))
    | Values(key: string, value: string)      // builder.queryParam("key", value)
    | EachElement(iterable: string, key: string) // it.forEach(e -> builder.queryParam("key", e))

  /** A call in the chain that turns the builder into a `URI`. */
  datatype UriCall =
    | WithUriVariables   // .uriVariables(uriVariables)
    | ExpandIndexed      // .buildAndExpand(indexUriVariables.toArray())
    | Expand             // .buildAndExpand()
    | ToUri              // .toUri()

  /** One statement of a generated method body. */
  datatype Stmt =
    | InitBuilder(path: string)               // builder = UriComponentsBuilder.fromUriString(this.baseUrl + "path")
    | QueryIfNotNull(guard: string, append: Append) // if (guard != null) <append>
    | DeclIndexed                             // List<Object> indexUriVariables = new LinkedList<>()
    | AddIndexed(index: int, value: string)   // indexUriVariables.add(index, value)
    | DeclNamed                               // Map<String, Object> uriVariables = new HashMap<>()
    | PutNamed(key: string, value: string)    // uriVariables.put("key", value)
    | DeclHeaders                             // HttpHeaders headers = new HttpHeaders()
    | AddHeader(header: string, value: string)  // headers.add("header", value)
    | Entity(payload: Option<BodyParam>)      // HttpEntity<..> httpEntity = new HttpEntity<>(payload or null, headers)
    | BuildUri(chain: seq<UriCall>)           // URI uri = builder<chain>
    | Exchange(returnsResult: bool, template: string, verb: HttpMethod, token: string)
                                              // [return] template.exchange(uri, verb, httpEntity, token).getBody()
}
