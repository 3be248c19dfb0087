# SpringClientProcessor, modelled in Dafny

`SpringClientProcessor` is an annotation-processing step. It turns an HTTP client interface
(annotated with `@GoudaiClient` and optionally `@RequestMapping`) into the source of a Spring
`RestTemplate` client class named `<Interface>Connector`. This project models its three parts
and proves what the generated code contains:

- **The class shell** (`processType`). It computes the base URL `http://<service><path>` and
  derives the class and bean names. It builds the `@CircuitBreaker` and `@Service` annotations,
  the `RestTemplate` field and the `baseUrl` field with its `@Value("${<client>.baseUrl:<url>}")`
  lookup. It also builds the constructor, which checks its argument for null and then assigns it.
- **The method body** (`processMethod`). It emits the builder seed, then the query appends.
  Each query parameter is classified as map, array, collection/iterable or bean, in that
  order of precedence. Next come the indexed and named URI-variable containers, the
  headers and their adds, the `HttpEntity`, the URI chain, and finally the `exchange`
  dispatch, which returns a result only for a non-void method.
- **The type tokens** (`staticFields`, `afterProcess`). Each processed method adds one
  `public static final ParameterizedTypeReference<R>` field to a set, and `afterProcess`
  appends the whole set to the class.

Emitted code is a structured IR rather than text:

- `ClientModel.Stmt` is one statement of a generated method.
- `Shell.TypeSpec` and `JavaPoet.FieldSpec` are the generated class and its fields.

The pure parts are specification functions in `Shell`, `MethodBody` and `TypeTokens`. The
processor object is `Processor.SpringClientProcessor`, a class with the source's mutable
fields `baseUrl` and `staticFields`:

- `ProcessMethod` builds the body with the source's loops, one per parameter list
  (`AppendQuery`, `AppendParameter`, `SplitUriVariables`, `AppendHeaders`). Each is proved
  against the matching section function, and the whole body equals `MethodBody.Body`.
- `AfterProcess` appends the set's members to a `TypeBuilder` one at a time.

The JavaPoet checks that decide whether the source throws are modelled in `JavaPoet`:

- the count of relative placeholders against the arguments given to `CodeBlock.Builder.add`;
- `ParameterizedTypeName`'s refusal of primitive and `void` type arguments.

Two of the source's statements fail these checks (see Findings). The model then uses the
corrected form.

Files:

- `wrappers.dfy`: `Option` and `Result`.
- `java_text.dfy`: `StringUtils.isBlank`/`defaultIfBlank`, first-letter lower-casing, `indexOf`.
- `javapoet.dfy`: type names, boxing, the format-argument check, field and annotation values.
- `client_model.dfy`: the input descriptors and the statement IR.
- `shell.dfy`: `processType`'s class shell.
- `method_body.dfy`: `processMethod`'s statements.
- `type_tokens.dfy`: the type token fields and their set.
- `processor.dfy`: the stateful processor.

All source paths below are relative to the repository root.

## Model

| member | source | states |
|---|---|---|
| JavaText.DefaultIfBlank | processor/src/main/java/cloud/goudai/httpclient/processor/internal/SpringClientProcessor.java:59-61 | `defaultIfBlank`: a null, empty or all-whitespace value yields the default; any other value is returned unchanged and has a non-whitespace character |
| JavaText.LowerFirst | processor/src/main/java/cloud/goudai/httpclient/processor/internal/SpringClientProcessor.java:79 | `substring(0,1).toLowerCase() + substring(1)`: same length, the first character lower-cased, every other character unchanged |
| JavaPoet.CheckArguments | processor/src/main/java/cloud/goudai/httpclient/processor/internal/SpringClientProcessor.java:173 | `CodeBlock.Builder.add` accepts a format exactly when it scans cleanly and its relative placeholder count is zero or equals the number of arguments given, and then reports that count |
| JavaPoet.ParameterizedTypeName | processor/src/main/java/cloud/goudai/httpclient/processor/internal/SpringClientProcessor.java:201-203 | `ParameterizedTypeName.get` succeeds exactly when there is at least one type argument and none is primitive or `void`, and then yields the raw type applied to those arguments |
| JavaPoet.Boxed | processor/src/main/java/cloud/goudai/httpclient/processor/internal/SpringClientProcessor.java:200-203 | the boxing that the corrected token `TypeTokens.TokenType` applies to the return type (the source itself does not box): always a declared type, and declared types are left unchanged |
| Shell.FirstValue | processor/src/main/java/cloud/goudai/httpclient/processor/internal/SpringClientProcessor.java:59-60 | `value()[0]` when the array is non-empty, null exactly when it is empty |
| Shell.BaseUrl | processor/src/main/java/cloud/goudai/httpclient/processor/internal/SpringClientProcessor.java:56-65 | the base URL always starts with `http://` followed by the service name |
| Shell.BaseUrlWithoutMapping | processor/src/main/java/cloud/goudai/httpclient/processor/internal/SpringClientProcessor.java:62-65 | without `@RequestMapping` the base URL is exactly `http://` + service name |
| Shell.BaseUrlWithMapping | processor/src/main/java/cloud/goudai/httpclient/processor/internal/SpringClientProcessor.java:58-61 | with `@RequestMapping` the path helper receives the service name + the first value when that value is present and non-blank, and the service name + the mapping's `name()` otherwise |
| Shell.ClassName | processor/src/main/java/cloud/goudai/httpclient/processor/internal/SpringClientProcessor.java:68 | the class name is the interface's simple name followed by `Connector` |
| Shell.BeanName | processor/src/main/java/cloud/goudai/httpclient/processor/internal/SpringClientProcessor.java:77-80 | the `@Service` value has the class name's length, its first character lower-cased and the rest unchanged |
| Shell.ResolvePlaceholder | processor/src/main/java/cloud/goudai/httpclient/processor/internal/SpringClientProcessor.java:86-88 | Spring's `${key:default}` reading: it only accepts `${...}` and the key it returns never contains ':' |
| Shell.ValueKeyResolves | processor/src/main/java/cloud/goudai/httpclient/processor/internal/SpringClientProcessor.java:85-89 | the `@Value` expression `${<name>.baseUrl:<baseUrl>}` resolves to the property `<name>.baseUrl` with the computed base URL as its default, for a client name without ':' |
| Shell.ShellNames | processor/src/main/java/cloud/goudai/httpclient/processor/internal/SpringClientProcessor.java:67-80 | the shell is named `<simpleName>Connector`, carries `@CircuitBreaker(name = <client name>)`, and its `@Service` name differs from the class name only in its lower-cased first character |
| Shell.BaseUrlFieldKey | processor/src/main/java/cloud/goudai/httpclient/processor/internal/SpringClientProcessor.java:85-90 | the second field is the private `String baseUrl` whose `@Value` names the property `<client>.baseUrl` and defaults to the base URL |
| Shell.ConstructorChecksBeforeAssigning | processor/src/main/java/cloud/goudai/httpclient/processor/internal/SpringClientProcessor.java:81-98 | one constructor, taking the `RestTemplate`, whose body checks it for null (naming the field in the message) before assigning it; the first field is the private `RestTemplate` field |
| Shell.MappingPath | processor/src/main/java/cloud/goudai/httpclient/processor/internal/SpringClientProcessor.java:56-64 | defines the path part: empty without `@RequestMapping`, otherwise the path helper applied to the service name + the first non-blank mapping value or the mapping's name; stated by `Shell.BaseUrlWithoutMapping` and `Shell.BaseUrlWithMapping` |
| Shell.ValueKey | processor/src/main/java/cloud/goudai/httpclient/processor/internal/SpringClientProcessor.java:88 | defines the `@Value` text `${<name>.baseUrl:<baseUrl>}`; its reading is stated by `Shell.ValueKeyResolves` |
| Shell.ShellSpec | processor/src/main/java/cloud/goudai/httpclient/processor/internal/SpringClientProcessor.java:70-99 | defines the class shell (name, superinterface, `public`, the two annotations, the two fields, the constructor); stated by `Shell.ShellNames`, `Shell.BaseUrlFieldKey` and `Shell.ConstructorChecksBeforeAssigning` |
| MethodBody.Classify | processor/src/main/java/cloud/goudai/httpclient/processor/internal/SpringClientProcessor.java:114-128 | the shape precedence: map, else array, else collection or iterable, else bean, each as an if-and-only-if |
| JavaText.IsBlank | processor/src/main/java/cloud/goudai/httpclient/processor/internal/SpringClientProcessor.java:141 | defines `StringUtils.isBlank`: null, or every character whitespace (so also the empty string) |
| MethodBody.IsNamed | processor/src/main/java/cloud/goudai/httpclient/processor/internal/SpringClientProcessor.java:141 | defines the routing test: a URI variable is named when its `@PathVariable` name is not blank |
| MethodBody.QueryStmts | processor/src/main/java/cloud/goudai/httpclient/processor/internal/SpringClientProcessor.java:114-134 | defines one query parameter's statements by its shape; stated by `MethodBody.MapTakesPrecedence`, `MethodBody.PropertyStmtsAt` and `MethodBody.QueryStmtsGuards` |
| MethodBody.QuerySection | processor/src/main/java/cloud/goudai/httpclient/processor/internal/SpringClientProcessor.java:113-135 | defines the query statements of all parameters in declaration order; stated by `MethodBody.QuerySectionAppend`, `MethodBody.QuerySectionOrder` and `MethodBody.QuerySectionWidth` |
| MethodBody.IndexedAdds | processor/src/main/java/cloud/goudai/httpclient/processor/internal/SpringClientProcessor.java:140-152 | defines the indexed block: `add(index, parameter)` for each variable that is not named, in order; stated by `MethodBody.UriPartition` and `MethodBody.UriVariableRouted` |
| MethodBody.NamedPuts | processor/src/main/java/cloud/goudai/httpclient/processor/internal/SpringClientProcessor.java:140-152 | defines the named block: `put(name, parameter)` for each named variable, in order; stated by `MethodBody.UriPartition` and `MethodBody.UriVariableRouted` |
| MethodBody.IndexedPart | processor/src/main/java/cloud/goudai/httpclient/processor/internal/SpringClientProcessor.java:153-159 | defines the indexed list's declaration and adds, present only when an indexed variable exists; stated by `MethodBody.PartsKinds` |
| MethodBody.NamedPart | processor/src/main/java/cloud/goudai/httpclient/processor/internal/SpringClientProcessor.java:160-167 | defines the named map's declaration and puts, present only when a named variable exists; stated by `MethodBody.PartsKinds` |
| MethodBody.UriSection | processor/src/main/java/cloud/goudai/httpclient/processor/internal/SpringClientProcessor.java:153-167 | defines the URI variable declarations, indexed part then named part; stated by `MethodBody.UriSectionOrder` |
| MethodBody.HeaderStmt | processor/src/main/java/cloud/goudai/httpclient/processor/internal/SpringClientProcessor.java:173 | defines one header add, in the corrected `headers.add($S, $L)` form (see Findings) |
| MethodBody.HeaderSection | processor/src/main/java/cloud/goudai/httpclient/processor/internal/SpringClientProcessor.java:172-174 | defines the header adds in order; stated by `MethodBody.HeaderSectionLength`, `MethodBody.HeaderSectionAt` and `MethodBody.HeaderSectionKinds` |
| MethodBody.UriChain | processor/src/main/java/cloud/goudai/httpclient/processor/internal/SpringClientProcessor.java:187-197 | defines the URI chain from the two flags; stated by `MethodBody.UriChainShape` |
| MethodBody.Envelope | processor/src/main/java/cloud/goudai/httpclient/processor/internal/SpringClientProcessor.java:169-233 | defines the statements after the URI variables: the headers, the entity, the URI chain and the dispatch; stated by `MethodBody.EnvelopeFrame` |
| MethodBody.Body | processor/src/main/java/cloud/goudai/httpclient/processor/internal/SpringClientProcessor.java:104-233 | defines the whole generated body; stated by `MethodBody.BodyFrame`, `MethodBody.BodyUriDeclarations` and the two scenario lemmas, and produced by `Processor.SpringClientProcessor.EmitStatements` |
| MethodBody.MapTakesPrecedence | processor/src/main/java/cloud/goudai/httpclient/processor/internal/SpringClientProcessor.java:114-117 | a map parameter yields one null-guarded `forEach` over its entries, whatever else it also is |
| MethodBody.PropertyStmtsAt | processor/src/main/java/cloud/goudai/httpclient/processor/internal/SpringClientProcessor.java:129-133 | a bean parameter gives one statement per property, in order, guarded by that property's reader and keyed by its name |
| MethodBody.QueryStmtsGuards | processor/src/main/java/cloud/goudai/httpclient/processor/internal/SpringClientProcessor.java:114-134 | one parameter gives one statement (map, array, collection) or one per property (bean); all are null-guarded appends, guarded by the parameter for the first three shapes and by the property readers for a bean |
| MethodBody.QuerySectionAppend | processor/src/main/java/cloud/goudai/httpclient/processor/internal/SpringClientProcessor.java:113-135 | the query statements of `a + b` are those of `a` followed by those of `b` |
| MethodBody.QuerySectionOrder | processor/src/main/java/cloud/goudai/httpclient/processor/internal/SpringClientProcessor.java:113-135 | parameter k's statements sit between those of the earlier parameters (whose count is their total width) and those of the later ones |
| MethodBody.QuerySectionWidth | processor/src/main/java/cloud/goudai/httpclient/processor/internal/SpringClientProcessor.java:113-135 | the query section has one statement per map, array or collection parameter and one per bean property, and holds only null-guarded appends |
| MethodBody.UriPartition | processor/src/main/java/cloud/goudai/httpclient/processor/internal/SpringClientProcessor.java:140-152 | every URI variable lands in exactly one container; the adds are all indexed and the puts all named; each container is non-empty exactly when a variable of its kind exists |
| MethodBody.UriVariableRouted | processor/src/main/java/cloud/goudai/httpclient/processor/internal/SpringClientProcessor.java:141-151 | a variable with a non-blank name becomes `put(name, parameter)`, any other `add(index, parameter)`, at its declaration position within its container |
| MethodBody.UriAppend | processor/src/main/java/cloud/goudai/httpclient/processor/internal/SpringClientProcessor.java:140-152 | both containers' statements for `a + b` are those for `a` followed by those for `b` |
| MethodBody.PartsKinds | processor/src/main/java/cloud/goudai/httpclient/processor/internal/SpringClientProcessor.java:153-167 | the indexed part holds only indexed statements and is declared exactly when there is an indexed variable; likewise for the named part |
| MethodBody.UriSectionOrder | processor/src/main/java/cloud/goudai/httpclient/processor/internal/SpringClientProcessor.java:153-167 | each container is declared exactly when it has an entry, the indexed list comes first, the named map's declaration precedes its puts, and every indexed statement precedes every named one |
| MethodBody.HeaderSectionLength | processor/src/main/java/cloud/goudai/httpclient/processor/internal/SpringClientProcessor.java:172-174 | one header statement per header parameter |
| MethodBody.HeaderSectionAt | processor/src/main/java/cloud/goudai/httpclient/processor/internal/SpringClientProcessor.java:172-174 | header i becomes the unguarded `headers.add(<header name>, <parameter>)`, in order |
| MethodBody.HeaderSectionKinds | processor/src/main/java/cloud/goudai/httpclient/processor/internal/SpringClientProcessor.java:172-174 | the header section holds only header adds |
| MethodBody.UriChainShape | processor/src/main/java/cloud/goudai/httpclient/processor/internal/SpringClientProcessor.java:187-197 | `.uriVariables(...)` appears iff a named variable exists, `.buildAndExpand(list)` iff an indexed one exists, the bare `.buildAndExpand()` otherwise, and the chain ends with `.toUri()` |
| MethodBody.BodyFrame | processor/src/main/java/cloud/goudai/httpclient/processor/internal/SpringClientProcessor.java:104-237 | the body starts with the seed for the method's path and then the query section; the headers are always declared; the last three statements are the entity (null payload iff there is no body parameter), the URI chain, and the dispatch, which returns iff the method is not void and names the given token field |
| MethodBody.EnvelopeFrame | processor/src/main/java/cloud/goudai/httpclient/processor/internal/SpringClientProcessor.java:169-233 | after the URI variables come the headers declaration first and the entity, the URI chain and the dispatch last |
| MethodBody.OutsideUriSection | processor/src/main/java/cloud/goudai/httpclient/processor/internal/SpringClientProcessor.java:104-237 | no URI container is declared before the URI variable section or after it |
| MethodBody.BodyUriDeclarations | processor/src/main/java/cloud/goudai/httpclient/processor/internal/SpringClientProcessor.java:137-167 | in the whole body, each container is declared iff it has entries, and the indexed declaration precedes the named one |
| MethodBody.NamedVariableScenario | processor/src/main/java/cloud/goudai/httpclient/processor/internal/SpringClientProcessor.java:104-237 | the complete body for `GET /{orderId}` with one named variable and a result |
| MethodBody.MapQueryScenario | processor/src/main/java/cloud/goudai/httpclient/processor/internal/SpringClientProcessor.java:104-237 | the complete body for a void method with one map query parameter: one append guarded by the map alone and a dispatch that discards the result |
| MethodBody.HeaderStmtAsWritten | processor/src/main/java/cloud/goudai/httpclient/processor/internal/SpringClientProcessor.java:173 | the header statement as written: when JavaPoet accepts it, it is the header add |
| MethodBody.HeaderStmtAsWrittenThrows | processor/src/main/java/cloud/goudai/httpclient/processor/internal/SpringClientProcessor.java:173 | as written, every header parameter makes `CodeBlock.Builder.add` throw: one relative placeholder for two arguments |
| MethodBody.HeaderFormatAccepted | processor/src/main/java/cloud/goudai/httpclient/processor/internal/SpringClientProcessor.java:173 | the corrected format `headers.add($S, $L)` consumes exactly its two arguments |
| TypeTokens.TokenTypeAsWritten | processor/src/main/java/cloud/goudai/httpclient/processor/internal/SpringClientProcessor.java:200-203 | the token type as written succeeds exactly for declared (non-primitive, non-void) return types |
| TypeTokens.VoidTokenThrows | processor/src/main/java/cloud/goudai/httpclient/processor/internal/SpringClientProcessor.java:200-203 | as written, a `void` or primitive return type makes `ParameterizedTypeName.get` throw |
| TypeTokens.TokenType | processor/src/main/java/cloud/goudai/httpclient/processor/internal/SpringClientProcessor.java:200-208 | the corrected token type, over the boxed return type, is always accepted by `ParameterizedTypeName.get`, and agrees with the as-written type for every declared return type |
| TypeTokens.TokenField | processor/src/main/java/cloud/goudai/httpclient/processor/internal/SpringClientProcessor.java:205-208 | defines the token field `public static final ParameterizedTypeReference<R> <name> = new ParameterizedTypeReference<R>(){}` over the boxed return type; stated by `TypeTokens.TokenFieldIdentity` |
| TypeTokens.TokenOf | processor/src/main/java/cloud/goudai/httpclient/processor/internal/SpringClientProcessor.java:204-208 | defines the token field of a method, named by the simple-name helper; stated by `TypeTokens.TokensShared` and `TypeTokens.TokenNamesUnique` |
| TypeTokens.Tokens | processor/src/main/java/cloud/goudai/httpclient/processor/internal/SpringClientProcessor.java:235 | defines the token set after a sequence of methods; stated by `TypeTokens.TokensStep`, `TypeTokens.TokensMembers` and `TypeTokens.TokensCount` |
| TypeTokens.TokenFieldIdentity | processor/src/main/java/cloud/goudai/httpclient/processor/internal/SpringClientProcessor.java:205-208 | two token fields are equal iff their boxed types and names are equal |
| TypeTokens.TokensStep | processor/src/main/java/cloud/goudai/httpclient/processor/internal/SpringClientProcessor.java:235 | processing one more method adds exactly its token field to the set |
| TypeTokens.TokensMembers | processor/src/main/java/cloud/goudai/httpclient/processor/internal/SpringClientProcessor.java:235 | a field is in the set iff some processed method contributed it |
| TypeTokens.TokensCount | processor/src/main/java/cloud/goudai/httpclient/processor/internal/SpringClientProcessor.java:235 | the set never has more fields than methods processed |
| TypeTokens.TokensShared | processor/src/main/java/cloud/goudai/httpclient/processor/internal/SpringClientProcessor.java:204-235 | two methods with the same return type leave one field, which both dispatches name |
| TypeTokens.SameNameDistinctTypes | processor/src/main/java/cloud/goudai/httpclient/processor/internal/SpringClientProcessor.java:204-235 | two different return types with the same simple name leave two fields: de-duplication is by type and name, not by name |
| TypeTokens.TokenNamesUnique | processor/src/main/java/cloud/goudai/httpclient/processor/internal/SpringClientProcessor.java:204-235 | when the simple-name helper distinguishes the boxed return types, two methods' token fields share a name only when they are the same field |
| Processor.TypeBuilder.constructor | processor/src/main/java/cloud/goudai/httpclient/processor/internal/SpringClientProcessor.java:70 | the builder starts from the given class spec |
| Processor.SpringClientProcessor.constructor | processor/src/main/java/cloud/goudai/httpclient/processor/internal/SpringClientProcessor.java:43-52 | stores the names and helpers; `baseUrl` is null and the token set is empty |
| Processor.SpringClientProcessor.ProcessType | processor/src/main/java/cloud/goudai/httpclient/processor/internal/SpringClientProcessor.java:55-100 | stores the base URL computed by `BaseUrl` and returns a fresh builder holding the shell for that URL; the token set is untouched |
| Processor.SpringClientProcessor.ProcessMethod | processor/src/main/java/cloud/goudai/httpclient/processor/internal/SpringClientProcessor.java:103-238 | returns `Body` for the method with the token field named by the simple-name helper, adds that method's token field to the set, and keeps the set equal to `Tokens` of the methods processed so far, with no more fields than methods |
| Processor.SpringClientProcessor.EmitStatements | processor/src/main/java/cloud/goudai/httpclient/processor/internal/SpringClientProcessor.java:104-233 | the statement-emitting loops produce exactly `Body` |
| Processor.AppendQuery | processor/src/main/java/cloud/goudai/httpclient/processor/internal/SpringClientProcessor.java:113-135 | the query loop appends, after what was emitted before, exactly the query section of the parameters |
| Processor.AppendParameter | processor/src/main/java/cloud/goudai/httpclient/processor/internal/SpringClientProcessor.java:114-134 | one query parameter appends exactly its statements under the map, array, collection, bean precedence |
| Processor.SplitUriVariables | processor/src/main/java/cloud/goudai/httpclient/processor/internal/SpringClientProcessor.java:137-152 | the URI variable loop builds exactly the named puts and the indexed adds, and its two flags record whether a named or an indexed variable exists |
| Processor.AppendHeaders | processor/src/main/java/cloud/goudai/httpclient/processor/internal/SpringClientProcessor.java:172-174 | the header loop appends exactly the header section |
| Processor.SpringClientProcessor.AfterProcess | processor/src/main/java/cloud/goudai/httpclient/processor/internal/SpringClientProcessor.java:240-243 | the class's existing fields are kept in order, followed by one field per member of the token set, exactly the set's members; nothing else about the class changes and the set is not cleared |
| Processor.SpringClientProcessor.GetBaseUrl | processor/src/main/java/cloud/goudai/httpclient/processor/internal/SpringClientProcessor.java:245-247 | returns the stored base URL (null before `processType`) |
| Processor.BodyFromParts | processor/src/main/java/cloud/goudai/httpclient/processor/internal/SpringClientProcessor.java:104-237 | the seed, the query section, the URI section, the headers and the tail, appended in the order `processMethod` emits them, make up `Body` |

## Left out

- JavaPoet's rendering of code to text (`CodeBlock`, `TypeSpec`, `$T` imports, tabs and newlines) is not modelled. Statements are IR values.
- Of JavaPoet's checks that throw, only two are modelled: the placeholder-argument check of `CodeBlock.Builder.add` and the type-argument check of `ParameterizedTypeName`.
- `TypeSpec.classBuilder` (line 70), `FieldSpec.builder` (lines 81, 85 and 205) and `ParameterSpec.builder` (line 94) throw "not a valid name" for a name that is not a Java identifier. `Shell.ShellSpec` and `TypeTokens.TokenField` always succeed: the model assumes that the interface's simple name, the configured `restTemplateName` and every `getSimpleName` result are Java identifiers.
- `JavaPoet.RelativePlaceholders` refuses indexed placeholders such as `$1L`, which JavaPoet accepts. The processor uses none.
- The other `addStatement` formats are not checked against their arguments. Each of them has one relative placeholder per argument, so only the header format is modelled as a format string.
- `Assert.notNull` is emitted with the format `"$T.notNull($L, $S);"`, and `addStatement` adds a second `;`. That empty statement is not represented.
- `Utils.getPath` and `Utils.getSimpleName` are not part of this model. They are the uninterpreted function fields `getPath` and `getSimpleName`, so the model proves nothing about token naming beyond what it takes as hypotheses.
- `typeUtils`, `elementUtils` and `messager` are not used by the modelled code and are not represented.
- The `Method`, `Parameter` and annotation classes are not part of this model. Their getters are the fields of the input datatypes in `ClientModel`.
- `TypeName.get` on the body parameter (line 184) is not modelled. The entity carries the body parameter itself.
- `JavaText.IsWhitespace` and `JavaText.LowerAscii` cover ASCII and the Unicode separators below U+0020 only. Unicode whitespace and case mapping beyond ASCII are not modelled.
- `JavaText.LowerFirst` lower-cases as the root locale does. The source's `toLowerCase()` at line 79 uses the default locale, so under a Turkish locale an ASCII `I` becomes a dotless `ı`. That locale dependence is not modelled.
- `Shell.ResolvePlaceholder` is Spring's fallback reading of `${key:default}`. Spring first looks up the whole text between the braces as a property name, and splits at the first ':' only when that lookup fails. The first lookup is not modelled.
- `AfterProcess` picks the set's members in an arbitrary order; `HashSet` iteration order is not modelled.
- The methods that the caller adds to the `TypeSpec.Builder` between `processType` and `afterProcess` are not modelled. `TypeBuilder` holds only the shell and the static fields.
- The runtime behaviour of the generated client (HTTP transport, `RestTemplate`, circuit breaker, dependency injection) is not modelled.
- Shell.ValueKeyResolves: it requires a client name without ':'. With a ':' in the name, Spring would split the key inside the name. That case is not stated.
- Processor.SpringClientProcessor.ProcessMethod: it emits the corrected header format `headers.add($S, $L)` and the token over the boxed return type. As written, the source throws for any method with a header parameter (line 173) and for any method returning `void` or a primitive (lines 200-203). The as-written behaviour is stated separately by `MethodBody.HeaderStmtAsWrittenThrows` and `TypeTokens.VoidTokenThrows` (see Findings).

Facts about the code that the model keeps as they are:

- Tokens are de-duplicated by whole-field equality (boxed type and name), not by the simple name alone (`TypeTokens.SameNameDistinctTypes`).
- `processType` recomputes the base URL on every call.
- `staticFields` is never cleared, so a processor used for several interfaces would carry earlier tokens into later classes.
- Malformed metadata and a blank client name are not rejected.
- The path helper receives the service name followed by the mapping value, not the mapping value alone.

## Findings

| source | as written | input that shows it | evidently intended | confidence | as-written member | corrected member |
|---|---|---|---|---|---|---|
| processor/src/main/java/cloud/goudai/httpclient/processor/internal/SpringClientProcessor.java:173 | `addStatement("headers.add(%S, $L)", headerName, name)`: `%S` is not a JavaPoet placeholder, so the format has one relative placeholder for two arguments, and `CodeBlock.Builder.add` throws "unused arguments" | any method with one header parameter | `headers.add($S, $L)`: the header name as a string literal, then the parameter | high, not executed | MethodBody.HeaderStmtAsWrittenThrows | MethodBody.HeaderFormatAccepted |
| processor/src/main/java/cloud/goudai/httpclient/processor/internal/SpringClientProcessor.java:200-203 | `ParameterizedTypeName.get(ParameterizedTypeReference, TypeName.get(returnType))`: JavaPoet refuses `void` and primitive type arguments, so `processMethod` throws before its `void` dispatch branch | a method declared `void` (or returning `int`) | the boxed return type (`Void`, `Integer`, ...) as the token's type argument | high, not executed | TypeTokens.VoidTokenThrows | TypeTokens.TokenType |
