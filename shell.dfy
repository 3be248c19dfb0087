/** The enclosing class that `processType` builds for an annotated interface: its base URL,
    its name, its `@CircuitBreaker` and `@Service` annotations, the `RestTemplate` field,
    the `baseUrl` field with its `@Value` lookup key, and the constructor. */
module Shell {
  import opened Wrappers
  import opened JavaText
  import opened JavaPoet
  import opened ClientModel

  const CircuitBreakerType := Declared("io.github.resilience4j.circuitbreaker.annotation.CircuitBreaker", [])
  const ServiceType := Declared("org.springframework.stereotype.Service", [])
  const ValueType := Declared("org.springframework.beans.factory.annotation.Value", [])
  const AutowiredType := Declared("org.springframework.beans.factory.annotation.Autowired", [])

  const Scheme := "http://"
  const ClassSuffix := "Connector"
  const BaseUrlProperty := ".baseUrl"

  /** A statement of the generated constructor. */
  datatype ConstructorStmt =
    | NotNull(arg: string, message: string)   // Assert.notNull(arg, "message");
    | AssignField(field: string, value: string) // this.field = value

  datatype ConstructorSpec = ConstructorSpec(
    modifiers: seq<Modifier>,
    annotations: seq<AnnotationSpec>,
    paramType: TypeRef,
    paramName: string,
    body: seq<ConstructorStmt>)

  /** The class built by `processType`, before any method or static field is added. */
  datatype TypeSpec = TypeSpec(
    name: string,
    superinterface: TypeRef,
    modifiers: seq<Modifier>,
    annotations: seq<AnnotationSpec>,
    fields: seq<FieldSpec>,
    constructors: seq<ConstructorSpec>)

  /** The first element of `@RequestMapping.value()`, or null when the array is empty. */
  function FirstValue(m: RequestMapping): (r: Option<string>)
    ensures r.Some? <==> |m.values| > 0
    ensures r.Some? ==> r.value == m.values[0]
  {
    if |m.values| > 0 then Some(m.values[0]) else None
  }

  /** The path part of the base URL: empty without a `@RequestMapping`, otherwise what the
      path helper makes of the service name followed by the first mapping value, or by the
      mapping's name when that value is missing or blank. */
  function MappingPath(serviceName: string, mapping: Option<RequestMapping>, getPath: string -> string): string
  {
    match mapping
    case None => ""
    case Some(m) => getPath(serviceName + DefaultIfBlank(FirstValue(m), m.name))
  }

  /** The base URL: `http://`, the service name, then the mapping path. */
  function BaseUrl(serviceName: string, mapping: Option<RequestMapping>, getPath: string -> string): (r: string)
    ensures |r| >= |Scheme| + |serviceName|
    ensures r[..|Scheme|] == Scheme
    ensures r[|Scheme|..|Scheme| + |serviceName|] == serviceName
  {
    var r := Scheme + serviceName + MappingPath(serviceName, mapping, getPath);
    assert r[|Scheme|..|Scheme| + |serviceName|] == serviceName;
    r
  }

  /** The generated class name: the interface's simple name followed by `Connector`. */
  function ClassName(simpleName: string): (r: string)
    ensures |r| == |simpleName| + |ClassSuffix|
    ensures r[..|simpleName|] == simpleName && r[|simpleName|..] == ClassSuffix
  {
    simpleName + ClassSuffix
  }

  /** The `@Service` bean name: the class name with its first character lower-cased. */
  function BeanName(className: string): (r: string)
    requires |className| > 0
    ensures |r| == |className|
    ensures r[0] == LowerAscii(className[0]) && r[1..] == className[1..]
  {
    LowerFirst(className)
  }

  /** The `@Value` expression of the `baseUrl` field: `${<name>.baseUrl:<baseUrl>}`. */
  function ValueKey(name: string, baseUrl: string): string
  {
    "${" + name + BaseUrlProperty + ":" + baseUrl + "}"
  }

  /** How Spring reads a `${key:default}` placeholder once the whole text between the braces
      is not itself a property name: the key runs up to the first ':' and the default value
      is everything after it; without ':' there is no default. Spring's first lookup of the
      whole text as a key is not modelled. */
  function ResolvePlaceholder(expr: string): (r: Option<(string, Option<string>)>)
    ensures r.Some? ==> |expr| >= 3 && expr[..2] == "${" && expr[|expr| - 1] == '}'
    ensures r.Some? ==> ':' !in r.value.0
  {
    if |expr| >= 3 && expr[..2] == "${" && expr[|expr| - 1] == '}' then
      var inner := expr[2..|expr| - 1];
      match IndexOf(inner, ':')
      case None => Some((inner, None))
      case Some(k) => Some((inner[..k], Some(inner[k + 1..])))
    else None
  }

  /** The class shell for interface `t`, given the name of the `RestTemplate` field and the
      base URL computed for it. */
  function ShellSpec(restTemplateName: string, t: TypeElement, baseUrl: string): TypeSpec
  {
    var className := ClassName(t.simpleName);
    TypeSpec(
      className,
      t.asType,
      [Public],
      [ AnnotationSpec(CircuitBreakerType, [AnnotationMember("name", t.clientName)]),
        AnnotationSpec(ServiceType, [AnnotationMember("value", BeanName(className))]) ],
      [ FieldSpec(RestTemplateType, restTemplateName, [Private], [], None),
        FieldSpec(StringType, "baseUrl", [Private],
                  [AnnotationSpec(ValueType, [AnnotationMember("value", ValueKey(t.clientName, baseUrl))])],
                  None) ],
      [ ConstructorSpec(
          [Public],
          [AnnotationSpec(AutowiredType, [])],
          RestTemplateType,
          restTemplateName,
          [ NotNull(restTemplateName, restTemplateName + " must not be null!"),
            AssignField(restTemplateName, restTemplateName) ]) ])
  }

  /** Without a `@RequestMapping` the base URL is `http://` followed by the service name. */
  lemma BaseUrlWithoutMapping(serviceName: string, getPath: string -> string)
    ensures BaseUrl(serviceName, None, getPath) == "http://" + serviceName
  {
  }

  /** With a `@RequestMapping`, the path helper receives the service name followed by the
      first non-blank mapping value, and the mapping's name otherwise. */
  lemma BaseUrlWithMapping(serviceName: string, m: RequestMapping, getPath: string -> string)
    ensures |m.values| > 0 && !IsBlank(Some(m.values[0])) ==>
              BaseUrl(serviceName, Some(m), getPath) == "http://" + serviceName + getPath(serviceName + m.values[0])
    ensures (|m.values| == 0 || IsBlank(Some(m.values[0]))) ==>
              BaseUrl(serviceName, Some(m), getPath) == "http://" + serviceName + getPath(serviceName + m.name)
  {
  }

  /** A `${...}` expression is split at the first ':' inside the braces. */
  lemma ResolveBraced(inner: string)
    ensures IndexOf(inner, ':').None? ==> ResolvePlaceholder("${" + inner + "}") == Some((inner, None))
    ensures IndexOf(inner, ':').Some? ==>
              var k := IndexOf(inner, ':').value;
              ResolvePlaceholder("${" + inner + "}") == Some((inner[..k], Some(inner[k + 1..])))
  {
    var expr := "${" + inner + "}";
    assert expr[..2] == "${";
    assert expr[2..|expr| - 1] == inner;
  }

  /** Spring resolves the `@Value` expression to the property `<name>.baseUrl`, falling back
      to the computed base URL, provided the client name has no ':' of its own. */
  lemma {:induction false} ValueKeyResolves(name: string, baseUrl: string)
    requires ':' !in name
    ensures ResolvePlaceholder(ValueKey(name, baseUrl)) == Some((name + BaseUrlProperty, Some(baseUrl)))
  {
    var key := name + BaseUrlProperty;
    var rest := ":" + baseUrl;
    assert ValueKey(name, baseUrl) == "${" + (key + rest) + "}";
    assert ':' !in key by {
      forall i | 0 <= i < |key| ensures key[i] != ':' {
        if i < |name| { assert key[i] == name[i]; } else { assert key[i] == BaseUrlProperty[i - |name|]; }
      }
    }
    IndexOfAfter(key, rest, ':');
    ResolveBraced(key + rest);
    assert (key + rest)[..|key|] == key;
    assert (key + rest)[|key| + 1..] == baseUrl;
  }

  /** The shell's names: the class name, the circuit breaker name, and the bean name, which
      differs from the class name only in its lower-cased first character. */
  lemma ShellNames(restTemplateName: string, t: TypeElement, baseUrl: string)
    ensures var spec := ShellSpec(restTemplateName, t, baseUrl);
      && spec.name == t.simpleName + "Connector"
      && spec.annotations[0] == AnnotationSpec(CircuitBreakerType, [AnnotationMember("name", t.clientName)])
      && var bean := spec.annotations[1].members[0].value;
         && spec.annotations[1].annotationType == ServiceType
         && |bean| == |spec.name|
         && bean[0] == LowerAscii(spec.name[0])
         && bean[1..] == spec.name[1..]
  {
  }

  /** The `baseUrl` field is private, its `@Value` expression names the property
      `<clientName>.baseUrl` and falls back to the computed base URL. */
  lemma BaseUrlFieldKey(restTemplateName: string, t: TypeElement, baseUrl: string)
    requires ':' !in t.clientName
    ensures var f := ShellSpec(restTemplateName, t, baseUrl).fields[1];
      && f.name == "baseUrl" && f.fieldType == StringType && f.modifiers == [Private]
      && f.annotations[0].annotationType == ValueType
      && ResolvePlaceholder(f.annotations[0].members[0].value)
           == Some((t.clientName + ".baseUrl", Some(baseUrl)))
  {
    ValueKeyResolves(t.clientName, baseUrl);
  }

  /** The constructor takes the `RestTemplate`, checks it for null, and only then assigns it
      to the field of the same name. */
  lemma ConstructorChecksBeforeAssigning(restTemplateName: string, t: TypeElement, baseUrl: string)
    ensures |ShellSpec(restTemplateName, t, baseUrl).constructors| == 1
    ensures var c := ShellSpec(restTemplateName, t, baseUrl).constructors[0];
      && c.paramType == RestTemplateType && c.paramName == restTemplateName
      && c.body == [ NotNull(restTemplateName, restTemplateName + " must not be null!"),
                     AssignField(restTemplateName, restTemplateName) ]
    ensures ShellSpec(restTemplateName, t, baseUrl).fields[0]
              == FieldSpec(RestTemplateType, restTemplateName, [Private], [], None)
  {
  }
}
