/** The part of the JavaPoet code generation library that the processor relies on: type names,
    annotation, field and type specifications as values, the argument check that
    `CodeBlock.Builder.add` performs on a format string, and the argument check of
    `ParameterizedTypeName`. Rendering to Java text is not modelled. */
module JavaPoet {
  import opened Wrappers

  datatype PrimitiveKind = Boolean | Byte | Short | Int | Long | Char | Float | Double

  /** A `TypeName`: the keyword `void`, a primitive, or a declared (possibly generic) type. */
  datatype TypeRef =
    | Void
    | Primitive(kind: PrimitiveKind)
    | Declared(qualifiedName: string, args: seq<TypeRef>)

  const RestTemplateType := Declared("org.springframework.web.client.RestTemplate", [])
  const StringType := Declared("java.lang.String", [])
  const TypeReferenceName := "org.springframework.core.ParameterizedTypeReference"

  /** The boxed class of a primitive, as the Java language defines it. */
  function BoxName(k: PrimitiveKind): string
  {
    match k
    case Boolean => "java.lang.Boolean"
    case Byte => "java.lang.Byte"
    case Short => "java.lang.Short"
    case Int => "java.lang.Integer"
    case Long => "java.lang.Long"
    case Char => "java.lang.Character"
    case Float => "java.lang.Float"
    case Double => "java.lang.Double"
  }

  /** `TypeName.box()`: a primitive becomes its wrapper class and `void` becomes
      `java.lang.Void`; a declared type is left as it is. */
  function Boxed(t: TypeRef): (r: TypeRef)
    ensures r.Declared?
    ensures t.Declared? ==> r == t
  {
    match t
    case Void => Declared("java.lang.Void", [])
    case Primitive(k) => Declared(BoxName(k), [])
    case Declared(_, _) => t
  }

  datatype PoetError =
    | DanglingFormat                      // a '$' at the end of the format string
    | InvalidFormat(c: char)              // '$' followed by a character JavaPoet does not know
    | IndexedArgument                     // '$1L' and the like: JavaPoet accepts these, this model does not
    | NotInRange(used: nat, given: nat)   // more placeholders than arguments
    | UnusedArguments(used: nat, given: nat)
    | InvalidTypeParameter(t: TypeRef)    // a primitive or void type argument
    | NoTypeArguments

  /** Placeholders that consume no argument: `$$`, `$>`, `$<`, `$[`, `$]`, `$W`, `$Z`. */
  predicate NoArgPlaceholder(c: char)
  {
    c == '$' || c == '>' || c == '<' || c == '[' || c == ']' || c == 'W' || c == 'Z'
  }

  /** Placeholders that consume the next argument: `$L`, `$S`, `$T`, `$N`. */
  predicate ArgPlaceholder(c: char)
  {
    c == 'L' || c == 'S' || c == 'T' || c == 'N'
  }

  /** The number of relative placeholders in `fmt`, scanning it as `CodeBlock.Builder.add` does.
      Indexed placeholders such as `$1L`, which JavaPoet accepts and the processor never uses,
      are refused here. */
  function RelativePlaceholders(fmt: string): (r: Result<nat, PoetError>)
    ensures r.Success? ==> r.value <= |fmt| / 2
    ensures '$' !in fmt ==> r == Success(0)
    decreases |fmt|
  {
    if |fmt| == 0 then Success(0)
    else if fmt[0] != '$' then
      assert fmt == [fmt[0]] + fmt[1..];
      RelativePlaceholders(fmt[1..])
    else if |fmt| == 1 then Failure(DanglingFormat)
    else if NoArgPlaceholder(fmt[1]) then RelativePlaceholders(fmt[2..])
    else if '0' <= fmt[1] <= '9' then Failure(IndexedArgument)
    else if !ArgPlaceholder(fmt[1]) then Failure(InvalidFormat(fmt[1]))
    else
      match RelativePlaceholders(fmt[2..])
      case Success(n) => Success(n + 1)
      case Failure(e) => Failure(e)
  }

  /** Whether `CodeBlock.Builder.add(fmt, args)` accepts `given` arguments: every relative
      placeholder needs an argument, and when there is at least one relative placeholder
      every argument must be used. */
  function CheckArguments(fmt: string, given: nat): (r: Result<nat, PoetError>)
    ensures r.Success? <==> RelativePlaceholders(fmt).Success?
                            && (RelativePlaceholders(fmt).value == 0 || RelativePlaceholders(fmt).value == given)
    ensures r.Success? ==> r.value == RelativePlaceholders(fmt).value
  {
    match RelativePlaceholders(fmt)
    case Failure(e) => Failure(e)
    case Success(used) =>
      if used > given then Failure(NotInRange(used, given))
      else if 0 < used < given then Failure(UnusedArguments(used, given))
      else Success(used)
  }

  /** Text without a '$' contributes no placeholder. */
  lemma {:induction false} PlainTextPrefix(text: string, rest: string)
    requires '$' !in text
    ensures RelativePlaceholders(text + rest) == RelativePlaceholders(rest)
    decreases |text|
  {
    if text == [] {
      assert text + rest == rest;
    } else {
      assert (text + rest)[1..] == text[1..] + rest;
      assert text[0] in text;
      assert (text + rest)[0] == text[0] != '$';
      assert '$' !in text[1..] by {
        forall i | 0 <= i < |text[1..]| ensures text[1..][i] != '$' {
          assert text[1..][i] == text[i + 1];
        }
      }
      PlainTextPrefix(text[1..], rest);
    }
  }

  /** An argument placeholder followed by `rest` uses one argument more than `rest`. */
  lemma ArgumentPlaceholderPrefix(c: char, rest: string)
    requires ArgPlaceholder(c)
    ensures RelativePlaceholders(['$', c] + rest) ==
            match RelativePlaceholders(rest)
            case Success(n) => Success(n + 1)
            case Failure(e) => Failure(e)
  {
    assert (['$', c] + rest)[2..] == rest;
  }

  /** The first type argument that JavaPoet refuses (a primitive or `void`), if any. */
  function FirstInvalidArgument(args: seq<TypeRef>): (r: Option<TypeRef>)
    ensures r.None? <==> forall i | 0 <= i < |args| :: args[i].Declared?
    ensures r.Some? ==> r.value in args && !r.value.Declared?
  {
    if args == [] then None
    else if !args[0].Declared? then Some(args[0])
    else
      var r := FirstInvalidArgument(args[1..]);
      assert forall i | 1 <= i < |args| :: args[i] == args[1..][i - 1];
      r
  }

  /** `ParameterizedTypeName.get(raw, args)`: it needs at least one type argument, and refuses
      primitive and `void` arguments. */
  function ParameterizedTypeName(raw: string, args: seq<TypeRef>): (r: Result<TypeRef, PoetError>)
    ensures r.Success? <==> |args| > 0 && forall i | 0 <= i < |args| :: args[i].Declared?
    ensures r.Success? ==> r.value == Declared(raw, args)
  {
    if args == [] then Failure(NoTypeArguments)
    else match FirstInvalidArgument(args)
      case Some(t) => Failure(InvalidTypeParameter(t))
      case None => Success(Declared(raw, args))
  }

  datatype Modifier = Public | Private | Static | Final

  /** One `addMember(name, "$S", value)` of an annotation: the value is a string literal. */
  datatype AnnotationMember = AnnotationMember(name: string, value: string)

  datatype AnnotationSpec = AnnotationSpec(annotationType: TypeRef, members: seq<AnnotationMember>)

  /** A field initializer of the form `new T(){}`: an instance of an anonymous subclass of T. */
  datatype Initializer = NewAnonymous(of: TypeRef)

  datatype FieldSpec = FieldSpec(
    fieldType: TypeRef,
    name: string,
    modifiers: seq<Modifier>,
    annotations: seq<AnnotationSpec>,
    initializer: Option<Initializer>)
}
