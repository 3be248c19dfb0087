/** The processor object: it remembers the base URL that `processType` computed and collects
    the type token fields of every method it processes, which `afterProcess` adds to the
    generated class. */
module Processor {
  import opened Wrappers
  import opened JavaPoet
  import opened ClientModel
  import opened Shell
  import opened MethodBody
  import opened TypeTokens

  /** The `TypeSpec.Builder` returned by `processType` and completed by `afterProcess`. */
  class TypeBuilder {
    var spec: TypeSpec

    constructor (spec: TypeSpec)
      ensures this.spec == spec
    {
      this.spec := spec;
    }
  }

  class SpringClientProcessor {
    const restTemplateName: string
    const serviceName: string
    /** The repository's path helper, which this model does not interpret. */
    const getPath: string -> string
    /** The repository's helper that names a type token field after a type, not interpreted. */
    const getSimpleName: TypeRef -> string

    /** Null until `processType` has run. */
    var baseUrl: Option<string>
    var staticFields: set<FieldSpec>
    /** The methods processed so far, in order. */
    ghost var processed: seq<Method>

    /** The token set holds exactly one field per distinct token of the processed methods. */
    ghost predicate Valid()
      reads this
    {
      staticFields == Tokens(processed, getSimpleName)
    }

    constructor (restTemplateName: string, serviceName: string,
                 getPath: string -> string, getSimpleName: TypeRef -> string)
      ensures this.restTemplateName == restTemplateName && this.serviceName == serviceName
      ensures this.getPath == getPath && this.getSimpleName == getSimpleName
      ensures baseUrl == None && staticFields == {} && processed == []
      ensures Valid()
    {
      this.restTemplateName := restTemplateName;
      this.serviceName := serviceName;
      this.getPath := getPath;
      this.getSimpleName := getSimpleName;
      baseUrl := None;
      staticFields := {};
      processed := [];
    }

    /** Computes and stores the base URL, then builds the class shell around it. The token
        set is left as it is. */
    method ProcessType(t: TypeElement) returns (b: TypeBuilder)
      modifies this`baseUrl
      ensures baseUrl == Some(BaseUrl(serviceName, t.requestMapping, getPath))
      ensures fresh(b) && b.spec == ShellSpec(restTemplateName, t, baseUrl.value)
    {
      var path: string;
      if t.requestMapping.Some? {
        var m := t.requestMapping.value;
        var first: Option<string> := if |m.values| > 0 then Some(m.values[0]) else None;
        path := getPath(serviceName + JavaText.DefaultIfBlank(first, m.name));
      } else {
        path := "";
      }
      baseUrl := Some("http://" + serviceName + path);
      b := new TypeBuilder(ShellSpec(restTemplateName, t, baseUrl.value));
    }

    /** Emits the body of the generated method for `m` and adds its type token field to the
        set. */
    method ProcessMethod(m: Method) returns (code: seq<Stmt>)
      requires Valid()
      modifies this`staticFields, this`processed
      ensures code == Body(restTemplateName, m, getSimpleName(m.returnType))
      ensures staticFields == old(staticFields) + {TokenOf(m, getSimpleName)}
      ensures processed == old(processed) + [m] && Valid()
      ensures |staticFields| <= |processed|
    {
      var simpleName := getSimpleName(m.returnType);
      code := EmitStatements(m, simpleName);
      var field := TokenField(m.returnType, simpleName);
      TokensStep(processed, m, getSimpleName);
      staticFields := staticFields + {field};
      processed := processed + [m];
      TokensCount(processed, getSimpleName);
    }

    /** The statements of `processMethod`, in the order it emits them, dispatching through
        the token field `simpleName`. */
    method EmitStatements(m: Method, simpleName: string) returns (code: seq<Stmt>)
      ensures code == Body(restTemplateName, m, simpleName)
    {
      code := [InitBuilder(m.path)];
      code := AppendQuery(code, m.queryParams);
      var named, indexed, hasNamed, hasIndexed := SplitUriVariables(m.uriVariables);

      ghost var beforeUri := code;
      if hasIndexed {
        code := code + ([DeclIndexed] + indexed);
      }
      if hasNamed {
        code := code + ([DeclNamed] + named);
      }
      Assoc(beforeUri, IndexedPart(m.uriVariables), NamedPart(m.uriVariables));

      ghost var beforeHeaders := code;
      code := AppendHeaders(code + [DeclHeaders], m.headers);

      if m.body.None? {
        code := code + [Entity(None)];
      } else {
        code := code + [Entity(Some(m.body.value))];
      }

      var chain: seq<UriCall> := if hasNamed then [WithUriVariables] else [];
      chain := chain + if hasIndexed then [ExpandIndexed] else [Expand];
      chain := chain + [ToUri];
      code := code + [BuildUri(chain)];

      if m.returnsVoid {
        code := code + [Exchange(false, restTemplateName, m.verb, simpleName)];
      } else {
        code := code + [Exchange(true, restTemplateName, m.verb, simpleName)];
      }
      BodyFromParts(restTemplateName, m, simpleName, beforeUri, beforeHeaders, code);
    }

    /** Appends every collected type token field to the class, once each, in the set's
        iteration order. The set itself is kept. */
    method AfterProcess(b: TypeBuilder)
      modifies b
      ensures b.spec == old(b.spec).(fields := b.spec.fields)
      ensures |b.spec.fields| == |old(b.spec.fields)| + |staticFields|
      ensures b.spec.fields[..|old(b.spec.fields)|] == old(b.spec.fields)
      ensures forall f :: f in b.spec.fields[|old(b.spec.fields)|..] <==> f in staticFields
    {
      ghost var start := b.spec.fields;
      var rest := staticFields;
      while rest != {}
        invariant rest <= staticFields
        invariant |b.spec.fields| == |start| + |staticFields - rest|
        invariant b.spec == old(b.spec).(fields := b.spec.fields)
        invariant b.spec.fields[..|start|] == start
        invariant forall f :: f in b.spec.fields[|start|..] <==> f in staticFields - rest
        decreases rest
      {
        var f :| f in rest;
        ghost var added := b.spec.fields[|start|..];
        b.spec := b.spec.(fields := b.spec.fields + [f]);
        assert b.spec.fields[|start|..] == added + [f];
        assert staticFields - (rest - {f}) == (staticFields - rest) + {f};
        rest := rest - {f};
      }
    }

    /** `getBaseUrl()`. */
    method GetBaseUrl() returns (r: Option<string>)
      ensures r == baseUrl
    {
      r := baseUrl;
    }
  }

  /** The query loop of `processMethod`: appends each parameter's statements in order. */
  method AppendQuery(prefix: seq<Stmt>, qs: seq<QueryParam>) returns (code: seq<Stmt>)
    ensures code == prefix + QuerySection(qs)
  {
    code := prefix;
    for i := 0 to |qs|
      invariant code == prefix + QuerySection(qs[..i])
    {
      code := AppendParameter(code, qs[i]);
      QuerySectionStep(qs, i);
      Assoc(prefix, QuerySection(qs[..i]), QueryStmts(qs[i]));
    }
    assert qs[..|qs|] == qs;
  }

  /** One query parameter, tested as a map, then an array, then a collection or iterable,
      and otherwise expanded property by property. */
  method AppendParameter(prefix: seq<Stmt>, q: QueryParam) returns (code: seq<Stmt>)
    ensures code == prefix + QueryStmts(q)
  {
    if q.isMap {
      code := prefix + [QueryIfNotNull(q.name, EachEntry(q.name))];
    } else if q.isArray {
      code := prefix + [QueryIfNotNull(q.name, Values(q.name, q.name))];
    } else if q.isCollection || q.isIterable {
      code := prefix + [QueryIfNotNull(q.name, EachElement(q.name, q.name))];
    } else {
      code := prefix;
      var ps := q.properties;
      for j := 0 to |ps|
        invariant code == prefix + PropertyStmts(ps[..j])
      {
        PropertyStmtsStep(ps, j);
        Assoc(prefix, PropertyStmts(ps[..j]), [PropertyStmt(ps[j])]);
        code := code + [QueryIfNotNull(ps[j].reader, Values(ps[j].name, ps[j].reader))];
      }
      assert ps[..|ps|] == ps;
    }
  }

  /** The URI variable loop of `processMethod`: named variables go to the named block,
      the others to the indexed block, each in declaration order. */
  method SplitUriVariables(vs: seq<UriVariable>)
    returns (named: seq<Stmt>, indexed: seq<Stmt>, hasNamed: bool, hasIndexed: bool)
    ensures named == NamedPuts(vs) && indexed == IndexedAdds(vs)
    ensures hasNamed == HasNamed(vs) && hasIndexed == HasIndexed(vs)
  {
    named, indexed := [], [];
    hasNamed, hasIndexed := false, false;
    for k := 0 to |vs|
      invariant named == NamedPuts(vs[..k]) && indexed == IndexedAdds(vs[..k])
      invariant hasNamed == HasNamed(vs[..k]) && hasIndexed == HasIndexed(vs[..k])
    {
      var v := vs[k];
      UriStep(vs, k);
      if !JavaText.IsBlank(v.uriVariableName) {
        named := named + [PutNamed(v.uriVariableName.value, v.name)];
        hasNamed := true;
      } else {
        indexed := indexed + [AddIndexed(v.index, v.name)];
        hasIndexed := true;
      }
    }
    assert vs[..|vs|] == vs;
  }

  /** The header loop of `processMethod`: one add per header parameter, in order. */
  method AppendHeaders(prefix: seq<Stmt>, hs: seq<HeaderParam>) returns (code: seq<Stmt>)
    ensures code == prefix + HeaderSection(hs)
  {
    code := prefix;
    for k := 0 to |hs|
      invariant code == prefix + HeaderSection(hs[..k])
    {
      HeaderSectionStep(hs, k);
      Assoc(prefix, HeaderSection(hs[..k]), [HeaderStmt(hs[k])]);
      code := code + [AddHeader(hs[k].headerName, hs[k].name)];
    }
    assert hs[..|hs|] == hs;
  }

  /** The statements `processMethod` appends, part by part, make up `Body`. */
  lemma BodyFromParts(restTemplateName: string, m: Method, token: string,
                      uri: seq<Stmt>, headers: seq<Stmt>, code: seq<Stmt>)
    requires uri == [InitBuilder(m.path)] + QuerySection(m.queryParams)
    requires headers == uri + UriSection(m.uriVariables)
    requires code == headers + [DeclHeaders] + HeaderSection(m.headers)
      + [Entity(m.body)]
      + [BuildUri((if HasNamed(m.uriVariables) then [WithUriVariables] else [])
                  + (if HasIndexed(m.uriVariables) then [ExpandIndexed] else [Expand]) + [ToUri])]
      + [Exchange(!m.returnsVoid, restTemplateName, m.verb, token)]
    ensures code == Body(restTemplateName, m, token)
  {
    var named, indexed := HasNamed(m.uriVariables), HasIndexed(m.uriVariables);
    var chain := UriChain(named, indexed);
    assert (if named then [WithUriVariables] else []) + (if indexed then [ExpandIndexed] else [Expand]) + [ToUri]
           == chain;
    var e, u, x := Entity(m.body), BuildUri(chain), Exchange(!m.returnsVoid, restTemplateName, m.verb, token);
    Regroup(headers, [DeclHeaders], HeaderSection(m.headers), e, u, x);
  }

  lemma Regroup(h: seq<Stmt>, d: seq<Stmt>, hs: seq<Stmt>, e: Stmt, u: Stmt, x: Stmt)
    ensures h + d + hs + [e] + [u] + [x] == h + (d + hs + [e, u, x])
  {
    assert d + hs + [e, u, x] == d + hs + [e] + [u] + [x];
  }
}
