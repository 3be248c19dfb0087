/** The statements `processMethod` emits for one interface method, as specification
    functions, and what they guarantee: the builder seed first, query appends in parameter
    order with the map/array/collection/bean precedence, the split of URI variables into an
    indexed list and a named map, the headers and the entity, the URI chain, and the dispatch
    last. */
module MethodBody {
  import opened Wrappers
  import opened JavaText
  import opened JavaPoet
  import opened ClientModel

  /** The shape tests, in the order the processor makes them. */
  datatype Shape = MapShape | ArrayShape | CollectionShape | BeanShape

  function Classify(q: QueryParam): (s: Shape)
    ensures s == MapShape <==> q.isMap
    ensures s == ArrayShape <==> !q.isMap && q.isArray
    ensures s == CollectionShape <==> !q.isMap && !q.isArray && (q.isCollection || q.isIterable)
    ensures s == BeanShape <==> !q.isMap && !q.isArray && !q.isCollection && !q.isIterable
  {
    if q.isMap then MapShape
    else if q.isArray then ArrayShape
    else if q.isCollection || q.isIterable then CollectionShape
    else BeanShape
  }

  /** The append for one bean property: guarded by the property's reader, keyed by its name. */
  function PropertyStmt(p: Property): Stmt
  {
    QueryIfNotNull(p.reader, Values(p.name, p.reader))
  }

  function PropertyStmts(ps: seq<Property>): seq<Stmt>
  {
    if ps == [] then [] else PropertyStmts(ps[..|ps| - 1]) + [PropertyStmt(ps[|ps| - 1])]
  }

  /** The statements for one query parameter. */
  function QueryStmts(q: QueryParam): seq<Stmt>
  {
    match Classify(q)
    case MapShape => [QueryIfNotNull(q.name, EachEntry(q.name))]
    case ArrayShape => [QueryIfNotNull(q.name, Values(q.name, q.name))]
    case CollectionShape => [QueryIfNotNull(q.name, EachElement(q.name, q.name))]
    case BeanShape => PropertyStmts(q.properties)
  }

  function QuerySection(qs: seq<QueryParam>): seq<Stmt>
  {
    if qs == [] then [] else QuerySection(qs[..|qs| - 1]) + QueryStmts(qs[|qs| - 1])
  }

  /** How many statements a query parameter contributes. */
  function Width(q: QueryParam): nat
  {
    if Classify(q) == BeanShape then |q.properties| else 1
  }

  function TotalWidth(qs: seq<QueryParam>): nat
  {
    if qs == [] then 0 else TotalWidth(qs[..|qs| - 1]) + Width(qs[|qs| - 1])
  }

  /** A URI variable is named when its `@PathVariable` name is not blank. */
  predicate IsNamed(v: UriVariable)
  {
    !IsBlank(v.uriVariableName)
  }

  predicate HasNamed(vs: seq<UriVariable>)
  {
    exists i | 0 <= i < |vs| :: IsNamed(vs[i])
  }

  predicate HasIndexed(vs: seq<UriVariable>)
  {
    exists i | 0 <= i < |vs| :: !IsNamed(vs[i])
  }

  function IndexedAdds(vs: seq<UriVariable>): seq<Stmt>
  {
    if vs == [] then []
    else
      var v := vs[|vs| - 1];
      IndexedAdds(vs[..|vs| - 1]) + if IsNamed(v) then [] else [AddIndexed(v.index, v.name)]
  }

  function NamedPuts(vs: seq<UriVariable>): seq<Stmt>
  {
    if vs == [] then []
    else
      var v := vs[|vs| - 1];
      NamedPuts(vs[..|vs| - 1]) + if IsNamed(v) then [PutNamed(v.uriVariableName.value, v.name)] else []
  }

  /** The indexed list and its adds, when there is an indexed variable. */
  function IndexedPart(vs: seq<UriVariable>): seq<Stmt>
  {
    if HasIndexed(vs) then [DeclIndexed] + IndexedAdds(vs) else []
  }

  /** The named map and its puts, when there is a named variable. */
  function NamedPart(vs: seq<UriVariable>): seq<Stmt>
  {
    if HasNamed(vs) then [DeclNamed] + NamedPuts(vs) else []
  }

  /** The URI variable declarations: the indexed part, then the named part. */
  function UriSection(vs: seq<UriVariable>): seq<Stmt>
  {
    IndexedPart(vs) + NamedPart(vs)
  }

  /** The corrected header statement: `headers.add($S, $L)` with the header name and the
      parameter. */
  function HeaderStmt(h: HeaderParam): Stmt
  {
    AddHeader(h.headerName, h.name)
  }

  function HeaderSection(hs: seq<HeaderParam>): seq<Stmt>
  {
    if hs == [] then [] else HeaderSection(hs[..|hs| - 1]) + [HeaderStmt(hs[|hs| - 1])]
  }

  /** The chain after `URI uri = builder`. */
  function UriChain(named: bool, indexed: bool): seq<UriCall>
  {
    (if named then [WithUriVariables] else []) + [if indexed then ExpandIndexed else Expand, ToUri]
  }

  /** The statements after the URI variables: the headers and their adds, the entity, the
      URI chain and the dispatch. */
  function Envelope(restTemplateName: string, m: Method, token: string): seq<Stmt>
  {
    [DeclHeaders]
    + HeaderSection(m.headers)
    + [ Entity(m.body),
        BuildUri(UriChain(HasNamed(m.uriVariables), HasIndexed(m.uriVariables))),
        Exchange(!m.returnsVoid, restTemplateName, m.verb, token) ]
  }

  /** The whole body of the generated method `m`, dispatching through the field
      `restTemplateName` with the type token field `token`. */
  function Body(restTemplateName: string, m: Method, token: string): seq<Stmt>
  {
    [InitBuilder(m.path)] + QuerySection(m.queryParams) + UriSection(m.uriVariables)
    + Envelope(restTemplateName, m, token)
  }

  // ---------------------------------------------------------------------------------------
  // One more parameter: how each section grows, as the loops of `processMethod` build it

  lemma PropertyStmtsStep(ps: seq<Property>, j: int)
    requires 0 <= j < |ps|
    ensures PropertyStmts(ps[..j + 1]) == PropertyStmts(ps[..j]) + [PropertyStmt(ps[j])]
  {
    assert ps[..j + 1][..j] == ps[..j];
  }

  lemma QuerySectionStep(qs: seq<QueryParam>, i: int)
    requires 0 <= i < |qs|
    ensures QuerySection(qs[..i + 1]) == QuerySection(qs[..i]) + QueryStmts(qs[i])
  {
    assert qs[..i + 1][..i] == qs[..i];
  }

  lemma UriStep(vs: seq<UriVariable>, k: int)
    requires 0 <= k < |vs|
    ensures IndexedAdds(vs[..k + 1]) ==
              IndexedAdds(vs[..k]) + if IsNamed(vs[k]) then [] else [AddIndexed(vs[k].index, vs[k].name)]
    ensures NamedPuts(vs[..k + 1]) ==
              NamedPuts(vs[..k]) + if IsNamed(vs[k]) then [PutNamed(vs[k].uriVariableName.value, vs[k].name)] else []
    ensures HasNamed(vs[..k + 1]) == (HasNamed(vs[..k]) || IsNamed(vs[k]))
    ensures HasIndexed(vs[..k + 1]) == (HasIndexed(vs[..k]) || !IsNamed(vs[k]))
  {
    assert vs[..k + 1][..k] == vs[..k];
    assert vs[..k + 1][k] == vs[k];
  }

  lemma HeaderSectionStep(hs: seq<HeaderParam>, k: int)
    requires 0 <= k < |hs|
    ensures HeaderSection(hs[..k + 1]) == HeaderSection(hs[..k]) + [HeaderStmt(hs[k])]
  {
    assert hs[..k + 1][..k] == hs[..k];
  }

  // ---------------------------------------------------------------------------------------
  // Query parameters

  /** A map parameter yields one null-guarded `forEach` over its entries, whatever else the
      parameter also is (a map that is also iterable is treated as a map). */
  lemma MapTakesPrecedence(q: QueryParam)
    requires q.isMap
    ensures QueryStmts(q) == [QueryIfNotNull(q.name, EachEntry(q.name))]
  {
  }

  /** Bean properties are appended one statement each, in order, each guarded by its own
      reader and keyed by the property name; the parameter itself is never the guard unless
      a reader happens to be spelled like it. */
  lemma {:induction false} PropertyStmtsAt(ps: seq<Property>, i: int)
    requires 0 <= i < |ps|
    ensures |PropertyStmts(ps)| == |ps|
    ensures PropertyStmts(ps)[i] == QueryIfNotNull(ps[i].reader, Values(ps[i].name, ps[i].reader))
  {
    var init := ps[..|ps| - 1];
    if i < |ps| - 1 {
      PropertyStmtsAt(init, i);
    } else if |init| > 0 {
      PropertyStmtsAt(init, 0);
    }
  }

  /** Every statement of one query parameter is a null-guarded append; the guard is the
      parameter for the map, array and collection shapes, and a property reader for a bean. */
  lemma QueryStmtsGuards(q: QueryParam)
    ensures |QueryStmts(q)| == Width(q)
    ensures forall s | s in QueryStmts(q) :: s.QueryIfNotNull?
    ensures Classify(q) != BeanShape ==>
              forall s | s in QueryStmts(q) :: s.guard == q.name
    ensures Classify(q) == BeanShape ==>
              forall k | 0 <= k < |q.properties| ::
                QueryStmts(q)[k] == QueryIfNotNull(q.properties[k].reader,
                                                   Values(q.properties[k].name, q.properties[k].reader))
  {
    if Classify(q) == BeanShape {
      if |q.properties| > 0 {
        PropertyStmtsAt(q.properties, 0);
      }
      forall k | 0 <= k < |q.properties|
        ensures QueryStmts(q)[k] == QueryIfNotNull(q.properties[k].reader,
                                                   Values(q.properties[k].name, q.properties[k].reader))
      {
        PropertyStmtsAt(q.properties, k);
      }
      forall s | s in QueryStmts(q) ensures s.QueryIfNotNull? {
        var k :| 0 <= k < |QueryStmts(q)| && QueryStmts(q)[k] == s;
        PropertyStmtsAt(q.properties, k);
      }
    }
  }

  /** The query statements of `a + b` are those of `a` followed by those of `b`. */
  lemma {:induction false} QuerySectionAppend(a: seq<QueryParam>, b: seq<QueryParam>)
    ensures QuerySection(a + b) == QuerySection(a) + QuerySection(b)
    decreases |b|
  {
    if b == [] {
      assert a + b == a;
    } else {
      var init, last := b[..|b| - 1], b[|b| - 1];
      var ab := a + b;
      assert ab[..|ab| - 1] == a + init;
      assert ab[|ab| - 1] == last;
      var qa, qi, ql := QuerySection(a), QuerySection(init), QueryStmts(last);
      assert QuerySection(ab) == QuerySection(a + init) + ql;
      QuerySectionAppend(a, init);
      assert QuerySection(b) == qi + ql;
      Assoc(qa, qi, ql);
    }
  }

  lemma Assoc(a: seq<Stmt>, b: seq<Stmt>, c: seq<Stmt>)
    ensures a + b + c == a + (b + c)
  {
  }

  /** Query statements follow parameter declaration order: parameter `k`'s statements sit
      right after those of the parameters before it, and are followed by those after it. */
  lemma QuerySectionOrder(qs: seq<QueryParam>, k: int)
    requires 0 <= k < |qs|
    ensures QuerySection(qs) == QuerySection(qs[..k]) + QueryStmts(qs[k]) + QuerySection(qs[k + 1..])
    ensures |QuerySection(qs[..k])| == TotalWidth(qs[..k])
  {
    assert qs == qs[..k] + [qs[k]] + qs[k + 1..];
    QuerySectionAppend(qs[..k] + [qs[k]], qs[k + 1..]);
    QuerySectionAppend(qs[..k], [qs[k]]);
    assert [qs[k]][..0] == [];
    QuerySectionWidth(qs[..k]);
  }

  /** The query section holds one statement per map, array or collection parameter and one
      per property of a bean parameter, and nothing but null-guarded appends. */
  lemma {:induction false} QuerySectionWidth(qs: seq<QueryParam>)
    ensures |QuerySection(qs)| == TotalWidth(qs)
    ensures forall s | s in QuerySection(qs) :: s.QueryIfNotNull?
  {
    if qs != [] {
      QuerySectionWidth(qs[..|qs| - 1]);
      QueryStmtsGuards(qs[|qs| - 1]);
    }
  }

  // ---------------------------------------------------------------------------------------
  // URI variables

  /** Every URI variable goes to exactly one container: the indexed adds and the named puts
      together have one statement per variable, and the adds are all `AddIndexed`, the puts
      all `PutNamed`. */
  lemma {:induction false} UriPartition(vs: seq<UriVariable>)
    ensures |IndexedAdds(vs)| + |NamedPuts(vs)| == |vs|
    ensures forall s | s in IndexedAdds(vs) :: s.AddIndexed?
    ensures forall s | s in NamedPuts(vs) :: s.PutNamed?
    ensures IndexedAdds(vs) != [] <==> HasIndexed(vs)
    ensures NamedPuts(vs) != [] <==> HasNamed(vs)
  {
    if vs != [] {
      var init := vs[..|vs| - 1];
      UriPartition(init);
      assert forall i | 0 <= i < |init| :: init[i] == vs[i];
      assert HasIndexed(vs) <==> HasIndexed(init) || !IsNamed(vs[|vs| - 1]);
      assert HasNamed(vs) <==> HasNamed(init) || IsNamed(vs[|vs| - 1]);
    }
  }

  /** Each variable is routed by its name: a non-blank name gives `put(name, parameter)`,
      otherwise `add(index, parameter)`; within each container the declaration order is
      kept. */
  lemma {:induction false} UriVariableRouted(vs: seq<UriVariable>, k: int)
    requires 0 <= k < |vs|
    ensures IsNamed(vs[k]) ==>
              NamedPuts(vs) == NamedPuts(vs[..k]) + [PutNamed(vs[k].uriVariableName.value, vs[k].name)]
                               + NamedPuts(vs[k + 1..])
    ensures !IsNamed(vs[k]) ==>
              IndexedAdds(vs) == IndexedAdds(vs[..k]) + [AddIndexed(vs[k].index, vs[k].name)]
                                 + IndexedAdds(vs[k + 1..])
  {
    assert vs == vs[..k] + [vs[k]] + vs[k + 1..];
    UriAppend(vs[..k] + [vs[k]], vs[k + 1..]);
    UriAppend(vs[..k], [vs[k]]);
    assert [vs[k]][..0] == [];
  }

  lemma {:induction false} UriAppend(a: seq<UriVariable>, b: seq<UriVariable>)
    ensures IndexedAdds(a + b) == IndexedAdds(a) + IndexedAdds(b)
    ensures NamedPuts(a + b) == NamedPuts(a) + NamedPuts(b)
    decreases |b|
  {
    if b == [] {
      assert a + b == a;
    } else {
      var init := b[..|b| - 1];
      assert (a + b)[..|a + b| - 1] == a + init;
      assert (a + b)[|a + b| - 1] == b[|b| - 1];
      UriAppend(a, init);
    }
  }

  lemma PartsKinds(vs: seq<UriVariable>)
    ensures forall k | 0 <= k < |IndexedPart(vs)| :: IndexedPart(vs)[k].DeclIndexed? || IndexedPart(vs)[k].AddIndexed?
    ensures forall k | 0 <= k < |NamedPart(vs)| :: NamedPart(vs)[k].DeclNamed? || NamedPart(vs)[k].PutNamed?
    ensures DeclIndexed in IndexedPart(vs) <==> HasIndexed(vs)
    ensures DeclNamed in NamedPart(vs) <==> HasNamed(vs)
  {
    UriPartition(vs);
    var ind, nam := IndexedPart(vs), NamedPart(vs);
    forall k | 0 <= k < |ind| ensures ind[k].DeclIndexed? || ind[k].AddIndexed? {
      if k > 0 { assert ind[k] == IndexedAdds(vs)[k - 1]; assert ind[k] in IndexedAdds(vs); }
    }
    forall k | 0 <= k < |nam| ensures nam[k].DeclNamed? || nam[k].PutNamed? {
      if k > 0 { assert nam[k] == NamedPuts(vs)[k - 1]; assert nam[k] in NamedPuts(vs); }
    }
    if HasIndexed(vs) { assert ind[0] == DeclIndexed; }
    if HasNamed(vs) { assert nam[0] == DeclNamed; }
  }

  /** The indexed list is declared exactly when there is an indexed variable, the named map
      exactly when there is a named one; each declaration precedes its entries, and every
      indexed statement precedes every named statement. */
  lemma UriSectionOrder(vs: seq<UriVariable>)
    ensures DeclIndexed in UriSection(vs) <==> HasIndexed(vs)
    ensures DeclNamed in UriSection(vs) <==> HasNamed(vs)
    ensures HasIndexed(vs) ==> UriSection(vs)[0] == DeclIndexed
    ensures HasNamed(vs) ==> UriSection(vs)[|UriSection(vs)| - |NamedPuts(vs)| - 1] == DeclNamed
    ensures forall i, j | 0 <= i < |UriSection(vs)| && 0 <= j < |UriSection(vs)|
              && (UriSection(vs)[i].DeclIndexed? || UriSection(vs)[i].AddIndexed?)
              && (UriSection(vs)[j].DeclNamed? || UriSection(vs)[j].PutNamed?) :: i < j
  {
    PartsKinds(vs);
    var ind, nam := IndexedPart(vs), NamedPart(vs);
    KindsOrdered(ind, nam);
    if HasIndexed(vs) {
      assert ind[0] == DeclIndexed;
    }
    if HasNamed(vs) {
      assert (ind + nam)[|ind|] == nam[0] == DeclNamed;
    }
  }

  /** In a list of indexed statements followed by a list of named ones, each declaration
      occurs only in its own list and every indexed statement precedes every named one. */
  lemma KindsOrdered(ind: seq<Stmt>, nam: seq<Stmt>)
    requires forall k | 0 <= k < |ind| :: ind[k].DeclIndexed? || ind[k].AddIndexed?
    requires forall k | 0 <= k < |nam| :: nam[k].DeclNamed? || nam[k].PutNamed?
    ensures DeclIndexed in ind + nam <==> DeclIndexed in ind
    ensures DeclNamed in ind + nam <==> DeclNamed in nam
    ensures forall i, j | 0 <= i < |ind + nam| && 0 <= j < |ind + nam|
              && ((ind + nam)[i].DeclIndexed? || (ind + nam)[i].AddIndexed?)
              && ((ind + nam)[j].DeclNamed? || (ind + nam)[j].PutNamed?) :: i < j
  {
    var u := ind + nam;
    forall i | 0 <= i < |u| ensures i < |ind| ==> u[i] == ind[i]
                            ensures i >= |ind| ==> u[i] == nam[i - |ind|] {
    }
    assert DeclIndexed !in nam;
    assert DeclNamed !in ind;
  }

  // ---------------------------------------------------------------------------------------
  // Headers, entity, URI chain, dispatch

  lemma {:induction false} HeaderSectionLength(hs: seq<HeaderParam>)
    ensures |HeaderSection(hs)| == |hs|
  {
    if hs != [] { HeaderSectionLength(hs[..|hs| - 1]); }
  }

  /** One unguarded `headers.add(headerName, parameter)` per header parameter, in order. */
  lemma {:induction false} HeaderSectionAt(hs: seq<HeaderParam>, i: int)
    requires 0 <= i < |hs|
    ensures |HeaderSection(hs)| == |hs|
    ensures HeaderSection(hs)[i] == AddHeader(hs[i].headerName, hs[i].name)
  {
    var init := hs[..|hs| - 1];
    if i < |hs| - 1 {
      HeaderSectionAt(init, i);
    } else if |init| > 0 {
      HeaderSectionAt(init, 0);
    }
  }

  /** The URI chain uses `.uriVariables(uriVariables)` exactly when there is a named
      variable, expands from the indexed list exactly when there is an indexed one (and with
      no arguments otherwise), and ends with `.toUri()`. */
  lemma UriChainShape(named: bool, indexed: bool)
    ensures WithUriVariables in UriChain(named, indexed) <==> named
    ensures ExpandIndexed in UriChain(named, indexed) <==> indexed
    ensures Expand in UriChain(named, indexed) <==> !indexed
    ensures UriChain(named, indexed)[|UriChain(named, indexed)| - 1] == ToUri
  {
  }

  /** The body starts with the builder seed for the method's path; the query statements
      follow; the headers are always declared; the last three statements are the entity
      (with a null payload exactly when there is no body parameter), the URI chain and the
      dispatch, which returns the result exactly when the method is not void and always
      names the given type token field. */
  lemma BodyFrame(restTemplateName: string, m: Method, token: string)
    ensures |Body(restTemplateName, m, token)| >= 5
    ensures Body(restTemplateName, m, token)[0] == InitBuilder(m.path)
    ensures Body(restTemplateName, m, token)[1..1 + |QuerySection(m.queryParams)|] == QuerySection(m.queryParams)
    ensures DeclHeaders in Body(restTemplateName, m, token)
    ensures var b := Body(restTemplateName, m, token);
      && b[|b| - 3] == Entity(m.body)
      && (b[|b| - 3].payload.None? <==> m.body.None?)
      && b[|b| - 2] == BuildUri(UriChain(HasNamed(m.uriVariables), HasIndexed(m.uriVariables)))
      && b[|b| - 1] == Exchange(!m.returnsVoid, restTemplateName, m.verb, token)
      && (b[|b| - 1].returnsResult <==> !m.returnsVoid)
  {
    var q, u := QuerySection(m.queryParams), UriSection(m.uriVariables);
    var e := Envelope(restTemplateName, m, token);
    assert Body(restTemplateName, m, token) == [InitBuilder(m.path)] + q + u + e;
    EnvelopeFrame(restTemplateName, m, token);
    JoinFrame(InitBuilder(m.path), q, u, e);
  }

  /** Positions in `[x] + q + u + e`: `x` first, then `q`, then `e` from position
      `1 + |q| + |u|` to the end. */
  lemma JoinFrame(x: Stmt, q: seq<Stmt>, u: seq<Stmt>, e: seq<Stmt>)
    requires |e| >= 4
    ensures var b := [x] + q + u + e;
      && |b| >= 5 && b[0] == x && b[1..1 + |q|] == q
      && b[1 + |q| + |u|] == e[0]
      && b[|b| - 3] == e[|e| - 3] && b[|b| - 2] == e[|e| - 2] && b[|b| - 1] == e[|e| - 1]
  {
    var b := [x] + q + u + e;
    assert b[1..1 + |q|] == q;
  }

  /** The envelope opens with the headers declaration and closes with the entity, the URI
      chain and the dispatch. */
  lemma EnvelopeFrame(restTemplateName: string, m: Method, token: string)
    ensures var e := Envelope(restTemplateName, m, token);
      && |e| >= 4
      && e[0] == DeclHeaders
      && e[|e| - 3] == Entity(m.body)
      && e[|e| - 2] == BuildUri(UriChain(HasNamed(m.uriVariables), HasIndexed(m.uriVariables)))
      && e[|e| - 1] == Exchange(!m.returnsVoid, restTemplateName, m.verb, token)
  {
    var h := [DeclHeaders] + HeaderSection(m.headers);
    var e := Envelope(restTemplateName, m, token);
    var tail := [ Entity(m.body),
                  BuildUri(UriChain(HasNamed(m.uriVariables), HasIndexed(m.uriVariables))),
                  Exchange(!m.returnsVoid, restTemplateName, m.verb, token) ];
    assert e == h + tail;
    assert e[|e| - 3..] == tail;
  }

  /** A statement absent from `pre` and `post` occurs in `pre + mid + post` only inside
      `mid`. */
  lemma OnlyInMiddle(pre: seq<Stmt>, mid: seq<Stmt>, post: seq<Stmt>, x: Stmt)
    requires x !in pre && x !in post
    ensures x in pre + mid + post <==> x in mid
    ensures forall i | 0 <= i < |pre + mid + post| && (pre + mid + post)[i] == x ::
              |pre| <= i < |pre| + |mid| && mid[i - |pre|] == x
  {
    var b := pre + mid + post;
    forall i | 0 <= i < |b| && b[i] == x ensures |pre| <= i < |pre| + |mid| && mid[i - |pre|] == x {
    }
    if x in mid {
      var k :| 0 <= k < |mid| && mid[k] == x;
      assert b[|pre| + k] == x;
    }
  }

  /** The header section holds only header adds. */
  lemma HeaderSectionKinds(hs: seq<HeaderParam>)
    ensures forall s | s in HeaderSection(hs) :: s.AddHeader?
  {
    HeaderSectionLength(hs);
    forall s | s in HeaderSection(hs) ensures s.AddHeader? {
      var k :| 0 <= k < |HeaderSection(hs)| && HeaderSection(hs)[k] == s;
      HeaderSectionAt(hs, k);
    }
  }

  /** Neither URI container is declared before the URI section or after it. */
  lemma OutsideUriSection(restTemplateName: string, m: Method, token: string)
    ensures var pre := [InitBuilder(m.path)] + QuerySection(m.queryParams);
      DeclIndexed !in pre && DeclNamed !in pre
    ensures var post := Envelope(restTemplateName, m, token);
      DeclIndexed !in post && DeclNamed !in post
  {
    QuerySectionWidth(m.queryParams);
    HeaderSectionKinds(m.headers);
  }

  /** The URI variable containers are declared only when they have an entry, and the
      indexed declaration comes before the named declaration. */
  lemma BodyUriDeclarations(restTemplateName: string, m: Method, token: string)
    ensures DeclIndexed in Body(restTemplateName, m, token) <==> IndexedAdds(m.uriVariables) != []
    ensures DeclNamed in Body(restTemplateName, m, token) <==> NamedPuts(m.uriVariables) != []
    ensures var b := Body(restTemplateName, m, token);
      forall i, j | 0 <= i < |b| && 0 <= j < |b| && b[i] == DeclIndexed && b[j] == DeclNamed :: i < j
  {
    var vs := m.uriVariables;
    var b := Body(restTemplateName, m, token);
    var pre := [InitBuilder(m.path)] + QuerySection(m.queryParams);
    var u := UriSection(vs);
    var post := Envelope(restTemplateName, m, token);
    assert b == pre + u + post;
    OutsideUriSection(restTemplateName, m, token);
    UriSectionOrder(vs);
    UriPartition(vs);
    OnlyInMiddle(pre, u, post, DeclIndexed);
    OnlyInMiddle(pre, u, post, DeclNamed);
  }

  /** The body of `m`, once its query, URI variable and header sections and its URI chain
      are known. */
  lemma BodyAssembled(restTemplateName: string, m: Method, token: string,
                      q: seq<Stmt>, u: seq<Stmt>, h: seq<Stmt>, chain: seq<UriCall>)
    requires QuerySection(m.queryParams) == q && UriSection(m.uriVariables) == u
    requires HeaderSection(m.headers) == h
    requires UriChain(HasNamed(m.uriVariables), HasIndexed(m.uriVariables)) == chain
    ensures Body(restTemplateName, m, token) ==
              [InitBuilder(m.path)] + q + u + ([DeclHeaders] + h
              + [Entity(m.body), BuildUri(chain), Exchange(!m.returnsVoid, restTemplateName, m.verb, token)])
  {
  }

  /** `GET /{orderId}` with one named URI variable `orderId`, no query, header or body
      parameter, returning a value: the seed, the named map with its one put, the headers,
      an entity without payload, the named expansion and a returning dispatch. */
  lemma NamedVariableScenario(restTemplateName: string, token: string, order: TypeRef)
    ensures var m := Method("/{orderId}", GET, [], [UriVariable("orderId", Some("orderId"), 0)], [], None,
                            order, false);
      Body(restTemplateName, m, token) ==
        [ InitBuilder("/{orderId}"),
          DeclNamed, PutNamed("orderId", "orderId"),
          DeclHeaders,
          Entity(None),
          BuildUri([WithUriVariables, Expand, ToUri]),
          Exchange(true, restTemplateName, GET, token) ]
  {
    var v := UriVariable("orderId", Some("orderId"), 0);
    assert IsNamed(v) by {
      assert "orderId"[0] == 'o';
      assert !IsWhitespace(v.uriVariableName.value[0]);
    }
    assert HasNamed([v]) by { assert IsNamed([v][0]); }
    assert !HasIndexed([v]);
    assert [v][..0] == [];
    var u := [DeclNamed, PutNamed("orderId", "orderId")];
    assert UriSection([v]) == u by {
      assert IndexedPart([v]) == [];
      assert NamedPuts([v]) == [PutNamed("orderId", "orderId")];
    }
    var chain := [WithUriVariables, Expand, ToUri];
    assert UriChain(true, false) == chain;
    var m := Method("/{orderId}", GET, [], [v], [], None, order, false);
    BodyAssembled(restTemplateName, m, token, [], u, [], chain);
  }

  /** A `void` method with one map query parameter `filters`: a single append guarded by
      `filters` alone, no URI variable container, and a dispatch that does not return. */
  lemma MapQueryScenario(restTemplateName: string, token: string, verb: HttpMethod)
    ensures var q := QueryParam("filters", true, false, true, true, []);
      var m := Method("/search", verb, [q], [], [], None, Void, true);
      Body(restTemplateName, m, token) ==
        [ InitBuilder("/search"),
          QueryIfNotNull("filters", EachEntry("filters")),
          DeclHeaders,
          Entity(None),
          BuildUri([Expand, ToUri]),
          Exchange(false, restTemplateName, verb, token) ]
  {
    var q := QueryParam("filters", true, false, true, true, []);
    assert [q][..0] == [];
    var qs := [QueryIfNotNull("filters", EachEntry("filters"))];
    assert QuerySection([q]) == qs;
    assert !HasNamed([]) && !HasIndexed([]);
    assert UriSection([]) == [];
    var chain := [Expand, ToUri];
    assert UriChain(false, false) == chain;
    var m := Method("/search", verb, [q], [], [], None, Void, true);
    BodyAssembled(restTemplateName, m, token, qs, [], [], chain);
  }

  // ---------------------------------------------------------------------------------------
  // The header template

  /** The header statement as the source writes it: the format `headers.add(%S, $L)` with two
      arguments. `%S` is not a JavaPoet placeholder, so only one argument is consumed. */
  const HeaderFormatAsWritten := "headers.add(%S, $L)"

  /** The format the header statement evidently intends, `headers.add($S, $L)`, written as its
      literal text and its two placeholders. */
  const HeaderFormat := "headers.add(" + "$S" + ", " + "$L" + ")"

  /** The header statement as written: JavaPoet either accepts the format with its two
      arguments, or throws. */
  function HeaderStmtAsWritten(h: HeaderParam): (r: Result<Stmt, PoetError>)
    ensures r.Success? ==> r.value == AddHeader(h.headerName, h.name)
  {
    match CheckArguments(HeaderFormatAsWritten, 2)
    case Success(_) => Success(AddHeader(h.headerName, h.name))
    case Failure(e) => Failure(e)
  }

  /** As written, every header parameter makes `CodeBlock.Builder.add` throw: one relative
      placeholder, two arguments. */
  lemma HeaderStmtAsWrittenThrows(h: HeaderParam)
    ensures HeaderStmtAsWritten(h) == Failure(UnusedArguments(1, 2))
  {
    var close := ")";
    assert RelativePlaceholders(close) == Success(0);
    var param := ['$', 'L'] + close;
    ArgumentPlaceholderPrefix('L', close);
    var whole := "headers.add(%S, " + param;
    PlainTextPrefix("headers.add(%S, ", param);
    assert HeaderFormatAsWritten == whole;
  }

  lemma StringAssoc(a: string, b: string, c: string)
    ensures a + b + c == a + (b + c)
  {
  }

  /** The corrected format consumes exactly its two arguments, the header name as a string
      literal and the parameter. */
  lemma HeaderFormatAccepted()
    ensures CheckArguments(HeaderFormat, 2) == Success(2)
  {
    var close := ")";
    assert RelativePlaceholders(close) == Success(0);
    var param := ['$', 'L'] + close;
    ArgumentPlaceholderPrefix('L', close);
    var sep := ", " + param;
    PlainTextPrefix(", ", param);
    var name := ['$', 'S'] + sep;
    ArgumentPlaceholderPrefix('S', sep);
    var whole := "headers.add(" + name;
    PlainTextPrefix("headers.add(", name);
    assert "$S" == ['$', 'S'] && "$L" == ['$', 'L'];
    StringAssoc("headers.add(" + "$S" + ", ", "$L", ")");
    StringAssoc("headers.add(" + "$S", ", ", param);
    StringAssoc("headers.add(", "$S", sep);
  }
}
