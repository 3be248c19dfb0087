/** The `ParameterizedTypeReference` static fields that carry each method's full return type
    to the `exchange` call, and how the processor's set of them de-duplicates. */
module TypeTokens {
  import opened Wrappers
  import opened JavaPoet
  import opened ClientModel

  /** The token type as the source builds it: `ParameterizedTypeReference<R>` for the return
      type R exactly as declared. */
  function TokenTypeAsWritten(responseType: TypeRef): (r: Result<TypeRef, PoetError>)
    ensures r.Success? <==> responseType.Declared?
  {
    ParameterizedTypeName(TypeReferenceName, [responseType])
  }

  /** For a method declared `void`, or returning a primitive, building the token type throws,
      so `processMethod` never reaches its `void` dispatch for such a method. */
  lemma VoidTokenThrows(k: PrimitiveKind)
    ensures TokenTypeAsWritten(Void) == Failure(InvalidTypeParameter(Void))
    ensures TokenTypeAsWritten(Primitive(k)) == Failure(InvalidTypeParameter(Primitive(k)))
  {
    assert FirstInvalidArgument([Void]) == Some(Void);
    assert FirstInvalidArgument([Primitive(k)]) == Some(Primitive(k));
  }

  /** The corrected token type: the return type is boxed first (`void` to `Void`, `int` to
      `Integer`, ...), which JavaPoet always accepts. */
  function TokenType(responseType: TypeRef): (r: TypeRef)
    ensures ParameterizedTypeName(TypeReferenceName, [Boxed(responseType)]) == Success(r)
    ensures responseType.Declared? ==> TokenTypeAsWritten(responseType) == Success(r)
  {
    Declared(TypeReferenceName, [Boxed(responseType)])
  }

  /** `public static final ParameterizedTypeReference<R> <name> = new ParameterizedTypeReference<R>(){}`. */
  function TokenField(responseType: TypeRef, name: string): FieldSpec
  {
    FieldSpec(TokenType(responseType), name, [Public, Static, Final], [],
              Some(NewAnonymous(TokenType(responseType))))
  }

  /** Two token fields are equal exactly when their (boxed) types and their names are: the
      modifiers and the initializer are fixed by the type. */
  lemma TokenFieldIdentity(t1: TypeRef, n1: string, t2: TypeRef, n2: string)
    ensures TokenField(t1, n1) == TokenField(t2, n2) <==> Boxed(t1) == Boxed(t2) && n1 == n2
  {
    if TokenField(t1, n1) == TokenField(t2, n2) {
      assert TokenType(t1).args[0] == TokenType(t2).args[0];
    }
  }

  /** The token field a method contributes, named by the simple-name helper. */
  function TokenOf(m: Method, simpleName: TypeRef -> string): FieldSpec
  {
    TokenField(m.returnType, simpleName(m.returnType))
  }

  /** The set of token fields after processing `ms` in order, starting from an empty set. */
  function Tokens(ms: seq<Method>, simpleName: TypeRef -> string): set<FieldSpec>
  {
    if ms == [] then {} else Tokens(ms[..|ms| - 1], simpleName) + {TokenOf(ms[|ms| - 1], simpleName)}
  }

  /** Processing one more method adds exactly its token field. */
  lemma TokensStep(ms: seq<Method>, m: Method, simpleName: TypeRef -> string)
    ensures Tokens(ms + [m], simpleName) == Tokens(ms, simpleName) + {TokenOf(m, simpleName)}
  {
    assert (ms + [m])[..|ms|] == ms;
  }

  /** A field is in the set exactly when some processed method contributed it. */
  lemma {:induction false} TokensMembers(ms: seq<Method>, simpleName: TypeRef -> string, f: FieldSpec)
    ensures f in Tokens(ms, simpleName) <==> exists i | 0 <= i < |ms| :: f == TokenOf(ms[i], simpleName)
  {
    if ms != [] {
      var init := ms[..|ms| - 1];
      TokensMembers(init, simpleName, f);
      assert forall i | 0 <= i < |init| :: init[i] == ms[i];
      if f in Tokens(ms, simpleName) && f !in Tokens(init, simpleName) {
        assert f == TokenOf(ms[|ms| - 1], simpleName);
      }
    }
  }

  /** There are never more token fields than methods: methods with the same return type share
      one field. */
  lemma {:induction false} TokensCount(ms: seq<Method>, simpleName: TypeRef -> string)
    ensures |Tokens(ms, simpleName)| <= |ms|
  {
    if ms != [] {
      TokensCount(ms[..|ms| - 1], simpleName);
    }
  }

  /** Two methods with the same return type contribute one field, which both dispatches
      name. */
  lemma TokensShared(m1: Method, m2: Method, simpleName: TypeRef -> string)
    requires m1.returnType == m2.returnType
    ensures Tokens([m1, m2], simpleName) == {TokenOf(m1, simpleName)}
    ensures TokenOf(m1, simpleName).name == TokenOf(m2, simpleName).name
  {
    assert [m1, m2][..1] == [m1];
    assert [m1][..0] == [];
    assert Tokens([m1], simpleName) == {TokenOf(m1, simpleName)};
  }

  /** The set keeps two fields when two return types differ but get the same simple name:
      the de-duplication is by type and name, not by name alone. */
  lemma SameNameDistinctTypes(t1: TypeRef, t2: TypeRef, name: string)
    requires Boxed(t1) != Boxed(t2)
    ensures |{TokenField(t1, name), TokenField(t2, name)}| == 2
  {
    TokenFieldIdentity(t1, name, t2, name);
  }

  /** When the simple-name helper tells apart the (boxed) return types of the methods, two
      methods' token fields share a name only when they are the same field, which the set
      then holds once. */
  lemma TokenNamesUnique(ms: seq<Method>, simpleName: TypeRef -> string, i: int, j: int)
    requires forall a, b | 0 <= a < |ms| && 0 <= b < |ms| ::
               simpleName(ms[a].returnType) == simpleName(ms[b].returnType) ==>
               Boxed(ms[a].returnType) == Boxed(ms[b].returnType)
    requires 0 <= i < |ms| && 0 <= j < |ms|
    ensures TokenOf(ms[i], simpleName).name == TokenOf(ms[j], simpleName).name ==>
              TokenOf(ms[i], simpleName) == TokenOf(ms[j], simpleName)
  {
    TokenFieldIdentity(ms[i].returnType, simpleName(ms[i].returnType),
                       ms[j].returnType, simpleName(ms[j].returnType));
  }
}
