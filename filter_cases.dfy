/**
 * `parseFilter` and `parser` on the unit tests' schema: the nested AND/OR
 * filter, and an authorization filter merged with an empty client filter.
 * The concrete values arrive as parameters fixed by `requires`, and the
 * work is done by step lemmas over plain parameters.
 */
module FilterCases {
  import opened Json
  import opened Schema
  import opened Keys
  import opened Filter
  import opened Include
  import opened Query
  import opened Cases

  /** An entry whose value is a string, number or boolean keeps it, unless it is a reserved literal. */
  lemma ScalarEntry(resolve: KeyResolver, f: Json<string>, i: nat, k: string, v: Json<string>, r: Resolved)
    requires !f.JNull? && i < |Entries(f)| && Entries(f)[i] == (k, v)
    requires !NonLeaf(v) && ReservedOf(Embed(v)).None? && resolve(k) == Ok(r)
    ensures CompileEntry(resolve, f, i) == Ok(Compiled(r, Embed(v), []))
  {
  }

  /** An entry whose value is an object stores that object's compiled `where` and pushes its aliases. */
  lemma ObjectEntry(resolve: KeyResolver, f: Json<string>, i: nat, k: string, v: Json<string>, sub: Parsed, r: Resolved)
    requires !f.JNull? && i < |Entries(f)| && Entries(f)[i] == (k, v)
    requires v.JObj? && ParseFilterSpec(resolve, v) == Ok(sub) && resolve(k) == Ok(r)
    ensures CompileEntry(resolve, f, i) == Ok(Compiled(r, JObj(sub.where), sub.aliases))
  {
    assert CompileValue(resolve, v) == Ok((JObj(sub.where), sub.aliases));
  }

  /** An object of one entry compiles to the fold of that entry. */
  lemma OneEntry(resolve: KeyResolver, f: Json<string>, c: Compiled)
    requires f.JObj? && |f.fields| == 1 && CompileEntry(resolve, f, 0) == Ok(c)
    ensures ParseFilterSpec(resolve, f) == Ok(Fold([c]))
  {
    assert CompileEntries(resolve, f, 1) == Ok([] + [c]);
    assert [] + [c] == [c];
  }

  /** An object of two entries compiles to the fold of both, in order. */
  lemma TwoEntries(resolve: KeyResolver, f: Json<string>, c1: Compiled, c2: Compiled)
    requires f.JObj? && |f.fields| == 2
    requires CompileEntry(resolve, f, 0) == Ok(c1) && CompileEntry(resolve, f, 1) == Ok(c2)
    ensures ParseFilterSpec(resolve, f) == Ok(Fold([c1, c2]))
  {
    assert CompileEntries(resolve, f, 1) == Ok([] + [c1]);
    assert [] + [c1] == [c1];
    assert CompileEntries(resolve, f, 2) == Ok([c1] + [c2]);
    assert [c1, c2][..1] == [c1];
  }

  /** The fold of one entry stores its value under its key and adds its relation. */
  lemma FoldOne(c: Compiled)
    ensures Fold([c]) == Parsed([(c.resolved.whereKey, c.value)], AddAlias(c.pushed, c.resolved.includeAlias))
  {
    assert [c][..0] == [];
    assert [] + c.pushed == c.pushed;
  }

  /** The fold of two entries under distinct keys stores both, in order. */
  lemma FoldTwo(c1: Compiled, c2: Compiled)
    requires c1.resolved.whereKey != c2.resolved.whereKey
    ensures Fold([c1, c2]) ==
              Parsed([(c1.resolved.whereKey, c1.value), (c2.resolved.whereKey, c2.value)],
                     AddAlias(AddAlias(c1.pushed, c1.resolved.includeAlias) + c2.pushed, c2.resolved.includeAlias))
  {
    assert [c1, c2][..1] == [c1];
    FoldOne(c1);
    var w := [(c1.resolved.whereKey, c1.value)];
    assert Put(w, c2.resolved.whereKey, c2.value) == [w[0]] + Put([], c2.resolved.whereKey, c2.value);
  }

  /** The operator keywords "and" and "or". */
  lemma LogicKeys(o: Options)
    ensures ParseKey(o, "and") == Ok(Resolved(OpKey(And), OpKey(And), None))
    ensures ParseKey(o, "or") == Ok(Resolved(OpKey(Or), OpKey(Or), None))
  {
    assert OperatorOf("and") == Some(And);
    assert OperatorOf("or") == Some(Or);
  }

  /** The `or` part of the nested test filter: `{test1: "ok"}` compiles to `{key1: "ok"}`. */
  lemma OrPart(o: Options, orPart: Json<string>)
    requires o == TestSchema && orPart == JObj([("test1", JStr("ok"))])
    ensures ParseFilterSpec(Resolver(o), orPart) == Ok(Parsed([(ColKey("key1"), JStr("ok"))], []))
  {
    Test1Key();
    var ok: Json<string> := JStr("ok");
    var okK: Json<Key> := JStr("ok");
    assert Embed(ok) == okK;
    var c := Compiled(Resolved(ColKey("key1"), ColKey("key1"), None), okK, []);
    ScalarEntry(Resolver(o), orPart, 0, "test1", ok, c.resolved);
    OneEntry(Resolver(o), orPart, c);
    FoldOne(c);
  }

  /** The `and` part: `{test1: "ok", test2: "ok"}` compiles to `{key1: "ok", "$re1.key2$": "ok"}` and collects `re1`. */
  lemma AndPart(o: Options, andPart: Json<string>)
    requires o == TestSchema && andPart == JObj([("test1", JStr("ok")), ("test2", JStr("ok"))])
    ensures ParseFilterSpec(Resolver(o), andPart) ==
              Ok(Parsed([(ColKey("key1"), JStr("ok")), (ColKey("$re1.key2$"), JStr("ok"))], ["re1"]))
  {
    Test1Key();
    Test2Key();
    var ok: Json<string> := JStr("ok");
    var okK: Json<Key> := JStr("ok");
    assert Embed(ok) == okK;
    var c1 := Compiled(Resolved(ColKey("key1"), ColKey("key1"), None), okK, []);
    var c2 := Compiled(Resolved(ColKey("key2"), ColKey("$re1.key2$"), Some("re1")), okK, []);
    ScalarEntry(Resolver(o), andPart, 0, "test1", ok, c1.resolved);
    ScalarEntry(Resolver(o), andPart, 1, "test2", ok, c2.resolved);
    TwoEntries(Resolver(o), andPart, c1, c2);
    FoldTwo(c1, c2);
    assert AddAlias(AddAlias([], None) + [], Some("re1")) == ["re1"];
  }

  /** An object of two object-valued entries under distinct keys stores both compiled objects, in order. */
  lemma TwoObjects(resolve: KeyResolver, f: Json<string>, k1: string, v1: Json<string>, k2: string, v2: Json<string>,
                   sub1: Parsed, sub2: Parsed, r1: Resolved, r2: Resolved)
    requires f == JObj([(k1, v1), (k2, v2)]) && v1.JObj? && v2.JObj?
    requires ParseFilterSpec(resolve, v1) == Ok(sub1) && ParseFilterSpec(resolve, v2) == Ok(sub2)
    requires resolve(k1) == Ok(r1) && resolve(k2) == Ok(r2) && r1.whereKey != r2.whereKey
    ensures ParseFilterSpec(resolve, f) ==
              Ok(Parsed([(r1.whereKey, JObj(sub1.where)), (r2.whereKey, JObj(sub2.where))],
                        AddAlias(AddAlias(sub1.aliases, r1.includeAlias) + sub2.aliases, r2.includeAlias)))
  {
    var e1 := Compiled(r1, JObj(sub1.where), sub1.aliases);
    var e2 := Compiled(r2, JObj(sub2.where), sub2.aliases);
    ObjectEntry(resolve, f, 0, k1, v1, sub1, r1);
    ObjectEntry(resolve, f, 1, k2, v2, sub2, r2);
    TwoEntries(resolve, f, e1, e2);
    FoldTwo(e1, e2);
  }

  /**
   * The unit test "다중 and, or 필터 해석": `{or: {test1: "ok"}, and: {test1:
   * "ok", test2: "ok"}}` compiles to `{[Op.or]: {key1: "ok"}, [Op.and]:
   * {key1: "ok", "$re1.key2$": "ok"}}` and collects `re1`.
   */
  lemma AndOrCase(o: Options, orPart: Json<string>, andPart: Json<string>, f: Json<string>)
    requires o == TestSchema
    requires orPart == JObj([("test1", JStr("ok"))])
    requires andPart == JObj([("test1", JStr("ok")), ("test2", JStr("ok"))])
    requires f == JObj([("or", orPart), ("and", andPart)])
    ensures ParseFilterSpec(Resolver(o), f) ==
              Ok(Parsed([(OpKey(Or), JObj([(ColKey("key1"), JStr("ok"))])),
                         (OpKey(And), JObj([(ColKey("key1"), JStr("ok")), (ColKey("$re1.key2$"), JStr("ok"))]))],
                        ["re1"]))
  {
    OrPart(o, orPart);
    AndPart(o, andPart);
    LogicKeys(o);
    TwoObjects(Resolver(o), f, "or", orPart, "and", andPart,
               Parsed([(ColKey("key1"), JStr("ok"))], []),
               Parsed([(ColKey("key1"), JStr("ok")), (ColKey("$re1.key2$"), JStr("ok"))], ["re1"]),
               Resolved(OpKey(Or), OpKey(Or), None), Resolved(OpKey(And), OpKey(And), None));
    assert AddAlias(AddAlias([], None) + ["re1"], None) == ["re1"];
  }

  /**
   * The unit test "authFilter 테스트 - 비어있는 필터": with an empty client
   * filter the authorization filter `{test1: "hello"}` replaces it, and the
   * query is `{key1: "hello"}` with no includes and the default page.
   */
  lemma EmptyFilterAuthCase(o: Options, auth: Fields<string>)
    requires o == TestSchema
    requires auth == [("test1", JStr("hello"))]
    ensures var out := ParserSpec(Resolver(o), ChainsOf(o.includes), Some(JObj([])), None, None, None, Some(auth));
      out.filter == Some(JObj(auth)) && out.writes == [] &&
      out.result == Ok(QueryOut([(ColKey("key1"), JStr("hello"))], [], [], [], 9999, 0))
  {
    var resolve := Resolver(o);
    Test1Key();
    var hello: Json<string> := JStr("hello");
    var helloK: Json<Key> := JStr("hello");
    assert Embed(hello) == helloK;
    assert "and" !in KeysOf(auth);
    assert !NonEmpty(Some(JObj([])));
    var r1 := Resolved(ColKey("key1"), ColKey("key1"), None);
    var c := Compiled(r1, helloK, []);
    ScalarEntry(resolve, JObj(auth), 0, "test1", hello, r1);
    OneEntry(resolve, JObj(auth), c);
    FoldOne(c);
    assert Dedup(WithPageAlias([], None)) == [];
  }
}
