/**
 * The compiler on the schema of its own unit tests: three columns (`test1`
 * plain, `test2` in relation `re1`, `test3` in `re1.re2`) and three
 * declared includes `re1`, `re1.re2`, `re1.re2.re3` with association names
 * `re1`, `re2`, `re3`.
 */
module Cases {
  import opened Json
  import opened Schema
  import opened Keys
  import opened Filter
  import opened Order
  import opened Include

  const Test1 := Column("test1", "key1", None, Some(PublicFilter("테스트1", "테스트 필터 입니다", None, None, Some(["hello"]))))
  const Test2 := Column("test2", "key2", Some("re1"), None)
  const Test3 := Column("test3", "key3", Some("re1.re2"), None)

  const Re1 := IncludeDecl("re1", "Rel1", "re1", true)
  const Re2 := IncludeDecl("re1.re2", "Rel2", "re2", true)
  const Re3 := IncludeDecl("re1.re2.re3", "Rel3", "re3", false)

  const TestSchema := Options([Test1, Test2, Test3], [Re1, Re2, Re3])

  /** The test keys are no operator keywords. */
  lemma NoOperators()
    ensures OperatorOf("test1").None? && OperatorOf("test2").None? && OperatorOf("test3").None? && OperatorOf("test4").None?
  {
  }

  /** `test1` is the plain column `key1`. */
  lemma Test1Key()
    ensures ParseKey(TestSchema, "test1") == Ok(Resolved(ColKey("key1"), ColKey("key1"), None))
  {
    NoOperators();
    assert FindColumn(TestSchema.columns, "test1") == Some(0);
  }

  /** `test2` lives in `re1`. */
  lemma Test2Key()
    ensures ParseKey(TestSchema, "test2") == Ok(Resolved(ColKey("key2"), ColKey("$re1.key2$"), Some("re1")))
  {
    NoOperators();
    var cs := TestSchema.columns;
    assert cs[0].alias != "test2" && cs[1].alias == "test2";
    assert FindColumn(cs, "test2") == Some(1) by {
      assert FindColumn(cs[1..], "test2") == Some(0);
    }
    assert DeclaresAlias(TestSchema.includes, "re1") by { assert TestSchema.includes[0].alias == "re1"; }
    assert "$" + "re1" + "." + "key2" + "$" == "$re1.key2$";
  }

  /** `test3` lives in `re1.re2`. */
  lemma Test3Key()
    ensures ParseKey(TestSchema, "test3") == Ok(Resolved(ColKey("key3"), ColKey("$re1.re2.key3$"), Some("re1.re2")))
  {
    NoOperators();
    var cs := TestSchema.columns;
    assert cs[0].alias != "test3" && cs[1].alias != "test3" && cs[2].alias == "test3";
    assert FindColumn(cs, "test3") == Some(2) by {
      assert cs[1..][1..] == [Test3];
      assert FindColumn(cs[1..][1..], "test3") == Some(0);
      assert FindColumn(cs[1..], "test3") == Some(1);
    }
    assert DeclaresAlias(TestSchema.includes, "re1.re2") by { assert TestSchema.includes[1].alias == "re1.re2"; }
    assert "$" + "re1.re2" + "." + "key3" + "$" == "$re1.re2.key3$";
  }

  /** An undeclared alias throws. */
  lemma Test4Key()
    ensures ParseKey(TestSchema, "test4") == Err(UndefinedColumn("test4"))
  {
    NoOperators();
    var cs := TestSchema.columns;
    assert cs[0].alias != "test4" && cs[1].alias != "test4" && cs[2].alias != "test4";
  }

  /** `parseGroupByCount("test1")` and `parseGroupByCount("test3")`. */
  lemma GroupByCases()
    ensures ParseGroupByCount(TestSchema, "test1") == Ok(GroupBy(ColKey("key1"), None, ColKey("key1"), [ColKey("key1")]))
    ensures ParseGroupByCount(TestSchema, "test3") ==
              Ok(GroupBy(ColKey("key3"), Some("re1.re2"), ColKey("re1.re2.key3"), [ColKey("re1.re2.key3")]))
  {
    Test1Key();
    Test3Key();
    assert "re1.re2" + "." + "key3" == "re1.re2.key3";
  }

  /** The relation paths of the test includes, split into segments. */
  lemma TestSplits()
    ensures Split("re1") == ["re1"] && Split("re1.re2") == ["re1", "re2"]
    ensures Split("re1.re2.re3") == ["re1", "re2", "re3"]
  {
    var two, three := ["re1", "re2"], ["re1", "re2", "re3"];
    assert Join(two) == "re1.re2";
    assert Join(three) == "re1.re2.re3";
    SplitJoin(two);
    SplitJoin(three);
  }

  /**
   * `mapOrderBy` of `test1 ASC, test2 ASC, test3 DESC` from no aliases: the
   * entries in input order, each led by its relation path, and the two
   * relations collected once each.
   */
  lemma OrderCase(o: Options, items: seq<OrderItem>)
    requires o == TestSchema
    requires items == [OrderItem("test1", "ASC"), OrderItem("test2", "ASC"), OrderItem("test3", "DESC")]
    ensures OrderSpec(o, items, []) ==
              Ok(([OrderEntry([], ColKey("key1"), "ASC"),
                   OrderEntry(["re1"], ColKey("key2"), "ASC"),
                   OrderEntry(["re1", "re2"], ColKey("key3"), "DESC")],
                  ["re1", "re1.re2"]))
  {
    Test1Key();
    Test2Key();
    Test3Key();
    OrderOfThree(Resolver(o), items[0], items[1], items[2]);
    assert items == [items[0], items[1], items[2]];
    var r1, r2, r3 := ParseKey(o, "test1").value, ParseKey(o, "test2").value, ParseKey(o, "test3").value;
    TestOrderEntries(r1, r2, r3);
    TestOrderAliases(r1.includeAlias, r2.includeAlias, r3.includeAlias);
  }

  /** The order entries of the three resolved test fields. */
  lemma TestOrderEntries(r1: Resolved, r2: Resolved, r3: Resolved)
    requires r1 == Resolved(ColKey("key1"), ColKey("key1"), None)
    requires r2 == Resolved(ColKey("key2"), ColKey("$re1.key2$"), Some("re1"))
    requires r3 == Resolved(ColKey("key3"), ColKey("$re1.re2.key3$"), Some("re1.re2"))
    ensures [EntryFor(r1, "ASC"), EntryFor(r2, "ASC"), EntryFor(r3, "DESC")] ==
              [OrderEntry([], ColKey("key1"), "ASC"), OrderEntry(["re1"], ColKey("key2"), "ASC"), OrderEntry(["re1", "re2"], ColKey("key3"), "DESC")]
  {
    TestSplits();
  }

  /** The relations the three resolved test fields reach, each once. */
  lemma TestOrderAliases(a1: Option<string>, a2: Option<string>, a3: Option<string>)
    requires a1 == None && a2 == Some("re1") && a3 == Some("re1.re2")
    ensures AddAlias(AddAlias(AddAlias([], a1), a2), a3) == ["re1", "re1.re2"]
  {
    var c := AddAlias(AddAlias([], a1), a2);
    assert c == ["re1"];
    assert "re1.re2" !in c by { assert |c[0]| == 3 && |"re1.re2"| == 7; }
  }

  /** Three fields that all resolve: their entries in order and the relations they reach, each once. */
  lemma OrderOfThree(resolve: KeyResolver, x: OrderItem, y: OrderItem, z: OrderItem)
    requires resolve(x.field).Ok? && resolve(y.field).Ok? && resolve(z.field).Ok?
    ensures var r1, r2, r3 := resolve(x.field).value, resolve(y.field).value, resolve(z.field).value;
            OrderWith(resolve, [x, y, z], [], 3) ==
              Ok(([EntryFor(r1, x.direction), EntryFor(r2, y.direction), EntryFor(r3, z.direction)],
                  AddAlias(AddAlias(AddAlias([], r1.includeAlias), r2.includeAlias), r3.includeAlias)))
  {
    var items := [x, y, z];
    var r1, r2, r3 := resolve(x.field).value, resolve(y.field).value, resolve(z.field).value;
    var e1, e2, e3 := EntryFor(r1, x.direction), EntryFor(r2, y.direction), EntryFor(r3, z.direction);
    var a1 := AddAlias([], r1.includeAlias);
    var a2 := AddAlias(a1, r2.includeAlias);
    OrderStep(resolve, items, [], 0, [], [], r1);
    OrderStep(resolve, items, [], 1, [] + [e1], a1, r2);
    OrderStep(resolve, items, [], 2, [] + [e1] + [e2], a2, r3);
    assert [] + [e1] + [e2] + [e3] == [e1, e2, e3];
  }

  /** One more field that resolves. */
  lemma OrderStep(resolve: KeyResolver, items: seq<OrderItem>, aliases: seq<string>, n: nat,
                  es: seq<OrderEntry>, collected: seq<string>, rk: Resolved)
    requires n < |items| && OrderWith(resolve, items, aliases, n) == Ok((es, collected))
    requires resolve(items[n].field) == Ok(rk)
    ensures OrderWith(resolve, items, aliases, n + 1) ==
              Ok((es + [EntryFor(rk, items[n].direction)], AddAlias(collected, rk.includeAlias)))
  {
  }

  /** The descriptors the association names `re1`, `re2` and `re3` name. */
  lemma TestIncludes()
    ensures FindInclude(TestSchema.includes, "re1") == Some(0)
    ensures FindInclude(TestSchema.includes, "re2") == Some(1)
    ensures FindInclude(TestSchema.includes, "re3") == Some(2)
  {
    var incs := TestSchema.includes;
    assert FindInclude(incs, "re2") == Some(1) by {
      assert incs[0].asName != "re2";
      assert FindInclude(incs[1..], "re2") == Some(0);
    }
    assert FindInclude(incs, "re3") == Some(2) by {
      assert incs[0].asName != "re3" && incs[1].asName != "re3";
      assert incs[1..][1..] == [Re3];
      assert FindInclude(incs[1..][1..], "re3") == Some(0);
      assert FindInclude(incs[1..], "re3") == Some(1);
    }
  }

  /**
   * `mapInclude` of `re1.re2.re3` resolves the three descriptors in path
   * order.
   */
  lemma IncludeCase(alias: string)
    requires alias == "re1.re2.re3"
    ensures Chain(TestSchema.includes, alias) == Ok([0, 1, 2])
  {
    TestSplits();
    TestIncludes();
    ChainOfThree(TestSchema.includes, alias, "re1", "re2", "re3");
  }

  /** The writes and the root of the chain `[0, 1, 2]`. */
  lemma ChainCase()
    ensures ChainWrites([0, 1, 2]) == [Write(1, 2), Write(0, 1)]
    ensures Root([0, 1, 2]) == 0
  {
    assert [0, 1, 2][1..] == [1, 2] && [1, 2][1..] == [2];
  }

  /** A path of three segments that name the descriptors 0, 1 and 2 in turn. */
  lemma ChainOfThree(includes: seq<IncludeDecl>, alias: string, a: string, b: string, c: string)
    requires Split(alias) == [a, b, c]
    requires FindInclude(includes, a) == Some(0) && FindInclude(includes, b) == Some(1) && FindInclude(includes, c) == Some(2)
    ensures Chain(includes, alias) == Ok([0, 1, 2])
  {
    var segs := Split(alias);
    ResolveStep(includes, segs, 0, [], 0);
    ResolveStep(includes, segs, 1, [] + [0], 1);
    ResolveStep(includes, segs, 2, [] + [0] + [1], 2);
    assert [] + [0] + [1] + [2] == [0, 1, 2];
  }

  /** One more segment that names a descriptor. */
  lemma ResolveStep(includes: seq<IncludeDecl>, segs: seq<string>, n: nat, prev: seq<nat>, d: nat)
    requires n < |segs| && ResolveSegments(includes, segs, n) == Ok(prev) && FindInclude(includes, segs[n]) == Some(d)
    ensures ResolveSegments(includes, segs, n + 1) == Ok(prev + [d])
  {
  }
}
