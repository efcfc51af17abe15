/**
 * The recursive filter compiler `parseFilter`, as functions over values, and
 * what it guarantees: when it throws, which relation aliases it collects, and
 * what the compiled `where` object holds. `Query.FilterToQuery.ParseFilter`
 * is the loop that computes it.
 */
module Filter {
  import opened Json
  import opened Schema
  import opened Keys

  /** What `parseFilter` returns: the `where` object and the aliases pushed, in push order. */
  datatype Parsed = Parsed(where: Fields<Key>, aliases: seq<string>)

  /** A value JavaScript types as "object" that is not an array: an object, or null. */
  predicate ObjectLike(v: Json<string>) {
    v.JObj? || v.JNull?
  }

  /** A value `parseFilter` descends into: an array, an object or null. */
  predicate NonLeaf(v: Json<string>) {
    v.JArr? || ObjectLike(v)
  }

  /** One compiled entry: the resolved key, the value stored under it, the aliases pushed while compiling the value. */
  datatype Compiled = Compiled(resolved: Resolved, value: Json<Key>, pushed: seq<string>)

  /**
   * `parseFilter(f)`. It recurses only into objects and null; at the top level
   * `f` may be any value, whose `Object.entries` it walks. Null has no
   * entries: `Object.entries(null)` throws. The first entry that fails
   * decides the error; otherwise the entries' effects are folded in order.
   */
  function ParseFilterSpec(resolve: KeyResolver, f: Json<string>): (r: Result<Parsed>)
    decreases f, 3
  {
    if f.JNull? then Err(NullFilter)
    else
      var cs :- CompileEntries(resolve, f, |Entries(f)|);
      Ok(Fold(cs))
  }

  /** The first `n` entries of `f`, compiled one by one. */
  function CompileEntries(resolve: KeyResolver, f: Json<string>, n: nat): (r: Result<seq<Compiled>>)
    requires !f.JNull? && n <= |Entries(f)|
    decreases f, 2, n
    ensures r.Ok? ==> |r.value| == n
  {
    if n == 0 then Ok([])
    else
      var cs :- CompileEntries(resolve, f, n - 1);
      var e :- CompileEntry(resolve, f, n - 1);
      Ok(cs + [e])
  }

  /** The loop's accumulators after the effects of `cs`, in order. */
  function Fold(cs: seq<Compiled>): Parsed {
    if cs == [] then Parsed([], []) else Step(Fold(cs[..|cs| - 1]), cs[|cs| - 1])
  }

  /**
   * One loop iteration's effect: `where[whereKey] = value`, and the relation
   * alias pushed unless the accumulator already holds it.
   */
  function Step(acc: Parsed, e: Compiled): Parsed {
    Parsed(Put(acc.where, e.resolved.whereKey, e.value),
           AddAlias(acc.aliases + e.pushed, e.resolved.includeAlias))
  }

  /**
   * Entry `i`: its value is compiled first (arrays element-wise, objects and
   * null recursively, anything else kept), then its key is resolved, then a
   * reserved literal is replaced by its null test.
   */
  function CompileEntry(resolve: KeyResolver, f: Json<string>, i: nat): (r: Result<Compiled>)
    requires !f.JNull? && i < |Entries(f)|
    decreases f, 1
  {
    var key := Entries(f)[i].0;
    var value := Entries(f)[i].1;
    var cv :- if NonLeaf(value) then CompileValue(resolve, value) else Ok((Embed(value), []));
    var rk :- resolve(key);
    var stored := match ReservedOf(cv.0) case Some(op) => NullWrapper(op) case None => cv.0;
    Ok(Compiled(rk, stored, cv.1))
  }

  /** The compiled form of an array, object or null value, and the aliases pushed meanwhile. */
  function CompileValue(resolve: KeyResolver, v: Json<string>): (r: Result<(Json<Key>, seq<string>)>)
    requires NonLeaf(v)
    decreases v, 4
  {
    if v.JArr? then
      var r :- ParseItems(resolve, v, |v.items|);
      Ok((JArr(r.0), r.1))
    else
      var sub :- ParseFilterSpec(resolve, v);
      Ok((JObj(sub.where), sub.aliases))
  }

  /**
   * `value.map(...)` over the first `n` elements of an array: an object (or
   * null) element is compiled and its aliases are pushed twice, once by the
   * spread push and once by the `forEach`; any other element passes through.
   */
  function ParseItems(resolve: KeyResolver, a: Json<string>, n: nat): (r: Result<(seq<Json<Key>>, seq<string>)>)
    requires a.JArr? && n <= |a.items|
    decreases a, 1, n
    ensures r.Ok? ==> |r.value.0| == n
  {
    if n == 0 then Ok(([], []))
    else
      var prev :- ParseItems(resolve, a, n - 1);
      var e := a.items[n - 1];
      if ObjectLike(e) then
        var sub :- ParseFilterSpec(resolve, e);
        Ok((prev.0 + [JObj(sub.where)], prev.1 + sub.aliases + sub.aliases))
      else
        Ok((prev.0 + [Embed(e)], prev.1))
  }

  // ---------------------------------------------------------------------
  // When compilation succeeds, with which errors, and which relations it
  // touches, stated without the outputs and the accumulators of the loops.

  /** Every key of every object the compiler walks resolves, and no null stands where it descends. */
  predicate Admissible(resolve: KeyResolver, f: Json<string>)
    decreases f, 3
  {
    !f.JNull? && AdmissibleUpTo(resolve, f, |Entries(f)|)
  }

  predicate AdmissibleUpTo(resolve: KeyResolver, f: Json<string>, n: nat)
    requires !f.JNull? && n <= |Entries(f)|
    decreases f, 2, n
  {
    n == 0 || (AdmissibleUpTo(resolve, f, n - 1) && EntryAdmissible(resolve, f, n - 1))
  }

  predicate EntryAdmissible(resolve: KeyResolver, f: Json<string>, i: nat)
    requires !f.JNull? && i < |Entries(f)|
    decreases f, 1
  {
    var value := Entries(f)[i].1;
    resolve(Entries(f)[i].0).Ok? && (NonLeaf(value) ==> ValueAdmissible(resolve, value))
  }

  predicate ValueAdmissible(resolve: KeyResolver, v: Json<string>)
    requires NonLeaf(v)
    decreases v, 4
  {
    match v
    case JNull => false
    case JObj(_) => Admissible(resolve, v)
    case JArr(items) => ItemsAdmissible(resolve, v, |items|)
  }

  predicate ItemsAdmissible(resolve: KeyResolver, a: Json<string>, n: nat)
    requires a.JArr? && n <= |a.items|
    decreases a, 1, n
  {
    n == 0 || (ItemsAdmissible(resolve, a, n - 1) && (ObjectLike(a.items[n - 1]) ==> Admissible(resolve, a.items[n - 1])))
  }

  /** Some key the compiler walks resolves to a column of relation `x`. */
  predicate Touches(resolve: KeyResolver, f: Json<string>, x: string)
    decreases f, 3
  {
    !f.JNull? && TouchesUpTo(resolve, f, |Entries(f)|, x)
  }

  predicate TouchesUpTo(resolve: KeyResolver, f: Json<string>, n: nat, x: string)
    requires !f.JNull? && n <= |Entries(f)|
    decreases f, 2, n
  {
    n > 0 && (TouchesUpTo(resolve, f, n - 1, x) || EntryTouches(resolve, f, n - 1, x))
  }

  predicate EntryTouches(resolve: KeyResolver, f: Json<string>, i: nat, x: string)
    requires !f.JNull? && i < |Entries(f)|
    decreases f, 1
  {
    var rk := resolve(Entries(f)[i].0);
    var value := Entries(f)[i].1;
    (rk.Ok? && rk.value.includeAlias == Some(x)) || (NonLeaf(value) && ValueTouches(resolve, value, x))
  }

  predicate ValueTouches(resolve: KeyResolver, v: Json<string>, x: string)
    requires NonLeaf(v)
    decreases v, 4
  {
    match v
    case JNull => false
    case JObj(_) => Touches(resolve, v, x)
    case JArr(items) => ItemsTouch(resolve, v, |items|, x)
  }

  predicate ItemsTouch(resolve: KeyResolver, a: Json<string>, n: nat, x: string)
    requires a.JArr? && n <= |a.items|
    decreases a, 1, n
  {
    n > 0 && (ItemsTouch(resolve, a, n - 1, x) || (ObjectLike(a.items[n - 1]) && Touches(resolve, a.items[n - 1], x)))
  }

  /** Some compiled entry pushed `x` or resolved into relation `x`. */
  predicate Collects(cs: seq<Compiled>, x: string) {
    cs != [] &&
    (Collects(cs[..|cs| - 1], x) || x in cs[|cs| - 1].pushed || cs[|cs| - 1].resolved.includeAlias == Some(x))
  }

  /** The fold collects each entry's aliases, and nothing else. */
  lemma {:induction false} FoldAliases(cs: seq<Compiled>, x: string)
    ensures x in Fold(cs).aliases <==> Collects(cs, x)
  {
    if cs != [] {
      var acc := Fold(cs[..|cs| - 1]);
      var e := cs[|cs| - 1];
      FoldAliases(cs[..|cs| - 1], x);
      AddAliasFacts(acc.aliases + e.pushed, e.resolved.includeAlias);
    }
  }

  /**
   * `parseFilter` succeeds exactly on admissible filters; when it throws and
   * the resolution throws only column errors, the error is a column error or
   * that of a null filter.
   */
  lemma {:induction false} ParseFilterSucceeds(resolve: KeyResolver, f: Json<string>)
    decreases f, 3
    ensures ParseFilterSpec(resolve, f).Ok? <==> Admissible(resolve, f)
    ensures ColumnErrorsOnly(resolve) && ParseFilterSpec(resolve, f).Err? ==> CompileError(ParseFilterSpec(resolve, f).error)
  {
    if !f.JNull? {
      EntriesSucceed(resolve, f, |Entries(f)|);
    }
  }

  lemma {:induction false} EntriesSucceed(resolve: KeyResolver, f: Json<string>, n: nat)
    requires !f.JNull? && n <= |Entries(f)|
    decreases f, 2, n
    ensures CompileEntries(resolve, f, n).Ok? <==> AdmissibleUpTo(resolve, f, n)
    ensures ColumnErrorsOnly(resolve) && CompileEntries(resolve, f, n).Err? ==> CompileError(CompileEntries(resolve, f, n).error)
  {
    if n > 0 {
      EntriesSucceed(resolve, f, n - 1);
      EntrySucceeds(resolve, f, n - 1);
      EntriesStep(resolve, f, n);
    }
  }

  /** One iteration of the entry loop. */
  lemma EntriesStep(resolve: KeyResolver, f: Json<string>, n: nat)
    requires !f.JNull? && 0 < n <= |Entries(f)|
    ensures CompileEntries(resolve, f, n) ==
              if CompileEntries(resolve, f, n - 1).Err? then CompileEntries(resolve, f, n - 1)
              else if CompileEntry(resolve, f, n - 1).Err? then Err(CompileEntry(resolve, f, n - 1).error)
              else Ok(CompileEntries(resolve, f, n - 1).value + [CompileEntry(resolve, f, n - 1).value])
  {
  }

  lemma {:induction false} EntrySucceeds(resolve: KeyResolver, f: Json<string>, i: nat)
    requires !f.JNull? && i < |Entries(f)|
    decreases f, 1
    ensures CompileEntry(resolve, f, i).Ok? <==> EntryAdmissible(resolve, f, i)
    ensures ColumnErrorsOnly(resolve) && CompileEntry(resolve, f, i).Err? ==> CompileError(CompileEntry(resolve, f, i).error)
  {
    var value := Entries(f)[i].1;
    if NonLeaf(value) {
      ValueSucceeds(resolve, value);
    }
  }

  lemma {:induction false} ValueSucceeds(resolve: KeyResolver, v: Json<string>)
    requires NonLeaf(v)
    decreases v, 4
    ensures CompileValue(resolve, v).Ok? <==> ValueAdmissible(resolve, v)
    ensures ColumnErrorsOnly(resolve) && CompileValue(resolve, v).Err? ==> CompileError(CompileValue(resolve, v).error)
  {
    if v.JArr? {
      ItemsSucceed(resolve, v, |v.items|);
    } else {
      ParseFilterSucceeds(resolve, v);
    }
  }

  lemma {:induction false} ItemsSucceed(resolve: KeyResolver, a: Json<string>, n: nat)
    requires a.JArr? && n <= |a.items|
    decreases a, 1, n
    ensures ParseItems(resolve, a, n).Ok? <==> ItemsAdmissible(resolve, a, n)
    ensures ColumnErrorsOnly(resolve) && ParseItems(resolve, a, n).Err? ==> CompileError(ParseItems(resolve, a, n).error)
  {
    if n > 0 {
      ItemsSucceed(resolve, a, n - 1);
      if ObjectLike(a.items[n - 1]) {
        ParseFilterSucceeds(resolve, a.items[n - 1]);
      }
    }
  }

  /** When `parseFilter` succeeds, the aliases it collects are exactly the relations the filter touches. */
  lemma {:induction false} ParseFilterAliases(resolve: KeyResolver, f: Json<string>, x: string)
    requires ParseFilterSpec(resolve, f).Ok?
    decreases f, 3
    ensures x in ParseFilterSpec(resolve, f).value.aliases <==> Touches(resolve, f, x)
  {
    FoldAliases(CompileEntries(resolve, f, |Entries(f)|).value, x);
    EntriesAliases(resolve, f, |Entries(f)|, x);
  }

  lemma {:induction false} EntriesAliases(resolve: KeyResolver, f: Json<string>, n: nat, x: string)
    requires !f.JNull? && n <= |Entries(f)| && CompileEntries(resolve, f, n).Ok?
    decreases f, 2, n
    ensures Collects(CompileEntries(resolve, f, n).value, x) <==> TouchesUpTo(resolve, f, n, x)
  {
    if n > 0 {
      EntriesStepOk(resolve, f, n);
      var cs := CompileEntries(resolve, f, n - 1).value;
      var e := CompileEntry(resolve, f, n - 1).value;
      EntriesAliases(resolve, f, n - 1, x);
      EntryAliases(resolve, f, n - 1, x);
      CollectsSnoc(cs, e, x);
      assert TouchesUpTo(resolve, f, n, x) <==> TouchesUpTo(resolve, f, n - 1, x) || EntryTouches(resolve, f, n - 1, x);
    }
  }

  lemma CollectsSnoc(cs: seq<Compiled>, e: Compiled, x: string)
    ensures Collects(cs + [e], x) <==> Collects(cs, x) || x in e.pushed || e.resolved.includeAlias == Some(x)
  {
    assert (cs + [e])[..|cs|] == cs;
  }

  lemma {:induction false} EntryAliases(resolve: KeyResolver, f: Json<string>, i: nat, x: string)
    requires !f.JNull? && i < |Entries(f)| && CompileEntry(resolve, f, i).Ok?
    decreases f, 1
    ensures var e := CompileEntry(resolve, f, i).value;
            x in e.pushed || e.resolved.includeAlias == Some(x) <==> EntryTouches(resolve, f, i, x)
  {
    var value := Entries(f)[i].1;
    if NonLeaf(value) {
      ValueAliases(resolve, value, x);
    }
  }

  lemma {:induction false} ValueAliases(resolve: KeyResolver, v: Json<string>, x: string)
    requires NonLeaf(v) && CompileValue(resolve, v).Ok?
    decreases v, 4
    ensures x in CompileValue(resolve, v).value.1 <==> ValueTouches(resolve, v, x)
  {
    if v.JArr? {
      ItemsAliases(resolve, v, |v.items|, x);
    } else {
      ParseFilterAliases(resolve, v, x);
    }
  }

  lemma {:induction false} ItemsAliases(resolve: KeyResolver, a: Json<string>, n: nat, x: string)
    requires a.JArr? && n <= |a.items| && ParseItems(resolve, a, n).Ok?
    decreases a, 1, n
    ensures x in ParseItems(resolve, a, n).value.1 <==> ItemsTouch(resolve, a, n, x)
  {
    if n > 0 {
      ItemsAliases(resolve, a, n - 1, x);
      if ObjectLike(a.items[n - 1]) {
        ParseFilterAliases(resolve, a.items[n - 1], x);
      }
    }
  }

  /** A successful compilation holds one compiled entry per entry, each the compilation of that entry. */
  lemma {:induction false} CompiledEntry(resolve: KeyResolver, f: Json<string>, n: nat, i: nat)
    requires !f.JNull? && i < n <= |Entries(f)| && CompileEntries(resolve, f, n).Ok?
    ensures CompileEntry(resolve, f, i) == Ok(CompileEntries(resolve, f, n).value[i])
  {
    EntriesStepOk(resolve, f, n);
    if i < n - 1 {
      CompiledEntry(resolve, f, n - 1, i);
    }
  }

  /** One successful iteration of the entry loop. */
  lemma EntriesStepOk(resolve: KeyResolver, f: Json<string>, n: nat)
    requires !f.JNull? && 0 < n <= |Entries(f)| && CompileEntries(resolve, f, n).Ok?
    ensures CompileEntries(resolve, f, n - 1).Ok? && CompileEntry(resolve, f, n - 1).Ok?
    ensures var cs := CompileEntries(resolve, f, n - 1).value;
            CompileEntries(resolve, f, n).value == cs + [CompileEntry(resolve, f, n - 1).value]
  {
  }

  // ---------------------------------------------------------------------
  // The compiled `where` object.

  /** The where keys of the compiled entries, in entry order. */
  function WhereKeys(cs: seq<Compiled>): (r: seq<Key>)
    ensures |r| == |cs|
    ensures forall i | 0 <= i < |cs| :: r[i] == cs[i].resolved.whereKey
  {
    if cs == [] then [] else WhereKeys(cs[..|cs| - 1]) + [cs[|cs| - 1].resolved.whereKey]
  }

  /** The value of the last compiled entry whose where key is `k`. */
  function LastWrite(cs: seq<Compiled>, k: Key): (r: Option<Json<Key>>)
    ensures r.None? <==> k !in WhereKeys(cs)
  {
    if cs == [] then None
    else if cs[|cs| - 1].resolved.whereKey == k then Some(cs[|cs| - 1].value)
    else LastWrite(cs[..|cs| - 1], k)
  }

  /**
   * The folded `where` has one property per distinct where key, in order of
   * first occurrence, and each holds the value of the last entry resolving to
   * it: a later entry overwrites an earlier one (`{age: …, 나이: …}` with both
   * aliases naming one column keeps only the second value).
   */
  lemma {:induction false} FoldWhere(cs: seq<Compiled>)
    ensures KeysOf(Fold(cs).where) == Dedup(WhereKeys(cs))
    ensures forall k :: Lookup(Fold(cs).where, k) == LastWrite(cs, k)
  {
    if cs != [] {
      var p := cs[..|cs| - 1];
      var e := cs[|cs| - 1];
      FoldWhere(p);
      PutFacts(Fold(p).where, e.resolved.whereKey, e.value);
      assert WhereKeys(cs)[..|cs| - 1] == WhereKeys(p);
    }
  }

  /** The same facts for a whole filter, with each entry's compilation. */
  lemma ParseFilterWhere(resolve: KeyResolver, f: Json<string>)
    requires ParseFilterSpec(resolve, f).Ok?
    ensures !f.JNull? && CompileEntries(resolve, f, |Entries(f)|).Ok?
    ensures var cs := CompileEntries(resolve, f, |Entries(f)|).value;
            var where := ParseFilterSpec(resolve, f).value.where;
            && |cs| == |Entries(f)|
            && (forall i | 0 <= i < |cs| :: CompileEntry(resolve, f, i) == Ok(cs[i]))
            && KeysOf(where) == Dedup(WhereKeys(cs))
            && forall k :: Lookup(where, k) == LastWrite(cs, k)
  {
    var cs := CompileEntries(resolve, f, |Entries(f)|).value;
    forall i | 0 <= i < |Entries(f)|
      ensures CompileEntry(resolve, f, i) == Ok(cs[i])
    {
      CompiledEntry(resolve, f, |Entries(f)|, i);
    }
    FoldWhere(cs);
  }

  /** A compiled entry carries the resolution of its own key. */
  lemma EntryResolved(resolve: KeyResolver, f: Json<string>, i: nat)
    requires !f.JNull? && i < |Entries(f)| && CompileEntry(resolve, f, i).Ok?
    ensures resolve(Entries(f)[i].0) == Ok(CompileEntry(resolve, f, i).value.resolved)
  {
  }

  /** A string value is stored as is, unless it is a reserved literal, which becomes its null test. */
  lemma ReservedLiteral(resolve: KeyResolver, f: Json<string>, i: nat)
    requires !f.JNull? && i < |Entries(f)| && CompileEntry(resolve, f, i).Ok?
    requires Entries(f)[i].1.JStr?
    ensures var s := Entries(f)[i].1.s;
            CompileEntry(resolve, f, i).value.value ==
              match ReservedName(s) case Some(op) => NullWrapper(op) case None => JStr(s)
  {
  }

  /** Numbers and booleans are stored unchanged. */
  lemma ScalarValue(resolve: KeyResolver, f: Json<string>, i: nat)
    requires !f.JNull? && i < |Entries(f)| && CompileEntry(resolve, f, i).Ok?
    requires Entries(f)[i].1.JNum? || Entries(f)[i].1.JBool?
    ensures CompileEntry(resolve, f, i).value.value == Embed(Entries(f)[i].1)
  {
  }

  /** An object value is stored as its own compiled `where`, and its aliases are collected. */
  lemma NestedObject(resolve: KeyResolver, f: Json<string>, i: nat)
    requires !f.JNull? && i < |Entries(f)| && CompileEntry(resolve, f, i).Ok?
    requires Entries(f)[i].1.JObj?
    ensures ParseFilterSpec(resolve, Entries(f)[i].1).Ok?
    ensures CompileEntry(resolve, f, i).value.value == JObj(ParseFilterSpec(resolve, Entries(f)[i].1).value.where)
    ensures CompileEntry(resolve, f, i).value.pushed == ParseFilterSpec(resolve, Entries(f)[i].1).value.aliases
  {
  }

  /**
   * An array value is compiled element by element, in the same order and
   * number: objects (and null, which throws) recursively, anything else
   * unchanged.
   */
  lemma {:induction false} ArrayItems(resolve: KeyResolver, a: Json<string>, n: nat, j: nat)
    requires a.JArr? && j < n <= |a.items| && ParseItems(resolve, a, n).Ok?
    ensures ObjectLike(a.items[j]) ==> ParseFilterSpec(resolve, a.items[j]).Ok?
    ensures ParseItems(resolve, a, n).value.0[j] ==
              if ObjectLike(a.items[j]) then JObj(ParseFilterSpec(resolve, a.items[j]).value.where) else Embed(a.items[j])
  {
    ItemsStep(resolve, a, n);
    var prev := ParseItems(resolve, a, n - 1).value.0;
    var last := if ObjectLike(a.items[n - 1]) then JObj(ParseFilterSpec(resolve, a.items[n - 1]).value.where)
                else Embed(a.items[n - 1]);
    assert ParseItems(resolve, a, n).value.0 == prev + [last];
    if j < n - 1 {
      ArrayItems(resolve, a, n - 1, j);
      assert (prev + [last])[j] == prev[j];
    }
  }

  /** One iteration of the array map. */
  lemma ItemsStep(resolve: KeyResolver, a: Json<string>, n: nat)
    requires a.JArr? && 0 < n <= |a.items| && ParseItems(resolve, a, n).Ok?
    ensures ParseItems(resolve, a, n - 1).Ok?
    ensures ObjectLike(a.items[n - 1]) ==> ParseFilterSpec(resolve, a.items[n - 1]).Ok?
    ensures ParseItems(resolve, a, n).value.0 ==
              ParseItems(resolve, a, n - 1).value.0 +
              [if ObjectLike(a.items[n - 1]) then JObj(ParseFilterSpec(resolve, a.items[n - 1]).value.where) else Embed(a.items[n - 1])]
  {
  }

  /**
   * A one-element array holding a reserved literal also becomes the null
   * test, because the table lookup converts `["isNull"]` to "isNull".
   */
  lemma SingletonReservedArray(resolve: KeyResolver, f: Json<string>, i: nat, s: string)
    requires !f.JNull? && i < |Entries(f)| && CompileEntry(resolve, f, i).Ok?
    requires Entries(f)[i].1 == JArr([JStr(s)]) && ReservedName(s).Some?
    ensures CompileEntry(resolve, f, i).value.value == NullWrapper(ReservedName(s).value)
  {
    var a := Entries(f)[i].1;
    ArrayItems(resolve, a, 1, 0);
  }

  /** One successful iteration of the entry loop, forwards. */
  lemma EntriesAppend(resolve: KeyResolver, f: Json<string>, i: nat, cs: seq<Compiled>, e: Compiled)
    requires !f.JNull? && i < |Entries(f)|
    requires CompileEntries(resolve, f, i) == Ok(cs) && CompileEntry(resolve, f, i) == Ok(e)
    ensures CompileEntries(resolve, f, i + 1) == Ok(cs + [e])
    ensures Fold(cs + [e]) == Step(Fold(cs), e)
  {
    assert (cs + [e])[..|cs|] == cs;
  }

  /** An entry that throws ends the loop: its error is the whole filter's. */
  lemma EntriesErrStays(resolve: KeyResolver, f: Json<string>, i: nat, n: nat, e: Error)
    requires !f.JNull? && i < n <= |Entries(f)|
    requires CompileEntries(resolve, f, i).Ok? && CompileEntry(resolve, f, i) == Err(e)
    ensures CompileEntries(resolve, f, n) == Err(e)
  {
    EntriesErrAt(resolve, f, i, e);
    EntriesErrKept(resolve, f, i + 1, n, e);
  }

  /** Once the loop has thrown, later iterations keep the error. */
  lemma {:induction false} EntriesErrKept(resolve: KeyResolver, f: Json<string>, m: nat, n: nat, e: Error)
    requires !f.JNull? && m <= n <= |Entries(f)| && CompileEntries(resolve, f, m) == Err(e)
    ensures CompileEntries(resolve, f, n) == Err(e)
    decreases n - m
  {
    if m < n {
      EntriesErrNext(resolve, f, m + 1, e);
      EntriesErrKept(resolve, f, m + 1, n, e);
    }
  }

  /** The entry that throws. */
  lemma EntriesErrAt(resolve: KeyResolver, f: Json<string>, i: nat, e: Error)
    requires !f.JNull? && i < |Entries(f)|
    requires CompileEntries(resolve, f, i).Ok? && CompileEntry(resolve, f, i) == Err(e)
    ensures CompileEntries(resolve, f, i + 1) == Err(e)
  {
  }

  /** An iteration after the loop has thrown changes nothing. */
  lemma EntriesErrNext(resolve: KeyResolver, f: Json<string>, n: nat, e: Error)
    requires !f.JNull? && 0 < n <= |Entries(f)| && CompileEntries(resolve, f, n - 1) == Err(e)
    ensures CompileEntries(resolve, f, n) == Err(e)
  {
  }

  /** An array element that throws ends the `map`: its error is the whole array's. */
  lemma {:induction false} ItemsErrStays(resolve: KeyResolver, a: Json<string>, j: nat, n: nat)
    requires a.JArr? && j < n <= |a.items| && ObjectLike(a.items[j])
    requires ParseItems(resolve, a, j).Ok? && ParseFilterSpec(resolve, a.items[j]).Err?
    ensures ParseItems(resolve, a, n) == Err(ParseFilterSpec(resolve, a.items[j]).error)
    decreases n
  {
    if n > j + 1 {
      ItemsErrStays(resolve, a, j, n - 1);
    }
  }
}
