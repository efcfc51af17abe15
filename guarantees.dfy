/**
 * What one `parser` call guarantees as a whole: where the authorization
 * filter ends up in the compiled `where`, which relations are included, and
 * how pagination is derived.
 */
module Guarantees {
  import opened Json
  import opened Schema
  import opened Keys
  import opened Filter
  import opened Order
  import opened Include
  import opened Query

  // ---------------------------------------------------------------------
  // The authorization merge.

  /** An authorization filter using "and" is refused before anything else happens: no filter rewrite, no descriptor write. */
  lemma AuthWithAndRefused(resolve: KeyResolver, chain: Chains, filter: Option<Json<string>>, pagination: Option<Pagination>,
                           orderBy: Option<seq<OrderItem>>, includeAlias: Option<string>, auth: Fields<string>)
    requires "and" in KeysOf(auth)
    ensures ParserSpec(resolve, chain, filter, pagination, orderBy, includeAlias, Some(auth)) ==
              Outcome(Err(ForbiddenFilter), filter, [])
  {
  }

  /**
   * The wrapper `{and: {and: filter, ...auth}}`: the client's filter stays the
   * first property of the inner object and the spread adds exactly the
   * authorization keys; when those are distinct, the inner object is the
   * client's entry followed by the authorization entries as given.
   */
  lemma WrapShape(filter: Json<string>, auth: Fields<string>)
    requires "and" !in KeysOf(auth)
    ensures Wrap(filter, auth) == JObj([("and", JObj([("and", filter)] + PutAll([], auth)))])
    ensures forall k :: k in KeysOf(PutAll([], auth)) <==> k in KeysOf(auth)
    ensures NoDup(KeysOf(auth)) ==> PutAll([], auth) == auth
  {
    PutAllKeepsHead(("and", filter), [], auth);
    assert [("and", filter)] + [] == [("and", filter)];
    PutAllKeys([], auth);
    if NoDup(KeysOf(auth)) {
      PutAllFresh([], auth);
    }
  }

  /** Spreading distinct new keys appends them. */
  lemma {:induction false} PutAllFresh<K(!new)>(fs: Fields<K>, more: Fields<K>)
    requires NoDup(KeysOf(fs + more))
    ensures PutAll(fs, more) == fs + more
    decreases |more|
  {
    if more != [] {
      var k := more[0].0;
      var ks := KeysOf(fs + more);
      assert ks[|fs|] == (fs + more)[|fs|].0 == k;
      forall i | 0 <= i < |fs| ensures KeysOf(fs)[i] != k {
        assert ks[i] == (fs + more)[i].0 == fs[i].0;
      }
      assert (fs + [more[0]]) + more[1..] == fs + more;
      PutNew(fs, k, more[0].1);
      PutAllFresh(fs + [more[0]], more[1..]);
    }
  }

  /** Writing a new key appends it. */
  lemma {:induction false} PutNew<K(!new)>(fs: Fields<K>, k: K, v: Json<K>)
    requires k !in KeysOf(fs)
    ensures Put(fs, k, v) == fs + [(k, v)]
  {
    if fs != [] {
      assert KeysOf(fs) == [fs[0].0] + KeysOf(fs[1..]);
      PutNew(fs[1..], k, v);
    }
  }

  // ---------------------------------------------------------------------
  // Where the authorization conditions end up.

  /** The inner object of a `where` of the form `{[Op.and]: {...}}`. */
  function InnerAnd(where: Fields<Key>): Option<Fields<Key>> {
    if |where| == 1 && where[0].0 == OpKey(And) && where[0].1.JObj? then Some(where[0].1.fields) else None
  }

  /** The last write of a list wins over a first entry. */
  lemma {:induction false} LastWriteAfterHead(c: Compiled, rest: seq<Compiled>, k: Key)
    ensures LastWrite([c] + rest, k) ==
              if k in WhereKeys(rest) then LastWrite(rest, k)
              else if c.resolved.whereKey == k then Some(c.value) else None
    decreases |rest|
  {
    if rest != [] {
      var all, p, e := [c] + rest, rest[..|rest| - 1], rest[|rest| - 1];
      assert all[..|all| - 1] == [c] + p && all[|all| - 1] == e;
      assert WhereKeys(rest) == WhereKeys(p) + [e.resolved.whereKey];
      if e.resolved.whereKey != k {
        assert LastWrite(all, k) == LastWrite([c] + p, k);
        assert LastWrite(rest, k) == LastWrite(p, k);
        LastWriteAfterHead(c, p, k);
      }
    }
  }

  /** An entry's compilation depends on the entry alone, not on the object around it. */
  lemma EntryLocal(resolve: KeyResolver, f: Json<string>, i: nat, g: Json<string>, j: nat)
    requires !f.JNull? && !g.JNull? && i < |Entries(f)| && j < |Entries(g)| && Entries(f)[i] == Entries(g)[j]
    ensures CompileEntry(resolve, f, i) == CompileEntry(resolve, g, j)
  {
  }

  /** Dropping an object's first entry drops the first compiled entry and changes no other. */
  lemma {:induction false} EntriesShift(resolve: KeyResolver, x: Json<string>, a: Json<string>, n: nat)
    requires x.JObj? && a.JObj? && |x.fields| == |a.fields| + 1 && x.fields[1..] == a.fields && n <= |a.fields|
    ensures CompileEntries(resolve, x, n + 1).Ok? ==>
              CompileEntries(resolve, a, n) == Ok(CompileEntries(resolve, x, n + 1).value[1..])
  {
    var rx := CompileEntries(resolve, x, n + 1);
    if rx.Ok? && n > 0 {
      var prev := CompileEntries(resolve, x, n);
      var ex := CompileEntry(resolve, x, n);
      assert prev.Ok? && ex.Ok? && rx.value == prev.value + [ex.value];
      EntriesShift(resolve, x, a, n - 1);
      assert Entries(a)[n - 1] == Entries(x)[n];
      EntryLocal(resolve, a, n - 1, x, n);
      assert rx.value[1..] == prev.value[1..] + [ex.value];
    }
  }

  /** A successful compilation's entry `j` carries the resolution of key `j`. */
  lemma KeyResolvedAt(resolve: KeyResolver, x: Json<string>, cs: seq<Compiled>, j: nat)
    requires !x.JNull? && j < |Entries(x)| && CompileEntries(resolve, x, |Entries(x)|) == Ok(cs)
    ensures j < |cs| && resolve(Entries(x)[j].0) == Ok(cs[j].resolved)
  {
    CompiledEntry(resolve, x, |Entries(x)|, j);
    EntryResolved(resolve, x, j);
  }

  /**
   * The entries of an object whose first entry is the client's compile, after
   * it, as the authorization filter alone does.
   */
  lemma TailCompiles(resolve: KeyResolver, x: Json<string>, auth: Fields<string>, cs: seq<Compiled>)
    requires x.JObj? && |x.fields| == |auth| + 1 && x.fields[1..] == auth
    requires CompileEntries(resolve, x, |auth| + 1) == Ok(cs)
    ensures |cs| == |auth| + 1
    ensures CompileEntries(resolve, JObj(auth), |auth|) == Ok(cs[1..])
    ensures ParseFilterSpec(resolve, JObj(auth)) == Ok(Fold(cs[1..]))
  {
    EntriesShift(resolve, x, JObj(auth), |auth|);
  }

  /** Exactly the keyword "and" resolves to the `Op.and` key. */
  ghost predicate AndOnlyFromAnd(resolve: KeyResolver) {
    && resolve("and") == Ok(Resolved(OpKey(And), OpKey(And), None))
    && forall key :: resolve(key).Ok? && resolve(key).value.whereKey == OpKey(And) ==> key == "and"
  }

  /** `parseKey` maps only "and" to `Op.and`: no column can take its place. */
  lemma ResolverAndOnlyFromAnd(o: Options)
    ensures AndOnlyFromAnd(Resolver(o))
  {
    forall key | Resolver(o)(key).Ok? ensures Resolver(o)(key).value.whereKey == OpKey(And) ==> key == "and" {
      WhereKeyAnd(o, key);
    }
  }

  /** Each compiled entry carries the resolution of its own key. */
  lemma AllResolved(resolve: KeyResolver, f: Json<string>, cs: seq<Compiled>)
    requires !f.JNull? && CompileEntries(resolve, f, |Entries(f)|) == Ok(cs)
    ensures |cs| == |Entries(f)|
    ensures forall j | 0 <= j < |cs| :: resolve(Entries(f)[j].0) == Ok(cs[j].resolved)
  {
    forall j | 0 <= j < |cs| ensures resolve(Entries(f)[j].0) == Ok(cs[j].resolved) {
      KeyResolvedAt(resolve, f, cs, j);
    }
  }

  /** No authorization entry lands under `Op.and` when the authorization filter has no "and" key. */
  lemma AuthKeysNotAnd(resolve: KeyResolver, auth: Fields<string>, rest: seq<Compiled>)
    requires AndOnlyFromAnd(resolve) && "and" !in KeysOf(auth) && |rest| == |auth|
    requires forall j | 0 <= j < |rest| :: resolve(Entries(JObj(auth))[j].0) == Ok(rest[j].resolved)
    ensures OpKey(And) !in WhereKeys(rest)
  {
    assert Entries(JObj(auth)) == auth;
    forall j | 0 <= j < |rest| ensures rest[j].resolved.whereKey != OpKey(And) {
      AuthKeyNotAnd(resolve, auth, j, rest[j].resolved);
    }
  }

  /** A key other than "and" never resolves to `Op.and`. */
  lemma AuthKeyNotAnd(resolve: KeyResolver, auth: Fields<string>, j: nat, r: Resolved)
    requires AndOnlyFromAnd(resolve) && "and" !in KeysOf(auth) && j < |auth| && resolve(auth[j].0) == Ok(r)
    ensures r.whereKey != OpKey(And)
  {
    assert KeysOf(auth)[j] == auth[j].0;
  }

  /**
   * The compiled inner object of the wrapper: the client's compiled filter
   * under `Op.and`, and under every other key exactly what the
   * authorization filter compiles to on its own.
   */
  lemma InnerWhere(resolve: KeyResolver, x: Json<string>, auth: Fields<string>)
    requires AndOnlyFromAnd(resolve) && "and" !in KeysOf(auth)
    requires x.JObj? && |x.fields| == |auth| + 1 && x.fields[0].0 == "and" && x.fields[1..] == auth
    requires ParseFilterSpec(resolve, x).Ok?
    ensures ParseFilterSpec(resolve, JObj(auth)).Ok?
    ensures CompileEntry(resolve, x, 0).Ok?
    ensures var w := ParseFilterSpec(resolve, x).value.where;
            var aw := ParseFilterSpec(resolve, JObj(auth)).value.where;
            && Lookup(w, OpKey(And)) == Some(CompileEntry(resolve, x, 0).value.value)
            && forall k :: k != OpKey(And) ==> Lookup(w, k) == Lookup(aw, k)
  {
    var cs := CompileEntries(resolve, x, |auth| + 1).value;
    assert ParseFilterSpec(resolve, x) == Ok(Fold(cs));
    InnerEntries(resolve, x, auth, cs);
  }

  /** `InnerWhere` on the compiled entries of the inner object. */
  lemma InnerEntries(resolve: KeyResolver, x: Json<string>, auth: Fields<string>, cs: seq<Compiled>)
    requires AndOnlyFromAnd(resolve) && "and" !in KeysOf(auth)
    requires x.JObj? && |x.fields| == |auth| + 1 && x.fields[0].0 == "and" && x.fields[1..] == auth
    requires CompileEntries(resolve, x, |auth| + 1) == Ok(cs)
    ensures |cs| == |auth| + 1 && CompileEntry(resolve, x, 0) == Ok(cs[0])
    ensures ParseFilterSpec(resolve, JObj(auth)) == Ok(Fold(cs[1..]))
    ensures Lookup(Fold(cs).where, OpKey(And)) == Some(cs[0].value)
    ensures forall k :: k != OpKey(And) ==> Lookup(Fold(cs).where, k) == Lookup(Fold(cs[1..]).where, k)
  {
    HeadEntry(resolve, x, auth, cs);
    TailCompiles(resolve, x, auth, cs);
    AuthEntries(resolve, auth, cs[0], cs[1..]);
    assert [cs[0]] + cs[1..] == cs;
  }

  /** The client's entry of the inner object compiles under `Op.and`. */
  lemma HeadEntry(resolve: KeyResolver, x: Json<string>, auth: Fields<string>, cs: seq<Compiled>)
    requires AndOnlyFromAnd(resolve)
    requires x.JObj? && |x.fields| == |auth| + 1 && x.fields[0].0 == "and"
    requires CompileEntries(resolve, x, |auth| + 1) == Ok(cs)
    ensures |cs| == |auth| + 1 && CompileEntry(resolve, x, 0) == Ok(cs[0])
    ensures cs[0].resolved.whereKey == OpKey(And)
  {
    CompiledEntry(resolve, x, |auth| + 1, 0);
    KeyResolvedAt(resolve, x, cs, 0);
  }

  /** After a first entry under `Op.and`, the authorization entries take no part in that key. */
  lemma AuthEntries(resolve: KeyResolver, auth: Fields<string>, c: Compiled, rest: seq<Compiled>)
    requires AndOnlyFromAnd(resolve) && "and" !in KeysOf(auth) && c.resolved.whereKey == OpKey(And)
    requires CompileEntries(resolve, JObj(auth), |auth|) == Ok(rest)
    ensures Lookup(Fold([c] + rest).where, OpKey(And)) == Some(c.value)
    ensures forall k :: k != OpKey(And) ==> Lookup(Fold([c] + rest).where, k) == Lookup(Fold(rest).where, k)
  {
    AllResolved(resolve, JObj(auth), rest);
    AuthKeysNotAnd(resolve, auth, rest);
    InnerLookups(c, rest);
  }

  /** The where of entries whose first alone resolves to `Op.and`. */
  lemma InnerLookups(c: Compiled, rest: seq<Compiled>)
    requires c.resolved.whereKey == OpKey(And) && OpKey(And) !in WhereKeys(rest)
    ensures Lookup(Fold([c] + rest).where, OpKey(And)) == Some(c.value)
    ensures forall k :: k != OpKey(And) ==> Lookup(Fold([c] + rest).where, k) == Lookup(Fold(rest).where, k)
  {
    FoldWhere([c] + rest);
    FoldWhere(rest);
    forall k ensures LastWrite([c] + rest, k) == if k == OpKey(And) then Some(c.value) else LastWrite(rest, k) {
      LastWriteAfterHead(c, rest, k);
    }
  }

  /** The compiled wrapper is a single `Op.and` whose inner object is the compiled inner filter. */
  lemma WrappedWhere(resolve: KeyResolver, filter: Json<string>, auth: Fields<string>)
    requires resolve("and") == Ok(Resolved(OpKey(And), OpKey(And), None))
    requires "and" !in KeysOf(auth) && ParseFilterSpec(resolve, Wrap(filter, auth)).Ok?
    ensures ParseFilterSpec(resolve, JObj([("and", filter)] + PutAll([], auth))).Ok?
    ensures ParseFilterSpec(resolve, Wrap(filter, auth)).value.where ==
              [(OpKey(And), JObj(ParseFilterSpec(resolve, JObj([("and", filter)] + PutAll([], auth))).value.where))]
  {
    WrapShape(filter, auth);
    var w := Wrap(filter, auth);
    var x := JObj([("and", filter)] + PutAll([], auth));
    assert Entries(w) == [("and", x)];
    var cs := CompileEntries(resolve, w, 1).value;
    EntriesStepOk(resolve, w, 1);
    var c := CompileEntry(resolve, w, 0).value;
    assert cs == [c];
    assert cs[..0] == [];
    assert CompileValue(resolve, x).Ok?;
    var sub := ParseFilterSpec(resolve, x).value;
    assert CompileValue(resolve, x).value.0 == JObj(sub.where);
    assert c.resolved.whereKey == OpKey(And);
    assert c.value == JObj(sub.where);
    assert Fold(cs) == Step(Parsed([], []), c);
  }

  /** A successful call's `where` is the compiled merged filter. */
  lemma ParserWhere(resolve: KeyResolver, chain: Chains, filter: Option<Json<string>>, pagination: Option<Pagination>,
                    orderBy: Option<seq<OrderItem>>, includeAlias: Option<string>, auth: Option<Fields<string>>)
    requires ParserSpec(resolve, chain, filter, pagination, orderBy, includeAlias, auth).result.Ok?
    ensures MergeAuth(filter, auth).Ok?
    ensures ParseFilterSpec(resolve, FilterOrEmpty(MergeAuth(filter, auth).value)).Ok?
    ensures ParserSpec(resolve, chain, filter, pagination, orderBy, includeAlias, auth).result.value.where ==
              ParseFilterSpec(resolve, FilterOrEmpty(MergeAuth(filter, auth).value)).value.where
  {
  }

  /**
   * The compiled wrapper of a client filter and a distinct-keyed
   * authorization filter is a single `Op.and`; inside it, every key but
   * `Op.and` holds exactly what the authorization filter compiles to alone.
   */
  lemma WrappedAuth(o: Options, filter: Json<string>, auth: Fields<string>)
    requires "and" !in KeysOf(auth) && NoDup(KeysOf(auth))
    requires ParseFilterSpec(Resolver(o), Wrap(filter, auth)).Ok?
    ensures ParseFilterSpec(Resolver(o), JObj(auth)).Ok?
    ensures var w := ParseFilterSpec(Resolver(o), Wrap(filter, auth)).value.where;
            var aw := ParseFilterSpec(Resolver(o), JObj(auth)).value.where;
            InnerAnd(w).Some? && forall k :: k != OpKey(And) ==> Lookup(InnerAnd(w).value, k) == Lookup(aw, k)
  {
    WrapShape(filter, auth);
    ResolverAndOnlyFromAnd(o);
    WrappedWhere(Resolver(o), filter, auth);
    var x := JObj([("and", filter)] + auth);
    assert x.fields[1..] == auth;
    InnerWhere(Resolver(o), x, auth);
  }

  /**
   * The authorization filter is always applied and cannot be displaced by the
   * client: with a non-empty client filter the compiled `where` is a single
   * `Op.and` whose inner object holds, under every key but `Op.and`, exactly
   * what the authorization filter compiles to alone, whatever the client sent;
   * with an empty client filter the compiled `where` is that compiled
   * authorization filter itself.
   */
  lemma AuthorizationAlwaysApplied(o: Options, filter: Option<Json<string>>, pagination: Option<Pagination>,
                                   orderBy: Option<seq<OrderItem>>, includeAlias: Option<string>, auth: Fields<string>)
    requires NoDup(KeysOf(auth))
    requires ParserSpec(Resolver(o), ChainsOf(o.includes), filter, pagination, orderBy, includeAlias, Some(auth)).result.Ok?
    ensures "and" !in KeysOf(auth) && ParseFilterSpec(Resolver(o), JObj(auth)).Ok?
    ensures var w := ParserSpec(Resolver(o), ChainsOf(o.includes), filter, pagination, orderBy, includeAlias, Some(auth)).result.value.where;
            var aw := ParseFilterSpec(Resolver(o), JObj(auth)).value.where;
            if NonEmpty(filter)
            then InnerAnd(w).Some? && forall k :: k != OpKey(And) ==> Lookup(InnerAnd(w).value, k) == Lookup(aw, k)
            else w == aw
  {
    ParserWhere(Resolver(o), ChainsOf(o.includes), filter, pagination, orderBy, includeAlias, Some(auth));
    if NonEmpty(filter) {
      WrappedAuth(o, filter.value, auth);
    }
  }

  // ---------------------------------------------------------------------
  // Relations and includes.

  /**
   * After a successful `parser` call the collected aliases are distinct, and
   * they are exactly the relations the (merged) filter touches, those the
   * order fields reach, and the page query's own `includeAlias`; the include
   * list has one root per alias, in the same order, the root of that alias's
   * descriptor chain.
   */
  lemma ParserIncludes(resolve: KeyResolver, chain: Chains, filter: Option<Json<string>>, pagination: Option<Pagination>,
                       orderBy: Option<seq<OrderItem>>, includeAlias: Option<string>, auth: Option<Fields<string>>, x: string)
    requires ParserSpec(resolve, chain, filter, pagination, orderBy, includeAlias, auth).result.Ok?
    ensures var out := ParserSpec(resolve, chain, filter, pagination, orderBy, includeAlias, auth);
            var q := out.result.value;
            && NoDup(q.aliases)
            && (x in q.aliases <==>
                  || Touches(resolve, FilterOrEmpty(out.filter), x)
                  || (orderBy.Some? && Reaches(resolve, orderBy.value, |orderBy.value|, x))
                  || (GivenStr(includeAlias) && includeAlias.value == x))
            && |q.includes| == |q.aliases|
            && forall i | 0 <= i < |q.aliases| :: chain(q.aliases[i]).Ok? && q.includes[i] == Root(chain(q.aliases[i]).value)
  {
    var out := ParserSpec(resolve, chain, filter, pagination, orderBy, includeAlias, auth);
    var merged := MergeAuth(filter, auth).value;
    assert out.filter == merged;
    var f := FilterOrEmpty(merged);
    var parsed := ParseFilterSpec(resolve, f).value;
    ParseFilterAliases(resolve, f, x);
    var ord := Ordered(resolve, orderBy, parsed.aliases).value;
    if orderBy.Some? {
      OrderAliases(resolve, orderBy.value, parsed.aliases, |orderBy.value|, x);
    }
    var all := WithPageAlias(ord.1, includeAlias);
    assert x in all <==> x in ord.1 || (GivenStr(includeAlias) && includeAlias.value == x);
    var aliases := Dedup(all);
    DedupFacts(all);
    var q := out.result.value;
    assert q.aliases == aliases;
    forall i | 0 <= i < |aliases|
      ensures chain(aliases[i]).Ok? && q.includes[i] == Root(chain(aliases[i]).value)
    {
      IncludeRootAt(chain, aliases, |aliases|, i);
    }
  }

  // ---------------------------------------------------------------------
  // Pagination.

  /**
   * Cursor pagination is refused: a `parser` call asking for it never
   * returns a result, whatever the filter and the order.
   */
  lemma CursorNeverReturns(resolve: KeyResolver, chain: Chains, filter: Option<Json<string>>, p: Pagination,
                           orderBy: Option<seq<OrderItem>>, includeAlias: Option<string>, auth: Option<Fields<string>>)
    requires CursorAsked(p)
    ensures ParserSpec(resolve, chain, filter, Some(p), orderBy, includeAlias, auth).result.Err?
  {
  }

  /** A successful call's limit and offset are those of its pagination. */
  lemma ParserPage(resolve: KeyResolver, chain: Chains, filter: Option<Json<string>>, pagination: Option<Pagination>,
                   orderBy: Option<seq<OrderItem>>, includeAlias: Option<string>, auth: Option<Fields<string>>)
    requires ParserSpec(resolve, chain, filter, pagination, orderBy, includeAlias, auth).result.Ok?
    ensures var q := ParserSpec(resolve, chain, filter, pagination, orderBy, includeAlias, auth).result.value;
            Paginate(pagination) == Ok((q.limit, q.offset))
  {
  }

  /**
   * The page size is the given `first` when it is truthy and 9999 otherwise,
   * so `first: 0` asks for 9999 rows; the offset is `skip` or 0.
   */
  lemma PaginationDefaults(first: Option<int>, skip: Option<int>)
    ensures Paginate(None) == Ok((9999, 0))
    ensures Paginate(Some(Pagination(first, skip, None, None, None))) ==
              Ok((if first.Some? && first.value != 0 then first.value else 9999,
                  if skip.Some? && skip.value != 0 then skip.value else 0))
    ensures Paginate(Some(Pagination(Some(0), Some(0), None, None, None))) == Ok((9999, 0))
    ensures Paginate(Some(Pagination(Some(3), Some(0), None, None, None))) == Ok((3, 0))
  {
  }

  /** Falsy cursor fields (an empty string, 0) do not count as cursor pagination. */
  lemma FalsyCursorIgnored(first: Option<int>, skip: Option<int>)
    ensures Paginate(Some(Pagination(first, skip, Some(""), Some(""), Some(0)))) ==
              Paginate(Some(Pagination(first, skip, None, None, None)))
  {
  }
}
