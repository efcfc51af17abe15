/**
 * The `FilterToQuery` compiler object and the page query it reads: `parser`
 * merges the caller's authorization filter into the client's, compiles the
 * filter, the requested order and the relation includes, and derives limit
 * and offset.
 *
 * The pipeline is specified by functions (`MergeAuth`, `CompileQuery`,
 * `ParserSpec`); the methods of `FilterToQuery` compute it step by step as
 * the source does and are proved equal to it.
 */
module Query {
  import opened Json
  import opened Schema
  import opened Keys
  import opened Filter
  import opened Order
  import opened Include

  /** The pagination request; a field the client leaves out is `None`. */
  datatype Pagination = Pagination(
    first: Option<int>,
    skip: Option<int>,
    after: Option<string>,
    before: Option<string>,
    last: Option<int>)

  /** The limit used when the client asks for no page size. */
  const DefaultLimit: int := 9999

  /** A numeric field that is present and truthy (not 0). */
  predicate GivenNum(n: Option<int>) {
    n.Some? && n.value != 0
  }

  /** A string field that is present and truthy (not empty). */
  predicate GivenStr(s: Option<string>) {
    s.Some? && s.value != ""
  }

  /** The client asks for cursor pagination. */
  predicate CursorAsked(p: Pagination) {
    GivenStr(p.after) || GivenStr(p.before) || GivenNum(p.last)
  }

  /** Limit and offset of a page request, or the error for cursor pagination. */
  function Paginate(p: Option<Pagination>): Result<(int, int)> {
    if p.None? then Ok((DefaultLimit, 0))
    else if CursorAsked(p.value) then Err(CursorPagination)
    else
      Ok((if GivenNum(p.value.first) then p.value.first.value else DefaultLimit,
          if GivenNum(p.value.skip) then p.value.skip.value else 0))
  }

  /** What `parser` returns. */
  datatype QueryOut = QueryOut(
    where: Fields<Key>,
    includes: seq<nat>,
    aliases: seq<string>,
    order: seq<OrderEntry>,
    limit: int,
    offset: int)

  /** The filter has at least one own entry. */
  predicate NonEmpty(filter: Option<Json<string>>) {
    filter.Some? && Truthy(filter.value) && |Entries(filter.value)| > 0
  }

  /** `{and: {and: filter, ...auth}}`: the client's filter and the authorization conditions side by side. */
  function Wrap(filter: Json<string>, auth: Fields<string>): Json<string> {
    JObj([("and", JObj(PutAll([("and", filter)], auth)))])
  }

  /**
   * The filter after the authorization merge: an authorization filter that
   * itself uses "and" is refused; otherwise it is wrapped together with a
   * non-empty client filter, or replaces an empty one.
   */
  function MergeAuth(filter: Option<Json<string>>, auth: Option<Fields<string>>): Result<Option<Json<string>>> {
    if auth.None? then Ok(filter)
    else if "and" in KeysOf(auth.value) then Err(ForbiddenFilter)
    else if NonEmpty(filter) then Ok(Some(Wrap(filter.value, auth.value)))
    else Ok(Some(JObj(auth.value)))
  }

  /** `parseFilter`'s default argument: an absent filter is `{}`. */
  function FilterOrEmpty(filter: Option<Json<string>>): Json<string> {
    if filter.Some? then filter.value else JObj([])
  }

  /**
   * The order entries and the aliases after ordering: `mapOrderBy` pushes
   * onto the very array it is given and returns it, and `concat` then joins
   * that array with itself.
   */
  function Ordered(resolve: KeyResolver, orderBy: Option<seq<OrderItem>>, aliases: seq<string>): Result<(seq<OrderEntry>, seq<string>)> {
    if orderBy.None? then Ok(([], aliases))
    else
      var r :- OrderWith(resolve, orderBy.value, aliases, |orderBy.value|);
      Ok((r.0, r.1 + r.1))
  }

  /** The aliases with the page query's own `includeAlias` pushed when it is truthy. */
  function WithPageAlias(aliases: seq<string>, includeAlias: Option<string>): seq<string> {
    if GivenStr(includeAlias) then aliases + [includeAlias.value] else aliases
  }

  /**
   * Everything `parser` does after the merge, on the merged filter: the
   * result, and the descriptor writes performed before it returned or threw.
   * Keys resolve by `resolve` and aliases become descriptor chains by
   * `chain`; for a schema `o` these are `Resolver(o)` and `ChainsOf(o.includes)`.
   */
  function CompileQuery(resolve: KeyResolver, chain: Chains, filter: Option<Json<string>>, pagination: Option<Pagination>,
                        orderBy: Option<seq<OrderItem>>, includeAlias: Option<string>): (Result<QueryOut>, seq<Write>)
  {
    match ParseFilterSpec(resolve, FilterOrEmpty(filter))
    case Err(e) => (Err(e), [])
    case Ok(parsed) =>
      match Ordered(resolve, orderBy, parsed.aliases)
      case Err(e) => (Err(e), [])
      case Ok(ord) =>
        var aliases := Dedup(WithPageAlias(ord.1, includeAlias));
        var inc := IncludeLoop(chain, aliases, |aliases|);
        if inc.0.Err? then (Err(inc.0.error), inc.1)
        else
          match Paginate(pagination)
          case Err(e) => (Err(e), inc.1)
          case Ok(page) => (Ok(QueryOut(parsed.where, inc.0.value, aliases, ord.0, page.0, page.1)), inc.1)
  }

  /** The observable effect of one `parser` call. */
  datatype Outcome = Outcome(result: Result<QueryOut>, filter: Option<Json<string>>, writes: seq<Write>)

  /**
   * `parser(pageQuery, authFilter)`: its result, the page query's filter
   * afterwards (rewritten by the merge even when a later step throws), and
   * the descriptor writes.
   */
  function ParserSpec(resolve: KeyResolver, chain: Chains, filter: Option<Json<string>>, pagination: Option<Pagination>,
                      orderBy: Option<seq<OrderItem>>, includeAlias: Option<string>,
                      auth: Option<Fields<string>>): Outcome
  {
    match MergeAuth(filter, auth)
    case Err(e) => Outcome(Err(e), filter, [])
    case Ok(merged) =>
      var (r, ws) := CompileQuery(resolve, chain, merged, pagination, orderBy, includeAlias);
      Outcome(r, merged, ws)
  }

  /** `FilterToQueryPageQuery`: `parser` reassigns its `filter`. */
  class PageQuery {
    var filter: Option<Json<string>>
    const pagination: Option<Pagination>
    const orderBy: Option<seq<OrderItem>>
    const includeAlias: Option<string>

    constructor(filter: Option<Json<string>>, pagination: Option<Pagination>,
                orderBy: Option<seq<OrderItem>>, includeAlias: Option<string>)
      ensures this.filter == filter && this.pagination == pagination
      ensures this.orderBy == orderBy && this.includeAlias == includeAlias
    {
      this.filter := filter;
      this.pagination := pagination;
      this.orderBy := orderBy;
      this.includeAlias := includeAlias;
    }
  }

  /**
   * One compiler over one schema. The declared include descriptors are
   * shared objects whose `include` field `mapInclude` overwrites; `links`
   * holds that state (see module `Include`).
   */
  class FilterToQuery {
    const options: Options
    /** `this.parseKey`, as a function value: the key resolution of this schema. */
    const resolve: KeyResolver
    var links: seq<Option<nat>>

    /** One link per declared descriptor, each naming a declared descriptor. */
    ghost predicate Valid()
      reads this
    {
      |links| == |options.includes| && LinksValid(links)
    }

    /**
     * A new compiler: keys resolve by `parseKey` over this schema for the
     * compiler's whole life, and every descriptor is as declared.
     */
    constructor(options: Options)
      ensures Valid() && this.options == options && resolve == Resolver(options)
      ensures forall d | 0 <= d < |links| :: links[d].None?
    {
      this.options := options;
      resolve := Resolver(options);
      links := seq(|options.includes|, _ => None);
    }

    /** `parseFilter`: the loop over the filter's entries. */
    method ParseFilter(f: Json<string>) returns (r: Result<Parsed>)
      ensures r == ParseFilterSpec(resolve, f)
      decreases f, 2
    {
      if f.JNull? {
        return Err(NullFilter);
      }
      var n := |Entries(f)|;
      var where: Fields<Key> := [];
      var aliases: seq<string> := [];
      ghost var cs: seq<Compiled> := [];
      var i := 0;
      while i < n
        invariant 0 <= i <= n
        invariant CompileEntries(resolve, f, i) == Ok(cs)
        invariant Parsed(where, aliases) == Fold(cs)
      {
        var e := CompileEntryAt(f, i);
        if e.Err? {
          EntriesErrStays(resolve, f, i, n, e.error);
          return Err(e.error);
        }
        where := Put(where, e.value.resolved.whereKey, e.value.value);
        aliases := AddAlias(aliases + e.value.pushed, e.value.resolved.includeAlias);
        EntriesAppend(resolve, f, i, cs, e.value);
        cs := cs + [e.value];
        i := i + 1;
      }
      return Ok(Parsed(where, aliases));
    }

    /**
     * The body of `parseFilter`'s loop for entry `i`: the value is compiled
     * (arrays element-wise, objects and null recursively), then the key is
     * resolved, then a reserved literal is replaced by its null test.
     */
    method CompileEntryAt(f: Json<string>, i: nat) returns (r: Result<Compiled>)
      requires !f.JNull? && i < |Entries(f)|
      ensures r == CompileEntry(resolve, f, i)
      decreases f, 1
    {
      var key := Entries(f)[i].0;
      var value := Entries(f)[i].1;
      var compiled: Json<Key>;
      var pushed: seq<string> := [];
      if value.JArr? {
        var items := ParseArray(value);
        if items.Err? {
          return Err(items.error);
        }
        compiled, pushed := JArr(items.value.0), items.value.1;
      } else if ObjectLike(value) {
        var sub := ParseFilter(value);
        if sub.Err? {
          return Err(sub.error);
        }
        compiled, pushed := JObj(sub.value.where), sub.value.aliases;
      } else {
        compiled := Embed(value);
      }
      var rk := resolve(key);
      if rk.Err? {
        return Err(rk.error);
      }
      match ReservedOf(compiled) {
        case Some(op) => compiled := NullWrapper(op);
        case None =>
      }
      return Ok(Compiled(rk.value, compiled, pushed));
    }

    /**
     * `value.map(...)` over an array value: object (and null) elements are
     * compiled, and their aliases pushed by the spread and again by the
     * `forEach`.
     */
    method ParseArray(a: Json<string>) returns (r: Result<(seq<Json<Key>>, seq<string>)>)
      requires a.JArr?
      ensures r == ParseItems(resolve, a, |a.items|)
      decreases a, 0
    {
      var out: seq<Json<Key>> := [];
      var pushed: seq<string> := [];
      var j := 0;
      while j < |a.items|
        invariant 0 <= j <= |a.items|
        invariant ParseItems(resolve, a, j) == Ok((out, pushed))
      {
        var e := a.items[j];
        if ObjectLike(e) {
          var sub := ParseFilter(e);
          if sub.Err? {
            ItemsErrStays(resolve, a, j, |a.items|);
            return Err(sub.error);
          }
          ghost var before := pushed;
          pushed := pushed + sub.value.aliases;
          var k := 0;
          while k < |sub.value.aliases|
            invariant 0 <= k <= |sub.value.aliases|
            invariant pushed == before + sub.value.aliases + sub.value.aliases[..k]
          {
            pushed := pushed + [sub.value.aliases[k]];
            k := k + 1;
            assert sub.value.aliases[..k] == sub.value.aliases[..k - 1] + [sub.value.aliases[k - 1]];
          }
          assert sub.value.aliases[..k] == sub.value.aliases;
          out := out + [JObj(sub.value.where)];
        } else {
          out := out + [Embed(e)];
        }
        j := j + 1;
      }
      return Ok((out, pushed));
    }

    /**
     * `mapOrderBy`: one order entry per item; each relation reached is pushed
     * onto the aliases unless already there.
     */
    method MapOrderBy(orderBy: seq<OrderItem>, initAliases: seq<string>) returns (r: Result<(seq<OrderEntry>, seq<string>)>)
      ensures r == OrderWith(resolve, orderBy, initAliases, |orderBy|)
    {
      var order: seq<OrderEntry> := [];
      var aliases := initAliases;
      var i := 0;
      while i < |orderBy|
        invariant 0 <= i <= |orderBy|
        invariant OrderWith(resolve, orderBy, initAliases, i) == Ok((order, aliases))
      {
        var rk := resolve(orderBy[i].field);
        if rk.Err? {
          OrderErrStays(resolve, orderBy, initAliases, i, |orderBy|);
          return Err(rk.error);
        }
        var ia := rk.value.includeAlias;
        aliases := AddAlias(aliases, ia);
        var keys: seq<string> := [];
        if ia.Some? {
          keys := Split(ia.value);
        }
        order := order + [OrderEntry(keys, rk.value.key, orderBy[i].direction)];
        i := i + 1;
      }
      return Ok((order, aliases));
    }

    /**
     * `mapInclude`: the alias's segments are looked up among the declared
     * descriptors, then linked from the last to the first, and the first is
     * appended to `include`. An undeclared segment throws before any link
     * changes.
     */
    method MapInclude(includes: seq<nat>, includeAlias: string) returns (r: Result<seq<nat>>)
      requires Valid()
      modifies this
      ensures Valid()
      ensures match Chain(options.includes, includeAlias)
              case Err(e) => r == Err(e) && links == old(links)
              case Ok(ds) => r == Ok(includes + [Root(ds)]) && links == Assign(old(links), ChainWrites(ds))
    {
      var segs := Split(includeAlias);
      var ds: seq<nat> := [];
      var k := 0;
      while k < |segs|
        invariant 0 <= k <= |segs|
        invariant ResolveSegments(options.includes, segs, k) == Ok(ds)
      {
        var found := FindInclude(options.includes, segs[k]);
        if found.None? {
          SegmentsErrStays(options.includes, segs, k, |segs|);
          return Err(UndefinedInclude(segs[k]));
        }
        ds := ds + [found.value];
        k := k + 1;
      }
      ChainDeclared(options.includes, includeAlias);
      ChainWritesShape(ds, |links|);
      AssignValid(links, ChainWrites(ds));
      var j := |ds|;
      var update: Option<nat> := None;
      while j > 0
        invariant 0 <= j <= |ds| && |links| == |options.includes|
        invariant links == Assign(old(links), ChainWrites(ds[j..]))
        invariant update == if j < |ds| then Some(ds[j]) else None
      {
        j := j - 1;
        if update.Some? {
          links := links[ds[j] := Some(update.value)];
          assert ds[j..][1..] == ds[j + 1..];
        }
        update := Some(ds[j]);
      }
      assert ds[0..] == ds;
      r := Ok(includes + [update.value]);
    }

    /** The include loop of `parser`: one `mapInclude` per distinct alias, in order. */
    method MapIncludes(aliases: seq<string>) returns (r: Result<seq<nat>>)
      requires Valid()
      modifies this
      ensures Valid()
      ensures var out := IncludeLoop(ChainsOf(options.includes), aliases, |aliases|);
              r == out.0 && links == Assign(old(links), out.1)
    {
      var included: seq<nat> := [];
      ghost var ws: seq<Write> := [];
      var k := 0;
      while k < |aliases|
        invariant 0 <= k <= |aliases| && Valid()
        invariant IncludeLoop(ChainsOf(options.includes), aliases, k) == (Ok(included), ws)
        invariant links == Assign(old(links), ws)
        modifies this
      {
        var next := MapInclude(included, aliases[k]);
        if next.Err? {
          IncludeErrStays(ChainsOf(options.includes), aliases, k, |aliases|);
          return Err(next.error);
        }
        ghost var ds := Chain(options.includes, aliases[k]).value;
        AssignConcat(old(links), ws, ChainWrites(ds));
        ws := ws + ChainWrites(ds);
        included := next.value;
        k := k + 1;
      }
      return Ok(included);
    }

    /** `parser`. */
    method Parser(pq: PageQuery, auth: Option<Fields<string>>) returns (r: Result<QueryOut>)
      requires Valid()
      modifies this, pq
      ensures Valid()
      ensures var out := ParserSpec(resolve, ChainsOf(options.includes), old(pq.filter), pq.pagination, pq.orderBy, pq.includeAlias, auth);
              r == out.result && pq.filter == out.filter && links == Assign(old(links), out.writes)
    {
      if auth.Some? {
        if "and" in KeysOf(auth.value) {
          return Err(ForbiddenFilter);
        }
        if NonEmpty(pq.filter) {
          pq.filter := Some(Wrap(pq.filter.value, auth.value));
        } else {
          pq.filter := Some(JObj(auth.value));
        }
      }
      r := Compile(pq.filter, pq.pagination, pq.orderBy, pq.includeAlias);
    }

    /**
     * The rest of `parser`, on the merged filter: compile the filter, then
     * the order, collect the aliases, include each distinct one, and derive
     * limit and offset.
     */
    method Compile(filter: Option<Json<string>>, pagination: Option<Pagination>,
                   orderBy: Option<seq<OrderItem>>, includeAlias: Option<string>) returns (r: Result<QueryOut>)
      requires Valid()
      modifies this
      ensures Valid()
      ensures var out := CompileQuery(resolve, ChainsOf(options.includes), filter, pagination, orderBy, includeAlias);
              r == out.0 && links == Assign(old(links), out.1)
    {
      var parsed := ParseFilter(FilterOrEmpty(filter));
      if parsed.Err? {
        return Err(parsed.error);
      }
      var order: seq<OrderEntry> := [];
      var aliases := parsed.value.aliases;
      if orderBy.Some? {
        var ordered := MapOrderBy(orderBy.value, aliases);
        if ordered.Err? {
          return Err(ordered.error);
        }
        aliases := ordered.value.1 + ordered.value.1;
        order := ordered.value.0;
      }
      if GivenStr(includeAlias) {
        aliases := aliases + [includeAlias.value];
      }
      var distinct := Distinct(aliases);
      var included := MapIncludes(distinct);
      if included.Err? {
        return Err(included.error);
      }
      var limit := DefaultLimit;
      var offset := 0;
      if pagination.Some? {
        var p := pagination.value;
        if GivenNum(p.first) {
          limit := p.first.value;
        }
        if GivenNum(p.skip) {
          offset := p.skip.value;
        }
        if CursorAsked(p) {
          return Err(CursorPagination);
        }
      }
      return Ok(QueryOut(parsed.value.where, included.value, distinct, order, limit, offset));
    }
  }

  /** `[...new Set(s)]`, element by element. */
  method Distinct(s: seq<string>) returns (r: seq<string>)
    ensures r == Dedup(s)
  {
    r := [];
    var j := 0;
    while j < |s|
      invariant 0 <= j <= |s| && r == Dedup(s[..j])
    {
      assert s[..j + 1][..j] == s[..j];
      if s[j] !in r {
        r := r + [s[j]];
      }
      j := j + 1;
    }
    assert s[..j] == s;
  }
}
