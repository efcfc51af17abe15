/**
 * The declared schema of one entity (its filterable columns and its
 * relations), the operator and reserved-word tables, and the errors the
 * compiler throws.
 */
module Schema {
  import opened Json

  /** The Sequelize operator symbols (`Op.*`) the compiler emits. */
  datatype Op =
    | And | Or | Between | NotBetween | Eq | Ne | Lt | Lte | Gt | Gte
    | Like | StartsWith | EndsWith | Substring | In | Not | NotIn | Is

  /** A property key of a compiled `where` object: an operator symbol or a string. */
  datatype Key = OpKey(op: Op) | ColKey(name: string)

  /** Client-facing description of a filter (`PublicFilter`). */
  datatype PublicFilter = PublicFilter(
    name: string,
    description: string,
    asyncSearchKey: Option<string>,
    filterType: Option<string>,
    recommend: Option<seq<string>>)

  /**
   * A filterable column: client alias, physical key, and optionally the
   * alias of the declared include it lives in. An empty `includeAlias` is
   * falsy in the source and behaves as an absent one.
   */
  datatype Column = Column(
    alias: string,
    key: string,
    includeAlias: Option<string>,
    publicFilter: Option<PublicFilter>)

  /**
   * A declared include (join) descriptor. `alias` is the dotted relation path
   * columns refer to; `asName` (the source's `as`) is the association name one path segment matches.
   * Its mutable `include` field is state of `Query.FilterToQuery`.
   */
  datatype IncludeDecl = IncludeDecl(alias: string, model: string, asName: string, required: bool)

  /** The constructor argument of `FilterToQuery` (`includes` is its `include` list). */
  datatype Options = Options(columns: seq<Column>, includes: seq<IncludeDecl>)

  /** The errors the compiler throws, one per message or exception kind. */
  datatype Error =
    | UndefinedColumn(name: string)   // "정의되지 않은 컬럼: <name>"
    | UndefinedInclude(name: string)  // "정의되지 않은 Include: <name>"
    | ForbiddenFilter                 // "허용하지 않는 필터"
    | CursorPagination                // "Cursor 페이지네이션을 지원하지 않습니다"
    | NullFilter                      // TypeError of Object.entries(null)

  /** The errors the filter compiler itself can throw. */
  predicate CompileError(e: Error) {
    e.UndefinedColumn? || e.NullFilter?
  }

  datatype Result<T> = Ok(value: T) | Err(error: Error) {
    predicate IsFailure() { Err? }
    function PropagateFailure<U>(): Result<U> requires Err? { Err(error) }
    function Extract(): T requires Ok? { value }
  }

  /** The truthy relation alias of a column, if it has one. */
  function RelationOf(c: Column): (r: Option<string>)
    ensures r.Some? ==> r.value != "" && c.includeAlias == r
    ensures r.None? ==> c.includeAlias.None? || c.includeAlias == Some("")
  {
    if c.includeAlias.Some? && c.includeAlias.value != "" then c.includeAlias else None
  }

  /** The `operators` table: filter keywords and the operator each stands for. */
  function OperatorOf(key: string): Option<Op> {
    match key
    case "and" => Some(And)
    case "or" => Some(Or)
    case "between" => Some(Between)
    case "notBetween" => Some(NotBetween)
    case "==" => Some(Eq)
    case "eq" => Some(Eq)
    case "!=" => Some(Ne)
    case "ne" => Some(Ne)
    case "<" => Some(Lt)
    case "lt" => Some(Lt)
    case "<=" => Some(Lte)
    case "le" => Some(Lte)
    case ">" => Some(Gt)
    case "gt" => Some(Gt)
    case "ge" => Some(Gte)
    case ">=" => Some(Gte)
    case "like" => Some(Like)
    case "startsWith" => Some(StartsWith)
    case "endsWith" => Some(EndsWith)
    case "contains" => Some(Substring)
    case "in" => Some(In)
    case "not" => Some(Not)
    case "notIn" => Some(NotIn)
    case _ => None
  }

  /** Only the keyword "and" stands for the AND operator. */
  lemma AndKeyword(key: string)
    ensures OperatorOf(key) == Some(And) <==> key == "and"
  {
  }

  /** The `reserved` table: literal values that stand for a null test. */
  function ReservedName(s: string): Option<Op> {
    match s
    case "isNull" => Some(Is)
    case "eqNull" => Some(Eq)
    case "inNull" => Some(In)
    case _ => None
  }

  /** The replacement `{[op]: null}` of a reserved literal. */
  function NullWrapper(op: Op): Json<Key> {
    JObj([(OpKey(op), JNull)])
  }

  /**
   * `this.reserved[value]` for a compiled value: the lookup converts the value
   * to a property key, so a string names itself and a one-element array names
   * what its element names (`String(["isNull"]) == "isNull"`); numbers,
   * booleans, objects, empty and longer arrays never spell a reserved name.
   */
  function ReservedOf(v: Json<Key>): (r: Option<Op>)
    ensures r.Some? ==> r.value in {Is, Eq, In}
    ensures v.JStr? ==> r == ReservedName(v.s)
    ensures v.JObj? || v.JNum? || v.JBool? || v.JNull? ==> r.None?
  {
    match v
    case JStr(s) => ReservedName(s)
    case JArr(items) => if |items| == 1 then ReservedOf(items[0]) else None
    case _ => None
  }

  /**
   * A value passed through unchanged into the compiled output: its string
   * keys become string property keys.
   */
  function Embed(v: Json<string>): Json<Key>
    decreases v, 1
  {
    match v
    case JNull => JNull
    case JBool(b) => JBool(b)
    case JNum(n) => JNum(n)
    case JStr(s) => JStr(s)
    case JArr(items) => JArr(EmbedItems(v, |items|))
    case JObj(fs) => JObj(EmbedFields(v, |fs|))
  }

  /** The first `n` elements of an array, embedded. */
  function EmbedItems(a: Json<string>, n: nat): (r: seq<Json<Key>>)
    requires a.JArr? && n <= |a.items|
    decreases a, 0, n
    ensures |r| == n
  {
    if n == 0 then [] else EmbedItems(a, n - 1) + [Embed(a.items[n - 1])]
  }

  /** The first `n` fields of an object, embedded. */
  function EmbedFields(o: Json<string>, n: nat): (r: Fields<Key>)
    requires o.JObj? && n <= |o.fields|
    decreases o, 0, n
    ensures |r| == n
  {
    if n == 0 then [] else EmbedFields(o, n - 1) + [(ColKey(o.fields[n - 1].0), Embed(o.fields[n - 1].1))]
  }

  /** One element of `getPublicFilters()`: `{field: alias, ...publicFilter}`. */
  datatype PublicFilterEntry = PublicFilterEntry(field: string, filter: PublicFilter)

  /** `getPublicFilters`: the columns that carry a public filter, in declaration order. */
  function GetPublicFilters(columns: seq<Column>): (r: seq<PublicFilterEntry>)
    ensures |r| <= |columns|
    ensures forall e :: e in r <==>
              exists c :: c in columns && c.publicFilter.Some? && e == PublicFilterEntry(c.alias, c.publicFilter.value)
  {
    if columns == [] then []
    else
      var c := columns[0];
      var rest := GetPublicFilters(columns[1..]);
      assert forall d :: d in columns <==> d == c || d in columns[1..];
      if c.publicFilter.Some? then [PublicFilterEntry(c.alias, c.publicFilter.value)] + rest else rest
  }

  /**
   * The public filters of a concatenation are those of its parts, in order;
   * with the single-column case this fixes the result entirely.
   */
  lemma {:induction false} PublicFiltersAppend(a: seq<Column>, b: seq<Column>)
    ensures GetPublicFilters(a + b) == GetPublicFilters(a) + GetPublicFilters(b)
  {
    if a != [] {
      assert (a + b)[1..] == a[1..] + b;
      PublicFiltersAppend(a[1..], b);
    } else {
      assert a + b == b;
    }
  }

  /** One column contributes exactly its own entry, or nothing. */
  lemma PublicFiltersSingle(c: Column)
    ensures GetPublicFilters([c]) ==
              if c.publicFilter.Some? then [PublicFilterEntry(c.alias, c.publicFilter.value)] else []
  {
    assert [c][1..] == [];
  }
}
