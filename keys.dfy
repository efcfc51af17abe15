/**
 * Key resolution (`parseKey`, `parseIncludeKey`), the group-by helper
 * (`parseGroupByCount`) and `String.prototype.split(".")` on relation paths.
 */
module Keys {
  import opened Json
  import opened Schema

  /** `s.split(".")`: the segments of `s` between dots, empty ones included. */
  function Split(s: string): (r: seq<string>)
    ensures |r| >= 1
    decreases |s|
  {
    if '.' !in s then [s]
    else
      var i := FirstIndex(s, '.');
      [s[..i]] + Split(s[i + 1..])
  }

  /** `parts.join(".")`. */
  function Join(parts: seq<string>): string
    requires |parts| >= 1
  {
    if |parts| == 1 then parts[0] else parts[0] + "." + Join(parts[1..])
  }

  /** The segments are dot-free, and joining them gives the string back. */
  lemma {:induction false} SplitFacts(s: string)
    ensures forall i | 0 <= i < |Split(s)| :: '.' !in Split(s)[i]
    ensures Join(Split(s)) == s
    decreases |s|
  {
    if '.' in s {
      var i := FirstIndex(s, '.');
      SplitFacts(s[i + 1..]);
      assert s == s[..i] + "." + s[i + 1..];
      assert Split(s)[1..] == Split(s[i + 1..]);
    }
  }

  /** Splitting a join of dot-free segments gives the segments back. */
  lemma {:induction false} SplitJoin(parts: seq<string>)
    requires |parts| >= 1
    requires forall i :: 0 <= i < |parts| ==> '.' !in parts[i]
    ensures Split(Join(parts)) == parts
  {
    if |parts| > 1 {
      var p, rest := parts[0], parts[1..];
      assert Join(parts) == p + "." + Join(rest);
      assert forall i | 0 <= i < |rest| :: rest[i] == parts[i + 1];
      SplitAtFirstDot(p, Join(rest));
      SplitJoin(rest);
      assert [p] + rest == parts;
    } else {
      assert Join(parts) == parts[0];
    }
  }

  /** A dot-free segment followed by a dot is split off first. */
  lemma SplitAtFirstDot(p: string, t: string)
    requires '.' !in p
    ensures Split(p + "." + t) == [p] + Split(t)
  {
    var s := p + "." + t;
    assert s[|p|] == '.';
    var i := FirstIndex(s, '.');
    assert forall k | 0 <= k < |p| :: s[k] == p[k];
    assert i == |p|;
    assert s[..i] == p && s[i + 1..] == t;
  }

  /** The index of the first declared column with this alias. */
  function FindColumn(columns: seq<Column>, alias: string): (r: Option<nat>)
    ensures r.Some? ==> r.value < |columns| && columns[r.value].alias == alias
    ensures r.Some? ==> forall j :: 0 <= j < r.value ==> columns[j].alias != alias
    ensures r.None? ==> forall j :: 0 <= j < |columns| ==> columns[j].alias != alias
  {
    if columns == [] then None
    else if columns[0].alias == alias then Some(0)
    else
      match FindColumn(columns[1..], alias)
      case None => None
      case Some(j) => Some(j + 1)
  }

  /** The index of the first declared include whose association name is `name`: the descriptor one path segment names. */
  function FindInclude(includes: seq<IncludeDecl>, name: string): (r: Option<nat>)
    ensures r.Some? ==> r.value < |includes| && includes[r.value].asName == name
    ensures r.Some? ==> forall j :: 0 <= j < r.value ==> includes[j].asName != name
    ensures r.None? ==> forall j :: 0 <= j < |includes| ==> includes[j].asName != name
  {
    if includes == [] then None
    else if includes[0].asName == name then Some(0)
    else
      match FindInclude(includes[1..], name)
      case None => None
      case Some(j) => Some(j + 1)
  }

  /** Whether some declared include has this relation alias. */
  predicate DeclaresAlias(includes: seq<IncludeDecl>, alias: string) {
    exists i :: 0 <= i < |includes| && includes[i].alias == alias
  }

  /**
   * `parseIncludeKey`: the Sequelize nested-column reference `$alias.key$`,
   * or the column error naming the relation alias when no include declares it.
   */
  function ParseIncludeKey(o: Options, key: string, includeAlias: string): (r: Result<string>)
    ensures r.Ok? <==> DeclaresAlias(o.includes, includeAlias)
    ensures r.Ok? ==> r.value == "$" + includeAlias + "." + key + "$"
    ensures r.Err? ==> r.error == UndefinedColumn(includeAlias)
  {
    if DeclaresAlias(o.includes, includeAlias) then Ok("$" + includeAlias + "." + key + "$")
    else Err(UndefinedColumn(includeAlias))
  }

  /**
   * What `parseKey` returns: `key` is the operator or the physical column key,
   * `whereKey` the property key used in `where`, and `includeAlias` the
   * relation the column lives in (absent for operators and plain columns).
   */
  datatype Resolved = Resolved(key: Key, whereKey: Key, includeAlias: Option<string>)

  /**
   * `parseKey`: an operator keyword resolves to its operator with no column
   * lookup; any other key must be the alias of a declared column (the first
   * one wins), else "정의되지 않은 컬럼: <key>".
   */
  function ParseKey(o: Options, key: string): (r: Result<Resolved>)
    ensures OperatorOf(key).Some? ==>
              r == Ok(Resolved(OpKey(OperatorOf(key).value), OpKey(OperatorOf(key).value), None))
    ensures OperatorOf(key).None? && FindColumn(o.columns, key).None? ==> r == Err(UndefinedColumn(key))
    ensures OperatorOf(key).None? && FindColumn(o.columns, key).Some? ==>
              var c := o.columns[FindColumn(o.columns, key).value];
              match RelationOf(c)
              case None => r == Ok(Resolved(ColKey(c.key), ColKey(c.key), None))
              case Some(ia) =>
                if DeclaresAlias(o.includes, ia)
                then r == Ok(Resolved(ColKey(c.key), ColKey("$" + ia + "." + c.key + "$"), Some(ia)))
                else r == Err(UndefinedColumn(ia))
    ensures r.Ok? && r.value.includeAlias.Some? ==> r.value.includeAlias.value != "" && r.value.key.ColKey?
  {
    match OperatorOf(key)
    case Some(op) => Ok(Resolved(OpKey(op), OpKey(op), None))
    case None =>
      match FindColumn(o.columns, key)
      case None => Err(UndefinedColumn(key))
      case Some(i) =>
        var c := o.columns[i];
        match RelationOf(c)
        case None => Ok(Resolved(ColKey(c.key), ColKey(c.key), None))
        case Some(ia) =>
          var wk :- ParseIncludeKey(o, c.key, ia);
          Ok(Resolved(ColKey(c.key), ColKey(wk), Some(ia)))
  }

  /** A key resolution: `parseKey` of some schema, as a function value. */
  type KeyResolver = string -> Result<Resolved>

  /** `parseKey` of one schema. */
  function Resolver(o: Options): KeyResolver {
    key => ParseKey(o, key)
  }

  /** The resolution fails only with the column error. */
  ghost predicate ColumnErrorsOnly(resolve: KeyResolver) {
    forall key :: resolve(key).Err? ==> resolve(key).error.UndefinedColumn?
  }

  /** `parseKey` throws nothing but the column error. */
  lemma ResolverErrors(o: Options)
    ensures ColumnErrorsOnly(Resolver(o))
  {
  }

  /** Whitelist: a key that resolves is an operator keyword or a declared column alias. */
  lemma ParseKeyWhitelist(o: Options, key: string)
    requires ParseKey(o, key).Ok?
    ensures OperatorOf(key).Some? || exists i :: 0 <= i < |o.columns| && o.columns[i].alias == key
  {
    if OperatorOf(key).None? {
      var i := FindColumn(o.columns, key).value;
      assert o.columns[i].alias == key;
    }
  }

  /**
   * Only the keyword "and" resolves to the AND operator: a column, whatever
   * its alias, never takes that place in `where`.
   */
  lemma WhereKeyAnd(o: Options, key: string)
    requires ParseKey(o, key).Ok?
    ensures ParseKey(o, key).value.whereKey == OpKey(And) <==> key == "and"
  {
    AndKeyword(key);
  }

  /** Appends a relation alias to the collected ones unless it is already there. */
  function AddAlias(aliases: seq<string>, ia: Option<string>): seq<string> {
    if ia.Some? && ia.value !in aliases then aliases + [ia.value] else aliases
  }

  /** Adding an alias keeps the old ones in front, adds only it, and never duplicates. */
  lemma AddAliasFacts(aliases: seq<string>, ia: Option<string>)
    ensures forall x :: x in AddAlias(aliases, ia) <==> x in aliases || ia == Some(x)
    ensures aliases <= AddAlias(aliases, ia) && |AddAlias(aliases, ia)| <= |aliases| + 1
    ensures NoDup(aliases) ==> NoDup(AddAlias(aliases, ia))
  {
  }

  /** What `parseGroupByCount` returns. */
  datatype GroupBy = GroupBy(key: Key, includeAlias: Option<string>, group: Key, attributes: seq<Key>)

  /**
   * `parseGroupByCount`: groups and selects the same qualified key,
   * `includeAlias.key` for a column in a relation, the bare key otherwise.
   */
  function ParseGroupByCount(o: Options, field: string): (r: Result<GroupBy>)
    ensures r.Ok? <==> ParseKey(o, field).Ok?
    ensures r.Err? ==> r.error == ParseKey(o, field).error
    ensures r.Ok? ==> r.value.attributes == [r.value.group]
    ensures r.Ok? ==> (r.value.key == ParseKey(o, field).value.key &&
                       r.value.includeAlias == ParseKey(o, field).value.includeAlias)
    ensures r.Ok? && r.value.includeAlias.Some? ==>
              r.value.key.ColKey? && r.value.group == ColKey(r.value.includeAlias.value + "." + r.value.key.name)
    ensures r.Ok? && r.value.includeAlias.None? ==> r.value.group == r.value.key
  {
    var rk :- ParseKey(o, field);
    var includeKey :=
      if rk.includeAlias.Some? && rk.key.ColKey?
      then ColKey(rk.includeAlias.value + "." + rk.key.name)
      else rk.key;
    Ok(GroupBy(rk.key, rk.includeAlias, includeKey, [includeKey]))
  }

  /**
   * The group-by key and the where key name the same column: for a column in
   * a relation the where key is the group key wrapped in `$…$`, otherwise
   * they are equal.
   */
  lemma GroupKeyIsWhereKey(o: Options, field: string)
    requires ParseGroupByCount(o, field).Ok?
    ensures var g := ParseGroupByCount(o, field).value;
            var wk := ParseKey(o, field).value.whereKey;
            if g.includeAlias.Some? then g.group.ColKey? && wk == ColKey("$" + g.group.name + "$")
            else wk == g.group
  {
    var g := ParseGroupByCount(o, field).value;
    if g.includeAlias.Some? {
      var ia := g.includeAlias.value;
      var c := o.columns[FindColumn(o.columns, field).value];
      assert "$" + ia + "." + c.key + "$" == "$" + (ia + "." + c.key) + "$";
    }
  }

  // ---------------------------------------------------------------------
  // The operator table is a plain object literal, so as written a key
  // naming a property every object inherits is truthy there too.

  /** The property names a plain object inherits from `Object.prototype`. */
  predicate InheritedName(key: string) {
    key in {"constructor", "__proto__", "__defineGetter__", "__defineSetter__",
            "__lookupGetter__", "__lookupSetter__", "hasOwnProperty", "isPrototypeOf",
            "propertyIsEnumerable", "toLocaleString", "toString", "valueOf"}
  }

  /**
   * `parseKey` exactly as written: an inherited name passes the operator
   * check, and its `.op` is `undefined`, which becomes the property key
   * "undefined".
   */
  function ParseKeyAsWritten(o: Options, key: string): (r: Result<Resolved>)
    ensures !InheritedName(key) ==> r == ParseKey(o, key)
    ensures InheritedName(key) ==> r == Ok(Resolved(ColKey("undefined"), ColKey("undefined"), None))
  {
    if OperatorOf(key).None? && InheritedName(key)
    then Ok(Resolved(ColKey("undefined"), ColKey("undefined"), None))
    else ParseKey(o, key)
  }

  /**
   * A filter key "constructor" is accepted by the code as written although no
   * column is declared under it, and rejected by `ParseKey`.
   */
  lemma ConstructorBypassesWhitelist()
    ensures ParseKeyAsWritten(Options([], []), "constructor").Ok?
    ensures ParseKey(Options([], []), "constructor") == Err(UndefinedColumn("constructor"))
  {
  }

  /**
   * What `this.reserved[value]` finds for a string value, as written: the
   * reserved table is a plain object literal as well, so an inherited name
   * finds an inherited function (`Inherited`), which is truthy and replaces
   * the value.
   */
  datatype ReservedHit = TableEntry(op: Op) | Inherited(name: string)

  function ReservedLookupAsWritten(s: string): (r: Option<ReservedHit>)
    ensures r.None? <==> ReservedName(s).None? && !InheritedName(s)
    ensures ReservedName(s).Some? ==> r == Some(TableEntry(ReservedName(s).value))
    ensures r.Some? && r.value.Inherited? ==> ReservedName(s).None?
  {
    if ReservedName(s).Some? then Some(TableEntry(ReservedName(s).value))
    else if InheritedName(s) then Some(Inherited(s))
    else None
  }

  /**
   * A filter value "toString" is replaced by the code as written, although
   * it names no reserved query; `ReservedOf` keeps it.
   */
  lemma ToStringValueReplaced()
    ensures ReservedLookupAsWritten("toString") == Some(Inherited("toString"))
    ensures ReservedOf(JStr("toString")).None?
  {
  }
}
