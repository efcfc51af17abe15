/**
 * `mapOrderBy`: each requested sort field becomes a Sequelize order entry
 * (the relation path of its column, its physical key, the direction), and
 * the relations it reaches are added to the collected aliases.
 */
module Order {
  import opened Json
  import opened Schema
  import opened Keys

  /** One requested sort: a field alias and a direction, passed through as given. */
  datatype OrderItem = OrderItem(field: string, direction: string)

  /**
   * One Sequelize order entry: the array of the relation path's segments,
   * then the column key, then the direction.
   */
  datatype OrderEntry = OrderEntry(path: seq<string>, key: Key, direction: string)

  /** The order entry for a resolved field. */
  function EntryFor(rk: Resolved, direction: string): OrderEntry {
    OrderEntry(if rk.includeAlias.Some? then Split(rk.includeAlias.value) else [], rk.key, direction)
  }

  /** `mapOrderBy` over a schema's declared columns. */
  function OrderSpec(o: Options, items: seq<OrderItem>, aliases: seq<string>): Result<(seq<OrderEntry>, seq<string>)> {
    OrderWith(Resolver(o), items, aliases, |items|)
  }

  /**
   * The order entries of the first `n` items and the aliases after them, for
   * any key resolution: the first field that does not resolve throws, and
   * each relation is appended unless already collected.
   */
  function OrderWith(resolve: KeyResolver, items: seq<OrderItem>, aliases: seq<string>, n: nat)
    : (r: Result<(seq<OrderEntry>, seq<string>)>)
    requires n <= |items|
    ensures r.Ok? ==> |r.value.0| == n
  {
    if n == 0 then Ok(([], aliases))
    else
      var prev :- OrderWith(resolve, items, aliases, n - 1);
      var rk :- resolve(items[n - 1].field);
      Ok((prev.0 + [EntryFor(rk, items[n - 1].direction)], AddAlias(prev.1, rk.includeAlias)))
  }

  /** Every one of the first `n` fields resolves. */
  predicate AllResolve(resolve: KeyResolver, items: seq<OrderItem>, n: nat)
    requires n <= |items|
  {
    forall i | 0 <= i < n :: resolve(items[i].field).Ok?
  }

  /** One of the first `n` fields resolves to a column of relation `x`. */
  predicate Reaches(resolve: KeyResolver, items: seq<OrderItem>, n: nat, x: string)
    requires n <= |items|
  {
    n > 0 &&
    (Reaches(resolve, items, n - 1, x) ||
     (resolve(items[n - 1].field).Ok? && resolve(items[n - 1].field).value.includeAlias == Some(x)))
  }

  /** Ordering succeeds exactly when every field resolves. */
  lemma {:induction false} OrderSucceeds(resolve: KeyResolver, items: seq<OrderItem>, aliases: seq<string>, n: nat)
    requires n <= |items|
    ensures OrderWith(resolve, items, aliases, n).Ok? <==> AllResolve(resolve, items, n)
  {
    if n > 0 {
      OrderSucceeds(resolve, items, aliases, n - 1);
      assert AllResolve(resolve, items, n) <==> AllResolve(resolve, items, n - 1) && resolve(items[n - 1].field).Ok?;
    }
  }

  /** One successful iteration of the order loop. */
  lemma OrderStepOk(resolve: KeyResolver, items: seq<OrderItem>, aliases: seq<string>, n: nat)
    requires 0 < n <= |items| && OrderWith(resolve, items, aliases, n).Ok?
    ensures OrderWith(resolve, items, aliases, n - 1).Ok? && resolve(items[n - 1].field).Ok?
    ensures var prev := OrderWith(resolve, items, aliases, n - 1).value;
            var rk := resolve(items[n - 1].field).value;
            OrderWith(resolve, items, aliases, n).value ==
              (prev.0 + [EntryFor(rk, items[n - 1].direction)], AddAlias(prev.1, rk.includeAlias))
  {
  }

  /** Entry `i` of the order is built from item `i`'s own resolution and direction. */
  lemma {:induction false} OrderEntryAt(resolve: KeyResolver, items: seq<OrderItem>, aliases: seq<string>, n: nat, i: nat)
    requires i < n <= |items| && OrderWith(resolve, items, aliases, n).Ok?
    ensures resolve(items[i].field).Ok?
    ensures OrderWith(resolve, items, aliases, n).value.0[i] == EntryFor(resolve(items[i].field).value, items[i].direction)
  {
    OrderStepOk(resolve, items, aliases, n);
    if i < n - 1 {
      OrderEntryAt(resolve, items, aliases, n - 1, i);
    }
  }

  /** When ordering fails, the error is that of the first field that does not resolve. */
  lemma {:induction false} OrderFirstError(resolve: KeyResolver, items: seq<OrderItem>, aliases: seq<string>, n: nat)
    requires n <= |items| && OrderWith(resolve, items, aliases, n).Err?
    ensures exists i | 0 <= i < n ::
              AllResolve(resolve, items, i) && resolve(items[i].field) == Err(OrderWith(resolve, items, aliases, n).error)
  {
    OrderSucceeds(resolve, items, aliases, n - 1);
    if OrderWith(resolve, items, aliases, n - 1).Err? {
      OrderFirstError(resolve, items, aliases, n - 1);
      var i :| 0 <= i < n - 1 &&
        AllResolve(resolve, items, i) && resolve(items[i].field) == Err(OrderWith(resolve, items, aliases, n - 1).error);
    } else {
      assert AllResolve(resolve, items, n - 1);
    }
  }

  /**
   * The collected aliases only grow: the old ones stay first and in order,
   * and no alias is collected twice.
   */
  lemma {:induction false} OrderAliasesGrow(resolve: KeyResolver, items: seq<OrderItem>, aliases: seq<string>, n: nat)
    requires n <= |items| && OrderWith(resolve, items, aliases, n).Ok?
    ensures aliases <= OrderWith(resolve, items, aliases, n).value.1
    ensures NoDup(aliases) ==> NoDup(OrderWith(resolve, items, aliases, n).value.1)
  {
    if n > 0 {
      OrderStepOk(resolve, items, aliases, n);
      OrderAliasesGrow(resolve, items, aliases, n - 1);
      AddAliasFacts(OrderWith(resolve, items, aliases, n - 1).value.1, resolve(items[n - 1].field).value.includeAlias);
    }
  }

  /** The aliases after ordering are the old ones and the relations the fields reach. */
  lemma {:induction false} OrderAliases(resolve: KeyResolver, items: seq<OrderItem>, aliases: seq<string>, n: nat, x: string)
    requires n <= |items| && OrderWith(resolve, items, aliases, n).Ok?
    ensures x in OrderWith(resolve, items, aliases, n).value.1 <==> x in aliases || Reaches(resolve, items, n, x)
  {
    if n > 0 {
      OrderStepOk(resolve, items, aliases, n);
      OrderAliases(resolve, items, aliases, n - 1, x);
      AddAliasFacts(OrderWith(resolve, items, aliases, n - 1).value.1, resolve(items[n - 1].field).value.includeAlias);
    }
  }

  /** A field that does not resolve ends the `map`: its error is the whole order's. */
  lemma {:induction false} OrderErrStays(resolve: KeyResolver, items: seq<OrderItem>, aliases: seq<string>, i: nat, n: nat)
    requires i < n <= |items|
    requires OrderWith(resolve, items, aliases, i).Ok? && resolve(items[i].field).Err?
    ensures OrderWith(resolve, items, aliases, n) == Err(resolve(items[i].field).error)
    decreases n
  {
    if n > i + 1 {
      OrderErrStays(resolve, items, aliases, i, n - 1);
      assert OrderWith(resolve, items, aliases, n - 1).Err?;
    }
  }
}
