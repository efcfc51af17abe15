/**
 * Dynamically typed JSON-like values as the filter compiler sees them.
 *
 * An object is an association list of its own enumerable properties in the
 * order `Object.entries` yields them. The key type is a parameter: a client
 * filter has string keys, a compiled `where` object has operator-symbol or
 * string keys.
 */
module Json {

  datatype Option<T> = None | Some(value: T)

  datatype Json<K> =
    | JNull
    | JBool(b: bool)
    | JNum(n: int)
    | JStr(s: string)
    | JArr(items: seq<Json<K>>)
    | JObj(fields: seq<(K, Json<K>)>)

  type Fields<K> = seq<(K, Json<K>)>

  /** The keys of an object, in order. */
  function KeysOf<K>(fs: Fields<K>): (r: seq<K>)
    ensures |r| == |fs|
    ensures forall i :: 0 <= i < |fs| ==> r[i] == fs[i].0
  {
    if fs == [] then [] else [fs[0].0] + KeysOf(fs[1..])
  }

  /** Property read `o[k]`: the value of the first entry with key `k`. */
  function Lookup<K(==)>(fs: Fields<K>, k: K): (r: Option<Json<K>>)
    ensures r.None? <==> k !in KeysOf(fs)
  {
    if fs == [] then None
    else if fs[0].0 == k then Some(fs[0].1)
    else Lookup(fs[1..], k)
  }

  /**
   * Property write `o[k] = v`: an existing key keeps its position and takes
   * the new value; a new key is appended.
   */
  function Put<K(==)>(fs: Fields<K>, k: K, v: Json<K>): Fields<K> {
    if fs == [] then [(k, v)]
    else if fs[0].0 == k then [(k, v)] + fs[1..]
    else [fs[0]] + Put(fs[1..], k, v)
  }

  /** After `o[k] = v`, `o[k]` is `v`, every other property is unchanged, and `k` is last if it is new. */
  lemma {:induction false} PutFacts<K(!new)>(fs: Fields<K>, k: K, v: Json<K>)
    ensures Lookup(Put(fs, k, v), k) == Some(v)
    ensures forall k' :: k' != k ==> Lookup(Put(fs, k, v), k') == Lookup(fs, k')
    ensures KeysOf(Put(fs, k, v)) == if k in KeysOf(fs) then KeysOf(fs) else KeysOf(fs) + [k]
  {
    if fs != [] && fs[0].0 != k {
      PutFacts(fs[1..], k, v);
      assert KeysOf(fs) == [fs[0].0] + KeysOf(fs[1..]);
      assert KeysOf(Put(fs, k, v)) == [fs[0].0] + KeysOf(Put(fs[1..], k, v));
    }
  }

  /** Object spread `{...fs, ...more}`: every entry of `more` written in order. */
  function PutAll<K(==)>(fs: Fields<K>, more: Fields<K>): Fields<K>
    decreases |more|
  {
    if more == [] then fs else PutAll(Put(fs, more[0].0, more[0].1), more[1..])
  }

  /** A spread leaves the properties `more` does not name unchanged. */
  lemma {:induction false} PutAllFacts<K(!new)>(fs: Fields<K>, more: Fields<K>)
    decreases |more|
    ensures forall k :: k !in KeysOf(more) ==> Lookup(PutAll(fs, more), k) == Lookup(fs, k)
  {
    if more != [] {
      assert KeysOf(more) == [more[0].0] + KeysOf(more[1..]);
      PutFacts(fs, more[0].0, more[0].1);
      PutAllFacts(Put(fs, more[0].0, more[0].1), more[1..]);
    }
  }

  /**
   * The keys after a spread are the old keys, still distinct if they were,
   * and the keys of `more`; there are no others.
   */
  lemma {:induction false} PutAllKeys<K(!new)>(fs: Fields<K>, more: Fields<K>)
    decreases |more|
    ensures forall k :: k in KeysOf(more) ==> k in KeysOf(PutAll(fs, more))
    ensures KeysOf(fs) <= KeysOf(PutAll(fs, more))
    ensures NoDup(KeysOf(fs)) ==> NoDup(KeysOf(PutAll(fs, more)))
    ensures forall k :: k in KeysOf(PutAll(fs, more)) ==> k in KeysOf(fs) || k in KeysOf(more)
  {
    if more != [] {
      assert KeysOf(more) == [more[0].0] + KeysOf(more[1..]);
      var next := Put(fs, more[0].0, more[0].1);
      PutKeys(fs, more[0].0, more[0].1);
      PutAllKeys(next, more[1..]);
      assert more[0].0 in KeysOf(next);
    }
  }

  lemma PutKeys<K(!new)>(fs: Fields<K>, k: K, v: Json<K>)
    ensures KeysOf(Put(fs, k, v)) == if k in KeysOf(fs) then KeysOf(fs) else KeysOf(fs) + [k]
  {
    PutFacts(fs, k, v);
  }

  /** A spread that does not name an object's first property keeps that property first. */
  lemma {:induction false} PutAllKeepsHead<K(!new)>(h: (K, Json<K>), rest: Fields<K>, more: Fields<K>)
    requires h.0 !in KeysOf(more)
    ensures PutAll([h] + rest, more) == [h] + PutAll(rest, more)
    decreases |more|
  {
    if more != [] {
      assert KeysOf(more) == [more[0].0] + KeysOf(more[1..]);
      assert ([h] + rest)[1..] == rest;
      assert Put([h] + rest, more[0].0, more[0].1) == [h] + Put(rest, more[0].0, more[0].1);
      PutAllKeepsHead(h, Put(rest, more[0].0, more[0].1), more[1..]);
    }
  }

  /** Decimal representation of an array index, as JavaScript prints it. */
  function IndexKey(n: nat): (r: string)
    ensures |r| > 0
    ensures forall j | 0 <= j < |r| :: '0' <= r[j] <= '9'
  {
    var d := ('0' as int + n % 10) as char;
    if n < 10 then [d] else IndexKey(n / 10) + [d]
  }

  /** Distinct indices print as distinct keys, so an array's or a string's entries never share a key. */
  lemma {:induction false} IndexKeyInjective(m: nat, n: nat)
    ensures IndexKey(m) == IndexKey(n) ==> m == n
    decreases m
  {
    var km, kn := IndexKey(m), IndexKey(n);
    if km == kn {
      assert km[|km| - 1] == ('0' as int + m % 10) as char;
      assert kn[|kn| - 1] == ('0' as int + n % 10) as char;
      assert m % 10 == n % 10;
      if m >= 10 && n >= 10 {
        assert km[..|km| - 1] == IndexKey(m / 10);
        assert kn[..|kn| - 1] == IndexKey(n / 10);
        IndexKeyInjective(m / 10, n / 10);
      }
    }
  }

  /**
   * `Object.entries(v)` for a value that is not null: an object's own
   * entries, an array's or a string's index-keyed elements, nothing for a
   * number or a boolean.
   */
  function Entries(v: Json<string>): Fields<string>
    requires !v.JNull?
  {
    match v
    case JObj(fs) => fs
    case JArr(items) => seq(|items|, i requires 0 <= i < |items| => (IndexKey(i), items[i]))
    case JStr(s) => seq(|s|, i requires 0 <= i < |s| => (IndexKey(i), JStr([s[i]])))
    case _ => []
  }

  /** JavaScript truthiness of a value. */
  predicate Truthy<K>(v: Json<K>) {
    match v
    case JNull => false
    case JBool(b) => b
    case JNum(n) => n != 0
    case JStr(s) => s != ""
    case _ => true
  }

  /** No element occurs twice. */
  ghost predicate NoDup<T>(s: seq<T>) {
    forall i, j :: 0 <= i < j < |s| ==> s[i] != s[j]
  }

  /** Index of the first occurrence of `x` in `s`. */
  function FirstIndex<T(==)>(s: seq<T>, x: T): (r: nat)
    requires x in s
    ensures r < |s| && s[r] == x
    ensures forall i :: 0 <= i < r ==> s[i] != x
  {
    if s[0] == x then 0 else 1 + FirstIndex(s[1..], x)
  }

  /** `[...new Set(s)]`: the distinct elements of `s` in order of first occurrence. */
  function Dedup<T(==)>(s: seq<T>): seq<T> {
    if s == [] then []
    else
      var d := Dedup(s[..|s| - 1]);
      var x := s[|s| - 1];
      if x in d then d else d + [x]
  }

  /** Dedup keeps every element once and adds none. */
  lemma {:induction false} DedupFacts<T(!new)>(s: seq<T>)
    ensures NoDup(Dedup(s))
    ensures forall x :: x in Dedup(s) <==> x in s
    ensures |Dedup(s)| <= |s|
  {
    if s != [] {
      DedupFacts(s[..|s| - 1]);
      assert forall y :: y in s <==> y in s[..|s| - 1] || y == s[|s| - 1];
    }
  }

  /** Dedup keeps the order of first occurrences. */
  lemma {:induction false} DedupOrder<T(!new)>(s: seq<T>, i: nat, j: nat)
    requires i < j < |Dedup(s)|
    ensures Dedup(s)[i] in s && Dedup(s)[j] in s
    ensures FirstIndex(s, Dedup(s)[i]) < FirstIndex(s, Dedup(s)[j])
  {
    DedupFacts(s);
    var p := s[..|s| - 1];
    var d := Dedup(p);
    var x := s[|s| - 1];
    DedupFacts(p);
    assert forall y :: y in p ==> FirstIndex(s, y) == FirstIndex(p, y) by {
      forall y | y in p ensures FirstIndex(s, y) == FirstIndex(p, y) {
        PrefixFirstIndex(s, y);
      }
    }
    if x in d {
      DedupOrder(p, i, j);
    } else if j < |d| {
      DedupOrder(p, i, j);
    } else {
      assert Dedup(s)[j] == x && x !in p;
      assert Dedup(s)[i] == d[i] && d[i] in p;
    }
  }

  lemma {:induction false} PrefixFirstIndex<T>(s: seq<T>, y: T)
    requires |s| > 0 && y in s[..|s| - 1]
    ensures FirstIndex(s, y) == FirstIndex(s[..|s| - 1], y)
  {
    if s[0] != y {
      assert s[1..][..|s[1..]| - 1] == s[..|s| - 1][1..];
      PrefixFirstIndex(s[1..], y);
    }
  }

  /** A sequence without duplicates is its own deduplication. */
  lemma {:induction false} DedupNoDup<T(!new)>(s: seq<T>)
    requires NoDup(s)
    ensures Dedup(s) == s
  {
    if s != [] {
      DedupNoDup(s[..|s| - 1]);
    }
  }
}
