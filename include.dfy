/**
 * `mapInclude`: a dotted relation alias becomes a chain of declared include
 * descriptors, each one's `include` set to the next, and the chain's root is
 * appended to the include list.
 *
 * The descriptors are shared, mutable objects. Their state is modelled as
 * `links`: `links[d] == Some(c)` when descriptor `d`'s `include` has been set
 * to `[descriptor c]`, `None` while it is as declared. A call's effect on that
 * state is a sequence of point writes `(d, c)`, applied in order.
 */
module Include {
  import opened Json
  import opened Schema
  import opened Keys

  /** One assignment `descriptors[target].include = [descriptors[child]]`. */
  datatype Write = Write(target: nat, child: nat)

  /**
   * The descriptors the first `n` segments name, each the first declared
   * include whose association name is the segment, or the error naming the
   * first segment none is declared for.
   */
  function ResolveSegments(includes: seq<IncludeDecl>, segs: seq<string>, n: nat): (r: Result<seq<nat>>)
    requires n <= |segs|
    ensures r.Ok? ==> |r.value| == n
  {
    if n == 0 then Ok([])
    else
      var prev :- ResolveSegments(includes, segs, n - 1);
      match FindInclude(includes, segs[n - 1])
      case None => Err(UndefinedInclude(segs[n - 1]))
      case Some(d) => Ok(prev + [d])
  }

  /** `includeAlias.split(".")` mapped to descriptors. */
  function Chain(includes: seq<IncludeDecl>, alias: string): Result<seq<nat>> {
    ResolveSegments(includes, Split(alias), |Split(alias)|)
  }

  /**
   * The writes of the reversed loop: walking from the last descriptor to the
   * first, each one after the first visited gets the previously visited one.
   */
  function ChainWrites(ds: seq<nat>): seq<Write>
    decreases |ds|
  {
    if |ds| <= 1 then [] else ChainWrites(ds[1..]) + [Write(ds[0], ds[1])]
  }

  /** The link state after the writes `ws`, in order. */
  function Assign(links: seq<Option<nat>>, ws: seq<Write>): (r: seq<Option<nat>>)
    ensures |r| == |links|
  {
    if ws == [] then links
    else
      var prev := Assign(links, ws[..|ws| - 1]);
      var w := ws[|ws| - 1];
      if w.target < |prev| then prev[w.target := Some(w.child)] else prev
  }

  /** Every link names a declared descriptor. */
  predicate LinksValid(links: seq<Option<nat>>) {
    forall d | 0 <= d < |links| :: links[d].Some? ==> links[d].value < |links|
  }

  /** Every descriptor of `ds` is declared. */
  predicate Declared(ds: seq<nat>, n: nat) {
    forall k | 0 <= k < |ds| :: ds[k] < n
  }

  /**
   * The descriptors met walking `k` links down from `d`: the nesting the
   * query builder sees below a root.
   */
  function Follow(links: seq<Option<nat>>, d: nat, k: nat): Option<seq<nat>>
    requires d < |links| && LinksValid(links)
    decreases k
  {
    if k == 0 then Some([d])
    else
      match links[d]
      case None => None
      case Some(c) =>
        match Follow(links, c, k - 1)
        case None => None
        case Some(path) => Some([d] + path)
  }

  // ---------------------------------------------------------------------
  // Segment resolution.

  /** Descriptor `k` of a resolved chain is the first declared include named by segment `k`. */
  lemma {:induction false} SegmentAt(includes: seq<IncludeDecl>, segs: seq<string>, n: nat, k: nat)
    requires k < n <= |segs| && ResolveSegments(includes, segs, n).Ok?
    ensures FindInclude(includes, segs[k]).Some?
    ensures ResolveSegments(includes, segs, n).value[k] == FindInclude(includes, segs[k]).value
  {
    var prev := ResolveSegments(includes, segs, n - 1).value;
    assert ResolveSegments(includes, segs, n).value == prev + [FindInclude(includes, segs[n - 1]).value];
    if k < n - 1 {
      SegmentAt(includes, segs, n - 1, k);
    }
  }

  /** Resolution succeeds exactly when every segment names a declared include. */
  lemma {:induction false} SegmentsSucceed(includes: seq<IncludeDecl>, segs: seq<string>, n: nat)
    requires n <= |segs|
    ensures ResolveSegments(includes, segs, n).Ok? <==> forall k | 0 <= k < n :: FindInclude(includes, segs[k]).Some?
  {
    if n > 0 {
      SegmentsSucceed(includes, segs, n - 1);
    }
  }

  /** When resolution fails, it names the first undeclared segment: the segments before it all resolve. */
  lemma {:induction false} SegmentsFirstError(includes: seq<IncludeDecl>, segs: seq<string>, n: nat)
    requires n <= |segs| && ResolveSegments(includes, segs, n).Err?
    ensures exists k | 0 <= k < n ::
              ResolveSegments(includes, segs, k).Ok? && FindInclude(includes, segs[k]).None? &&
              ResolveSegments(includes, segs, n).error == UndefinedInclude(segs[k])
  {
    if ResolveSegments(includes, segs, n - 1).Err? {
      SegmentsFirstError(includes, segs, n - 1);
    } else {
      assert FindInclude(includes, segs[n - 1]).None?;
    }
  }

  /** A resolved chain names declared descriptors, one per segment, never none. */
  lemma ChainDeclared(includes: seq<IncludeDecl>, alias: string)
    requires Chain(includes, alias).Ok?
    ensures |Chain(includes, alias).value| == |Split(alias)| >= 1
    ensures Declared(Chain(includes, alias).value, |includes|)
  {
    var segs := Split(alias);
    forall k | 0 <= k < |segs|
      ensures Chain(includes, alias).value[k] < |includes|
    {
      SegmentAt(includes, segs, |segs|, k);
    }
  }

  // ---------------------------------------------------------------------
  // The writes and the link state.

  /** The writes of a chain: one per descriptor but the last, each naming declared descriptors. */
  lemma {:induction false} ChainWritesShape(ds: seq<nat>, n: nat)
    requires Declared(ds, n)
    ensures |ChainWrites(ds)| == if |ds| == 0 then 0 else |ds| - 1
    ensures forall w | w in ChainWrites(ds) :: w.target < n && w.child < n
    decreases |ds|
  {
    if |ds| > 1 {
      ChainWritesShape(ds[1..], n);
    }
  }

  /** The last write to a descriptor decides its link; one never written keeps its link. */
  lemma {:induction false} AssignAt(links: seq<Option<nat>>, ws: seq<Write>, d: nat)
    requires d < |links|
    ensures Assign(links, ws)[d] == match LastTo(ws, d) case Some(c) => Some(c) case None => links[d]
  {
    if ws != [] {
      AssignAt(links, ws[..|ws| - 1], d);
    }
  }

  /** The child of the last write to `d` in `ws`. */
  function LastTo(ws: seq<Write>, d: nat): Option<nat> {
    if ws == [] then None
    else if ws[|ws| - 1].target == d then Some(ws[|ws| - 1].child)
    else LastTo(ws[..|ws| - 1], d)
  }

  /** Repeating the same writes changes nothing more: a second identical call leaves the links as the first did. */
  lemma AssignIdempotent(links: seq<Option<nat>>, ws: seq<Write>)
    ensures Assign(Assign(links, ws), ws) == Assign(links, ws)
  {
    var once := Assign(links, ws);
    forall d | 0 <= d < |links|
      ensures Assign(once, ws)[d] == once[d]
    {
      AssignAt(once, ws, d);
      AssignAt(links, ws, d);
    }
  }

  /** Writes in two batches are the writes of both, in order. */
  lemma {:induction false} AssignConcat(links: seq<Option<nat>>, ws1: seq<Write>, ws2: seq<Write>)
    ensures Assign(links, ws1 + ws2) == Assign(Assign(links, ws1), ws2)
    decreases |ws2|
  {
    if ws2 == [] {
      assert ws1 + ws2 == ws1;
    } else {
      var all := ws1 + ws2;
      assert all[..|all| - 1] == ws1 + ws2[..|ws2| - 1];
      assert all[|all| - 1] == ws2[|ws2| - 1];
      AssignConcat(links, ws1, ws2[..|ws2| - 1]);
    }
  }

  /** Writes to declared descriptors keep the links valid. */
  lemma {:induction false} AssignValid(links: seq<Option<nat>>, ws: seq<Write>)
    requires LinksValid(links)
    requires forall w | w in ws :: w.child < |links|
    ensures LinksValid(Assign(links, ws))
  {
    if ws != [] {
      AssignValid(links, ws[..|ws| - 1]);
      assert ws[|ws| - 1] in ws;
    }
  }

  /** The targets of a chain's writes are its descriptors but the last. */
  lemma {:induction false} LastToChain(ds: seq<nat>, d: nat)
    requires NoDup(ds)
    ensures d !in ds[..if |ds| == 0 then 0 else |ds| - 1] ==> LastTo(ChainWrites(ds), d).None?
    ensures forall k | 0 <= k < |ds| - 1 :: LastTo(ChainWrites(ds), ds[k]) == Some(ds[k + 1])
    decreases |ds|
  {
    if |ds| > 1 {
      var rest := ds[1..];
      LastToChain(rest, d);
      forall k | 0 <= k < |ds| - 1
        ensures LastTo(ChainWrites(ds), ds[k]) == Some(ds[k + 1])
      {
        if k > 0 {
          assert rest[k - 1] == ds[k];
          LastToChain(rest, ds[k]);
        }
      }
      assert ds[..|ds| - 1] == [ds[0]] + rest[..|rest| - 1];
    }
  }

  /**
   * After a chain's writes, if its descriptors are distinct, walking down from
   * the root as many links as the chain has segments meets exactly the chain.
   * The last descriptor keeps whatever link it carried before the call, so the
   * nesting may go on below it (see StaleNestingKept).
   */
  lemma ChainNested(links: seq<Option<nat>>, ds: seq<nat>)
    requires LinksValid(links) && |ds| >= 1 && Declared(ds, |links|) && NoDup(ds)
    ensures LinksValid(Assign(links, ChainWrites(ds)))
    ensures Follow(Assign(links, ChainWrites(ds)), ds[0], |ds| - 1) == Some(ds)
  {
    ChainWritesShape(ds, |links|);
    AssignValid(links, ChainWrites(ds));
    var after := Assign(links, ChainWrites(ds));
    forall k | 0 <= k < |ds| - 1
      ensures after[ds[k]] == Some(ds[k + 1])
    {
      AssignAt(links, ChainWrites(ds), ds[k]);
      LastToChain(ds, ds[k]);
    }
    FollowFrom(after, ds, 0);
  }

  lemma {:induction false} FollowFrom(links: seq<Option<nat>>, ds: seq<nat>, i: nat)
    requires LinksValid(links) && i < |ds| && Declared(ds, |links|)
    requires forall k | 0 <= k < |ds| - 1 :: links[ds[k]] == Some(ds[k + 1])
    ensures Follow(links, ds[i], |ds| - 1 - i) == Some(ds[i..])
    decreases |ds| - i
  {
    if i < |ds| - 1 {
      FollowFrom(links, ds, i + 1);
      assert ds[i..] == [ds[i]] + ds[i + 1..];
    } else {
      assert ds[i..] == [ds[i]];
    }
  }

  /** Descriptors a chain does not name above its last one keep their links. */
  lemma ChainLeavesOthers(links: seq<Option<nat>>, ds: seq<nat>, d: nat)
    requires d < |links| && |ds| >= 1 && d !in ds[..|ds| - 1]
    ensures Assign(links, ChainWrites(ds))[d] == links[d]
  {
    AssignAt(links, ChainWrites(ds), d);
    LastToOutside(ds, d);
  }

  lemma {:induction false} LastToOutside(ds: seq<nat>, d: nat)
    requires |ds| >= 1 && d !in ds[..|ds| - 1]
    ensures LastTo(ChainWrites(ds), d).None?
    decreases |ds|
  {
    if |ds| > 1 {
      var rest := ds[1..];
      assert rest[..|rest| - 1] == ds[1..|ds| - 1];
      assert ds[0] in ds[..|ds| - 1];
      LastToOutside(rest, d);
      var ws := ChainWrites(rest) + [Write(ds[0], ds[1])];
      assert ws[..|ws| - 1] == ChainWrites(rest);
    }
  }

  /**
   * Two aliases through the same first relation share its descriptor, so the
   * later call re-links it: after `a.b` then `a.c`, `a` carries only `c`.
   */
  lemma LaterChainWins(links: seq<Option<nat>>, a: nat, b: nat, c: nat)
    requires a < |links| && a != b && a != c
    ensures Assign(Assign(links, ChainWrites([a, b])), ChainWrites([a, c]))[a] == Some(c)
  {
    assert ChainWrites([a, b]) == [Write(a, b)] by {
      assert [a, b][1..] == [b];
    }
    assert ChainWrites([a, c]) == [Write(a, c)] by {
      assert [a, c][1..] == [c];
    }
    AssignAt(Assign(links, [Write(a, b)]), [Write(a, c)], a);
  }

  /**
   * The descriptors are shared by every call on one compiler, so a nesting
   * written by an earlier call survives a later call that does not re-link:
   * after `a.b`, a later path naming only `a` still nests `b` below `a`.
   */
  lemma StaleNestingKept(links: seq<Option<nat>>, a: nat, b: nat)
    requires LinksValid(links) && a < |links| && b < |links| && a != b
    ensures var after := Assign(Assign(links, ChainWrites([a, b])), ChainWrites([a]));
      LinksValid(after) && Follow(after, a, 0) == Some([a]) && Follow(after, a, 1) == Some([a, b])
  {
    assert ChainWrites([a, b]) == [Write(a, b)] by {
      assert [a, b][1..] == [b];
    }
    var first := Assign(links, [Write(a, b)]);
    AssignAt(links, [Write(a, b)], a);
    AssignValid(links, [Write(a, b)]);
    assert ChainWrites([a]) == [];
    assert Assign(first, []) == first;
    assert first[a] == Some(b);
    assert Follow(first, b, 0) == Some([b]);
    assert [a] + [b] == [a, b];
    assert Follow(first, a, 1) == Some([a, b]);
  }

  /**
   * A path naming one relation twice, such as `r.r`, links that descriptor to
   * itself: walking down from it never ends, at every depth it meets itself.
   */
  lemma RepeatedSegmentCycles(links: seq<Option<nat>>, a: nat, k: nat)
    requires LinksValid(links) && a < |links|
    ensures var after := Assign(links, ChainWrites([a, a]));
      LinksValid(after) && after[a] == Some(a) && Follow(after, a, k) == Some(seq(k + 1, _ => a))
  {
    assert ChainWrites([a, a]) == [Write(a, a)] by {
      assert [a, a][1..] == [a];
    }
    var after := Assign(links, [Write(a, a)]);
    AssignAt(links, [Write(a, a)], a);
    AssignValid(links, [Write(a, a)]);
    SelfLoopFollow(after, a, k);
  }

  lemma {:induction false} SelfLoopFollow(links: seq<Option<nat>>, a: nat, k: nat)
    requires LinksValid(links) && a < |links| && links[a] == Some(a)
    ensures Follow(links, a, k) == Some(seq(k + 1, _ => a))
    decreases k
  {
    if k > 0 {
      SelfLoopFollow(links, a, k - 1);
      assert seq(k + 1, _ => a) == [a] + seq(k, _ => a);
    } else {
      assert seq(1, _ => a) == [a];
    }
  }

  // ---------------------------------------------------------------------
  // The parser's include loop, one `mapInclude` call per distinct alias.

  /** The chain resolution of one schema's includes, as a function value. */
  type Chains = string -> Result<seq<nat>>

  function ChainsOf(includes: seq<IncludeDecl>): Chains {
    alias => Chain(includes, alias)
  }

  /** The root a chain appends to the include list. */
  function Root(ds: seq<nat>): nat {
    if |ds| > 0 then ds[0] else 0
  }

  /**
   * The include list after the first `n` aliases, and the writes performed:
   * a call that throws writes nothing, and the calls after it never run.
   */
  function IncludeLoop(chain: Chains, aliases: seq<string>, n: nat): (r: (Result<seq<nat>>, seq<Write>))
    requires n <= |aliases|
    ensures r.0.Ok? ==> |r.0.value| == n
  {
    if n == 0 then (Ok([]), [])
    else
      var prev := IncludeLoop(chain, aliases, n - 1);
      if prev.0.Err? then prev
      else
        match chain(aliases[n - 1])
        case Err(e) => (Err(e), prev.1)
        case Ok(ds) => (Ok(prev.0.value + [Root(ds)]), prev.1 + ChainWrites(ds))
  }

  /** One successful iteration of the include loop. */
  lemma IncludeStepOk(chain: Chains, aliases: seq<string>, n: nat)
    requires 0 < n <= |aliases| && IncludeLoop(chain, aliases, n).0.Ok?
    ensures IncludeLoop(chain, aliases, n - 1).0.Ok? && chain(aliases[n - 1]).Ok?
    ensures var prev := IncludeLoop(chain, aliases, n - 1);
            var ds := chain(aliases[n - 1]).value;
            IncludeLoop(chain, aliases, n) == (Ok(prev.0.value + [Root(ds)]), prev.1 + ChainWrites(ds))
  {
  }

  /** Root `i` of the include list is the root of alias `i`'s chain. */
  lemma {:induction false} IncludeRootAt(chain: Chains, aliases: seq<string>, n: nat, i: nat)
    requires i < n <= |aliases| && IncludeLoop(chain, aliases, n).0.Ok?
    ensures chain(aliases[i]).Ok?
    ensures IncludeLoop(chain, aliases, n).0.value[i] == Root(chain(aliases[i]).value)
  {
    IncludeStepOk(chain, aliases, n);
    if i < n - 1 {
      IncludeRootAt(chain, aliases, n - 1, i);
    }
  }

  /** The loop succeeds exactly when every alias's chain resolves; otherwise it fails with the first failing chain's error. */
  lemma {:induction false} IncludeLoopErrors(chain: Chains, aliases: seq<string>, n: nat)
    requires n <= |aliases|
    ensures IncludeLoop(chain, aliases, n).0.Ok? <==> forall i | 0 <= i < n :: chain(aliases[i]).Ok?
    ensures IncludeLoop(chain, aliases, n).0.Err? ==>
              exists i | 0 <= i < n :: chain(aliases[i]) == Err(IncludeLoop(chain, aliases, n).0.error)
  {
    if n > 0 {
      IncludeLoopErrors(chain, aliases, n - 1);
    }
  }

  /** Every write of the loop is a write of some alias's chain. */
  lemma {:induction false} IncludeWritesFrom(chain: Chains, aliases: seq<string>, n: nat, w: Write)
    requires n <= |aliases| && w in IncludeLoop(chain, aliases, n).1
    ensures exists i | 0 <= i < n :: chain(aliases[i]).Ok? && w in ChainWrites(chain(aliases[i]).value)
  {
    var prev := IncludeLoop(chain, aliases, n - 1);
    if w in prev.1 {
      IncludeWritesFrom(chain, aliases, n - 1, w);
    }
  }

  /** A chain fails only for an undeclared segment. */
  lemma ChainErrors(includes: seq<IncludeDecl>, alias: string)
    requires Chain(includes, alias).Err?
    ensures Chain(includes, alias).error.UndefinedInclude?
  {
    var segs := Split(alias);
    SegmentsFirstError(includes, segs, |segs|);
  }

  /** A chain's writes name declared descriptors. */
  lemma ChainWritesDeclared(includes: seq<IncludeDecl>, alias: string, w: Write)
    requires Chain(includes, alias).Ok? && w in ChainWrites(Chain(includes, alias).value)
    ensures w.target < |includes| && w.child < |includes|
  {
    ChainDeclared(includes, alias);
    ChainWritesShape(Chain(includes, alias).value, |includes|);
  }

  /** An undeclared segment ends the `map`: its error is the whole chain's. */
  lemma {:induction false} SegmentsErrStays(includes: seq<IncludeDecl>, segs: seq<string>, k: nat, n: nat)
    requires k < n <= |segs|
    requires ResolveSegments(includes, segs, k).Ok? && FindInclude(includes, segs[k]).None?
    ensures ResolveSegments(includes, segs, n) == Err(UndefinedInclude(segs[k]))
    decreases n
  {
    if n > k + 1 {
      SegmentsErrStays(includes, segs, k, n - 1);
    }
  }

  /** A call that throws ends the loop: its error is the loop's, and only the earlier calls' writes happened. */
  lemma {:induction false} IncludeErrStays(chain: Chains, aliases: seq<string>, k: nat, n: nat)
    requires k < n <= |aliases|
    requires IncludeLoop(chain, aliases, k).0.Ok? && chain(aliases[k]).Err?
    ensures IncludeLoop(chain, aliases, n) == (Err(chain(aliases[k]).error), IncludeLoop(chain, aliases, k).1)
    decreases n
  {
    if n > k + 1 {
      IncludeErrStays(chain, aliases, k, n - 1);
    }
  }
}
