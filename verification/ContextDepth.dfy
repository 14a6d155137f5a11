/** How deep a context pack lies below its predecessors, found by a recursion that remembers results. */
module ContextDepth {
  import opened Domain

  type Relation = map<Id, set<Id>>

  function Before(preds: Relation, c: Id): set<Id> {
    if c in preds then preds[c] else {}
  }

  /** Every predecessor is one of the context packs. */
  predicate Closed(preds: Relation, packs: set<Id>) {
    forall c, p :: c in preds && p in preds[c] ==> p in packs
  }

  /** A chain of packs, each a predecessor of the next. */
  ghost predicate Chain(preds: Relation, chain: seq<Id>, last: Id) {
    && chain != [] && chain[|chain| - 1] == last
    && forall i :: 0 <= i < |chain| - 1 ==> chain[i] in Before(preds, chain[i + 1])
  }

  /** No pack is its own proper ancestor. */
  ghost predicate Acyclic(preds: Relation) {
    forall chain, c :: Chain(preds, chain, c) && |chain| >= 2 ==> chain[0] != c
  }

  /** `p` is a proper ancestor of `c`. */
  ghost predicate Precedes(preds: Relation, p: Id, c: Id) {
    exists chain :: Chain(preds, chain, c) && |chain| >= 2 && chain[0] == p
  }

  lemma PrecedesAtOnce(preds: Relation, p: Id, c: Id)
    requires p in Before(preds, c)
    ensures Precedes(preds, p, c)
  {
    assert Chain(preds, [p, c], c);
  }

  lemma PrecedesFurther(preds: Relation, q: Id, p: Id, c: Id)
    requires q in Before(preds, p) && Precedes(preds, p, c)
    ensures Precedes(preds, q, c)
  {
    var chain :| Chain(preds, chain, c) && |chain| >= 2 && chain[0] == p;
    assert Chain(preds, [q] + chain, c);
  }

  /** The longest chain that ends in `c` has this many predecessors before `c`. */
  ghost predicate IsDepth(preds: Relation, c: Id, depth: nat) {
    && (exists chain :: Chain(preds, chain, c) && |chain| == depth + 1)
    && (forall chain :: Chain(preds, chain, c) ==> |chain| <= depth + 1)
  }

  lemma ChainExtends(preds: Relation, chain: seq<Id>, p: Id, c: Id)
    requires Chain(preds, chain, p) && p in Before(preds, c)
    ensures Chain(preds, chain + [c], c)
  {
  }

  lemma ChainShortens(preds: Relation, chain: seq<Id>, c: Id)
    requires Chain(preds, chain, c) && |chain| >= 2
    ensures chain[|chain| - 2] in Before(preds, c) && Chain(preds, chain[..|chain| - 1], chain[|chain| - 2])
  {
    assert chain[|chain| - 1] == c;
  }

  /** The depth of a pack is one more than the greatest depth of its predecessors. */
  lemma DepthFromPredecessors(preds: Relation, c: Id, depths: map<Id, nat>, depth: nat)
    requires depths.Keys == Before(preds, c)
    requires forall p :: p in depths ==> IsDepth(preds, p, depths[p]) && depths[p] + 1 <= depth
    requires depth == 0 || exists p :: p in depths && depth == depths[p] + 1
    ensures IsDepth(preds, c, depth)
  {
    if depth == 0 {
      assert Chain(preds, [c], c);
    } else {
      var p :| p in depths && depth == depths[p] + 1;
      assert IsDepth(preds, p, depths[p]);
      var chain :| Chain(preds, chain, p) && |chain| == depths[p] + 1;
      ChainExtends(preds, chain, p, c);
      assert |chain + [c]| == depth + 1;
    }
    forall chain | Chain(preds, chain, c) ensures |chain| <= depth + 1 {
      if |chain| >= 2 {
        ChainShortens(preds, chain, c);
        assert IsDepth(preds, chain[|chain| - 2], depths[chain[|chain| - 2]]);
      }
    }
  }

  /** A depth is unique. */
  lemma DepthIsUnique(preds: Relation, c: Id, d: nat, e: nat)
    requires IsDepth(preds, c, d) && IsDepth(preds, c, e)
    ensures d == e
  {
  }

  /** A pack lies deeper than its predecessors. */
  lemma DeeperThanPredecessors(preds: Relation, p: Id, c: Id, d: nat, e: nat)
    requires p in Before(preds, c) && IsDepth(preds, p, d) && IsDepth(preds, c, e)
    ensures d < e
  {
    var chain :| Chain(preds, chain, p) && |chain| == d + 1;
    ChainExtends(preds, chain, p, c);
    assert |chain + [c]| == d + 2;
  }

  // ---- Exactly when every pack has a depth ---------------------------------------------

  ghost predicate Distinct(s: seq<Id>) {
    forall i, j :: 0 <= i < j < |s| ==> s[i] != s[j]
  }

  /** Without cycles no pack occurs twice in a chain. */
  lemma ChainsAreDistinct(preds: Relation, chain: seq<Id>, c: Id)
    requires Acyclic(preds) && Chain(preds, chain, c)
    ensures Distinct(chain)
  {
    forall i, j | 0 <= i < j < |chain| ensures chain[i] != chain[j] {
      var part := chain[i..j + 1];
      assert Chain(preds, part, chain[j]);
      assert part[0] == chain[i] && |part| >= 2;
    }
  }

  lemma {:induction false} DistinctFits(s: seq<Id>, packs: set<Id>)
    requires Distinct(s) && forall i :: 0 <= i < |s| ==> s[i] in packs
    ensures |s| <= |packs|
    decreases |s|
  {
    if s != [] {
      DistinctFits(s[1..], packs - {s[0]});
    }
  }

  /** A chain longer than this one exists, or this one gives the depth. */
  lemma {:induction false} LongestExists(preds: Relation, packs: set<Id>, c: Id, chain: seq<Id>)
    requires Acyclic(preds) && Closed(preds, packs) && c in packs && Chain(preds, chain, c)
    ensures exists depth: nat :: IsDepth(preds, c, depth)
    decreases |packs| - |chain|
  {
    ChainIsBounded(preds, packs, chain, c);
    if longer :| Chain(preds, longer, c) && |longer| > |chain| {
      ChainIsBounded(preds, packs, longer, c);
      LongestExists(preds, packs, c, longer);
    } else {
      assert IsDepth(preds, c, |chain| - 1);
    }
  }

  lemma ChainIsBounded(preds: Relation, packs: set<Id>, chain: seq<Id>, c: Id)
    requires Acyclic(preds) && Closed(preds, packs) && c in packs && Chain(preds, chain, c)
    ensures |chain| <= |packs|
  {
    ChainsAreDistinct(preds, chain, c);
    forall i | 0 <= i < |chain| ensures chain[i] in packs {
      if i < |chain| - 1 { assert chain[i] in Before(preds, chain[i + 1]); }
    }
    DistinctFits(chain, packs);
  }

  /** A cycle can be run through any number of times. */
  lemma {:induction false} CyclesUnroll(preds: Relation, cycle: seq<Id>, c: Id, n: nat)
    requires Chain(preds, cycle, c) && |cycle| >= 2 && cycle[0] == c
    ensures exists chain :: Chain(preds, chain, c) && |chain| > n
    decreases n
  {
    if n == 0 {
      assert |cycle| > 0;
    } else {
      CyclesUnroll(preds, cycle, c, n - 1);
      var chain :| Chain(preds, chain, c) && |chain| > n - 1;
      var more := chain + cycle[1..];
      forall i | 0 <= i < |more| - 1 ensures more[i] in Before(preds, more[i + 1]) {
        if i >= |chain| - 1 {
          var k := i - (|chain| - 1);
          assert more[i] == cycle[k] && more[i + 1] == cycle[k + 1];
        }
      }
      assert Chain(preds, more, c) && |more| > n;
    }
  }

  /** Every pack has a depth exactly if none is its own proper ancestor. */
  lemma DepthsExistExactly(preds: Relation, packs: set<Id>)
    requires Closed(preds, packs)
    ensures Acyclic(preds) <==> forall c :: c in packs ==> exists depth: nat :: IsDepth(preds, c, depth)
  {
    if Acyclic(preds) {
      forall c | c in packs ensures exists depth: nat :: IsDepth(preds, c, depth) {
        assert Chain(preds, [c], c);
        LongestExists(preds, packs, c, [c]);
      }
    } else {
      var chain, c :| Chain(preds, chain, c) && |chain| >= 2 && chain[0] == c;
      assert chain[0] in Before(preds, chain[1]) && c in packs;
      forall depth: nat ensures !IsDepth(preds, c, depth) {
        CyclesUnroll(preds, chain, c, depth + 1);
        var long :| Chain(preds, long, c) && |long| > depth + 1;
      }
    }
  }

  class DepthFinder {
    const preds: Relation
    ghost const packs: set<Id>
    var cache: map<Id, nat>

    /** What was remembered is right, if there are no cycles. */
    ghost predicate Valid()
      reads this
    {
      && Closed(preds, packs)
      && (Acyclic(preds) ==> forall c :: c in cache ==> IsDepth(preds, c, cache[c]))
    }

    constructor (preds: Relation, ghost packs: set<Id>)
      requires Closed(preds, packs)
      ensures this.preds == preds && this.packs == packs && Valid()
    {
      this.preds, this.packs, cache := preds, packs, map[];
    }

    /**
     * The recursion ends for cyclic relations too: a pack that is being visited, which is a descendant
     * of the pack at hand, counts as depth 0.
     */
    method ContextDepth(c: Id, visiting: set<Id>) returns (depth: nat)
      requires Valid() && c in packs && visiting <= packs
      requires forall v :: v in visiting ==> Precedes(preds, c, v)
      modifies this`cache
      ensures Valid()
      ensures Acyclic(preds) ==> IsDepth(preds, c, depth)
      decreases packs - visiting
    {
      hide Acyclic, IsDepth, Precedes, Chain;
      if c in cache {
        return cache[c];
      }
      if c in visiting {
        NotAcyclic(preds, c);
        return 0;
      }
      var nextVisiting := visiting + {c};
      depth := 0;
      var todo := Before(preds, c);
      ghost var depths: map<Id, nat>, deepest := map[], c;
      while todo != {}
        invariant Valid() && todo <= Before(preds, c) && depths.Keys == Before(preds, c) - todo
        invariant Acyclic(preds) ==> forall p :: p in depths ==> IsDepth(preds, p, depths[p])
        invariant forall p :: p in depths ==> depths[p] + 1 <= depth
        invariant depth == 0 || (deepest in depths && depth == depths[deepest] + 1)
        decreases todo
      {
        var p :| p in todo;
        NextPrecedes(preds, p, c, visiting);
        var d := ContextDepth(p, nextVisiting);
        depths := depths[p := d];
        if d + 1 > depth {
          depth, deepest := d + 1, p;
        }
        todo := todo - {p};
      }
      if Acyclic(preds) {
        DepthFromPredecessors(preds, c, depths, depth);
      }
      cache := cache[c := depth];
    }
  }

  lemma NotAcyclic(preds: Relation, c: Id)
    requires Precedes(preds, c, c)
    ensures !Acyclic(preds)
  {
  }

  lemma NextPrecedes(preds: Relation, p: Id, c: Id, visiting: set<Id>)
    requires p in Before(preds, c) && forall v :: v in visiting ==> Precedes(preds, c, v)
    ensures forall v :: v in visiting + {c} ==> Precedes(preds, p, v)
  {
    PrecedesAtOnce(preds, p, c);
    forall v | v in visiting ensures Precedes(preds, p, v) {
      PrecedesFurther(preds, p, c, v);
    }
  }
}
