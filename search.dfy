/**
 * What `select_first` finds and what its pointer gives back. The search is
 * shallow: for each root in order it looks at the root, then at that root's
 * direct children only; a node two or more levels below a root is never
 * reached.
 */
module Search {
  import opened Tree

  /** Neither `n` nor any of its direct children carries `target`. */
  predicate ShallowMiss(n: Node, target: string)
  {
    && !n.Matches(target)
    && forall j | 0 <= j < |n.children| :: !n.children[j].Matches(target)
  }

  /** Every root with index in `[lo, hi)` is a shallow miss. */
  predicate MissBetween(roots: seq<Node>, target: string, lo: nat, hi: nat)
    requires lo <= hi <= |roots|
  {
    forall k | lo <= k < hi :: ShallowMiss(roots[k], target)
  }

  /** `p` is the one-step pointer to root `i`, the first shallow hit. */
  predicate RootHit(roots: seq<Node>, target: string, p: Pointer, i: nat)
  {
    && i < |roots|
    && p.history == [Step(roots, i)]
    && roots[i].Matches(target)
    && MissBetween(roots, target, 0, i)
  }

  /**
   * `p` is the two-step pointer to child `j` of root `i`: root `i` does not
   * match, `j` is its lowest matching child, and every earlier root is a
   * shallow miss.
   */
  predicate ChildHit(roots: seq<Node>, target: string, p: Pointer, i: nat, j: nat)
  {
    && i < |roots|
    && j < |roots[i].children|
    && p.history == [Step(roots, i), Step(roots[i].children, j)]
    && !roots[i].Matches(target)
    && roots[i].children[j].Matches(target)
    && (forall l | 0 <= l < j :: !roots[i].children[l].Matches(target))
    && MissBetween(roots, target, 0, i)
  }

  /**
   * A route through `roots`: non-empty, starting at `roots`, every index in
   * bounds, and every later vector the children of the node the step before
   * it names.
   */
  predicate Route(p: Pointer, roots: seq<Node>)
  {
    && |p.history| > 0
    && p.history[0].container == roots
    && (forall s | 0 <= s < |p.history| :: p.history[s].index < |p.history[s].container|)
    && (forall s | 0 < s < |p.history| ::
          p.history[s].container == p.history[s - 1].container[p.history[s - 1].index].children)
  }

  /** The indices a pointer follows, without the vectors. */
  function Indices(p: Pointer): (r: seq<nat>)
    ensures |r| == |p.history|
    ensures forall s | 0 <= s < |r| :: r[s] == p.history[s].index
  {
    seq(|p.history|, s requires 0 <= s < |p.history| => p.history[s].index)
  }

  /** Shallow misses from `from` up to `i` are skipped without changing the result. */
  lemma {:induction false} SkipMisses(roots: seq<Node>, target: string, from: nat, i: nat)
    requires from <= i <= |roots|
    requires MissBetween(roots, target, from, i)
    ensures RootsSearchFrom(roots, target, from) == RootsSearchFrom(roots, target, i)
    decreases i - from
  {
    if from < i {
      assert ShallowMiss(roots[from], target);
      SkipMisses(roots, target, from + 1, i);
    }
  }

  /** Starting at `from`, the search finds a shallow hit or reports that there is none. */
  lemma {:induction false} SearchFromResult(roots: seq<Node>, target: string, from: nat)
    requires from <= |roots|
    ensures RootsSearchFrom(roots, target, from).None?
        <==> MissBetween(roots, target, from, |roots|)
    ensures RootsSearchFrom(roots, target, from).Some? ==>
      var p := RootsSearchFrom(roots, target, from).value;
      var i := p.history[0].index;
      && from <= i < |roots|
      && MissBetween(roots, target, from, i)
      && (|p.history| == 1 ==>
            p.history == [Step(roots, i)] && roots[i].Matches(target))
      && (|p.history| != 1 ==>
            var j := p.history[|p.history| - 1].index;
            && p.history == [Step(roots, i), Step(roots[i].children, j)]
            && !roots[i].Matches(target)
            && j < |roots[i].children|
            && roots[i].children[j].Matches(target)
            && forall l | 0 <= l < j :: !roots[i].children[l].Matches(target))
    decreases |roots| - from
  {
    if from < |roots| {
      SearchFromResult(roots, target, from + 1);
      var q := roots[from].ChildrenSearch(target, [Step(roots, from)]);
      if !roots[from].Matches(target) && q.Some? {
        assert q.value.history == [Step(roots, from)] + [q.value.history[1]];
      }
    }
  }

  /**
   * `select_first` returns nothing exactly when no root and no direct child
   * of a root carries `target`; otherwise it returns a root hit or a child
   * hit, the first in document order at depth at most one.
   */
  lemma SelectFirstResult(roots: seq<Node>, target: string)
    ensures RootsSearchFrom(roots, target, 0).None?
        <==> forall k | 0 <= k < |roots| :: ShallowMiss(roots[k], target)
    ensures RootsSearchFrom(roots, target, 0).Some? ==>
      var p := RootsSearchFrom(roots, target, 0).value;
      || RootHit(roots, target, p, p.history[0].index)
      || ChildHit(roots, target, p, p.history[0].index, p.history[|p.history| - 1].index)
  {
    SearchFromResult(roots, target, 0);
  }

  /** A root hit is what `select_first` returns: a root match comes before its own children. */
  lemma RootHitSelected(roots: seq<Node>, target: string, p: Pointer, i: nat)
    requires RootHit(roots, target, p, i)
    ensures RootsSearchFrom(roots, target, 0) == Some(p)
  {
    SkipMisses(roots, target, 0, i);
  }

  /** A child hit is what `select_first` returns. */
  lemma ChildHitSelected(roots: seq<Node>, target: string, p: Pointer, i: nat, j: nat)
    requires ChildHit(roots, target, p, i, j)
    ensures RootsSearchFrom(roots, target, 0) == Some(p)
  {
    SkipMisses(roots, target, 0, i);
    var q := roots[i].ChildrenSearch(target, [Step(roots, i)]);
    assert q.Some?;
    var j' := q.value.history[1].index;
    assert roots[i].children[j].Matches(target);
    assert j' <= j && j <= j';
    assert q.value.history == [Step(roots, i)] + [q.value.history[1]];
    assert q.value == p;
  }

  /** A match found only at depth two or more is never returned. */
  lemma DeepMatchNotFound(roots: seq<Node>, target: string, i: nat, j: nat, l: nat)
    requires i < |roots| && j < |roots[i].children| && l < |roots[i].children[j].children|
    requires roots[i].children[j].children[l].Matches(target)
    requires forall k | 0 <= k < |roots| :: ShallowMiss(roots[k], target)
    ensures RootsSearchFrom(roots, target, 0) == None
  {
    SelectFirstResult(roots, target);
  }

  /**
   * A pointer `select_first` returns is a route through the roots; its node
   * carries `target`; a root hit has no parent and a child hit's parent is
   * the root whose children were searched.
   */
  lemma SelectedPointer(roots: seq<Node>, target: string)
    requires RootsSearchFrom(roots, target, 0).Some?
    ensures
      var p := RootsSearchFrom(roots, target, 0).value;
      && Route(p, roots)
      && p.LastInBounds() && p.ParentInBounds()
      && p.Node().Some? && p.Node().value.Matches(target)
      && (|p.history| == 1 ==> p.Parent() == None)
      && (|p.history| == 2 ==> p.Parent() == Some(roots[p.history[0].index]))
      && |p.history| <= 2
  {
    SelectFirstResult(roots, target);
  }

  /**
   * `select_first_from_children` extends any history by one in-bounds step;
   * the node it names carries `target`, and the parent it gives is the node
   * the incoming history's last step named.
   */
  lemma ChildrenSearchPointer(n: Node, target: string, history: seq<Step>)
    requires n.ChildrenSearch(target, history).Some?
    ensures
      var p := n.ChildrenSearch(target, history).value;
      && p.LastInBounds()
      && p.Node().Some? && p.Node().value.Matches(target)
      && p.Node().value in n.children
      && (|history| == 0 ==> p.Parent() == None)
      && (|history| > 0 && history[|history| - 1].index < |history[|history| - 1].container| ==>
            p.ParentInBounds()
            && p.Parent() == Some(history[|history| - 1].container[history[|history| - 1].index]))
  {
  }

  /** Appending a child keeps an earlier child match, and otherwise only the new leaf can match. */
  lemma AddChildSearch(n: Node, name: string, target: string, history: seq<Step>)
    ensures n.ChildrenSearch(target, history).Some? ==>
      Indices(n.AddChild(name).ChildrenSearch(target, history).value)
        == Indices(n.ChildrenSearch(target, history).value)
    ensures n.ChildrenSearch(target, history).None? ==>
      (n.AddChild(name).ChildrenSearch(target, history).Some? <==> name == target)
    ensures n.ChildrenSearch(target, history).None? && name == target ==>
      Indices(n.AddChild(name).ChildrenSearch(target, history).value)
        == Indices(Pointer(history)) + [|n.children|]
  {
    var m := n.AddChild(name);
    assert forall k | 0 <= k < |n.children| :: m.children[k] == n.children[k] by {
      forall k | 0 <= k < |n.children| ensures m.children[k] == n.children[k] {
        assert m.children[k] == m.children[..|n.children|][k];
      }
    }
    var r := n.ChildrenSearch(target, history);
    var r' := m.ChildrenSearch(target, history);
    if r.Some? {
      var j := r.value.history[|history|].index;
      var j' := r'.value.history[|history|].index;
      assert m.children[j].Matches(target);
      assert j' <= j && j <= j';
      assert Indices(r.value) == Indices(Pointer(history)) + [j];
      assert Indices(r'.value) == Indices(Pointer(history)) + [j'];
    } else if name == target {
      assert m.children[|n.children|].Matches(target);
      var j' := r'.value.history[|history|].index;
      assert j' == |n.children|;
      assert Indices(r'.value) == Indices(Pointer(history)) + [j'];
    }
  }

  /**
   * Pushing a root keeps an earlier shallow hit at the same indices, and
   * otherwise only the new leaf root can be found.
   */
  lemma AddNodeSearch(roots: seq<Node>, name: string, target: string)
    ensures
      var r := RootsSearchFrom(roots, target, 0);
      var r' := RootsSearchFrom(roots + [Node.Leaf(name)], target, 0);
      && (r.Some? ==> r'.Some? && Indices(r'.value) == Indices(r.value))
      && (r.None? ==> (r'.Some? <==> name == target))
      && (r.None? && name == target ==> Indices(r'.value) == [|roots|])
  {
    var grown := roots + [Node.Leaf(name)];
    assert forall k | 0 <= k < |roots| :: grown[k] == roots[k];
    SelectFirstResult(roots, target);
    var r := RootsSearchFrom(roots, target, 0);
    if r.Some? {
      var p := r.value;
      var i := p.history[0].index;
      assert MissBetween(grown, target, 0, i);
      if RootHit(roots, target, p, i) {
        var p' := Pointer([Step(grown, i)]);
        RootHitSelected(grown, target, p', i);
        assert Indices(p') == [i] == Indices(p);
      } else {
        var j := p.history[|p.history| - 1].index;
        assert ChildHit(roots, target, p, i, j);
        var p' := Pointer([Step(grown, i), Step(grown[i].children, j)]);
        ChildHitSelected(grown, target, p', i, j);
        assert Indices(p') == [i, j] == Indices(p);
      }
    } else if name == target {
      var p' := Pointer([Step(grown, |roots|)]);
      assert MissBetween(grown, target, 0, |roots|);
      RootHitSelected(grown, target, p', |roots|);
      assert Indices(p') == [|roots|];
    } else {
      SelectFirstResult(grown, target);
      assert forall k | 0 <= k < |grown| :: ShallowMiss(grown[k], target);
    }
  }
}
