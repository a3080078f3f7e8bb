/**
 * What the rendering of a node means: its subtree listed depth-first in
 * vector order, one line per node, lines separated by "\n", a node at depth
 * d >= 1 below the rendered node prefixed by 2^(d-1) dashes (each level
 * concatenates its parent's offset with itself).
 */
module Rendering {
  import opened Tree

  function Pow2(n: nat): nat
  {
    if n == 0 then 1 else 2 * Pow2(n - 1)
  }

  function Dashes(n: nat): (r: string)
    ensures |r| == n && forall i | 0 <= i < n :: r[i] == '-'
  {
    seq(n, _ => '-')
  }

  /**
   * The line prefix of a node `depth` levels below the rendered node: none
   * for the node itself, "-" for its children, and below that the parent's
   * prefix concatenated with itself.
   */
  function Prefix(depth: nat): string
  {
    if depth == 0 then ""
    else if depth == 1 then "-"
    else Prefix(depth - 1) + Prefix(depth - 1)
  }

  /** An entry of a listing: a depth and a label. */
  datatype Entry = Entry(depth: nat, text: string)

  function Line(e: Entry): string
  {
    Prefix(e.depth) + e.text
  }

  /** The first `k` entries as lines, each preceded by a line break. */
  function LinesUpTo(es: seq<Entry>, k: nat): string
    requires k <= |es|
  {
    if k == 0 then "" else LinesUpTo(es, k - 1) + "\n" + Line(es[k - 1])
  }

  /** Every entry as a line, each preceded by a line break. */
  function Tail(es: seq<Entry>): string
  {
    LinesUpTo(es, |es|)
  }

  /** The entries as lines joined by line breaks. */
  function Listing(es: seq<Entry>): string
    requires |es| > 0
  {
    Line(es[0]) + Tail(es[1..])
  }

  /** The subtree of `n`, depth-first in vector order, `n` itself at `depth`. */
  function Preorder(n: Node, depth: nat): (r: seq<Entry>)
    ensures |r| > 0 && r[0] == Entry(depth, n.value)
    decreases n, |n.children| + 1
  {
    [Entry(depth, n.value)] + PreorderChildren(n, |n.children|, depth)
  }

  /** The subtrees of the first `k` children of `n`, in order, the children at `depth`. */
  function PreorderChildren(n: Node, k: nat, depth: nat): seq<Entry>
    requires k <= |n.children|
    decreases n, k
  {
    if k == 0 then [] else PreorderChildren(n, k - 1, depth) + Preorder(n.children[k - 1], depth + 1)
  }

  /** The prefix at depth d >= 1 is 2^(d-1) dashes. */
  lemma {:induction false} PrefixIsDashes(depth: nat)
    requires depth >= 1
    ensures Prefix(depth) == Dashes(Pow2(depth - 1))
  {
    if depth > 1 {
      PrefixIsDashes(depth - 1);
      var p := Prefix(depth - 1);
      var q := Dashes(Pow2(depth - 1));
      assert |p + p| == |q|;
      forall i | 0 <= i < |q| ensures (p + p)[i] == q[i] {
        if i < |p| {
          assert (p + p)[i] == p[i];
        } else {
          assert (p + p)[i] == p[i - |p|];
        }
      }
    }
  }

  lemma {:induction false} LinesUpToAppend(a: seq<Entry>, b: seq<Entry>, k: nat)
    requires k <= |b|
    ensures LinesUpTo(a + b, |a| + k) == Tail(a) + LinesUpTo(b, k)
  {
    if k == 0 {
      LinesUpToPrefix(a, b, |a|);
      assert Tail(a) + "" == Tail(a);
    } else {
      var tail, lines := Tail(a), LinesUpTo(b, k - 1);
      var line := Line(b[k - 1]);
      calc {
        LinesUpTo(a + b, |a| + k);
        LinesUpTo(a + b, |a| + k - 1) + "\n" + Line((a + b)[|a| + k - 1]);
        { LinesUpToAppend(a, b, k - 1);
          assert (a + b)[|a| + k - 1] == b[k - 1]; }
        tail + lines + "\n" + line;
        { Regroup(tail, lines, "\n", line); }
        tail + (lines + "\n" + line);
      }
    }
  }

  lemma {:induction false} LinesUpToPrefix(a: seq<Entry>, b: seq<Entry>, k: nat)
    requires k <= |a|
    ensures LinesUpTo(a + b, k) == LinesUpTo(a, k)
  {
    if k > 0 {
      LinesUpToPrefix(a, b, k - 1);
      assert (a + b)[k - 1] == a[k - 1];
    }
  }

  lemma TailAppend(a: seq<Entry>, b: seq<Entry>)
    ensures Tail(a + b) == Tail(a) + Tail(b)
  {
    LinesUpToAppend(a, b, |b|);
  }

  lemma TailCons(e: Entry, b: seq<Entry>)
    ensures Tail([e] + b) == "\n" + Line(e) + Tail(b)
  {
    TailAppend([e], b);
    assert Tail([e]) == LinesUpTo([e], 0) + "\n" + Line(e);
  }

  /** A node rendered with the offset of depth `depth` is its listing's lines. */
  lemma {:induction false} RenderWithOffsetIsListing(n: Node, depth: nat)
    requires depth >= 1
    ensures n.RenderWithOffset(Prefix(depth))
         == Line(Entry(depth, n.value)) + Tail(PreorderChildren(n, |n.children|, depth))
    decreases n, |n.children| + 1
  {
    RenderChildrenIsListing(n, |n.children|, depth);
  }

  /** The first `k` children of `n`, rendered one level below a node at `depth`. */
  lemma {:induction false} RenderChildrenIsListing(n: Node, k: nat, depth: nat)
    requires k <= |n.children|
    ensures n.RenderChildren(k, Prefix(depth + 1)) == Tail(PreorderChildren(n, k, depth))
    decreases n, k
  {
    if k > 0 {
      var c := n.children[k - 1];
      var offset := Prefix(depth + 1);
      var before := Tail(PreorderChildren(n, k - 1, depth));
      var line := Line(Entry(depth + 1, c.value));
      var below := Tail(PreorderChildren(c, |c.children|, depth + 1));
      RenderChildrenIsListing(n, k - 1, depth);
      RenderWithOffsetIsListing(c, depth + 1);
      ChildrenTailSplit(n, k, depth);
      SubtreeTail(c, depth + 1);
      Regroup(before, "\n", line, below);
    } else {
      assert PreorderChildren(n, k, depth) == [];
    }
  }

  /** The listing of the first `k` children splits off the last child's subtree. */
  lemma ChildrenTailSplit(n: Node, k: nat, depth: nat)
    requires 0 < k <= |n.children|
    ensures Tail(PreorderChildren(n, k, depth))
         == Tail(PreorderChildren(n, k - 1, depth)) + Tail(Preorder(n.children[k - 1], depth + 1))
  {
    TailAppend(PreorderChildren(n, k - 1, depth), Preorder(n.children[k - 1], depth + 1));
  }

  /** The lines of a subtree: its root's line, then those of its children's subtrees. */
  lemma SubtreeTail(c: Node, depth: nat)
    ensures Tail(Preorder(c, depth))
         == "\n" + Line(Entry(depth, c.value)) + Tail(PreorderChildren(c, |c.children|, depth))
  {
    TailCons(Entry(depth, c.value), PreorderChildren(c, |c.children|, depth));
  }

  lemma Regroup(a: string, b: string, c: string, d: string)
    ensures a + b + (c + d) == a + (b + c + d)
    ensures a + b + c + d == a + (b + c + d)
  {
  }

  /**
   * `to_string` lists the subtree depth-first in vector order, the node's own
   * label first and unprefixed, one line per node, with 2^(d-1) dashes in
   * front of a node d >= 1 levels down.
   */
  lemma RenderIsListing(n: Node)
    ensures n.Render() == Listing(Preorder(n, 0))
  {
    RenderChildrenIsListing(n, |n.children|, 0);
    var es := Preorder(n, 0);
    assert es[1..] == PreorderChildren(n, |n.children|, 0);
  }

  /** The rendering starts with the node's own label. */
  lemma RenderStartsWithValue(n: Node)
    ensures n.value <= n.Render()
    ensures n.children == [] ==> n.Render() == n.value
  {
  }

  /** Pushing a child adds exactly one line: a dash and its label. */
  lemma AddChildRender(n: Node, name: string)
    ensures n.AddChild(name).Render() == n.Render() + "\n-" + name
  {
    var m := n.AddChild(name);
    RenderChildrenPrefix(n, m, |n.children|, "-");
    assert m.children[|n.children|].RenderWithOffset("-") == "-" + name;
  }

  /** Rendering the first `k` children depends only on those children. */
  lemma {:induction false} RenderChildrenPrefix(n: Node, m: Node, k: nat, offset: string)
    requires k <= |n.children| && k <= |m.children|
    requires n.children[..k] == m.children[..k]
    ensures n.RenderChildren(k, offset) == m.RenderChildren(k, offset)
    decreases k
  {
    if k > 0 {
      assert n.children[k - 1] == n.children[..k][k - 1] == m.children[k - 1];
      assert n.children[..k - 1] == n.children[..k][..k - 1];
      assert m.children[..k - 1] == m.children[..k][..k - 1];
      RenderChildrenPrefix(n, m, k - 1, offset);
    }
  }
}
