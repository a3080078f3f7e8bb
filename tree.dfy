/**
 * The tree component: labelled nodes owning ordered children, a document
 * owning ordered roots, and the path pointer a search hands back.
 *
 * A node owns its children exclusively (no sharing, no cycles), so a node is
 * a value: a datatype whose `children` is a sequence of nodes. The document
 * is the object whose root vector is pushed to in place, so it is a class.
 */
module Tree {

  datatype Option<T> = None | Some(value: T)

  /** Lowest index `j` with `from <= j < |cs|` whose node carries `target`. */
  function FirstMatchFrom(cs: seq<Node>, target: string, from: nat): (r: Option<nat>)
    requires from <= |cs|
    ensures r.None? <==> forall k | from <= k < |cs| :: !cs[k].Matches(target)
    ensures r.Some? ==> from <= r.value < |cs| && cs[r.value].Matches(target)
    ensures r.Some? ==> forall k | from <= k < r.value :: !cs[k].Matches(target)
    decreases |cs| - from
  {
    if from == |cs| then None
    else if cs[from].Matches(target) then Some(from)
    else FirstMatchFrom(cs, target, from + 1)
  }

  datatype Node = Node(value: string, children: seq<Node>) {

    /** `Node::new`: a node with the given label and no children. */
    static function Leaf(name: string): (r: Node)
      ensures r.value == name && |r.children| == 0
    {
      Node(name, [])
    }

    /** Exact, case- and whitespace-sensitive comparison of the label. */
    predicate Matches(target: string)
      ensures Matches(target) <==>
        |value| == |target| && forall i | 0 <= i < |value| :: value[i] == target[i]
    {
      value == target
    }

    /**
     * `add_child`: the node after pushing a leaf onto its children. The
     * chained `&mut Node` the source returns is this same updated node.
     */
    function AddChild(name: string): (r: Node)
      ensures r.value == value
      ensures |r.children| == |children| + 1
      ensures r.children[..|children|] == children
      ensures r.children[|children|] == Leaf(name)
    {
      this.(children := children + [Leaf(name)])
    }

    // ---------------------------------------------------------------
    // Rendering
    // ---------------------------------------------------------------

    /** The first `k` children, each rendered at `offset` after a line break. */
    function RenderChildren(k: nat, offset: string): string
      requires k <= |children|
      decreases this, k
    {
      if k == 0 then ""
      else RenderChildren(k - 1, offset) + "\n" + children[k - 1].RenderWithOffset(offset)
    }

    /** The text `to_string_with_offset(offset)` builds. */
    function RenderWithOffset(offset: string): string
      decreases this, |children| + 1
    {
      offset + value + RenderChildren(|children|, offset + offset)
    }

    /** The text `to_string` builds. */
    function Render(): string
    {
      value + RenderChildren(|children|, "-")
    }

    /** `to_string`: the label, then every child rendered with offset "-". */
    method ToString() returns (out: string)
      ensures out == Render()
    {
      out := value;
      for i := 0 to |children|
        invariant out == value + RenderChildren(i, "-")
      {
        var s := children[i].ToStringWithOffset("-");
        out := out + "\n" + s;
      }
    }

    /**
     * `to_string_with_offset`: the offset and the label, then every child
     * rendered with the offset concatenated with itself.
     */
    method ToStringWithOffset(offset: string) returns (out: string)
      ensures out == RenderWithOffset(offset)
      decreases this
    {
      out := offset + value;
      var doubled := offset + offset;
      for i := 0 to |children|
        invariant out == offset + value + RenderChildren(i, doubled)
      {
        var s := children[i].ToStringWithOffset(doubled);
        out := out + "\n" + s;
      }
    }

    // ---------------------------------------------------------------
    // Search among the direct children
    // ---------------------------------------------------------------

    /**
     * What `select_first_from_children` returns: the incoming history
     * extended by one step naming the lowest-index direct child carrying
     * `target`, or nothing when no direct child carries it.
     */
    function ChildrenSearch(target: string, history: seq<Step>): (r: Option<Pointer>)
      ensures r.None? <==> forall k | 0 <= k < |children| :: !children[k].Matches(target)
      ensures r.Some? ==>
        && |r.value.history| == |history| + 1
        && r.value.history[..|history|] == history
        && r.value.history[|history|].container == children
        && r.value.history[|history|].index < |children|
        && children[r.value.history[|history|].index].Matches(target)
        && forall k | 0 <= k < r.value.history[|history|].index :: !children[k].Matches(target)
    {
      match FirstMatchFrom(children, target, 0)
      case None => None
      case Some(j) => Some(Pointer(history + [Step(children, j)]))
    }

    /** `select_first_from_children`: an index loop with an early return. */
    method SelectFirstFromChildren(target: string, history: seq<Step>) returns (p: Option<Pointer>)
      ensures p == ChildrenSearch(target, history)
    {
      for i := 0 to |children|
        invariant FirstMatchFrom(children, target, i) == FirstMatchFrom(children, target, 0)
      {
        if children[i].Matches(target) {
          return Some(Pointer(history + [Step(children, i)]));
        }
      }
      return None;
    }
  }

  /** One step of a pointer: a vector of nodes and an index into it. */
  datatype Step = Step(container: seq<Node>, index: nat)

  /**
   * `pointer`: the route from the roots to a node. The borrowed vectors of
   * the source are the sequence values themselves; the tree cannot change
   * while a pointer into it is alive, so the value is what was borrowed.
   */
  datatype Pointer = Pointer(history: seq<Step>) {

    /** The last step's index is in bounds (indexing panics otherwise). */
    predicate LastInBounds()
    {
      |history| > 0 ==> history[|history| - 1].index < |history[|history| - 1].container|
    }

    /** The second-to-last step's index is in bounds. */
    predicate ParentInBounds()
    {
      |history| > 1 ==> history[|history| - 2].index < |history[|history| - 2].container|
    }

    /** `node`: the element the last step names; nothing for an empty history. */
    function Node(): (r: Option<Node>)
      requires LastInBounds()
      ensures r.None? <==> |history| == 0
      ensures r.Some? ==> r.value == history[|history| - 1].container[history[|history| - 1].index]
    {
      if |history| == 0 then None
      else
        var s := history[|history| - 1];
        Some(s.container[s.index])
    }

    /** `parent`: the element the second-to-last step names; nothing with at most one step. */
    function Parent(): (r: Option<Node>)
      requires ParentInBounds()
      ensures r.None? <==> |history| <= 1
      ensures r.Some? ==> r.value == history[|history| - 2].container[history[|history| - 2].index]
    {
      if |history| <= 1 then None
      else
        var s := history[|history| - 2];
        Some(s.container[s.index])
    }
  }

  /**
   * What `select_first` returns, starting at root `from`: a root carrying
   * `target` gives a one-step pointer; otherwise that root's direct children
   * are searched; otherwise the next root is tried. Grandchildren are never
   * examined.
   */
  function RootsSearchFrom(roots: seq<Node>, target: string, from: nat): (r: Option<Pointer>)
    requires from <= |roots|
    ensures r.Some? ==> |r.value.history| > 0
    ensures r.Some? ==> r.value.history[0].container == roots
    ensures r.Some? ==> from <= r.value.history[0].index < |roots|
    decreases |roots| - from
  {
    if from == |roots| then None
    else if roots[from].Matches(target) then Some(Pointer([Step(roots, from)]))
    else match roots[from].ChildrenSearch(target, [Step(roots, from)])
      case Some(p) => Some(p)
      case None => RootsSearchFrom(roots, target, from + 1)
  }

  /** `Document`: the ordered roots, pushed to in place. */
  class Document {
    var nodes: seq<Node>

    /** `Document::new`: no roots. */
    constructor ()
      ensures nodes == []
    {
      nodes := [];
    }

    /** `add_node`: pushes a leaf root and hands back the document for chaining. */
    method AddNode(name: string) returns (self: Document)
      modifies this
      ensures self == this
      ensures nodes == old(nodes) + [Node.Leaf(name)]
    {
      nodes := nodes + [Node.Leaf(name)];
      self := this;
    }

    /** `select_first`: an index loop over the roots with early returns. */
    method SelectFirst(target: string) returns (p: Option<Pointer>)
      ensures p == RootsSearchFrom(nodes, target, 0)
    {
      for i := 0 to |nodes|
        invariant RootsSearchFrom(nodes, target, i) == RootsSearchFrom(nodes, target, 0)
      {
        if nodes[i].Matches(target) {
          return Some(Pointer([Step(nodes, i)]));
        }
        var q := nodes[i].SelectFirstFromChildren(target, [Step(nodes, i)]);
        if q.Some? {
          return q;
        }
      }
      return None;
    }
  }
}
