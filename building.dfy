/**
 * Chained construction: `add_child` hands back the receiver, so a chain of
 * calls pushes the labels in call order.
 */
module Building {
  import opened Tree

  /** The leaves a chain of pushes appends, one per label, in call order. */
  function Leaves(names: seq<string>): (r: seq<Node>)
    ensures |r| == |names|
    ensures forall k | 0 <= k < |names| :: r[k] == Node.Leaf(names[k])
  {
    seq(|names|, k requires 0 <= k < |names| => Node.Leaf(names[k]))
  }

  /** `n.add_child(names[0]).add_child(names[1])...`, left to right. */
  function AddChildren(n: Node, names: seq<string>): Node
    decreases |names|
  {
    if names == [] then n else AddChildren(n.AddChild(names[0]), names[1..])
  }

  /**
   * A chain of `add_child` calls keeps the label and every earlier child and
   * appends one leaf per call, in call order.
   */
  lemma {:induction false} AddChildrenInOrder(n: Node, names: seq<string>)
    ensures AddChildren(n, names).value == n.value
    ensures AddChildren(n, names).children == n.children + Leaves(names)
    decreases |names|
  {
    if names != [] {
      AddChildrenInOrder(n.AddChild(names[0]), names[1..]);
      assert Leaves(names) == [Node.Leaf(names[0])] + Leaves(names[1..]);
    }
  }
}
