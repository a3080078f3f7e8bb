/**
 * The fixed tree the demonstration program builds, and what searching and
 * rendering it gives: "Top" with children "2nd" (itself with children "3rd"
 * and "3rd2") and "2nd-2".
 */
module Demo {
  import opened Tree
  import opened Search

  /** The root "Top" after its own pushes and the pushes onto its first child. */
  function DemoTop(): Node
  {
    var top := Node.Leaf("Top").AddChild("2nd").AddChild("2nd-2");
    var nextgen := top.children[0].AddChild("3rd").AddChild("3rd2");
    top.(children := top.children[0 := nextgen])
  }

  function DemoRoots(): seq<Node>
  {
    [DemoTop()]
  }

  lemma DemoShape()
    ensures DemoTop() == Node("Top", [Node("2nd", [Node("3rd", []), Node("3rd2", [])]), Node("2nd-2", [])])
  {
    var second := Node("2nd", []);
    var top1 := Node.Leaf("Top").AddChild("2nd");
    assert top1.children == [second];
    var top2 := top1.AddChild("2nd-2");
    assert top2.children == [second, Node("2nd-2", [])];
    var nextgen := second.AddChild("3rd").AddChild("3rd2");
    assert nextgen.children == [Node("3rd", []), Node("3rd2", [])];
  }

  /** "2nd" is a direct child of the root: found, and its parent is "Top". */
  lemma DemoSelectSecond()
    ensures
      var r := RootsSearchFrom(DemoRoots(), "2nd", 0);
      && r == Some(Pointer([Step(DemoRoots(), 0), Step(DemoTop().children, 0)]))
      && r.value.Node() == Some(DemoTop().children[0])
      && r.value.Parent() == Some(DemoTop())
  {
    DemoShape();
    var p := Pointer([Step(DemoRoots(), 0), Step(DemoTop().children, 0)]);
    assert MissBetween(DemoRoots(), "2nd", 0, 0);
    ChildHitSelected(DemoRoots(), "2nd", p, 0, 0);
  }

  /** "3rd" lies two levels below the root, so the shallow search misses it. */
  lemma DemoThirdNotFound()
    ensures RootsSearchFrom(DemoRoots(), "3rd", 0) == None
  {
    DemoShape();
    DeepMatchNotFound(DemoRoots(), "3rd", 0, 0, 0);
  }

  /** The rendering the demonstration prints for the root. */
  lemma DemoRendering()
    ensures DemoTop().Render() == "Top\n-2nd\n--3rd\n--3rd2\n-2nd-2"
  {
    DemoShape();
    TopRendering();
  }

  lemma TopRendering()
    ensures Node("Top", [Node("2nd", [Node("3rd", []), Node("3rd2", [])]), Node("2nd-2", [])]).Render()
         == "Top\n-2nd\n--3rd\n--3rd2\n-2nd-2"
  {
    var top := Node("Top", [Node("2nd", [Node("3rd", []), Node("3rd2", [])]), Node("2nd-2", [])]);
    SecondRendering();
    LeafLine(top.children[1], "-");
    TwoChildren(top, "-");
  }

  lemma SecondRendering()
    ensures Node("2nd", [Node("3rd", []), Node("3rd2", [])]).RenderWithOffset("-")
         == "-2nd\n--3rd\n--3rd2"
  {
    var second := Node("2nd", [Node("3rd", []), Node("3rd2", [])]);
    LeafLine(second.children[0], "--");
    LeafLine(second.children[1], "--");
    TwoChildren(second, "--");
  }

  /** Two children render as two line-separated segments. */
  lemma TwoChildren(n: Node, offset: string)
    requires |n.children| == 2
    ensures n.RenderChildren(2, offset)
         == "\n" + n.children[0].RenderWithOffset(offset) + "\n" + n.children[1].RenderWithOffset(offset)
  {
    assert n.RenderChildren(1, offset) == "" + "\n" + n.children[0].RenderWithOffset(offset);
  }

  /** A leaf renders as its offset followed by its label. */
  lemma LeafLine(n: Node, offset: string)
    requires n.children == []
    ensures n.RenderWithOffset(offset) == offset + n.value
  {
  }

  /** An empty document finds nothing. */
  lemma EmptyDocumentFindsNothing(target: string)
    ensures RootsSearchFrom([], target, 0) == None
  {
  }
}
