# rust_tree_demo in Dafny

A model of the small in-memory tree component of `rust_tree_demo`. The
component has three parts:

- a `Node` is a string label that owns an ordered vector of child nodes;
- a `Document` owns an ordered vector of root nodes;
- a `pointer` records the route to a node found by a search. The route is a
  list of (vector, index) steps, and the pointer can return the node it names
  and that node's parent.

A node owns its children exclusively, so the tree is a value: `Tree.Node` is
a datatype whose `children` is a `seq<Node>`. The document's root vector is
pushed to in place, so `Tree.Document` is a class with a `nodes: seq<Node>`
field. `add_node` is a method on that class with `modifies this`, and it
returns the document itself for chaining. `to_string`,
`to_string_with_offset`, `select_first` and `select_first_from_children`
are loops in the source. Here they are methods with loops and invariants,
each proved equal to a specification function (`Render`,
`RenderWithOffset`, `RootsSearchFrom`, `ChildrenSearch`). The properties
the source promises are proved about those functions as lemmas.

The search is modelled as written, and the model keeps its shallow reach.
For each root in order it looks at the root, then only at that root's
direct children. A node two or more levels below a root is never found.
`Demo.DemoThirdNotFound` shows this on the demonstration tree: "3rd" exists
there but is not found. The search can be described as a full depth-first
search, but the code does not recurse, and the model follows the code.

Files:

- `tree.dfy` (module `Tree`): the data model and every operation of the
  component.
- `rendering.dfy` (module `Rendering`): what a rendering means. It is a
  depth-first, vector-order listing of the subtree, one line per node. A
  node d >= 1 levels down is prefixed by 2^(d-1) dashes, because each level
  concatenates its parent's offset with itself.
- `search.dfy` (module `Search`): an exact characterization of what
  `select_first` returns, in both directions. It also covers the pointers
  that searches return and how pushes affect a search.
- `building.dfy` (module `Building`): chains of `add_child` calls.
- `demo.dfy` (module `Demo`): the tree built by the demonstration program,
  and what searching and rendering it give.

## Model

| member | source | states |
|---|---|---|
| `Tree.FirstMatchFrom` | src/main.rs:73-79 | Gives the lowest index at or after `from` whose node's label equals the target. Returns nothing exactly when no such index exists. |
| `Tree.Node.Leaf` | src/main.rs:35-40 | `Node::new` gives a node with the given label and no children. |
| `Tree.Node.Matches` | src/main.rs:63-65 | `matches` holds exactly when the label and the argument have the same length and agree character by character. There is no case or whitespace normalisation. |
| `Tree.Node.AddChild` | src/main.rs:42-45 | `add_child` keeps the node's own label and every earlier child unchanged. It appends exactly one leaf, carrying the given label, at the end. |
| `Tree.Node.ToString` | src/main.rs:46-52 | The loop builds exactly `Render()`: the label, then each child rendered with offset "-" after a line break. |
| `Tree.Node.ToStringWithOffset` | src/main.rs:53-62 | The loop builds exactly `RenderWithOffset(offset)`: offset and label, then each child rendered with the offset concatenated with itself, after a line break. |
| `Tree.Node.ChildrenSearch` | src/main.rs:68-80 | The result is nothing exactly when no direct child matches, including when there are no children. Otherwise it is the incoming history plus one step. That step names this node's children and an in-bounds index. The index is a matching child, and no lower-index child matches. |
| `Tree.Node.SelectFirstFromChildren` | src/main.rs:68-80 | The index loop with its early return produces exactly `ChildrenSearch`. |
| `Tree.Pointer.Node` | src/main.rs:88-94 | `node()` returns nothing exactly when the history is empty. Otherwise it returns the element at the last step's index. |
| `Tree.Pointer.Parent` | src/main.rs:95-101 | `parent()` returns nothing exactly when the history has at most one step. Otherwise it returns the element at the second-to-last step's index. |
| `Tree.RootsSearchFrom` | src/main.rs:13-26 | A pointer the search returns is non-empty. Its first step names the roots, at an in-bounds index no lower than where the search started. |
| `Tree.Document.constructor` | src/main.rs:6-8 | `Document::new` has no roots. |
| `Tree.Document.AddNode` | src/main.rs:9-12 | `add_node` appends exactly one leaf root with the given label and leaves the earlier roots unchanged. It returns the same document for chaining. |
| `Tree.Document.SelectFirst` | src/main.rs:13-26 | The root loop with its early returns produces exactly `RootsSearchFrom(nodes, target, 0)`. |
| `Rendering.PrefixIsDashes` | src/main.rs:53-59 | The offset at depth d >= 1 is the previous offset concatenated with itself, starting from "-". It is 2^(d-1) dashes. |
| `Rendering.RenderWithOffsetIsListing` | src/main.rs:53-62 | Rendering a node with the depth-d offset gives its own prefixed line, then one line-break-led line per descendant, depth-first in vector order. |
| `Rendering.RenderChildrenIsListing` | src/main.rs:55-60 | The segments of the first k children, each preceded by "\n", are the lines of those children's subtrees in order. |
| `Rendering.RenderIsListing` | src/main.rs:46-62 | `to_string` is the depth-first, vector-order listing of the subtree. The node's own label comes first and unprefixed. A node d levels down is prefixed by `Prefix(d)`, which is "-" at depth one and the previous prefix concatenated with itself below that. `Rendering.PrefixIsDashes` shows this is 2^(d-1) dashes. Lines are separated by "\n". |
| `Rendering.RenderStartsWithValue` | src/main.rs:46-52 | `to_string` starts with the node's label, and a leaf renders as its label alone. |
| `Rendering.AddChildRender` | src/main.rs:42-52 | After `add_child(l)`, the rendering is the old rendering followed by one new line, "-" then l. |
| `Search.SkipMisses` | src/main.rs:14-24 | Roots that are shallow misses are passed over without changing the result. A shallow miss is a root that does not match and has no matching direct child. |
| `Search.SearchFromResult` | src/main.rs:14-25 | Starting at root `from`, the search returns nothing exactly when every later root is a shallow miss. Otherwise it returns either a one-step pointer to a matching root or a two-step pointer to that root's lowest matching child, and every root before that one is a shallow miss. |
| `Search.SelectFirstResult` | src/main.rs:13-26 | `select_first` returns nothing exactly when no root and no direct child of a root matches. This includes an empty document and a match found only at depth two or more. Otherwise its result is a root hit or a child hit. |
| `Search.RootHitSelected` | src/main.rs:14-19 | Suppose root i is the lowest matching root and no earlier root has a matching direct child. Then `select_first` returns `[(roots, i)]`, even when root i also has matching children. |
| `Search.ChildHitSelected` | src/main.rs:20-23 | Suppose root i does not match, j is its lowest matching child, and every earlier root is a shallow miss. Then `select_first` returns exactly `[(roots, i), (roots[i].children, j)]`. |
| `Search.DeepMatchNotFound` | src/main.rs:13-26 | A grandchild that matches is not found when no root and no direct child matches. |
| `Search.SelectedPointer` | src/main.rs:88-101 | A pointer from `select_first` is a route through the document with at most two steps. Its `node()` is present and carries the target. A root hit has no `parent()`. A child hit's `parent()` is the root whose children were searched. |
| `Search.ChildrenSearchPointer` | src/main.rs:68-101 | A pointer from `select_first_from_children` names one of the node's children, and that child carries the target. Its `parent()` is the node the incoming history's last step names, or nothing when that history was empty. |
| `Search.AddChildSearch` | src/main.rs:42-45 | `add_child` keeps an existing first child match at the same indices. When there was none, the search finds something exactly when the new label is the target, and it finds the new last child. |
| `Search.AddNodeSearch` | src/main.rs:9-12 | `add_node` keeps an existing `select_first` hit at the same indices. When there was none, the search finds something exactly when the new label is the target, and it finds the new last root. |
| `Building.AddChildrenInOrder` | src/main.rs:42-45 | A chain of `add_child` calls keeps the label and the earlier children, and appends one leaf per call in call order. |
| `Demo.DemoShape` | src/main.rs:105-111 | The demonstration builds "Top" with children "2nd" (which has children "3rd" and "3rd2") and "2nd-2". |
| `Demo.DemoSelectSecond` | src/main.rs:114-117 | Selecting "2nd" gives the two-step pointer to the first child of "Top". Its node is "2nd" and its parent is "Top". |
| `Demo.DemoThirdNotFound` | src/main.rs:105-111 | Selecting "3rd" finds nothing, although "3rd" is in the tree two levels down. |
| `Demo.DemoRendering` | src/main.rs:112 | The root renders as "Top\n-2nd\n--3rd\n--3rd2\n-2nd-2". |
| `Demo.EmptyDocumentFindsNothing` | src/main.rs:13-26 | A search of a document with no roots finds nothing. |

## Left out

- `main` (src/main.rs:104-118) is demonstration wiring. It prints to the console and calls `unwrap`. The tree it builds and the results it prints are modelled in `Demo` on values. The printing is not modelled.
- Lifetimes and borrowing: a pointer step holds the vector's value, not a reference to it. The tree cannot change while a pointer into it is alive, so the value is what the reference would show. Vector identity and address comparison are not modelled.
- Tree.Node.AddChild: modelled on values. It returns the node with the leaf pushed, not a mutation through `&mut self`. A node is exclusively owned, so nothing else can observe the change. In-place update of a node nested inside a document is modelled by replacing that node in its parent's sequence, as `Demo.DemoTop` does.
- `Into<String>` conversions and `format!` are plain string values and concatenation.
- Tree.Pointer.Node and Tree.Pointer.Parent require the step they read to be in bounds. The source panics on an out-of-bounds index instead. Every pointer a search returns satisfies this (`Search.SelectedPointer`).
- `usize` indices and lengths are unbounded `nat`. Capacity exhaustion is not modelled.
