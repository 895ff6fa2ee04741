/** The traversal: the depth limit `main` hands to the walk, and the walk
    itself as a pure pre-order visit of the in-memory tree with a minimum
    depth of 1, a maximum depth, and a `filter_entry` that prunes hidden
    directories with everything below them; error items are dropped. */
module Traversal {
  import opened Model

  /** `--depth 0` means no limit, and so does the default depth 1 when a
      search pattern is given; any other depth is the limit itself. */
  function ResolveDepth(depth: nat, searching: bool): (b: Bound)
    ensures b.Unlimited? <==> depth == 0 || (depth == 1 && searching)
    ensures b.AtMost? ==> b.n == depth && depth >= 1
  {
    if (depth == 1 && searching) || depth == 0 then Unlimited else AtMost(depth)
  }

  /** The `filter_entry` predicate: with `--all` everything passes,
      otherwise hidden names do not. */
  predicate Admitted(name: OsName, all: bool) {
    all || !IsHidden(name)
  }

  /** Whether the walk yields node `n` at `depth`: error items are dropped,
      and the node must be within `bound` and pass the filter. */
  predicate Yielded(n: Node, depth: nat, bound: Bound, all: bool) {
    !n.Failed? && Allows(bound, depth) && Admitted(n.name, all)
  }

  /** The entry the walk yields for a file or directory `n` of `parent`. */
  function HeadEntry(n: Node, parent: Path, depth: nat): Entry
    requires !n.Failed?
  {
    match n
    case File(name, size) => Entry(name, parent + [name], depth, false, size)
    case Dir(name, _) => Entry(name, parent + [name], depth, true, None)
  }

  /** Pre-order walk of `nodes`, the listing of the directory at `parent`,
      whose entries sit at `depth`. A node is yielded when its depth is
      within `bound` and it passes the filter; a directory is entered only
      after it has been yielded and when its children are within `bound`. */
  function Walk(nodes: seq<Node>, parent: Path, depth: nat, bound: Bound, all: bool): (es: seq<Entry>)
    requires depth >= 1
    ensures forall e :: e in es ==> depth <= e.depth && Allows(bound, e.depth)
    decreases nodes
  {
    if nodes == [] then []
    else
      var rest := Walk(nodes[1..], parent, depth, bound, all);
      var n := nodes[0];
      if !Yielded(n, depth, bound, all) then rest
      else
        var below := if n.Dir? && Allows(bound, depth + 1)
                     then Walk(n.children, parent + [n.name], depth + 1, bound, all) else [];
        [HeadEntry(n, parent, depth)] + below + rest
  }

  /** Where an entry of a walk comes from: a later sibling, the first node
      itself, or the subtree below the first node, and nowhere else. */
  lemma WalkCases(nodes: seq<Node>, parent: Path, depth: nat, bound: Bound, all: bool, e: Entry)
    requires depth >= 1 && nodes != []
    ensures e in Walk(nodes, parent, depth, bound, all) <==>
      e in Walk(nodes[1..], parent, depth, bound, all) ||
      (Yielded(nodes[0], depth, bound, all) &&
       (e == HeadEntry(nodes[0], parent, depth) ||
        (nodes[0].Dir? && Allows(bound, depth + 1) &&
         e in Walk(nodes[0].children, parent + [nodes[0].name], depth + 1, bound, all))))
  {
  }

  /** The entries `main` collects below `root`. */
  function Collect(root: Path, listing: seq<Node>, bound: Bound, all: bool): (es: seq<Entry>)
    ensures forall e :: e in es ==> 1 <= e.depth && Allows(bound, e.depth)
  {
    Walk(listing, root, 1, bound, all)
  }

  /** The node reached from `nodes` by following the names in `rel` is a
      file or directory that `e` faithfully describes. */
  ghost predicate Located(nodes: seq<Node>, rel: seq<OsName>, e: Entry)
    decreases nodes
  {
    |rel| >= 1 &&
    exists i :: 0 <= i < |nodes| && nodes[i].name == rel[0] &&
      if |rel| == 1 then Describes(nodes[i], e)
      else nodes[i].Dir? && Located(nodes[i].children, rel[1..], e)
  }

  ghost predicate Describes(n: Node, e: Entry) {
    match n
    case File(name, size) => e.name == name && !e.isDir && e.size == size
    case Dir(name, _) => e.name == name && e.isDir && e.size.None?
    case Failed(_) => false
  }

  /** Every collected entry lies below `parent` at the depth its path
      length gives, stands for a file or directory of the tree (error items
      are never collected) and, without `--all`, neither it nor any of its
      ancestors below `parent` is hidden. */
  lemma {:induction false} WalkSound(nodes: seq<Node>, parent: Path, depth: nat, bound: Bound, all: bool, e: Entry)
    requires depth >= 1
    requires e in Walk(nodes, parent, depth, bound, all)
    ensures |parent| < |e.path| && e.path[..|parent|] == parent
    ensures e.depth == depth - 1 + |e.path| - |parent|
    ensures Located(nodes, e.path[|parent|..], e)
    ensures !all ==> NoHidden(e.path[|parent|..])
    decreases nodes
  {
    WalkCases(nodes, parent, depth, bound, all, e);
    var n := nodes[0];
    if e in Walk(nodes[1..], parent, depth, bound, all) {
      WalkSound(nodes[1..], parent, depth, bound, all, e);
      var rel := e.path[|parent|..];
      var i :| 0 <= i < |nodes[1..]| && nodes[1..][i].name == rel[0] &&
        if |rel| == 1 then Describes(nodes[1..][i], e)
        else nodes[1..][i].Dir? && Located(nodes[1..][i].children, rel[1..], e);
      assert nodes[i + 1] == nodes[1..][i];
    } else if e == HeadEntry(n, parent, depth) {
      assert e.path[|parent|..] == [n.name];
      assert e.path[..|parent|] == parent;
    } else {
      var path := parent + [n.name];
      WalkSound(n.children, path, depth + 1, bound, all, e);
      var rel := e.path[|parent|..];
      assert e.path[..|parent|] == e.path[..|path|][..|parent|];
      assert rel == [n.name] + e.path[|path|..];
      assert rel[1..] == e.path[|path|..];
      NoHiddenCons(n.name, e.path[|path|..]);
    }
  }

  /** Conversely, every file or directory of the tree within the depth limit
      whose path below `parent` passes the filter is collected. */
  lemma {:induction false} WalkComplete(nodes: seq<Node>, parent: Path, depth: nat, bound: Bound, all: bool,
                                        rel: seq<OsName>, e: Entry)
    requires depth >= 1
    requires Located(nodes, rel, e)
    requires e.path == parent + rel && e.depth == depth - 1 + |rel|
    requires Allows(bound, e.depth)
    requires !all ==> NoHidden(rel)
    ensures e in Walk(nodes, parent, depth, bound, all)
    decreases nodes
  {
    var i :| 0 <= i < |nodes| && nodes[i].name == rel[0] &&
      if |rel| == 1 then Describes(nodes[i], e)
      else nodes[i].Dir? && Located(nodes[i].children, rel[1..], e);
    WalkCases(nodes, parent, depth, bound, all, e);
    if i > 0 {
      assert nodes[1..][i - 1] == nodes[i];
      WalkComplete(nodes[1..], parent, depth, bound, all, rel, e);
    } else {
      var n := nodes[0];
      assert rel == [rel[0]] + rel[1..];
      NoHiddenCons(rel[0], rel[1..]);
      if |rel| == 1 {
        assert e == HeadEntry(n, parent, depth);
      } else {
        var path := parent + [n.name];
        assert e.path == path + rel[1..];
        WalkComplete(n.children, path, depth + 1, bound, all, rel[1..], e);
      }
    }
  }

  /** With a search pattern and the default depth (or depth 0) nothing is
      cut off by depth: every file or directory whose path passes the filter
      is collected, however deep it sits. */
  lemma SearchSeesEveryDepth(root: Path, listing: seq<Node>, depth: nat, all: bool, rel: seq<OsName>, e: Entry)
    requires depth <= 1
    requires Located(listing, rel, e) && e.path == root + rel && e.depth == |rel|
    requires !all ==> NoHidden(rel)
    ensures e in Collect(root, listing, ResolveDepth(depth, true), all)
  {
    WalkComplete(listing, root, 1, Unlimited, all, rel, e);
  }
}
