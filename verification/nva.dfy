/** The listing pipeline of the command: fold the pattern, resolve the depth
    limit, collect the entries, force the ancestors of matches, print. */
module Nva {
  import opened Model
  import opened Text
  import opened Traversal
  import opened Search
  import opened Render

  /** The parsed command line, less the path argument: `--all`, `--depth`
      and `--search`. */
  datatype Cli = Cli(all: bool, depth: nat, search: Option<string>)

  /** The pattern as every comparison sees it: folded once, up front. */
  function FoldedSearch(search: Option<string>): (r: Option<string>)
    ensures r.Some? <==> search.Some?
    ensures r.Some? ==> Lower(r.value) == r.value && |r.value| == |search.value|
  {
    match search
    case None => None
    case Some(s) => LowerIdempotent(s); Some(Lower(s))
  }

  /** The entries `main` collects under `root`, whose listing is `listing`. */
  function Entries(cli: Cli, root: Path, listing: seq<Node>): (es: seq<Entry>)
    ensures BelowRoot(es)
  {
    Collect(root, listing, ResolveDepth(cli.depth, cli.search.Some?), cli.all)
  }

  /** `show_dirs` as `main` computes it. */
  function ShowDirs(cli: Cli, root: Path, listing: seq<Node>): set<Path> {
    match FoldedSearch(cli.search)
    case None => {}
    case Some(pattern) => Forced(Entries(cli, root, listing), pattern)
  }

  /** `main` after argument parsing: the listing goes to `stdout`, coloured,
      without sizes and without a root marker. */
  method ListTree(stdout: Sink, cli: Cli, root: Path, listing: seq<Node>)
    modifies stdout
    ensures stdout.lines == old(stdout.lines) +
      Lines(Entries(cli, root, listing), FoldedSearch(cli.search), ShowDirs(cli, root, listing), MAIN_STYLE, NoSize)
  {
    var search := FoldedSearch(cli.search);
    var maxDepth := ResolveDepth(cli.depth, cli.search.Some?);
    var entries := Collect(root, listing, maxDepth, cli.all);
    var showDirs := ForceAncestors(entries, search);
    RenderTree(stdout, entries, showDirs, search, MAIN_STYLE, NoSize);
  }

  /** What `main` prints, entry by entry, is closed under ancestors: an entry
      whose path lies above a printed one is printed too. */
  lemma PrintedClosedUnderAncestors(cli: Cli, root: Path, listing: seq<Node>, e: Entry, a: Entry)
    requires e in Shown(Entries(cli, root, listing), FoldedSearch(cli.search), ShowDirs(cli, root, listing))
    requires a in Entries(cli, root, listing) && IsProperPrefix(a.path, e.path)
    ensures a in Shown(Entries(cli, root, listing), FoldedSearch(cli.search), ShowDirs(cli, root, listing))
  {
    var search := FoldedSearch(cli.search);
    var entries := Entries(cli, root, listing);
    ShownMembers(entries, search, ShowDirs(cli, root, listing), e);
    ShownMembers(entries, search, ShowDirs(cli, root, listing), a);
    if search.Some? {
      AncestorsShown(entries, search.value, e, a);
    }
  }

  /** Matching ignores case: two spellings of a pattern that fold alike, used
      on names that fold alike, decide every entry the same way. */
  lemma MatchingIgnoresCase(cli1: Cli, cli2: Cli, n1: OsName, n2: OsName)
    requires cli1.search.Some? && cli2.search.Some?
    requires Lower(cli1.search.value) == Lower(cli2.search.value)
    requires Lower(n1.text) == Lower(n2.text)
    ensures NameMatches(n1, FoldedSearch(cli1.search).value) == NameMatches(n2, FoldedSearch(cli2.search).value)
  {
  }

  /** Without `--all`, nothing `main` collects is hidden or lies inside a
      hidden directory below the root; the root itself is never collected,
      no entry is deeper than the depth limit, and every entry describes a
      file or directory of the tree: error items are dropped. */
  lemma CollectedEntries(cli: Cli, root: Path, listing: seq<Node>, e: Entry)
    requires e in Entries(cli, root, listing)
    ensures 1 <= e.depth && |e.path| == |root| + e.depth && e.path[..|root|] == root
    ensures !(cli.depth == 0 || (cli.depth == 1 && cli.search.Some?)) ==> e.depth <= cli.depth
    ensures Located(listing, e.path[|root|..], e)
    ensures !cli.all ==> NoHidden(e.path[|root|..])
  {
    WalkSound(listing, root, 1, ResolveDepth(cli.depth, cli.search.Some?), cli.all, e);
  }

  /** Without a pattern `main` prints every collected entry, once each, in
      collection order, and forces nothing. */
  lemma NoPatternPrintsEverything(cli: Cli, root: Path, listing: seq<Node>)
    requires cli.search.None?
    ensures ShowDirs(cli, root, listing) == {}
    ensures Shown(Entries(cli, root, listing), FoldedSearch(cli.search), ShowDirs(cli, root, listing))
            == Entries(cli, root, listing)
  {
    ShownWithoutPattern(Entries(cli, root, listing), {});
  }
}
