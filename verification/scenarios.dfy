/** Worked instances of the pipeline on a small fixed tree: a root holding
    `a.txt` and a directory `dir` that holds `b.txt`. */
module Scenarios {
  import opened Model
  import opened Text
  import opened Traversal
  import opened Search
  import opened Render
  import opened Nva

  function Name(s: string): OsName {
    OsName(s, true)
  }

  const ROOT: Path := [Name("root")]
  const A: Node := File(Name("a.txt"), Some(5))
  const B: Node := File(Name("b.txt"), Some(1000))
  const LISTING: seq<Node> := [A, Dir(Name("dir"), [B])]

  const A_ENTRY: Entry := Entry(Name("a.txt"), ROOT + [Name("a.txt")], 1, false, Some(5))
  const DIR_ENTRY: Entry := Entry(Name("dir"), ROOT + [Name("dir")], 1, true, None)
  const B_ENTRY: Entry := Entry(Name("b.txt"), ROOT + [Name("dir"), Name("b.txt")], 2, false, Some(1000))

  /** The default depth without a search stops at the root's children. */
  lemma DefaultDepthListsChildren()
    ensures Entries(Cli(false, 1, None), ROOT, LISTING) == [A_ENTRY, DIR_ENTRY]
  {
    WalkFixture(AtMost(1));
  }

  /** The walk of the fixture: `b.txt` appears exactly when depth 2 is
      allowed. */
  lemma WalkFixture(bound: Bound)
    requires Allows(bound, 1)
    ensures Walk(LISTING, ROOT, 1, bound, false) ==
      [A_ENTRY, DIR_ENTRY] + (if Allows(bound, 2) then [B_ENTRY] else [])
  {
    assert !IsHidden(Name("a.txt")) && !IsHidden(Name("dir")) && !IsHidden(Name("b.txt"));
    assert LISTING[1..] == [Dir(Name("dir"), [B])];
    assert LISTING[1..][1..] == [];
    assert [B][1..] == [];
    var below := Walk([B], ROOT + [Name("dir")], 2, bound, false);
    assert (ROOT + [Name("dir")]) + [Name("b.txt")] == B_ENTRY.path;
    assert Walk([B][1..], ROOT + [Name("dir")], 2, bound, false) == [];
    assert Allows(bound, 2) ==> below == [B_ENTRY] + [];
    assert Walk(LISTING[1..], ROOT, 1, bound, false) ==
      [DIR_ENTRY] + (if Allows(bound, 2) then below else []);
  }

  /** Only `b.txt` contains "b". */
  lemma Matches()
    ensures NameMatches(Name("b.txt"), "b")
    ensures !NameMatches(Name("a.txt"), "b") && !NameMatches(Name("dir"), "b")
  {
    MatchesB();
    MissesA();
    MissesDir();
  }

  lemma MatchesB()
    ensures NameMatches(Name("b.txt"), "b")
  {
    assert Lower("b.txt") == "b.txt";
    assert OccursAt("b.txt", "b", 0);
  }

  lemma MissesA()
    ensures !NameMatches(Name("a.txt"), "b")
  {
    assert Lower("a.txt") == "a.txt";
    forall i: nat ensures !OccursAt("a.txt", "b", i) {
      if i < 5 { assert "a.txt"[i..i + 1][0] == "a.txt"[i] != 'b'; }
    }
  }

  lemma MissesDir()
    ensures !NameMatches(Name("dir"), "b")
  {
    assert Lower("dir") == "dir";
    forall i: nat ensures !OccursAt("dir", "b", i) {
      if i < 3 { assert "dir"[i..i + 1][0] == "dir"[i] != 'b'; }
    }
  }

  /** Folding the pattern "B" gives "b". */
  lemma FoldB()
    ensures FoldedSearch(Some("B")) == Some("b")
  {
    assert "B"[1..] == "";
    assert LowerChar('B') == 'b';
    assert Lower("") == "";
    assert Lower("B") == [LowerChar('B')] + Lower("");
    assert Lower("B") == "b";
  }

  /** The match `b.txt` forces its three ancestors. */
  lemma ForcedFixture()
    ensures Forced([A_ENTRY, DIR_ENTRY, B_ENTRY], "b") == {[], ROOT, ROOT + [Name("dir")]}
  {
    var entries := [A_ENTRY, DIR_ENTRY, B_ENTRY];
    Matches();
    assert entries[..2][..1][..0] == [];
    assert Forced(entries[..2][..1], "b") == {};
    assert Forced(entries[..2], "b") == {};
    assert Forced(entries, "b") == Ancestors(B_ENTRY.path);
    AncestorsOfB();
  }

  lemma AncestorsOfB()
    ensures Ancestors(B_ENTRY.path) == {[], ROOT, ROOT + [Name("dir")]}
  {
    var path := B_ENTRY.path;
    assert path[..0] == [] && path[..1] == ROOT && path[..2] == ROOT + [Name("dir")];
    forall q ensures q in Ancestors(path) <==> q in {[], ROOT, ROOT + [Name("dir")]} {
      if IsProperPrefix(q, path) {
        assert q == path[..|q|];
      }
    }
  }

  /** Searching for "B" with the default depth looks everywhere, forces `dir`
      (and the paths above it) into view, and prints `dir` and `b.txt` but not
      `a.txt`. */
  lemma SearchKeepsAncestorOfMatch()
    ensures Entries(Cli(false, 1, Some("B")), ROOT, LISTING) == [A_ENTRY, DIR_ENTRY, B_ENTRY]
    ensures ShowDirs(Cli(false, 1, Some("B")), ROOT, LISTING) == {[], ROOT, ROOT + [Name("dir")]}
    ensures Shown(Entries(Cli(false, 1, Some("B")), ROOT, LISTING), Some("b"),
                  ShowDirs(Cli(false, 1, Some("B")), ROOT, LISTING)) == [DIR_ENTRY, B_ENTRY]
  {
    WalkFixture(Unlimited);
    FoldB();
    ForcedFixture();
    ShownFixture();
  }

  /** `a.txt` is neither matching nor forced; `dir` is forced. */
  lemma ShownFixture()
    ensures Shown([A_ENTRY, DIR_ENTRY, B_ENTRY], Some("b"), {[], ROOT, ROOT + [Name("dir")]}) == [DIR_ENTRY, B_ENTRY]
  {
    var entries := [A_ENTRY, DIR_ENTRY, B_ENTRY];
    var show := {[], ROOT, ROOT + [Name("dir")]};
    VisibleFixture();
    ShownThree(A_ENTRY, DIR_ENTRY, B_ENTRY, Some("b"), show);
  }

  lemma ShownThree(x: Entry, y: Entry, z: Entry, search: Option<string>, show: set<Path>)
    ensures Shown([x, y, z], search, show) ==
      (if ShouldPrint(x, search, show) then [x] else []) +
      (if ShouldPrint(y, search, show) then [y] else []) +
      (if ShouldPrint(z, search, show) then [z] else [])
  {
    ShownSnoc([], x, search, show);
    ShownSnoc([x], y, search, show);
    ShownSnoc([x, y], z, search, show);
    assert [] + [x] == [x] && [x] + [y] == [x, y] && [x, y] + [z] == [x, y, z];
  }

  lemma VisibleFixture()
    ensures !ShouldPrint(A_ENTRY, Some("b"), {[], ROOT, ROOT + [Name("dir")]})
    ensures ShouldPrint(DIR_ENTRY, Some("b"), {[], ROOT, ROOT + [Name("dir")]})
    ensures ShouldPrint(B_ENTRY, Some("b"), {[], ROOT, ROOT + [Name("dir")]})
  {
    Matches();
    ANotForced();
  }

  lemma ANotForced()
    ensures A_ENTRY.path !in {[], ROOT, ROOT + [Name("dir")]}
  {
    assert A_ENTRY.path[1] != (ROOT + [Name("dir")])[1];
  }

  /** A directory whose listing fails is still collected, with nothing below
      it; an item whose own entry fails is dropped. */
  lemma UnreadableDirectoryIsListed(n: OsName)
    requires !IsHidden(n)
    ensures Collect(ROOT, [Dir(n, [])], Unlimited, false) == [Entry(n, ROOT + [n], 1, true, None)]
    ensures Collect(ROOT, [Failed(n)], Unlimited, false) == []
  {
    var d := Dir(n, []);
    assert [d][1..] == [] && [Failed(n)][1..] == [];
    assert Yielded(d, 1, Unlimited, false);
    assert Walk(d.children, ROOT + [n], 2, Unlimited, false) == [];
    assert HeadEntry(d, ROOT, 1) == Entry(n, ROOT + [n], 1, true, None);
    assert Walk([d], ROOT, 1, Unlimited, false) == [HeadEntry(d, ROOT, 1)] + [] + [];
  }

  /** An empty directory exports to the single line ".", whatever the
      search and the forced set. */
  method ExportOfEmptyTree(showDirs: set<Path>, search: Option<string>) returns (file: seq<string>)
    ensures file == ["."]
  {
    file := ExportTreeToFile([], showDirs, search);
  }
}
