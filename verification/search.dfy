/** The search: which names match, which directories a match forces into
    view (`show_dirs`), and the visibility rule every renderer applies. */
module Search {
  import opened Model
  import opened Text

  /** A name matches when its folded text contains the pattern. The pattern
      is used as given: the callers fold it beforehand. */
  predicate NameMatches(name: OsName, pattern: string) {
    Contains(Lower(name.text), pattern)
  }

  /** `Path::parent`: the path without its last component; the empty path
      has no parent. */
  function Parent(p: Path): (r: Option<Path>)
    ensures r.None? <==> p == []
    ensures r.Some? ==> r.value + [p[|p| - 1]] == p
  {
    if p == [] then None else Some(p[..|p| - 1])
  }

  /** Every path the `parent()` chain of `p` passes through. */
  function Ancestors(p: Path): (r: set<Path>)
    ensures forall q :: q in r <==> IsProperPrefix(q, p)
    decreases |p|
  {
    match Parent(p)
    case None => {}
    case Some(q) =>
      assert q == p[..|q|];
      assert forall a :: IsProperPrefix(a, q) <==> IsProperPrefix(a, p) && a != q by {
        forall a ensures IsProperPrefix(a, q) <==> IsProperPrefix(a, p) && a != q {
          if |a| < |q| { assert q[..|a|] == p[..|a|]; }
        }
      }
      {q} + Ancestors(q)
  }

  /** `show_dirs` as a value: the ancestors of every entry whose name
      matches `pattern`, accumulated in entry order. */
  function Forced(entries: seq<Entry>, pattern: string): set<Path>
  {
    if entries == [] then {}
    else
      var last := entries[|entries| - 1];
      Forced(entries[..|entries| - 1], pattern) +
        if NameMatches(last.name, pattern) then Ancestors(last.path) else {}
  }

  /** A path is forced exactly when it is a proper prefix of the path of some
      matching entry. */
  lemma {:induction false} ForcedMembership(entries: seq<Entry>, pattern: string, q: Path)
    ensures q in Forced(entries, pattern) <==>
      exists e :: e in entries && NameMatches(e.name, pattern) && IsProperPrefix(q, e.path)
  {
    if entries != [] {
      var init := entries[..|entries| - 1];
      var last := entries[|entries| - 1];
      ForcedMembership(init, pattern, q);
      assert entries == init + [last];
      if exists e :: e in entries && NameMatches(e.name, pattern) && IsProperPrefix(q, e.path) {
        var e :| e in entries && NameMatches(e.name, pattern) && IsProperPrefix(q, e.path);
        if e != last { assert e in init; }
      }
    }
  }

  /** The ancestor loop of `main`: for every entry whose folded name contains
      the pattern, walk its `parent()` chain up to the end and insert every
      path met into the set. Without a pattern the set stays empty. */
  method ForceAncestors(entries: seq<Entry>, search: Option<string>) returns (showDirs: set<Path>)
    ensures search.None? ==> showDirs == {}
    ensures search.Some? ==> showDirs == Forced(entries, search.value)
  {
    showDirs := {};
    if search.Some? {
      var pattern := search.value;
      for i := 0 to |entries|
        invariant showDirs == Forced(entries[..i], pattern)
      {
        var entry := entries[i];
        assert entries[..i + 1][..i] == entries[..i];
        var name := Lower(entry.name.text);
        if Contains(name, pattern) {
          ghost var before := showDirs;
          var path := entry.path;
          var parent := Parent(path);
          while parent.Some?
            invariant parent == Parent(path)
            invariant showDirs + Ancestors(path) == before + Ancestors(entry.path)
            decreases |path|
          {
            showDirs := showDirs + {parent.value};
            path := parent.value;
            parent := Parent(path);
          }
        }
      }
      assert entries[..|entries|] == entries;
    }
  }

  /** Whether an entry is printed: always without a pattern; with one, when
      its folded name contains the pattern or its path is in `showDirs`. */
  predicate ShouldPrint(e: Entry, search: Option<string>, showDirs: set<Path>) {
    match search
    case None => true
    case Some(pattern) => NameMatches(e.name, pattern) || e.path in showDirs
  }

  /** Ancestor closure: when `showDirs` comes from the entries themselves, a
      printed entry drags every entry above it into the output. */
  lemma AncestorsShown(entries: seq<Entry>, pattern: string, e: Entry, a: Entry)
    requires e in entries
    requires ShouldPrint(e, Some(pattern), Forced(entries, pattern))
    requires IsProperPrefix(a.path, e.path)
    ensures ShouldPrint(a, Some(pattern), Forced(entries, pattern))
  {
    ForcedMembership(entries, pattern, a.path);
    if !NameMatches(e.name, pattern) {
      ForcedMembership(entries, pattern, e.path);
      var m :| m in entries && NameMatches(m.name, pattern) && IsProperPrefix(e.path, m.path);
      assert a.path == m.path[..|a.path|] by {
        assert e.path[..|a.path|] == m.path[..|e.path|][..|a.path|];
      }
    }
  }

  /** A matching entry forces every proper prefix of its path: each path
      from the empty one up to its parent, past the traversal root. */
  lemma MatchForcesChain(entries: seq<Entry>, pattern: string, e: Entry, k: nat)
    requires e in entries && NameMatches(e.name, pattern)
    requires k < |e.path|
    ensures e.path[..k] in Forced(entries, pattern)
  {
    ForcedMembership(entries, pattern, e.path[..k]);
  }

  /** Insertion is idempotent: a match seen again adds no path, so an
      ancestor shared by several matches is recorded once. */
  lemma RepeatedMatchAddsNothing(entries: seq<Entry>, pattern: string, e: Entry)
    requires e in entries
    ensures Forced(entries + [e], pattern) == Forced(entries, pattern)
  {
    assert (entries + [e])[..|entries|] == entries;
    if NameMatches(e.name, pattern) {
      forall q | q in Ancestors(e.path) ensures q in Forced(entries, pattern) {
        ForcedMembership(entries, pattern, q);
      }
    }
  }
}
