/** The values the tree-listing pipeline works on: file names, paths, the
    in-memory directory tree the walk visits, and the collected entries. */
module Model {

  datatype Option<+T> = None | Some(value: T)

  /** A file name as the operating system hands it over. `text` is what
      `to_string_lossy` shows; `utf8` says whether `to_str` succeeds, i.e.
      whether the name was valid UTF-8 in the first place. */
  datatype OsName = OsName(text: string, utf8: bool)

  /** A path is the sequence of its components, the traversal root's
      components first. */
  type Path = seq<OsName>

  /** One node of the filesystem under the traversal root, in the order the
      operating system lists siblings. A directory that cannot be listed is
      a `Dir` with no children: the walk still yields the directory itself
      and drops only the error for its listing. `Failed` is an item whose own
      entry fails, such as one that vanished before its type could be read.
      `size` is `None` when metadata cannot be read. */
  datatype Node =
    | File(name: OsName, size: Option<nat>)
    | Dir(name: OsName, children: seq<Node>)
    | Failed(name: OsName)

  /** A collected walk entry: its base name, full path, depth below the root
      (the root's children have depth 1), whether it is a directory, and the
      file size metadata would report. */
  datatype Entry = Entry(name: OsName, path: Path, depth: nat, isDir: bool, size: Option<nat>)

  /** The walk's depth limit; `Unlimited` stands for `usize::MAX`. */
  datatype Bound = Unlimited | AtMost(n: nat)

  predicate Allows(bound: Bound, depth: nat) {
    bound.Unlimited? || depth <= bound.n
  }

  /** Hidden names start with a dot but are not "." or ".."; a name that is not
      valid UTF-8 is never hidden. */
  predicate IsHidden(name: OsName)
    ensures IsHidden(name) <==>
      name.utf8 && |name.text| >= 2 && name.text[0] == '.' && name.text != ".."
  {
    name.utf8 && |name.text| > 0 && name.text[0] == '.' && name.text != "." && name.text != ".."
  }

  /** `q` is one of the paths `p.parent()`, `p.parent().parent()`, ... */
  predicate IsProperPrefix(q: Path, p: Path) {
    |q| < |p| && q == p[..|q|]
  }

  predicate NoHidden(names: seq<OsName>) {
    forall i :: 0 <= i < |names| ==> !IsHidden(names[i])
  }

  lemma NoHiddenCons(name: OsName, rest: seq<OsName>)
    ensures NoHidden([name] + rest) <==> !IsHidden(name) && NoHidden(rest)
  {
    var names := [name] + rest;
    assert names[0] == name;
    assert forall i :: 0 <= i < |rest| ==> rest[i] == names[i + 1];
    assert forall i :: 0 < i < |names| ==> names[i] == rest[i - 1];
  }

  /** Size reported for an entry: a failed metadata read counts as 0. */
  function SizeOrZero(size: Option<nat>): nat {
    match size
    case Some(n) => n
    case None => 0
  }
}
