# nva tree listing, modelled in Dafny

`nva` prints a directory tree. It walks the filesystem below a root path and
collects every entry down to a depth limit. Without `--all` it prunes hidden
files and hidden directories, together with everything under a hidden
directory. With `--search` it keeps only the entries whose case-folded name
contains the pattern, plus every directory on the way to such a match. Each remaining entry becomes one line,
indented by its depth, with `/` after a directory and, in some front ends, a
human-readable size after a file.

The repository carries three near-identical copies of the renderer:

- `main` in `src/main.rs` prints in colour, without sizes, through its own
  copies of `is_hidden` and `print_entry`.
- `print_tree` and `export_tree_to_file` in `src/utils.rs`. The first prints in
  colour with sizes. The second writes plain text to a file, starting with a
  `.` root line, without sizes.
- `output_tree` and `output_line` in `src/output.rs` write to any writer, with
  sizes, in colour or not as the caller asks.

The model keeps one renderer (`Render.RenderTree`) and captures each copy by a
`Style` value: sizes or not, colour or not, root marker or not.

Modules:

- `model.dfy` (`Model`): names, paths, the directory tree, collected entries,
  the depth bound, and `is_hidden`.
  - A path is a sequence of name components. Its parent drops the last one.
  - A name carries its lossy text and whether it is valid UTF-8.
- `text.dfy` (`Text`): ASCII case folding, `str::contains`, `str::repeat`,
  and the indentation.
- `walk.dfy` (`Traversal`): the depth-limit resolution in `main`. It also
  holds the walk: a pure pre-order visit of an in-memory tree with minimum
  depth 1, a maximum depth, and `filter_entry` pruning. Error items are
  dropped. The module also proves that the walk is sound and complete
  against a path-lookup predicate.
- `search.dfy` (`Search`): `show_dirs`, built by the imperative
  parent-chain loop (`ForceAncestors`) and specified by `Forced`, together
  with the visibility rule shared by all copies and the ancestor-closure
  property.
- `render.dfy` (`Render`): the output sink as a class, the line format, the
  shared print loop and the three front ends as thin methods.
  - A line is a sequence of spans.
  - A `Painted` span is the colour library's wrapper, so stripping colour
    (`Erase`) can be stated and proved.
- `nva.dfy` (`Nva`): `main`'s pipeline (`ListTree`) and the properties of
  what it prints.
- `scenarios.dfy` (`Scenarios`): a small fixed tree, worked through the
  pipeline.

Only `export_tree_to_file` writes a root marker. `main` prints no sizes.
The command line has `--path`, `--all`, `--depth` and `--search`.

## Model

| member | source | states |
|---|---|---|
| `Model.IsHidden` | src/utils.rs:9-15 | A name is hidden exactly when it is valid UTF-8, at least two characters long, starts with `.`, and is not `..`. So `.` and `..` are never hidden, and neither is a name that is not valid UTF-8. |
| `Text.Lower` | src/main.rs:48 | Folding keeps the length, folds each character on its own, and leaves no upper-case letter in the result. |
| `Text.LowerIdempotent` | src/output.rs:95-97 | Folding a folded pattern changes nothing. A pattern its caller has already folded is therefore the same pattern `main` compares against. |
| `Text.Contains` | src/main.rs:71 | `contains` holds exactly when the pattern occurs at some position of the name. The empty pattern occurs in every name. |
| `Text.UnfoldedPatternNeverMatches` | src/output.rs:96-97 | A pattern with an upper-case letter never occurs in a folded name. A front end given an unfolded pattern therefore matches no name. |
| `Text.Repeat` | src/utils.rs:21 | `s.repeat(n)` has length `n * |s|`. |
| `Text.Indent` | src/utils.rs:18-22 | The indentation at depth d ≥ 1 is `3 * (d - 1)` characters long. It is empty at depth 1, and from depth 2 on it ends in the branch glyph `├─ `. |
| `Text.IndentNests` | src/output.rs:54-58 | Going one level deeper (from depth 2 on) adds exactly one `|  ` in front of the indentation. |
| `Traversal.ResolveDepth` | src/main.rs:51-55 | The walk is unbounded exactly when `--depth` is 0, or when it is 1 and a search pattern is present. Otherwise the limit is `--depth` itself. |
| `Traversal.Walk` | src/main.rs:58-62 | Every entry the walk yields lies between the starting depth and the depth limit. |
| `Traversal.Collect` | src/main.rs:58-64 | Every collected entry has depth at least 1, so the root itself is never collected. No collected entry is deeper than the limit. |
| `Traversal.WalkSound` | src/main.rs:58-63 | A collected entry lies below the root, at the depth its path length gives. It describes a real file or directory: error items are never collected. Without `--all`, neither the entry nor any of its ancestors below the root is hidden. |
| `Traversal.WalkComplete` | src/main.rs:58-63 | Conversely, every file or directory within the depth limit is collected, provided that (without `--all`) no component of its path below the root is hidden. |
| `Traversal.SearchSeesEveryDepth` | src/main.rs:51-60 | With a search and `--depth` 0 or 1, an entry at any depth is collected when its path passes the hidden filter. |
| `Search.Parent` | src/main.rs:73 | `parent()` is absent exactly for the empty path. Otherwise, joining the parent with the last component gives back the path. |
| `Search.Ancestors` | src/main.rs:72-76 | The `parent()` chain of a path passes through exactly the proper prefixes of that path. |
| `Search.ForcedMembership` | src/main.rs:67-79 | A path is in `show_dirs` exactly when it is a proper prefix of the path of some entry whose folded name contains the pattern. |
| `Search.ForceAncestors` | src/main.rs:66-79 | The nested loop returns the empty set without a pattern. With a pattern it returns the ancestors of all matching entries (`Forced`). |
| `Search.AncestorsShown` | src/main.rs:84-87 | Ancestor closure: when `show_dirs` comes from the entries, every path above a printed entry passes the visibility rule too. |
| `Search.MatchForcesChain` | src/main.rs:69-76 | Every proper prefix of a matching entry's path is in `show_dirs`. This includes the paths at and above the traversal root. |
| `Search.RepeatedMatchAddsNothing` | src/main.rs:74 | Inserting an ancestor again leaves the set as it was. A match seen twice adds no path. |
| `Render.EntryLineText` | src/utils.rs:17-31 | Stripped of colour, an entry's line is the indentation for its depth, then its name. A directory gets `/` after the name. A file gets ` (<formatted size>)` when sizes are shown (size 0 if metadata fails) and nothing otherwise. A line written without colour has no coloured span. |
| `Render.ColourIsCosmetic` | src/output.rs:61-79 | The coloured and the plain line for an entry have the same spans with the same texts, and they are equal once colour is stripped. |
| `Render.ShownMembers` | src/utils.rs:38-50 | The printed entries are exactly the collected entries that pass "no pattern, or the folded name contains it, or the path is in `show_dirs`". |
| `Render.ShownAppend` | src/output.rs:92-104 | Filtering keeps order: the printed entries of `a + b` are those of `a` followed by those of `b`. |
| `Render.ShownWithoutPattern` | src/utils.rs:41-46 | Without a pattern, every entry is printed, once each, in entry order. |
| `Render.LinesFollowShown` | src/output.rs:92-104 | A render writes the root marker if its style has one, then exactly one line per printed entry. The lines come in entry order, and each is drawn at that entry's own depth. |
| `Render.VariantsAgree` | src/utils.rs:62-82 | The three copies agree. Whatever the style, after the marker they write the same number of lines, and line j of each starts with the same indentation and name. |
| `Render.Sink.WriteLine` | src/utils.rs:61 | `writeln!` appends exactly one line to the sink. |
| `Render.OutputLine` | src/output.rs:48-81 | `output_line` (and both copies of `print_entry`) appends exactly the line `EntryLine` builds: indentation, name and suffix, as `Render.EntryLineText` states. |
| `Render.RenderTree` | src/main.rs:81-93 | The shared print loop appends the root marker when asked. Then, in order, it appends the line of each entry that passes the visibility rule, and nothing else. |
| `Render.PrintTree` | src/utils.rs:33-51 | `print_tree` appends the coloured lines, with sizes, of the visible entries. It writes no root marker. |
| `Render.OutputTree` | src/output.rs:85-105 | `output_tree` appends, with sizes and in colour when asked, the line of each visible entry. It writes no root marker, so an empty entry list writes nothing. |
| `Render.ExportTreeToFile` | src/utils.rs:53-85 | The file holds `.` and then one line per visible entry: indentation, name, and `/` for a directory. File lines carry no size. |
| `Nva.FoldedSearch` | src/main.rs:48 | The pattern is folded once. A present pattern stays present, keeps its length, and is left unchanged by a second fold. |
| `Nva.Entries` | src/main.rs:58-64 | Every entry `main` collects lies strictly below the root. |
| `Nva.ListTree` | src/main.rs:45-94 | `main` prints exactly the coloured, size-less lines for the entries collected under the resolved depth limit, filtered by the folded pattern and the forced ancestors. It writes no root marker. |
| `Nva.PrintedClosedUnderAncestors` | src/main.rs:69-93 | If `main` prints an entry, it also prints every collected entry whose path is a proper prefix of that entry's path. |
| `Nva.MatchingIgnoresCase` | src/main.rs:70-86 | Two spellings of the pattern that fold alike, used on names that fold alike, decide the name match the same way. |
| `Nva.CollectedEntries` | src/main.rs:57-64 | Every entry `main` collects has depth ≥ 1 and lies under the root. It is no deeper than `--depth` unless the limit was resolved to unbounded, and it describes a file or directory of the tree. Without `--all`, no component of its path below the root is hidden. |
| `Nva.NoPatternPrintsEverything` | src/main.rs:67-89 | Without a pattern, `show_dirs` is empty and `main` prints every collected entry, once each, in collection order. |
| `Scenarios.DefaultDepthListsChildren` | src/main.rs:51-60 | On the fixture, `--depth 1` without a search collects only `a.txt` and `dir`. |
| `Scenarios.SearchKeepsAncestorOfMatch` | src/main.rs:51-93 | On the fixture, `--depth 1 --search B` looks at every depth and forces `dir` (and the paths above it). It prints `dir` and `b.txt` but not `a.txt`. |
| `Scenarios.UnreadableDirectoryIsListed` | src/main.rs:58-63 | A visible directory whose listing fails is still collected, as a directory entry with nothing below it. An item whose own entry fails is not collected. |
| `Scenarios.ExportOfEmptyTree` | src/utils.rs:61 | An empty entry list exports to the single line `.`, whatever the pattern and the forced set. |

## Left out

- Syntax highlighting (`print_file_with_syntax_highlighting`, `highlight_with_syntect`, `print_with_highlighting`) is not modelled. It wraps an external highlighting library, file reads and printing to the error stream.
- The real filesystem is replaced by an in-memory tree. Sibling order is the order of each directory's `children`, and nothing is claimed about the operating system's order.
- A directory that cannot be listed is modelled as a `Dir` with no children. The walk yields the directory itself and drops only the error for its listing, so the directory is printed without children. A `Failed` node stands only for an item whose own entry fails, such as one that vanished before its type could be read. The walk's error reporting itself is not modelled.
- Symbolic links are not followed by the walk. A link is a non-directory entry, modelled as a `File` node.
- `humansize::format_size` is an external library. It is the parameter `formatSize`, so decimal scaling is not modelled.
- The colour library's escape codes are not modelled. A coloured piece is a `Painted` span.
- `Text.Lower` folds only ASCII letters. The source uses Unicode `to_lowercase`, which also folds other letters and can change a string's length.
- `to_string_lossy` and `to_str` are not modelled. A name is given as its lossy text plus a flag for valid UTF-8. Two different invalid byte sequences with the same lossy text are therefore the same name in the model.
- `Search.Parent` models relative paths, whose `parent()` chain ends at the empty path. For an absolute root, the chain stops at `/` instead. This changes only whether the empty path is in `show_dirs`, and no entry's path is ever empty.
- Command-line parsing, the path argument, and falling back to a default path are not modelled. The root path and its listing are given as parameters.
- I/O failures are not modelled: creating the output file and the `?` propagation of write errors. Every write succeeds.
- Lines are modelled without their newline terminators. Each element of a sink is one line.
- Indentation lengths are counted in characters, not in UTF-8 bytes.
- `usize` is modelled as an unbounded natural number. `usize::MAX` as the walk limit is `Unlimited`, since no tree reaches that depth.
- Depth 0 is excluded from rendering by a precondition. The source would underflow `depth - 2`, and collected entries always have depth at least 1.
