/** The tree renderer shared by the three listing front ends: the visible
    entries in collection order, one line each, indented by depth, with an
    optional root marker, optional size annotations and optional colour. */
module Render {
  import opened Model
  import opened Text
  import opened Search

  /** The three colours the listing uses: directories, file names, sizes. */
  datatype Hue = Blue | Green | Yellow

  /** A piece of an output line. A `Painted` span is the colour library's
      wrapper around its text; the escape codes themselves are not modelled. */
  datatype Span = Plain(text: string) | Painted(hue: Hue, text: string)

  type Line = seq<Span>

  /** The characters of a line once colour is stripped. */
  function Erase(line: Line): string {
    if line == [] then "" else line[0].text + Erase(line[1..])
  }

  lemma EraseCons(span: Span, rest: Line)
    ensures Erase([span] + rest) == span.text + Erase(rest)
  {
    assert ([span] + rest)[1..] == rest;
  }

  function Paint(colour: bool, hue: Hue, text: string): Span {
    if colour then Painted(hue, text) else Plain(text)
  }

  /** What distinguishes the front ends: whether files carry a size
      annotation, whether names are coloured, and whether a "." line comes
      first. */
  datatype Style = Style(sizes: bool, colour: bool, rootMarker: bool)

  /** `print_entry` of the first front end: coloured, no sizes. */
  const MAIN_STYLE: Style := Style(false, true, false)
  /** `print_tree` with its `print_entry`: coloured, with sizes. */
  const PRINT_STYLE: Style := Style(true, true, false)
  /** `export_tree_to_file`: plain text, no sizes, a root marker. */
  const EXPORT_STYLE: Style := Style(false, false, true)

  /** `output_tree` / `output_line`: sizes, colour as the caller asks. */
  function OutputStyle(useColour: bool): Style {
    Style(true, useColour, false)
  }

  const MARKER: Line := [Plain(".")]

  /** What follows the name: "/" for a directory, " (size)" for a file when
      sizes are shown (a failed metadata read shows size 0), else nothing. */
  function Suffix(e: Entry, sizes: bool, formatSize: nat -> string): string {
    if e.isDir then "/"
    else if sizes then " (" + formatSize(SizeOrZero(e.size)) + ")"
    else ""
  }

  lemma EraseThree(x: Span, y: Span, z: Span)
    ensures Erase([x, y, z]) == x.text + y.text + z.text
  {
    EraseCons(z, []);
    EraseCons(y, [z]);
    EraseCons(x, [y, z]);
  }

  lemma EraseFive(v: Span, w: Span, x: Span, y: Span, z: Span)
    ensures Erase([v, w, x, y, z]) == v.text + w.text + x.text + y.text + z.text
  {
    EraseThree(x, y, z);
    EraseCons(w, [x, y, z]);
    EraseCons(v, [w, x, y, z]);
  }

  /** The line written for `e` at `depth`: the indentation, the name (blue
      for a directory, green for a file), then "/" for a directory, or the
      size (yellow) in parentheses for a file when sizes are shown. */
  function EntryLine(e: Entry, depth: nat, style: Style, formatSize: nat -> string): Line
    requires depth >= 1
  {
    var indent := Plain(Indent(depth));
    if e.isDir then
      [indent, Paint(style.colour, Blue, e.name.text), Plain("/")]
    else if style.sizes then
      [indent, Paint(style.colour, Green, e.name.text), Plain(" ("),
       Paint(style.colour, Yellow, formatSize(SizeOrZero(e.size))), Plain(")")]
    else
      [indent, Paint(style.colour, Green, e.name.text)]
  }

  /** Stripped of colour, an entry's line is its indentation, its name and
      its suffix; a line written without colour has no coloured span. */
  lemma EntryLineText(e: Entry, depth: nat, style: Style, formatSize: nat -> string)
    requires depth >= 1
    ensures Erase(EntryLine(e, depth, style, formatSize)) == Indent(depth) + e.name.text + Suffix(e, style.sizes, formatSize)
    ensures !style.colour ==> forall i :: 0 <= i < |EntryLine(e, depth, style, formatSize)| ==>
              EntryLine(e, depth, style, formatSize)[i].Plain?
  {
    var indent := Plain(Indent(depth));
    if e.isDir {
      EraseThree(indent, Paint(style.colour, Blue, e.name.text), Plain("/"));
    } else if style.sizes {
      EraseFive(indent, Paint(style.colour, Green, e.name.text), Plain(" ("),
                Paint(style.colour, Yellow, formatSize(SizeOrZero(e.size))), Plain(")"));
    } else {
      var name := Paint(style.colour, Green, e.name.text);
      EraseCons(name, []);
      EraseCons(indent, [name]);
    }
  }

  /** Colour only wraps: the coloured and the plain line have the same
      spans with the same texts, and are equal once colour is stripped. */
  lemma ColourIsCosmetic(e: Entry, depth: nat, sizes: bool, rootMarker: bool, formatSize: nat -> string)
    requires depth >= 1
    ensures var coloured := EntryLine(e, depth, Style(sizes, true, rootMarker), formatSize);
            var plain := EntryLine(e, depth, Style(sizes, false, rootMarker), formatSize);
            |coloured| == |plain| &&
            (forall i :: 0 <= i < |plain| ==> coloured[i].text == plain[i].text && plain[i].Plain?) &&
            Erase(coloured) == Erase(plain)
  {
    EntryLineText(e, depth, Style(sizes, true, rootMarker), formatSize);
    EntryLineText(e, depth, Style(sizes, false, rootMarker), formatSize);
  }

  /** Every collected entry lies strictly below the root. */
  predicate BelowRoot(entries: seq<Entry>) {
    forall i :: 0 <= i < |entries| ==> 1 <= entries[i].depth
  }

  /** The entries a renderer prints, in collection order. */
  function Shown(entries: seq<Entry>, search: Option<string>, showDirs: set<Path>): (shown: seq<Entry>)
    ensures |shown| <= |entries|
    ensures BelowRoot(entries) ==> BelowRoot(shown)
  {
    if entries == [] then []
    else
      var init := entries[..|entries| - 1];
      var last := entries[|entries| - 1];
      Shown(init, search, showDirs) + if ShouldPrint(last, search, showDirs) then [last] else []
  }

  /** One more entry is printed after the others when it is visible. */
  lemma ShownSnoc(entries: seq<Entry>, e: Entry, search: Option<string>, showDirs: set<Path>)
    ensures Shown(entries + [e], search, showDirs) ==
      Shown(entries, search, showDirs) + if ShouldPrint(e, search, showDirs) then [e] else []
  {
    assert (entries + [e])[..|entries|] == entries;
  }

  /** The printed entries are exactly the collected entries that pass the
      visibility rule. */
  lemma {:induction false} ShownMembers(entries: seq<Entry>, search: Option<string>, showDirs: set<Path>, e: Entry)
    ensures e in Shown(entries, search, showDirs) <==> e in entries && ShouldPrint(e, search, showDirs)
  {
    if entries != [] {
      var init := entries[..|entries| - 1];
      var last := entries[|entries| - 1];
      ShownMembers(init, search, showDirs, e);
      assert entries == init + [last];
    }
  }

  /** Filtering keeps order: the printed entries of a concatenation are those
      of the first part followed by those of the second. */
  lemma {:induction false} ShownAppend(a: seq<Entry>, b: seq<Entry>, search: Option<string>, showDirs: set<Path>)
    ensures Shown(a + b, search, showDirs) == Shown(a, search, showDirs) + Shown(b, search, showDirs)
    decreases |b|
  {
    if b == [] {
      assert a + b == a;
    } else {
      var init := b[..|b| - 1];
      var last := b[|b| - 1];
      var tail := if ShouldPrint(last, search, showDirs) then [last] else [];
      ShownAppend(a, init, search, showDirs);
      assert (a + b)[..|a + b| - 1] == a + init;
      assert (a + b)[|a + b| - 1] == last;
      calc {
        Shown(a + b, search, showDirs);
        Shown(a + init, search, showDirs) + tail;
        (Shown(a, search, showDirs) + Shown(init, search, showDirs)) + tail;
        Shown(a, search, showDirs) + (Shown(init, search, showDirs) + tail);
        Shown(a, search, showDirs) + Shown(b, search, showDirs);
      }
    }
  }

  /** Without a pattern every entry is printed, once, in collection order. */
  lemma {:induction false} ShownWithoutPattern(entries: seq<Entry>, showDirs: set<Path>)
    ensures Shown(entries, None, showDirs) == entries
  {
    if entries != [] {
      ShownWithoutPattern(entries[..|entries| - 1], showDirs);
      assert entries == entries[..|entries| - 1] + [entries[|entries| - 1]];
    }
  }

  /** The lines for the entries, without the root marker. */
  function TreeLines(entries: seq<Entry>, search: Option<string>, showDirs: set<Path>,
                     style: Style, formatSize: nat -> string): seq<Line>
    requires BelowRoot(entries)
  {
    if entries == [] then []
    else
      var init := entries[..|entries| - 1];
      var last := entries[|entries| - 1];
      TreeLines(init, search, showDirs, style, formatSize) +
        if ShouldPrint(last, search, showDirs) then [EntryLine(last, last.depth, style, formatSize)] else []
  }

  /** One more entry adds its line, when it is visible, and nothing else. */
  lemma TreeLinesStep(entries: seq<Entry>, i: nat, search: Option<string>, showDirs: set<Path>,
                      style: Style, formatSize: nat -> string)
    requires BelowRoot(entries) && i < |entries|
    ensures BelowRoot(entries[..i]) && BelowRoot(entries[..i + 1])
    ensures TreeLines(entries[..i + 1], search, showDirs, style, formatSize) ==
      TreeLines(entries[..i], search, showDirs, style, formatSize) +
      if ShouldPrint(entries[i], search, showDirs)
      then [EntryLine(entries[i], entries[i].depth, style, formatSize)] else []
  {
    assert entries[..i + 1][..i] == entries[..i];
  }

  /** Everything a renderer writes for `entries`. */
  function Lines(entries: seq<Entry>, search: Option<string>, showDirs: set<Path>,
                 style: Style, formatSize: nat -> string): seq<Line>
    requires BelowRoot(entries)
  {
    (if style.rootMarker then [MARKER] else []) + TreeLines(entries, search, showDirs, style, formatSize)
  }

  /** One more entry appends its line, when it is visible, and nothing else. */
  lemma LinesStep(entries: seq<Entry>, i: nat, search: Option<string>, showDirs: set<Path>,
                  style: Style, formatSize: nat -> string)
    requires BelowRoot(entries) && i < |entries|
    ensures BelowRoot(entries[..i]) && BelowRoot(entries[..i + 1])
    ensures Lines(entries[..i + 1], search, showDirs, style, formatSize) ==
      Lines(entries[..i], search, showDirs, style, formatSize) +
      if ShouldPrint(entries[i], search, showDirs)
      then [EntryLine(entries[i], entries[i].depth, style, formatSize)] else []
  {
    TreeLinesStep(entries, i, search, showDirs, style, formatSize);
  }

  /** Without the marker: exactly one line per printed entry, in order. */
  lemma {:induction false} TreeLinesFollowShown(entries: seq<Entry>, search: Option<string>, showDirs: set<Path>,
                                                style: Style, formatSize: nat -> string)
    requires BelowRoot(entries)
    ensures var shown := Shown(entries, search, showDirs);
            var lines := TreeLines(entries, search, showDirs, style, formatSize);
            |lines| == |shown| &&
            forall j :: 0 <= j < |shown| ==> lines[j] == EntryLine(shown[j], shown[j].depth, style, formatSize)
  {
    if entries != [] {
      var init := entries[..|entries| - 1];
      TreeLinesFollowShown(init, search, showDirs, style, formatSize);
    }
  }

  /** The marker, if any, then exactly one line per printed entry, in order,
      each drawn at that entry's own depth. */
  lemma LinesFollowShown(entries: seq<Entry>, search: Option<string>, showDirs: set<Path>,
                         style: Style, formatSize: nat -> string)
    requires BelowRoot(entries)
    ensures var shown := Shown(entries, search, showDirs);
            var lines := Lines(entries, search, showDirs, style, formatSize);
            var offset := if style.rootMarker then 1 else 0;
            |lines| == offset + |shown| &&
            (style.rootMarker ==> lines[0] == MARKER) &&
            forall j :: 0 <= j < |shown| ==> lines[offset + j] == EntryLine(shown[j], shown[j].depth, style, formatSize)
  {
    TreeLinesFollowShown(entries, search, showDirs, style, formatSize);
    var tree := TreeLines(entries, search, showDirs, style, formatSize);
    var lines := Lines(entries, search, showDirs, style, formatSize);
    var offset := if style.rootMarker then 1 else 0;
    assert lines == (if style.rootMarker then [MARKER] else []) + tree;
    assert forall j :: 0 <= j < |tree| ==> lines[offset + j] == tree[j];
  }

  predicate StartsWith(s: string, prefix: string) {
    |prefix| <= |s| && s[..|prefix|] == prefix
  }

  /** The front ends agree: whatever their styles, after the marker they write
      the same number of lines, and line j of each shows the same entry, at
      the same indentation, under the same name. */
  lemma VariantsAgree(entries: seq<Entry>, search: Option<string>, showDirs: set<Path>,
                      s1: Style, s2: Style, formatSize: nat -> string, j: nat)
    requires BelowRoot(entries)
    requires j < |Shown(entries, search, showDirs)|
    ensures var shown := Shown(entries, search, showDirs);
            var l1 := Lines(entries, search, showDirs, s1, formatSize);
            var l2 := Lines(entries, search, showDirs, s2, formatSize);
            var o1 := if s1.rootMarker then 1 else 0;
            var o2 := if s2.rootMarker then 1 else 0;
            var e := shown[j];
            |l1| == o1 + |shown| && |l2| == o2 + |shown| && e in entries &&
            StartsWith(Erase(l1[o1 + j]), Indent(e.depth) + e.name.text) &&
            StartsWith(Erase(l2[o2 + j]), Indent(e.depth) + e.name.text)
  {
    LinesFollowShown(entries, search, showDirs, s1, formatSize);
    LinesFollowShown(entries, search, showDirs, s2, formatSize);
    var shown := Shown(entries, search, showDirs);
    ShownMembers(entries, search, showDirs, shown[j]);
    EntryLineText(shown[j], shown[j].depth, s1, formatSize);
    EntryLineText(shown[j], shown[j].depth, s2, formatSize);
  }

  /** An output sink: a terminal or a file, seen as the lines written so far. */
  class Sink {
    var lines: seq<Line>

    constructor ()
      ensures lines == []
    {
      lines := [];
    }

    /** `writeln!` / `println!`: appends one line. */
    method WriteLine(line: Line)
      modifies this
      ensures lines == old(lines) + [line]
    {
      lines := lines + [line];
    }
  }

  /** `print_entry` / `output_line`: indentation, the name (blue for a
      directory, green for a file when coloured), then "/" or the size. */
  method OutputLine(writer: Sink, e: Entry, depth: nat, style: Style, formatSize: nat -> string)
    requires depth >= 1
    modifies writer
    ensures writer.lines == old(writer.lines) + [EntryLine(e, depth, style, formatSize)]
  {
    var indent := if depth == 1 then "" else Repeat(CONTINUATION, depth - 2) + BRANCH;
    var fileName := e.name.text;
    if e.isDir {
      writer.WriteLine([Plain(indent), Paint(style.colour, Blue, fileName), Plain("/")]);
    } else if style.sizes {
      var size := SizeOrZero(e.size);
      var humanSize := formatSize(size);
      writer.WriteLine([Plain(indent), Paint(style.colour, Green, fileName), Plain(" ("),
                        Paint(style.colour, Yellow, humanSize), Plain(")")]);
    } else {
      writer.WriteLine([Plain(indent), Paint(style.colour, Green, fileName)]);
    }
  }

  /** The print loop shared by every front end: the root marker when the
      style asks for it, then, for each entry in order, its line when the
      visibility rule lets it through. */
  method RenderTree(writer: Sink, entries: seq<Entry>, showDirs: set<Path>, search: Option<string>,
                    style: Style, formatSize: nat -> string)
    requires BelowRoot(entries)
    modifies writer
    ensures writer.lines == old(writer.lines) + Lines(entries, search, showDirs, style, formatSize)
  {
    ghost var written: seq<Line> := [];
    if style.rootMarker {
      writer.WriteLine(MARKER);
      written := [MARKER];
    }
    for i := 0 to |entries|
      invariant written == Lines(entries[..i], search, showDirs, style, formatSize)
      invariant writer.lines == old(writer.lines) + written
    {
      var entry := entries[i];
      LinesStep(entries, i, search, showDirs, style, formatSize);
      var depth := entry.depth;
      var fileName := entry.name.text;
      var shouldPrint := match search
        case None => true
        case Some(pattern) => Contains(Lower(fileName), pattern) || entry.path in showDirs;
      if shouldPrint {
        OutputLine(writer, entry, depth, style, formatSize);
        written := written + [EntryLine(entry, depth, style, formatSize)];
      }
    }
    assert entries[..|entries|] == entries;
  }

  /** `print_tree`: the visible entries to the terminal, coloured, with sizes. */
  method PrintTree(stdout: Sink, entries: seq<Entry>, showDirs: set<Path>, search: Option<string>,
                   formatSize: nat -> string)
    requires BelowRoot(entries)
    modifies stdout
    ensures stdout.lines == old(stdout.lines) + Lines(entries, search, showDirs, PRINT_STYLE, formatSize)
  {
    RenderTree(stdout, entries, showDirs, search, PRINT_STYLE, formatSize);
  }

  /** `output_tree`: the visible entries to any writer, with sizes, coloured
      when `useColour` holds; no root marker. */
  method OutputTree(writer: Sink, entries: seq<Entry>, showDirs: set<Path>, search: Option<string>,
                    useColour: bool, formatSize: nat -> string)
    requires BelowRoot(entries)
    modifies writer
    ensures writer.lines == old(writer.lines) + Lines(entries, search, showDirs, OutputStyle(useColour), formatSize)
  {
    RenderTree(writer, entries, showDirs, search, OutputStyle(useColour), formatSize);
  }

  function NoSize(size: nat): string {
    ""
  }

  /** `export_tree_to_file`: a freshly created file holding "." and then one
      plain line per visible entry: indentation, name, and "/" for a
      directory; files carry no size. */
  method ExportTreeToFile(entries: seq<Entry>, showDirs: set<Path>, search: Option<string>)
    returns (file: seq<string>)
    requires BelowRoot(entries)
    ensures var shown := Shown(entries, search, showDirs);
            |file| == 1 + |shown| && file[0] == "." &&
            forall j :: 0 <= j < |shown| ==>
              file[1 + j] == Indent(shown[j].depth) + shown[j].name.text + if shown[j].isDir then "/" else ""
  {
    var sink := new Sink();
    RenderTree(sink, entries, showDirs, search, EXPORT_STYLE, NoSize);
    var lines := sink.lines;
    file := seq(|lines|, i requires 0 <= i < |lines| => Erase(lines[i]));
    LinesFollowShown(entries, search, showDirs, EXPORT_STYLE, NoSize);
    var shown := Shown(entries, search, showDirs);
    forall j | 0 <= j < |shown|
      ensures file[1 + j] == Indent(shown[j].depth) + shown[j].name.text + if shown[j].isDir then "/" else ""
    {
      EntryLineText(shown[j], shown[j].depth, EXPORT_STYLE, NoSize);
    }
  }
}
