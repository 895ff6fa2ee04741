/** String operations the renderer and the search rely on: case folding,
    substring search, `str::repeat`, and the tree indentation. */
module Text {

  predicate IsUpper(c: char) {
    'A' <= c <= 'Z'
  }

  function LowerChar(c: char): char {
    if IsUpper(c) then (c as int + 32) as char else c
  }

  /** Case folding, restricted to ASCII letters. */
  function Lower(s: string): (r: string)
    ensures |r| == |s|
    ensures forall i :: 0 <= i < |s| ==> r[i] == LowerChar(s[i])
    ensures forall i :: 0 <= i < |r| ==> !IsUpper(r[i])
  {
    if s == [] then [] else [LowerChar(s[0])] + Lower(s[1..])
  }

  /** Folding twice is folding once: a pattern the caller already folded is
      left as it is by a second fold. */
  lemma LowerIdempotent(s: string)
    ensures Lower(Lower(s)) == s <==> Lower(s) == s
    ensures Lower(Lower(s)) == Lower(s)
  {
    var l := Lower(s);
    assert forall i :: 0 <= i < |l| ==> LowerChar(l[i]) == l[i];
  }

  predicate OccursAt(s: string, p: string, i: nat) {
    i + |p| <= |s| && s[i..i + |p|] == p
  }

  /** `str::contains`: `p` occurs somewhere in `s` (the empty pattern occurs
      in every string). */
  function Contains(s: string, p: string): (r: bool)
    ensures r <==> exists i: nat :: OccursAt(s, p, i)
    decreases |s|
  {
    if |p| > |s| then false
    else if s[..|p|] == p then (assert OccursAt(s, p, 0); true)
    else
      var r := Contains(s[1..], p);
      assert r ==> exists i: nat :: OccursAt(s, p, i) by {
        if r {
          var i: nat :| OccursAt(s[1..], p, i);
          assert s[i + 1..i + 1 + |p|] == s[1..][i..i + |p|];
          assert OccursAt(s, p, i + 1);
        }
      }
      assert (exists i: nat :: OccursAt(s, p, i)) ==> r by {
        if exists i: nat :: OccursAt(s, p, i) {
          var i: nat :| OccursAt(s, p, i);
          assert i != 0;
          assert s[1..][i - 1..i - 1 + |p|] == s[i..i + |p|];
          assert OccursAt(s[1..], p, i - 1);
        }
      }
      r
  }

  /** A pattern holding an upper-case letter never occurs in a folded string;
      a search that forgets to fold its pattern matches no name. */
  lemma UnfoldedPatternNeverMatches(s: string, p: string, k: nat)
    requires k < |p| && IsUpper(p[k])
    ensures !Contains(Lower(s), p)
  {
  }

  /** `str::repeat`. */
  function Repeat(s: string, n: nat): (r: string)
    ensures |r| == n * |s|
  {
    if n == 0 then "" else s + Repeat(s, n - 1)
  }

  const CONTINUATION: string := "|  "
  const BRANCH: string := "├─ "

  /** The prefix written before an entry at `depth`: nothing for the root's
      children, otherwise `depth - 2` continuation markers then one branch
      glyph. Depth 0 is excluded: the source would underflow `depth - 2`. */
  function Indent(depth: nat): (r: string)
    requires depth >= 1
    ensures |r| == 3 * (depth - 1)
    ensures depth >= 2 ==> r[|r| - 3..] == BRANCH
  {
    if depth == 1 then "" else Repeat(CONTINUATION, depth - 2) + BRANCH
  }

  /** One level deeper adds exactly one continuation marker in front. */
  lemma IndentNests(depth: nat)
    requires depth >= 2
    ensures Indent(depth + 1) == CONTINUATION + Indent(depth)
  {
    assert Repeat(CONTINUATION, depth - 1) == CONTINUATION + Repeat(CONTINUATION, depth - 2);
  }
}
