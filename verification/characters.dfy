/**
 * The per-character buffer of a Slate text node and `addMark`, which adds a
 * class-name mark to the characters of the node that a leaf token covers.
 * A Slate mark is reduced to its class name.
 */
module Characters {
  import opened Options

  /** One Slate character: its code unit and the marks already on it. */
  datatype Character = Character(ch: char, marks: set<string>)

  /** The text of a node, which Slate derives from its characters. */
  function TextOf(cs: seq<Character>): (r: string)
    ensures |r| == |cs|
    ensures forall i :: 0 <= i < |cs| ==> r[i] == cs[i].ch
  {
    seq(|cs|, i requires 0 <= i < |cs| => cs[i].ch)
  }

  /** A character with one more mark; its code unit is kept. */
  function WithMark(c: Character, className: string): Character {
    c.(marks := c.marks + {className})
  }

  /**
   * The `for (let i = start; i < end; i++)` loop of addMark: every index it
   * writes must be an existing one.
   */
  function MarkRange(cs: seq<Character>, lo: int, hi: int, className: string): (r: seq<Character>)
    requires 0 <= lo
    requires hi <= |cs|
    decreases hi - lo
    ensures |r| == |cs|
    ensures forall i :: 0 <= i < |cs| ==>
              r[i] == if lo <= i < hi then WithMark(cs[i], className) else cs[i]
  {
    if lo >= hi then cs
    else MarkRange(cs[lo := WithMark(cs[lo], className)], lo + 1, hi, className)
  }

  /**
   * addMark for a node whose text begins at `textStart` in the joined block
   * string: a leaf spanning `[start, end)` of that string is ignored when it
   * misses `[textStart, textStart + |cs|)`; otherwise it is clamped to it,
   * shifted to node-local indices and marked. The clamp keeps every written
   * index inside the node for any `textStart`, even -1 (text not found).
   */
  function AddMark(cs: seq<Character>, textStart: int, start: int, end: int, className: string): (r: seq<Character>)
    ensures |r| == |cs|
    ensures start >= textStart + |cs| || end <= textStart ==> r == cs
    ensures forall i :: 0 <= i < |cs| ==>
              r[i] == if start <= textStart + i < end then WithMark(cs[i], className) else cs[i]
  {
    var textEnd := textStart + |cs|;
    if start >= textEnd || end <= textStart then cs
    else
      var lo := Max(start, textStart) - textStart;
      var hi := Min(end, textEnd) - textStart;
      MarkRange(cs, lo, hi, className)
  }
}
