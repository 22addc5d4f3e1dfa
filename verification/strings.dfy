/**
 * The two string primitives the decorator relies on: `Array.prototype.join`
 * over the block's texts and `String.prototype.indexOf` to find the decorated
 * text inside the joined string. Strings are sequences of UTF-16 code units,
 * modelled as `seq<char>`.
 */
module Strings {

  /** `needle` occurs in `hay` starting at index `k`. */
  predicate OccursAt(hay: string, needle: string, k: int) {
    0 <= k && k + |needle| <= |hay| && hay[k..k + |needle|] == needle
  }

  /**
   * `hay.indexOf(needle, from)`: the first index at or after `from` where
   * `needle` occurs, or -1 when there is none.
   */
  function IndexFrom(hay: string, needle: string, from: nat): (r: int)
    decreases |hay| - from
    ensures r == -1 || (from <= r && OccursAt(hay, needle, r))
    ensures forall k :: from <= k && (r == -1 || k < r) ==> !OccursAt(hay, needle, k)
  {
    if from + |needle| > |hay| then -1
    else if hay[from..from + |needle|] == needle then from
    else IndexFrom(hay, needle, from + 1)
  }

  /** `hay.indexOf(needle)`: the FIRST occurrence, or -1 when `needle` is absent. */
  function IndexOf(hay: string, needle: string): (r: int)
    ensures -1 <= r
    ensures r == -1 <==> forall k :: !OccursAt(hay, needle, k)
    ensures r != -1 ==> OccursAt(hay, needle, r)
    ensures forall k :: 0 <= k < r ==> !OccursAt(hay, needle, k)
  {
    IndexFrom(hay, needle, 0)
  }

  /** `parts.join(sep)`; the empty list joins to the empty string. */
  function Join(parts: seq<string>, sep: string): string
  {
    if |parts| == 0 then ""
    else if |parts| == 1 then parts[0]
    else parts[0] + sep + Join(parts[1..], sep)
  }

  /** Where part `k` begins in `Join(parts, sep)`: the preceding parts plus one separator each. */
  function PartStart(parts: seq<string>, sep: string, k: nat): nat
    requires k < |parts|
  {
    if k == 0 then 0 else |parts[0]| + |sep| + PartStart(parts[1..], sep, k - 1)
  }

  /** Every part of a join occurs in the joined string at its own start. */
  lemma {:induction false} JoinContainsPart(parts: seq<string>, sep: string, k: nat)
    requires k < |parts|
    ensures OccursAt(Join(parts, sep), parts[k], PartStart(parts, sep, k))
  {
    var j := Join(parts, sep);
    if k == 0 {
      if |parts| > 1 {
        assert j == parts[0] + (sep + Join(parts[1..], sep));
        assert j[0..|parts[0]|] == parts[0];
      }
    } else {
      var rest := Join(parts[1..], sep);
      var head := parts[0] + sep;
      JoinContainsPart(parts[1..], sep, k - 1);
      var s := PartStart(parts[1..], sep, k - 1);
      assert j == head + rest;
      assert parts[1..][k - 1] == parts[k];
      assert j[|head| + s..|head| + s + |parts[k]|] == rest[s..s + |parts[k]|];
    }
  }

  /**
   * Searching the joined string for a part finds it no later than the part's
   * own start: an earlier part (or a span across a separator) with the same
   * text wins.
   */
  lemma IndexOfPartAtMostItsStart(parts: seq<string>, sep: string, k: nat)
    requires k < |parts|
    ensures 0 <= IndexOf(Join(parts, sep), parts[k]) <= PartStart(parts, sep, k)
  {
    JoinContainsPart(parts, sep, k);
  }
}
