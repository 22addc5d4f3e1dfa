/**
 * processToken: the depth-first walk over Prism's token tree. One running
 * offset is threaded through the walk; a label accumulates the category and
 * alias of every typed ancestor; each leaf is handed to addMark with its
 * absolute range `[offset, offset + length)` in the joined block string.
 *
 * Beside the walk itself this module gives an independent description of
 * what it does: the list of leaf runs (range and label) in visiting order.
 * The lemmas show that the runs tile the covered text contiguously, that
 * labels extend their ancestors' labels, and that the walk's effect on each
 * character is exactly the set of labels of the runs covering it.
 */
module Walker {
  import opened Options
  import opened Tokens
  import opened Characters

  /** The walk's mutable state: the running offset and the character buffer. */
  datatype State = State(offset: int, chars: seq<Character>)

  /** The class name addMark receives for an accumulated label. */
  function ClassName(accu: string): string {
    "prism-token token " + accu
  }

  /** The label one typed level adds: `accu + ' ' + type + ' ' + (alias || '')`. */
  function Extend(accu: string, kind: string, alias: Option<string>): (r: string)
    ensures accu <= r
    ensures r != ""
  {
    accu + " " + kind + " " + alias.GetOr("")
  }

  /**
   * processToken(token, accu). A plain string is marked only under a
   * non-empty label; a typed leaf is always marked; a typed token with
   * nested content passes its extended label to its children in order.
   */
  function ProcessToken(t: Token, accu: string, textStart: int, st: State): (r: State)
    decreases t
    ensures r.offset == st.offset + Length(t)
    ensures |r.chars| == |st.chars|
    ensures forall i :: 0 <= i < |st.chars| ==>
              r.chars[i].ch == st.chars[i].ch && st.chars[i].marks <= r.chars[i].marks
    ensures t.Str? && accu == "" ==> r.chars == st.chars
  {
    match t
    case Str(s) =>
      var cs := if accu != "" then AddMark(st.chars, textStart, st.offset, st.offset + |s|, ClassName(accu))
                else st.chars;
      State(st.offset + |s|, cs)
    case Typed(kind, alias, content) =>
      var accu' := Extend(accu, kind, alias);
      match content
      case Leaf(s) =>
        State(st.offset + |s|, AddMark(st.chars, textStart, st.offset, st.offset + |s|, ClassName(accu')))
      case Nested(children) =>
        ProcessSeq(children, accu', textStart, st)
  }

  /** The loops `for (i ...) processToken(tokens[i], accu)`, over children or over the top-level list. */
  function ProcessSeq(ts: seq<Token>, accu: string, textStart: int, st: State): (r: State)
    decreases ts
    ensures r.offset == st.offset + SeqLength(ts)
    ensures |r.chars| == |st.chars|
    ensures forall i :: 0 <= i < |st.chars| ==>
              r.chars[i].ch == st.chars[i].ch && st.chars[i].marks <= r.chars[i].marks
  {
    if ts == [] then st
    else ProcessSeq(ts[1..], accu, textStart, ProcessToken(ts[0], accu, textStart, st))
  }

  // ---------------------------------------------------------------------
  // Reference description: the leaf runs in visiting order
  // ---------------------------------------------------------------------

  /** One leaf as the walk sees it: its absolute range and the class name it gets, if any. */
  datatype Run = Run(start: int, end: int, mark: Option<string>)

  /** The runs of one token whose first character sits at `offset`. */
  function TokenRuns(t: Token, accu: string, offset: int): seq<Run>
    decreases t
  {
    match t
    case Str(s) =>
      [Run(offset, offset + |s|, if accu != "" then Some(ClassName(accu)) else None)]
    case Typed(kind, alias, Leaf(s)) =>
      [Run(offset, offset + |s|, Some(ClassName(Extend(accu, kind, alias))))]
    case Typed(kind, alias, Nested(children)) =>
      SeqRuns(children, Extend(accu, kind, alias), offset)
  }

  /** The runs of a token list laid end to end from `offset`. */
  function SeqRuns(ts: seq<Token>, accu: string, offset: int): seq<Run>
    decreases ts
  {
    if ts == [] then []
    else TokenRuns(ts[0], accu, offset) + SeqRuns(ts[1..], accu, offset + Length(ts[0]))
  }

  /** `runs` cover `[from, to)` left to right, each starting where the previous one ended. */
  predicate Tiles(runs: seq<Run>, from: int, to: int)
    decreases |runs|
  {
    if runs == [] then from == to
    else runs[0].start == from && from <= runs[0].end && Tiles(runs[1..], runs[0].end, to)
  }

  /** The class names of the labelled runs that cover absolute position `p`. */
  function LabelsAt(runs: seq<Run>, p: int): set<string>
    decreases |runs|
  {
    if runs == [] then {}
    else
      (if runs[0].mark.Some? && runs[0].start <= p < runs[0].end then {runs[0].mark.value} else {})
      + LabelsAt(runs[1..], p)
  }

  lemma {:induction false} TilesAppend(x: seq<Run>, y: seq<Run>, a: int, b: int, c: int)
    requires Tiles(x, a, b)
    requires Tiles(y, b, c)
    ensures Tiles(x + y, a, c)
    decreases |x|
  {
    if x == [] {
      assert x + y == y;
    } else {
      TilesAppend(x[1..], y, x[0].end, b, c);
      assert (x + y)[0] == x[0];
      assert (x + y)[1..] == x[1..] + y;
    }
  }

  lemma {:induction false} LabelsAtAppend(x: seq<Run>, y: seq<Run>, p: int)
    ensures LabelsAt(x + y, p) == LabelsAt(x, p) + LabelsAt(y, p)
    decreases |x|
  {
    if x == [] {
      assert x + y == y;
    } else {
      LabelsAtAppend(x[1..], y, p);
      assert (x + y)[0] == x[0];
      assert (x + y)[1..] == x[1..] + y;
    }
  }

  /** The leaves of a token occupy `[offset, offset + Length(t))` contiguously, left to right. */
  lemma {:induction false} TokenRunsTile(t: Token, accu: string, offset: int)
    ensures Tiles(TokenRuns(t, accu, offset), offset, offset + Length(t))
    decreases t
  {
    match t
    case Str(s) =>
    case Typed(kind, alias, Leaf(s)) =>
    case Typed(kind, alias, Nested(children)) =>
      SeqRunsTile(children, Extend(accu, kind, alias), offset);
  }

  /** The leaves of a token list occupy `[offset, offset + SeqLength(ts))` contiguously, left to right. */
  lemma {:induction false} SeqRunsTile(ts: seq<Token>, accu: string, offset: int)
    ensures Tiles(SeqRuns(ts, accu, offset), offset, offset + SeqLength(ts))
    decreases ts
  {
    if ts != [] {
      var mid := offset + Length(ts[0]);
      TokenRunsTile(ts[0], accu, offset);
      SeqRunsTile(ts[1..], accu, mid);
      TilesAppend(TokenRuns(ts[0], accu, offset), SeqRuns(ts[1..], accu, mid), offset, mid, offset + SeqLength(ts));
    }
  }

  /** In a tiling no position is covered twice, and nothing outside `[from, to)` is covered. */
  lemma {:induction false} TiledLabelsAt(runs: seq<Run>, from: int, to: int, p: int)
    requires Tiles(runs, from, to)
    ensures |LabelsAt(runs, p)| <= 1
    ensures !(from <= p < to) ==> LabelsAt(runs, p) == {}
    decreases |runs|
  {
    if runs != [] {
      TiledLabelsAt(runs[1..], runs[0].end, to, p);
      TilesStartsBefore(runs[1..], runs[0].end, to);
      if runs[0].start <= p < runs[0].end {
        assert LabelsAt(runs[1..], p) == {};
      }
    }
  }

  lemma {:induction false} TilesStartsBefore(runs: seq<Run>, from: int, to: int)
    requires Tiles(runs, from, to)
    ensures from <= to
    decreases |runs|
  {
    if runs != [] {
      TilesStartsBefore(runs[1..], runs[0].end, to);
    }
  }

  /** Prefix `<=` on strings is transitive. */
  lemma PrefixTrans(a: string, b: string, c: string)
    requires a <= b && b <= c
    ensures a <= c
  {
  }

  /** Extending a label keeps the old class name as a prefix of the new one. */
  lemma ExtendKeepsPrefix(accu: string, kind: string, alias: Option<string>)
    ensures ClassName(accu) <= ClassName(Extend(accu, kind, alias))
    ensures Extend(accu, kind, alias) != ""
  {
  }

  /**
   * Every leaf below `t` whose label is absent sits directly under an empty
   * label, and every present label starts with the class name of `accu`;
   * below a typed token every leaf is labelled and its label starts with the
   * typed token's own extended class name.
   */
  lemma {:induction false} TokenRunsLabels(t: Token, accu: string, offset: int)
    ensures forall r :: r in TokenRuns(t, accu, offset) ==>
              (r.mark.None? ==> accu == "") && (r.mark.Some? ==> ClassName(accu) <= r.mark.value)
    ensures t.Typed? ==> forall r :: r in TokenRuns(t, accu, offset) ==>
              r.mark.Some? && ClassName(Extend(accu, t.kind, t.alias)) <= r.mark.value
    decreases t
  {
    match t
    case Str(s) =>
    case Typed(kind, alias, Leaf(s)) =>
      ExtendKeepsPrefix(accu, kind, alias);
    case Typed(kind, alias, Nested(children)) =>
      var accu' := Extend(accu, kind, alias);
      ExtendKeepsPrefix(accu, kind, alias);
      SeqRunsLabels(children, accu', offset);
      forall r | r in TokenRuns(t, accu, offset)
        ensures r.mark.Some? && ClassName(accu) <= r.mark.value
      {
        PrefixTrans(ClassName(accu), ClassName(accu'), r.mark.value);
      }
  }

  /** The label facts of `TokenRunsLabels`, for every leaf of a token list. */
  lemma {:induction false} SeqRunsLabels(ts: seq<Token>, accu: string, offset: int)
    ensures forall r :: r in SeqRuns(ts, accu, offset) ==>
              (r.mark.None? ==> accu == "") && (r.mark.Some? ==> ClassName(accu) <= r.mark.value)
    decreases ts
  {
    if ts != [] {
      TokenRunsLabels(ts[0], accu, offset);
      SeqRunsLabels(ts[1..], accu, offset + Length(ts[0]));
    }
  }

  /**
   * The walk over one token adds to character `i` exactly the labels of the
   * runs covering absolute position `textStart + i`, and nothing else.
   */
  lemma {:induction false} ProcessTokenMarks(t: Token, accu: string, textStart: int, st: State)
    ensures forall i :: 0 <= i < |st.chars| ==>
              ProcessToken(t, accu, textStart, st).chars[i]
              == Character(st.chars[i].ch, st.chars[i].marks + LabelsAt(TokenRuns(t, accu, st.offset), textStart + i))
    decreases t
  {
    match t
    case Str(s) =>
    case Typed(kind, alias, Leaf(s)) =>
    case Typed(kind, alias, Nested(children)) =>
      ProcessSeqMarks(children, Extend(accu, kind, alias), textStart, st);
  }

  /** The walk over a token list adds to each character exactly the labels of the runs covering it. */
  lemma {:induction false} ProcessSeqMarks(ts: seq<Token>, accu: string, textStart: int, st: State)
    ensures forall i :: 0 <= i < |st.chars| ==>
              ProcessSeq(ts, accu, textStart, st).chars[i]
              == Character(st.chars[i].ch, st.chars[i].marks + LabelsAt(SeqRuns(ts, accu, st.offset), textStart + i))
    decreases ts
  {
    if ts != [] {
      var mid := ProcessToken(ts[0], accu, textStart, st);
      ProcessTokenMarks(ts[0], accu, textStart, st);
      ProcessSeqMarks(ts[1..], accu, textStart, mid);
      forall i | 0 <= i < |st.chars|
        ensures ProcessSeq(ts, accu, textStart, st).chars[i]
                == Character(st.chars[i].ch, st.chars[i].marks + LabelsAt(SeqRuns(ts, accu, st.offset), textStart + i))
      {
        LabelsAtAppend(TokenRuns(ts[0], accu, st.offset), SeqRuns(ts[1..], accu, mid.offset), textStart + i);
      }
    }
  }
}
