/**
 * `decorate(text, block)`: the Slate decoration rule of the Prism plugin.
 * It looks up the block's grammar, returns the node's characters unchanged
 * when there is none, and otherwise tokenizes the block's texts joined with
 * '\n', locates the node's text in the joined string by its FIRST occurrence,
 * and walks the top-level tokens from offset 0 with an empty label.
 *
 * Prism's grammar lookup and tokenizer are parameters: `grammar` is the
 * result of the lookup and `tokenize` stands for `Prism.tokenize`.
 */
module Decorator {
  import opened Options
  import opened Strings
  import opened Tokens
  import opened Characters
  import opened Walker

  /** `string.indexOf(text.text)` with `string` the block's texts joined by '\n'. */
  function TextStart(node: seq<Character>, blockTexts: seq<string>): (r: int)
    ensures -1 <= r
    ensures r != -1 ==> OccursAt(Join(blockTexts, "\n"), TextOf(node), r)
  {
    IndexOf(Join(blockTexts, "\n"), TextOf(node))
  }

  /** The tokens Prism produces for the joined block string. */
  function BlockTokens<G>(blockTexts: seq<string>, g: G, tokenize: (string, G) -> seq<Token>): seq<Token> {
    tokenize(Join(blockTexts, "\n"), g)
  }

  /**
   * The decorated characters of `node`. Always one entry per input
   * character, with the same code unit; marks are only ever added; an
   * unknown grammar leaves the characters untouched.
   */
  function Decorate<G>(node: seq<Character>, blockTexts: seq<string>,
                       grammar: Option<G>, tokenize: (string, G) -> seq<Token>): (r: seq<Character>)
    ensures |r| == |node|
    ensures grammar.None? ==> r == node
    ensures forall i :: 0 <= i < |node| ==> r[i].ch == node[i].ch && node[i].marks <= r[i].marks
  {
    match grammar
    case None => node
    case Some(g) =>
      ProcessSeq(BlockTokens(blockTexts, g, tokenize), "", TextStart(node, blockTexts), State(0, node)).chars
  }

  /**
   * With a grammar, character `i` of the node receives exactly the class
   * names of the labelled leaves whose absolute range covers
   * `textStart + i`; every other mark it had is kept.
   */
  lemma DecorateMarks<G>(node: seq<Character>, blockTexts: seq<string>, g: G, tokenize: (string, G) -> seq<Token>)
    ensures forall i :: 0 <= i < |node| ==>
              Decorate(node, blockTexts, Some(g), tokenize)[i].marks
              == node[i].marks + LabelsAt(SeqRuns(BlockTokens(blockTexts, g, tokenize), "", 0), TextStart(node, blockTexts) + i)
  {
    ProcessSeqMarks(BlockTokens(blockTexts, g, tokenize), "", TextStart(node, blockTexts), State(0, node));
  }

  /**
   * Each character gains at most one Prism class name, the one of the single
   * leaf covering it; a character whose absolute position lies outside the
   * tokenized range `[0, SeqLength(tokens))`, or under a top-level plain
   * string, gains none.
   */
  lemma DecorateAtMostOneMark<G>(node: seq<Character>, blockTexts: seq<string>, g: G, tokenize: (string, G) -> seq<Token>, i: int)
    requires 0 <= i < |node|
    ensures var added := Decorate(node, blockTexts, Some(g), tokenize)[i].marks - node[i].marks;
            |added| <= 1
    ensures var p := TextStart(node, blockTexts) + i;
            !(0 <= p < SeqLength(BlockTokens(blockTexts, g, tokenize))) ==>
              Decorate(node, blockTexts, Some(g), tokenize)[i] == node[i]
  {
    var tokens := BlockTokens(blockTexts, g, tokenize);
    var runs := SeqRuns(tokens, "", 0);
    var p := TextStart(node, blockTexts) + i;
    var r := Decorate(node, blockTexts, Some(g), tokenize);
    DecorateMarks(node, blockTexts, g, tokenize);
    SeqRunsTile(tokens, "", 0);
    TiledLabelsAt(runs, 0, SeqLength(tokens), p);
    assert r[i].marks - node[i].marks <= LabelsAt(runs, p);
    SubsetCardinality(r[i].marks - node[i].marks, LabelsAt(runs, p));
  }

  lemma SubsetCardinality(a: set<string>, b: set<string>)
    requires a <= b
    ensures |a| <= |b|
  {
    assert b == a + (b - a);
  }

  /**
   * Every class name the decoration adds is "prism-token token " followed by
   * the accumulated label of the leaf covering the character.
   */
  lemma DecorateMarksArePrismTokens<G>(node: seq<Character>, blockTexts: seq<string>, g: G, tokenize: (string, G) -> seq<Token>)
    ensures forall i, m :: 0 <= i < |node| && m in Decorate(node, blockTexts, Some(g), tokenize)[i].marks - node[i].marks ==>
              ClassName("") <= m
  {
    var tokens := BlockTokens(blockTexts, g, tokenize);
    DecorateMarks(node, blockTexts, g, tokenize);
    SeqRunsLabels(tokens, "", 0);
    forall i, m | 0 <= i < |node| && m in Decorate(node, blockTexts, Some(g), tokenize)[i].marks - node[i].marks
      ensures ClassName("") <= m
    {
      LabelsAtFromRun(SeqRuns(tokens, "", 0), TextStart(node, blockTexts) + i, m);
    }
  }

  /** A label at a position comes from a labelled run of the list. */
  lemma {:induction false} LabelsAtFromRun(runs: seq<Run>, p: int, m: string)
    requires m in LabelsAt(runs, p)
    ensures exists r :: r in runs && r.mark == Some(m) && r.start <= p < r.end
    decreases |runs|
  {
    if m !in LabelsAt(runs[1..], p) {
      assert runs[0] in runs;
    } else {
      LabelsAtFromRun(runs[1..], p, m);
      var r :| r in runs[1..] && r.mark == Some(m) && r.start <= p < r.end;
      assert r in runs;
    }
  }

  /**
   * When the node is fragment `k` of its block, the start used for it is a
   * real occurrence no later than the fragment's own offset in the joined
   * string; an earlier fragment with the same text takes precedence.
   */
  lemma TextStartOfFragment(node: seq<Character>, blockTexts: seq<string>, k: nat)
    requires k < |blockTexts|
    requires TextOf(node) == blockTexts[k]
    ensures 0 <= TextStart(node, blockTexts) <= PartStart(blockTexts, "\n", k)
    ensures OccursAt(Join(blockTexts, "\n"), TextOf(node), TextStart(node, blockTexts))
  {
    IndexOfPartAtMostItsStart(blockTexts, "\n", k);
  }
}
