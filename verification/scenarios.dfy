/**
 * Worked decorations on concrete blocks, derived from the general lemmas.
 * The tokenizer is a fixed function standing for what Prism returns for
 * the block's joined text.
 */
module Scenarios {
  import opened Options
  import opened Strings
  import opened Tokens
  import opened Characters
  import opened Walker
  import opened Decorator

  const Line := "var msg = 'Hello world';"

  /** A grammar that knows the keyword `var` and quoted strings. */
  const LineTokens := [
    Typed("keyword", None, Leaf("var")),
    Str(" msg = "),
    Typed("string", None, Leaf("'Hello world'")),
    Str(";")
  ]

  const KeywordClass := "prism-token token  keyword "
  const StringClass := "prism-token token  string "

  /** The leaves of the line: `var`, ` msg = `, the quoted string and `;`, tiling 0..24. */
  lemma LineRuns()
    ensures SeqRuns(LineTokens, "", 0) == [
              Run(0, 3, Some(KeywordClass)),
              Run(3, 10, None),
              Run(10, 23, Some(StringClass)),
              Run(23, 24, None)
            ]
  {
    var t := LineTokens;
    assert ClassName(Extend("", "keyword", None)) == KeywordClass;
    assert ClassName(Extend("", "string", None)) == StringClass;
    assert SeqRuns(t[1..][1..][1..][1..], "", 24) == [];
    assert SeqRuns(t[1..][1..][1..], "", 23) == [Run(23, 24, None)];
    assert SeqRuns(t[1..][1..], "", 10) == [Run(10, 23, Some(StringClass)), Run(23, 24, None)];
    assert SeqRuns(t[1..], "", 3) == [Run(3, 10, None), Run(10, 23, Some(StringClass)), Run(23, 24, None)];
  }

  /** The class name the line's leaves put on absolute position `p`. */
  lemma LineLabelsAt(p: int)
    ensures LabelsAt(SeqRuns(LineTokens, "", 0), p)
            == if 0 <= p < 3 then {KeywordClass} else if 10 <= p < 23 then {StringClass} else {}
  {
    LineRuns();
    var runs := SeqRuns(LineTokens, "", 0);
    var k := if 0 <= p < 3 then {KeywordClass} else {};
    var s := if 10 <= p < 23 then {StringClass} else {};
    assert LabelsAt(runs[3..], p) == {} by {
      assert runs[3..][1..] == [];
    }
    assert LabelsAt(runs[2..], p) == s by {
      assert runs[2..][1..] == runs[3..];
    }
    assert LabelsAt(runs[1..], p) == s by {
      assert runs[1..][1..] == runs[2..];
    }
    assert LabelsAt(runs, p) == k + s;
  }

  /** Marks equal to the line's labels position by position are the expected keyword/string pattern. */
  lemma LineMarks(r: seq<Character>)
    requires |r| == 24
    requires forall i :: 0 <= i < 24 ==> r[i].marks == LabelsAt(SeqRuns(LineTokens, "", 0), i)
    ensures forall i :: 0 <= i < 3 ==> r[i].marks == {KeywordClass}
    ensures forall i :: 3 <= i < 10 || i == 23 ==> r[i].marks == {}
    ensures forall i :: 10 <= i < 23 ==> r[i].marks == {StringClass}
  {
    forall i | 0 <= i < 24
      ensures r[i].marks == if 0 <= i < 3 then {KeywordClass} else if 10 <= i < 23 then {StringClass} else {}
    {
      LineLabelsAt(i);
    }
  }

  /** A node that is the only line of its block starts at 0. */
  lemma OnlyLineStartsAtZero(node: seq<Character>)
    ensures TextStart(node, [TextOf(node)]) == 0
  {
  }

  /**
   * Decorating the whole line marks exactly `var` (0..2) as a keyword and the
   * quoted string (10..22) as a string; spaces, `msg`, `=` and `;` stay bare.
   */
  lemma KeywordAndString<G>(node: seq<Character>, g: G, tokenize: (string, G) -> seq<Token>)
    requires TextOf(node) == Line
    requires forall i :: 0 <= i < |node| ==> node[i].marks == {}
    requires tokenize(Line, g) == LineTokens
    ensures var r := Decorate(node, [Line], Some(g), tokenize);
            && |r| == 24
            && (forall i :: 0 <= i < 3 ==> r[i].marks == {KeywordClass})
            && (forall i :: 3 <= i < 10 || i == 23 ==> r[i].marks == {})
            && (forall i :: 10 <= i < 23 ==> r[i].marks == {StringClass})
  {
    OnlyLineStartsAtZero(node);
    assert TextStart(node, [Line]) == 0;
    assert BlockTokens([Line], g, tokenize) == LineTokens;
    DecorateMarks(node, [Line], g, tokenize);
    var r := Decorate(node, [Line], Some(g), tokenize);
    assert |node| == 24;
    forall i | 0 <= i < 24
      ensures r[i].marks == LabelsAt(SeqRuns(LineTokens, "", 0), i)
    {
      assert r[i].marks == node[i].marks + LabelsAt(SeqRuns(LineTokens, "", 0), 0 + i);
    }
    LineMarks(r);
  }

  const Twins := ["ab", "ab"]
  const TwinTokens := [Str("ab\n"), Typed("k", None, Leaf("ab"))]
  const TwinClass := "prism-token token  k "

  /** The joined block "ab\nab" tiles as the plain "ab\n" then the typed "ab". */
  lemma TwinRuns()
    ensures SeqRuns(TwinTokens, "", 0) == [Run(0, 3, None), Run(3, 5, Some(TwinClass))]
  {
    assert ClassName(Extend("", "k", None)) == TwinClass;
    assert SeqRuns(TwinTokens[1..][1..], "", 5) == [];
    assert SeqRuns(TwinTokens[1..], "", 3) == [Run(3, 5, Some(TwinClass))];
  }

  /**
   * Two lines with the same text share the first one's start: decorating the
   * second "ab" reads the marks of the first, so it gets none, although the
   * leaf at the second line's own range [3, 5) is typed.
   */
  lemma RepeatedLineUsesFirstOccurrence<G>(node: seq<Character>, g: G, tokenize: (string, G) -> seq<Token>)
    requires TextOf(node) == "ab"
    requires tokenize(Join(Twins, "\n"), g) == TwinTokens
    ensures TextStart(node, Twins) == 0 < PartStart(Twins, "\n", 1) == 3
    ensures LabelsAt(SeqRuns(TwinTokens, "", 0), 3) == LabelsAt(SeqRuns(TwinTokens, "", 0), 4) == {TwinClass}
    ensures Decorate(node, Twins, Some(g), tokenize) == node
  {
    var joined := Join(Twins, "\n");
    assert joined == "ab\nab" by {
      assert Twins[1..] == ["ab"];
    }
    assert joined[0..2] == "ab";
    assert IndexFrom(joined, "ab", 0) == 0;
    assert TextStart(node, Twins) == 0;
    assert PartStart(Twins, "\n", 1) == 3 by {
      assert Twins[1..] == ["ab"];
    }
    TwinRuns();
    var runs := SeqRuns(TwinTokens, "", 0);
    assert runs[1..][1..] == [];
    assert LabelsAt(runs[1..], 3) == {TwinClass} + LabelsAt(runs[1..][1..], 3);
    assert LabelsAt(runs[1..], 4) == {TwinClass} + LabelsAt(runs[1..][1..], 4);
    assert LabelsAt(runs, 3) == {TwinClass};
    assert LabelsAt(runs, 4) == {TwinClass};
    DecorateMarks(node, Twins, g, tokenize);
    var r := Decorate(node, Twins, Some(g), tokenize);
    forall i | 0 <= i < 2
      ensures r[i] == node[i]
    {
      assert r[i].marks == node[i].marks + LabelsAt(runs, i);
    }
    assert r == node;
  }

  const CommentLines := ["/* a", "b */"]
  const CommentTokens := [Typed("comment", None, Leaf("/* a\nb */"))]
  const CommentClass := "prism-token token  comment "

  /** "b *\/" is first found at index 5 of the joined comment block. */
  lemma SecondLineStart(joined: string, needle: string)
    requires joined == "/* a\nb */"
    requires needle == "b */"
    ensures IndexOf(joined, needle) == 5
  {
    var t := IndexOf(joined, needle);
    assert joined[5..9] == "b */";
    assert OccursAt(joined, "b */", 5);
    forall k | 0 <= k < 5
      ensures !OccursAt(joined, "b */", k)
    {
      assert joined[k] != 'b';
      assert joined[k..k + 4][0] == joined[k];
    }
  }

  /** The single comment leaf covers `[0, 9)`, the whole joined block. */
  lemma CommentLabelsAt(p: int)
    ensures LabelsAt(SeqRuns(CommentTokens, "", 0), p) == if 0 <= p < 9 then {CommentClass} else {}
  {
    assert ClassName(Extend("", "comment", None)) == CommentClass;
    var runs := SeqRuns(CommentTokens, "", 0);
    assert runs == [Run(0, 9, Some(CommentClass))] by {
      assert CommentTokens[1..] == [];
    }
    assert runs[1..] == [];
  }

  /**
   * A comment leaf that starts on the first line and ends on the second is
   * clamped to the second line when that line is decorated: its start (0)
   * precedes the line's start (5), and all four characters are marked.
   */
  lemma CommentAcrossLines<G>(node: seq<Character>, g: G, tokenize: (string, G) -> seq<Token>)
    requires TextOf(node) == "b */"
    requires forall i :: 0 <= i < |node| ==> node[i].marks == {}
    requires tokenize(Join(CommentLines, "\n"), g) == CommentTokens
    ensures TextStart(node, CommentLines) == 5
    ensures forall i :: 0 <= i < |node| ==> Decorate(node, CommentLines, Some(g), tokenize)[i].marks == {CommentClass}
  {
    var joined := Join(CommentLines, "\n");
    assert joined == "/* a\nb */" by {
      assert CommentLines[1..] == ["b */"];
    }
    SecondLineStart(joined, TextOf(node));
    assert TextStart(node, CommentLines) == 5;
    assert BlockTokens(CommentLines, g, tokenize) == CommentTokens;
    DecorateMarks(node, CommentLines, g, tokenize);
    var r := Decorate(node, CommentLines, Some(g), tokenize);
    assert |node| == 4;
    forall i | 0 <= i < 4
      ensures r[i].marks == {CommentClass}
    {
      CommentLabelsAt(5 + i);
      assert r[i].marks == node[i].marks + LabelsAt(SeqRuns(CommentTokens, "", 0), 5 + i);
    }
  }
}
