# slate-prism decoration, modelled in Dafny

slate-prism is a Slate editor plugin that highlights code blocks with Prism.
Its one piece of logic is the `decorate` rule. `decorate` takes one text node
of a code block and returns the node's characters with a `prism-token` mark
on every character that a Prism token covers.

What `decorate` does, and how this model follows it:

1. It looks up the block's grammar. With no grammar, it returns the
   characters unchanged.
2. It joins the texts of the block with `'\n'`. It then places the node in
   the joined string at the FIRST occurrence of the node's text
   (`indexOf`).
3. It tokenizes the joined string with Prism. It walks the token tree depth
   first with one running offset (`processToken`). Each typed level extends
   an accumulated label by `' ' + type + ' ' + (alias || '')`.
4. For each leaf it intersects the leaf's absolute range with the node's
   range. It shifts the overlap to node-local indices and adds the class
   name `'prism-token token ' + label` to each character there (`addMark`).

The model is functional:

- The token tree is a datatype (`Tokens.Token`).
- The character list is `seq<Character>`. A Slate mark is reduced to its
  class name, so each character has a `set<string>` of marks.
- The walk threads a `State(offset, chars)` value
  (`Walker.ProcessToken` / `Walker.ProcessSeq`).
- A second description of the walk lists its leaf runs: the absolute range
  of each leaf and the class name it gets (`Walker.TokenRuns`). The lemmas
  connect the two descriptions. The runs tile the tokenized text without
  gaps. Labels extend their ancestors' labels. Each character receives
  exactly the labels of the runs that cover its absolute position.

Two behaviours of the code are kept as written:

- Two lines with the same text share the start of the first one
  (`Scenarios.RepeatedLineUsesFirstOccurrence`).
- When the node's text is not found, the start is -1. The clamp in
  `addMark` still keeps every write inside the node (`Characters.AddMark`
  has no precondition).

lib/index.js tokenizes the whole joined block. It has no per-line mode
and no block cache. The node's start comes from `indexOf`, not from the
node's position in the block.

## Model

| member | source | states |
|---|---|---|
| Strings.IndexOf | lib/index.js:58 | `indexOf` returns -1 exactly when the text occurs nowhere. Otherwise it returns an index where the text occurs, with no occurrence before it. |
| Strings.JoinContainsPart | lib/index.js:57 | In the joined string, each line occurs at its own start: the lengths of the lines before it plus one separator each. |
| Strings.IndexOfPartAtMostItsStart | lib/index.js:57-58 | Searching the joined string for a line finds it, at or before that line's own start. |
| Strings.Join | lib/index.js:57 | `Join(parts, sep)` is `parts.join(sep)`: the parts in order with `sep` between neighbours; no parts join to `""`. |
| Decorator.TextStart | lib/index.js:58 | `TextStart(node, blockTexts)` is `indexOf` of the node's text in the block's texts joined with `'\n'`; it is -1 or an index where that text occurs. |
| Decorator.BlockTokens | lib/index.js:57-63 | `BlockTokens(blockTexts, g, tokenize)` is the tokenizer applied to the block's texts joined with `'\n'`. |
| Walker.ClassName | lib/index.js:94-103 | `ClassName(accu)` is `"prism-token token " + accu`, the class name handed to addMark. |
| Walker.Extend | lib/index.js:100 | `Extend(accu, kind, alias)` is `accu + " " + kind + " " + (alias or "")`; the old label is a prefix of the result and the result is never empty. |
| Decorator.TextStartOfFragment | lib/index.js:57-60 | For a node that is line `k` of its block, `textStart` is a real occurrence of the node's text. It is never later than line `k`'s own offset. |
| Characters.MarkRange | lib/index.js:80-86 | The write loop keeps the buffer length. It adds the class name to exactly the indices in `[lo, hi)`, and each of those must be an existing index. Every other character is unchanged. |
| Characters.AddMark | lib/index.js:66-87 | A leaf that misses the node's range leaves the buffer unchanged. Otherwise character `i` gets the class name exactly when its absolute position `textStart + i` lies in the leaf's range. This holds for any `textStart`, so every write is in range. |
| Walker.ProcessToken | lib/index.js:89-114 | `offset` advances by exactly the token's total leaf length. The buffer length and every character's code unit are kept. Marks are only added. A plain string under an empty label adds no mark. |
| Walker.ProcessSeq | lib/index.js:109-111 | For a list of tokens walked in order, `offset` advances by the sum of their lengths. The buffer keeps its length and code units, and marks only grow. |
| Walker.TokenRunsTile | lib/index.js:92-112 | A token's leaves cover `[offset, offset + length)` left to right, each starting where the previous one ended. |
| Walker.SeqRunsTile | lib/index.js:109-118 | The leaves of a token list, and of the top-level list, tile `[offset, offset + total length)` contiguously, with no gaps and no overlap. |
| Walker.TiledLabelsAt | lib/index.js:92-118 | Within such a tiling, no position is covered by two leaves. No position outside the tiled range is covered at all. |
| Walker.TokenRunsLabels | lib/index.js:90-110 | An unlabelled leaf only occurs under an empty label. Every label starts with the parent's class name. Below a typed token, every leaf is labelled and its label starts with the typed token's own extended class name. |
| Walker.SeqRunsLabels | lib/index.js:109-118 | For every leaf of a token list, the label is absent only under an empty label, and a present label starts with the list's class name. |
| Walker.ProcessTokenMarks | lib/index.js:89-114 | Walking one token adds to character `i` exactly the labels of the leaves covering `textStart + i`, and nothing else. |
| Walker.ProcessSeqMarks | lib/index.js:109-118 | Walking a token list adds to each character exactly the labels of the leaves covering it. |
| Decorator.Decorate | lib/index.js:48-121 | The result has one entry per input character, with the same code units. Marks are only added. With no grammar, the characters come back unchanged. |
| Decorator.DecorateMarks | lib/index.js:56-120 | With a grammar, character `i` keeps its old marks. It gains exactly the class names of the labelled leaves whose absolute range covers `textStart + i`. |
| Decorator.DecorateAtMostOneMark | lib/index.js:63-118 | Each character gains at most one Prism class name. A character whose absolute position lies outside the tokenized text gains none. |
| Decorator.DecorateMarksArePrismTokens | lib/index.js:94-103 | Every mark the decoration adds starts with `"prism-token token "`. |
| Scenarios.KeywordAndString | lib/index.js:48-121 | For `var msg = 'Hello world';` with a keyword leaf and a string leaf, only indices 0..2 and 10..22 are marked, each with its own path. The spaces, `msg`, `=` and `;` stay bare. |
| Scenarios.RepeatedLineUsesFirstOccurrence | lib/index.js:57-58 | In the block `ab` / `ab`, the second line is placed at 0, the first occurrence, although its own start is 3. It therefore receives no marks, even though the leaf at `[3, 5)` is typed. |
| Scenarios.CommentAcrossLines | lib/index.js:72-78 | A comment leaf that starts on line 1 and ends on line 2 is clamped to line 2. All four characters of line 2 are marked. |

## Left out

- The Prism grammar lookup and `Prism.tokenize` (lib/index.js:51, 63) are an external library. The lookup result is the `grammar: Option<G>` parameter. The tokenizer is the `tokenize` function parameter, applied to the joined block string.
- Prism allows an alias that is an array. JavaScript would stringify it with commas. The model takes the alias as an optional string, which is the value after that conversion.
- Slate's immutable `List`, `Character` and `Mark.create` (lib/index.js:56, 83-85, 120) are replaced by `seq<Character>`, with each mark reduced to its class name.
- `block.getTexts()` (lib/index.js:57) is replaced by the list of the block's texts, passed in as `seq<string>`.
- JavaScript strings are sequences of UTF-16 code units. The model's `char` stands for one code unit and does no encoding.
- The `console.log` calls (lib/index.js:49, 59, 61) only print debug output.
- The option defaults `defaultOnlyIn` and `defaultGetSyntax` (lib/index.js:12-23, 43-46), `defaultTokenRender` (31-35) and the `schema.rules` wiring (123-138) are host configuration and React rendering.
- example/main.js and example/document.js are a demo page and a sample document.
- A per-line tokenization mode, newline compensation for a joined mode, and a single-entry block cache are not in lib/index.js, so they are not modelled.
