# KoDEx tag-processing core in Dafny

KoDEx (formerly the "doc-processor" Gradle plugin) rewrites KDoc/JavaDoc comments of Kotlin and Java sources by running
tag processors over them (`@include`, `@sample`, `@exportAsHtml`, …). This project models the parts of it
that work on comment text, on ranges and on the store of documentables, and proves what they promise:

- **Comment text and content.** `DocText` is a comment as it appears in the source (`/** … */`). `DocContent` is the text
  inside it, without the framing and the ` * ` line markers. `asDocText`, `getDocContentWithMap` (the content with, for
  every character, its index in the comment) and `toDocText` convert between the two. The older `getDocContentOrNull`/`toDoc`
  of doc-processor-common and `getDocContent`/`toDoc` of the Gradle plugin are modelled beside them.
- **Tokenizing content.** The model covers:
  - `splitPerBlock` (blocks of content, each tag block starting with `@tag`), with ranges;
  - the inline-tag finder (`{@tag …}` spans, deepest nesting level first);
  - the block- and all-tag name finders;
  - `replaceKdocLinks` and `removeKotlinLinks`;
  - the tag-argument splitters `getTagArgumentsWithRanges` (bracket- and quote-aware) and the newer
    `getTagArguments(tag, n, onRogueClosingChar, isSplitter)`;
  - `decodeCallableTarget` and `getTagNameOrNull`;
  - the Gradle-plugin versions (`getTagTarget`, `getFileTarget`, `expandPath`, its block splitter and its inline-tag finder).
- **Range arithmetic.** `mapToRanges` and `IntRange.remove`, and the highlight operations built on them: `applyMapping`,
  `removeIndices` and `contains`. Also the run-once `processSafely` of a
  `DocProcessor` and its highlight builders.
- **Reference resolution and dependency tracking.** `DocumentableWrapper` (construction, `paths`, `copy`, the cached
  `getAllTypes`, `getDocContentForHtmlRange`, the identifier), the candidate paths of `QueryUtils`, the `@include`
  analyser that records dependency edges, and `DocumentablesByPathWithCache`. The cache rebuilds the dependency graph,
  decides which documentables need a rebuild and invalidates their dependents. The model also covers the older
  `DocumentablesByPath` implementations of doc-processor-common.

Loops of the source are methods with loop invariants, proved to compute a function of their inputs. Each such function is
a left fold of one step function over the characters or lines: the step is the loop body, and the fold is the
loop. The properties are proved about these functions. Objects whose fields the source updates are classes:
`DocumentablesByPathWithCache`, `IncludeDocAnalyzer`, the lazy `getAllTypes` cache, a mutable `DocumentableWrapper`,
`DocProcessor` and the `WithCache` collections.

Notes on the model:

- **doc-processor-common.** Its `splitDocContentPerBlock`, `findInlineTagNamesInDocContentWithRanges`,
  `getTagNameOrNull`, `removeAllElementsFromLast` and 3- and 4-argument `getTagArguments` are the code of the kodex-common
  functions of the same purpose, without ranges and without `ignoreKDocMarkers`. The kodex-common members model
  both, and the table cites both places.
- **Range drift.** kodex-common's `getTagArgumentsWithRanges` reports wrong ranges for the second and later
  arguments (Findings, first row). `getTagArguments` only keeps the texts, so it is unaffected.
- **Escaped brackets.** In the 3-argument splitter an escaped bracket still opens or closes a block. The escape
  only keeps the character from splitting and from toggling a backtick block. A single quote never opens a block:
  the source adds the indicator only when it has just removed one.
- **Gradle-plugin test examples.** The examples of `DocProcessorPluginTest` are lemmas, each proved first for every
  content of the same shape and then for the test's own text. `PluginTestExamples.GetTagContent` gives the three
  splits of `{@tag simple content with spaces}`. `PluginTestBlocks.DifficultKdocBlocks` gives the three blocks of
  `difficultKdoc` and their rejoin, for the doc-processor-common/kodex-common splitter. That input has a line that
  leaves a `[` open. The Gradle plugin's own splitter counts `[]`, so it keeps every later tag line in the same block
  (`GradleBlocks.OpenLineJoins`, `GradleBlocks.UnclosedBracketJoins`). Its doc comment says so too, so comment and test
  disagree (Findings, fifth row). The model follows the code.
- **Identifiers.** A documentable's identifier is `computeIdentifier` as written: a UUID over the low byte of each hash
  code. Two documentables can therefore share one (Findings, fourth row). `Documentables.DocumentableIdentity` is the
  identity the documentation describes, and the lemmas show where the two differ.
- **Lines.** `lines()` ends a line at `\r\n`, `\n` or a lone `\r`, and so does `Documentables.Lines`.
- **Inline-tag order.** The inline-tag finders return the tags grouped by nesting depth, deepest group first. Within a
  group the tags are in the order their `}` is met. `InlineTags.InlineTagsWithRanges` is defined that way, and
  `InlineTags.InlineTagsPermutation` proves the result is a reordering of the tags the scan closes.

## Model

| member | source | states |
|---|---|---|
| DocUtils.GetTagArgumentsWithRanges | kodex-common/src/main/kotlin/nl/jolanrensen/kodex/utils/DocUtils.kt:25-136 | The loop over the prepared content computes `TagArgumentsWithRanges`: the arguments and the ranges the source reports. |
| DocUtils.TagArgumentsWithRangesShape | kodex-common/src/main/kotlin/nl/jolanrensen/kodex/utils/DocUtils.kt:26-133 | The result is an error exactly when `@tag` does not occur or `n <= 0`. Otherwise there are between 1 and `n` arguments, and each range has as many elements as its text has characters: the trimming of lines 118-133 keeps every range as long as its text. |
| DocUtils.TagArgumentsShape | kodex-common/src/main/kotlin/nl/jolanrensen/kodex/utils/DocUtils.kt:48-135 | Between 1 and `n` arguments. Each range fits its text, and each text is found in the prepared content where its start says. |
| DocUtils.DoneAbsorbs | kodex-common/src/main/kotlin/nl/jolanrensen/kodex/utils/DocUtils.kt:52-115 | Once `n - 1` arguments are split off, no argument is added, and every further character joins the last one. |
| DocUtils.NoSplitInsideBlocks | kodex-common/src/main/kotlin/nl/jolanrensen/kodex/utils/DocUtils.kt:65-106 | While a `{ [ ( < "` or backtick block stays open, whitespace splits off no argument. |
| DocUtils.GetTagArguments | kodex-common/src/main/kotlin/nl/jolanrensen/kodex/utils/DocUtils.kt:17-18 | Fails exactly when the `require`s fail. Otherwise it returns the first components of `getTagArgumentsWithRanges`, one per argument. doc-processor-common's 2-argument `getTagArguments` (its `docUtils.kt`, lines 105-178) is the same splitter without ranges. |
| DocUtils.TagArgumentWithRangeByIndexOrNull | kodex-common/src/main/kotlin/nl/jolanrensen/kodex/utils/DocUtils.kt:138-142 | `getOrNull(index)` on the ranged arguments: `Some` exactly for an index in bounds, and then that argument. |
| DocUtils.RemoveAllElementsFromLast | kodex-common/src/main/kotlin/nl/jolanrensen/kodex/utils/DocUtils.kt:319-327 | The loop computes `RemovedFromLast`. doc-processor-common has the same function (its `docUtils.kt`, lines 601-609). |
| DocUtils.RemovedFromLastSpec | kodex-common/src/main/kotlin/nl/jolanrensen/kodex/utils/DocUtils.kt:319-327 | Returns true exactly when the element occurs. Absent: the list is unchanged. Present: the list becomes the prefix before the last occurrence, and that occurrence is the last one. |
| DocUtils.LastIndexOfSpec | kodex-common/src/main/kotlin/nl/jolanrensen/kodex/utils/DocUtils.kt:320 | `lastIndexOf` is -1 exactly when the element is absent, and no occurrence follows the index it returns. |
| DocUtils.RangesDriftExample | kodex-common/src/main/kotlin/nl/jolanrensen/kodex/utils/DocUtils.kt:65-71 | For `"@tag a b c"` with 3 arguments, the source reports `b` at 6 and `c` at 8, where the input has spaces; `b` is at 7 and `c` at 9. The ranges do not select their arguments. |
| DocUtils.ThreeWordsDrift | kodex-common/src/main/kotlin/nl/jolanrensen/kodex/utils/DocUtils.kt:65-71 | For any three one-character words separated by single whitespace, the second and the third are each reported one place too early. |
| DocUtils.FixedRangesSelectArguments | kodex-common/src/main/kotlin/nl/jolanrensen/kodex/utils/DocUtils.kt:118-133 | With ranges placed where the texts are, every argument is exactly the slice of the input its range selects. |
| DocUtils.FixedRangesExample | kodex-common/src/main/kotlin/nl/jolanrensen/kodex/utils/DocUtils.kt:65-71 | The corrected ranges of `"@tag a b c"` are 5, 7 and 9. |
| TagSplitter.GetTagArgumentsSplit | kodex-common/src/main/kotlin/nl/jolanrensen/kodex/utils/DocUtils.kt:156-269 | The 4-argument `getTagArguments` computes `SplitTagArguments`. That value holds the trimmed arguments, the `onRogueClosingChar` calls in order, or the exception thrown. doc-processor-common has the same function (its `docUtils.kt`, lines 192-280). |
| TagSplitter.SplitTagArgumentsShape | kodex-common/src/main/kotlin/nl/jolanrensen/kodex/utils/DocUtils.kt:162-268 | Fails exactly when `n <= 0` or the last argument is empty (`first()` throws). Otherwise there are 1 to `n` arguments, and only the last may start with a splitter. |
| TagSplitter.SplitArgumentsBound | kodex-common/src/main/kotlin/nl/jolanrensen/kodex/utils/DocUtils.kt:186-248 | At most `n - 1` arguments are split off by the loop. |
| TagSplitter.SplitArgumentNotBlank | kodex-common/src/main/kotlin/nl/jolanrensen/kodex/utils/DocUtils.kt:197-200 | Every argument split off holds a character that is not a splitter. |
| TagSplitter.SplitArgumentsNonEmpty | kodex-common/src/main/kotlin/nl/jolanrensen/kodex/utils/DocUtils.kt:253-266 | When the splitter counts the newline, no argument but the last is empty after trimming. |
| TagSplitter.SplitDoneAbsorbs | kodex-common/src/main/kotlin/nl/jolanrensen/kodex/utils/DocUtils.kt:181-200 | Once `n - 1` arguments exist, no character splits off another. |
| TagSplitter.RogueIsCloser | kodex-common/src/main/kotlin/nl/jolanrensen/kodex/utils/DocUtils.kt:208-232 | Every reported rogue character is a closing bracket, reported with an argument index below `n`. |
| TagSplitter.RogueReported | kodex-common/src/main/kotlin/nl/jolanrensen/kodex/utils/DocUtils.kt:208-232 | Take a character that is not escaped and not inside backticks. It is reported exactly when it is a closing bracket whose opener is not open. |
| TagSplitter.EscapedDropped | kodex-common/src/main/kotlin/nl/jolanrensen/kodex/utils/DocUtils.kt:188-193 | An escaped character only clears the escape flag: it is dropped from the argument and never reported. |
| TagNames.DecodeCallableTarget | kodex-common/src/main/kotlin/nl/jolanrensen/kodex/utils/DocUtils.kt:275-298 | The decoded target is trimmed and contains no `#`. |
| TagNames.DecodeAliasExample | kodex-common/src/main/kotlin/nl/jolanrensen/kodex/utils/DocUtils.kt:271-274 | `[Alias][Foo]` decodes to `Foo`. |
| TagNames.DecodeAlias | kodex-common/src/main/kotlin/nl/jolanrensen/kodex/utils/DocUtils.kt:279-286 | `[alias][target]` decodes to `target` for any plain path `target`. |
| TagNames.DecodeLinkExample | kodex-common/src/main/kotlin/nl/jolanrensen/kodex/utils/DocUtils.kt:271-274 | `{@link Foo#main(String[])}` decodes to `Foo.main`. |
| TagNames.DecodeLink | kodex-common/src/main/kotlin/nl/jolanrensen/kodex/utils/DocUtils.kt:287-298 | `{@link p#m(…)}` decodes to `p.m` for any plain path `p` and member `m`. |
| TagNames.DecodePlainPath | kodex-common/src/main/kotlin/nl/jolanrensen/kodex/utils/DocUtils.kt:275-298 | An already decoded dotted path decodes to itself. |
| TagNames.RemoveGroupsComplete | kodex-common/src/main/kotlin/nl/jolanrensen/kodex/utils/DocUtils.kt:297 | After the `\(.*\)` replacement, no `(` is followed by a `)` on the same line. |
| TagNames.RemoveGroupsDrops | kodex-common/src/main/kotlin/nl/jolanrensen/kodex/utils/DocUtils.kt:297 | The replacement only deletes characters: its result is a subsequence of its input. |
| TagNames.RemoveGroupsNoParen | kodex-common/src/main/kotlin/nl/jolanrensen/kodex/utils/DocUtils.kt:297 | Text without `(` is left unchanged. |
| TagNames.GroupAtEnd | kodex-common/src/main/kotlin/nl/jolanrensen/kodex/utils/DocUtils.kt:297 | A `(…)` group that closes the text is removed, and the path before it is kept. |
| TagNames.GetTagNameOrNull | kodex-common/src/main/kotlin/nl/jolanrensen/kodex/utils/DocUtils.kt:308-313 | `Some` exactly when the content has `@` after leading whitespace, or `{@` at the very start. The name then consists of tag-name characters only. doc-processor-common has the same function (its `docUtils.kt`, lines 321-326). |
| TagNames.TagNamePrefixOf | kodex-common/src/main/kotlin/nl/jolanrensen/kodex/utils/DocUtils.kt:313 | The name read is exactly the run of name characters up to the first whitespace, `{` or `}`. |
| TagNames.BlockTagName | kodex-common/src/main/kotlin/nl/jolanrensen/kodex/utils/DocUtils.kt:301-313 | `  @name rest` yields `name`. |
| TagNames.InlineTagName | kodex-common/src/main/kotlin/nl/jolanrensen/kodex/utils/DocUtils.kt:301-313 | `{@name rest` yields `name`. |
| RangeMapping.MapToRanges | kodex-common/src/main/kotlin/nl/jolanrensen/kodex/utils/DocUtils.kt:340-359 | The loop computes the maximal runs of consecutive mapped values. |
| RangeMapping.MapToRangesSpec | kodex-common/src/main/kotlin/nl/jolanrensen/kodex/utils/DocUtils.kt:340-359 | The ranges list exactly the mapped values, in order, as non-empty maximal runs. |
| RangeMapping.IdentityMapping | kodex-common/src/main/kotlin/nl/jolanrensen/kodex/utils/DocUtils.kt:340-359 | A non-empty range mapped through the identity comes back as exactly that one range. |
| RangeMapping.Remove | kodex-common/src/main/kotlin/nl/jolanrensen/kodex/utils/DocUtils.kt:364-386 | The loops compute the runs of the values the predicate keeps. |
| RangeMapping.RemoveCovers | kodex-common/src/main/kotlin/nl/jolanrensen/kodex/utils/DocUtils.kt:364-386 | An index is covered by a resulting range exactly when it is in the range and not removed. No removed index survives. |
| RangeMapping.RemoveMaximal | kodex-common/src/main/kotlin/nl/jolanrensen/kodex/utils/DocUtils.kt:364-386 | The resulting ranges are non-empty maximal runs. |
| Ranges.RunsFlatten | kodex-common/src/main/kotlin/nl/jolanrensen/kodex/utils/DocUtils.kt:345-358 | Cutting values into runs loses and invents nothing: the runs flatten back to the values. |
| Ranges.RunsMaximal | kodex-common/src/main/kotlin/nl/jolanrensen/kodex/utils/DocUtils.kt:345-358 | Every run is non-empty, and two neighbouring runs are not consecutive. |
| Ranges.FlattenCovered | kodex-common/src/main/kotlin/nl/jolanrensen/kodex/intellij/HighlightInfo.kt:82 | A value is in the flattened ranges exactly when some range covers it. |
| BlockSplit.SplitPerBlock | kodex-common/src/main/kotlin/nl/jolanrensen/kodex/docContent/DocContent.kt:42-127 | The loops over lines and characters compute `Blocks(content, ignoreKDocMarkers)`, which always has at least one block (line 125). doc-processor-common's `splitDocContentPerBlock` (its `docUtils.kt`, lines 336-410) is this splitter with `ignoreKDocMarkers = false`. |
| BlockSplit.BlocksJoin | kodex-common/src/main/kotlin/nl/jolanrensen/kodex/docContent/DocContent.kt:34-41 | For every content, the blocks of `splitPerBlock()` joined with `\n` give the content back. The same holds for doc-processor-common's splitter (its `docUtils.kt`, lines 328-335). |
| BlockSplit.MarkerLineDropped | kodex-common/src/main/kotlin/nl/jolanrensen/kodex/docContent/DocContent.kt:83-85 | With `ignoreKDocMarkers`, the content ` *` splits into one empty block, and the join does not give it back. |
| BlockSplit.EmptyCheckLine | kodex-common/src/main/kotlin/nl/jolanrensen/kodex/docContent/DocContent.kt:83-85 | A single line whose inspected form is empty comes back as one empty block. |
| BlockSplit.FixedBlocksJoin | kodex-common/src/main/kotlin/nl/jolanrensen/kodex/docContent/DocContent.kt:34-41 | When the inspected-empty case keeps its line, the join gives the content back with `ignoreKDocMarkers` as well. |
| BlockSplit.BlockStartsWithTag | kodex-common/src/main/kotlin/nl/jolanrensen/kodex/docContent/DocContent.kt:35-36 | Every block but the first starts with `@`, after at most two spaces. |
| BlockSplit.NewBlockOnlyAtTag | kodex-common/src/main/kotlin/nl/jolanrensen/kodex/docContent/DocContent.kt:69-81 | A line closes the open block only when it starts with a tag and no `{@`, `${` or triple-backtick region is open. |
| BlockSplit.CodeBlockIgnoresTags | kodex-common/src/main/kotlin/nl/jolanrensen/kodex/docContent/DocContent.kt:95-120 | Inside a triple-backtick region, `{@` opens no indicator. |
| BlockSplit.InlineTagOpens | kodex-common/src/main/kotlin/nl/jolanrensen/kodex/docContent/DocContent.kt:95-120 | Outside a code region, an unescaped `{@` opens an indicator. |
| BlockSplit.SplitPerBlockWithRanges | kodex-common/src/main/kotlin/nl/jolanrensen/kodex/docContent/DocContent.kt:137-153 | Computes the blocks of `splitPerBlock()`, each paired with its range. |
| BlockSplit.RangeSelects | kodex-common/src/main/kotlin/nl/jolanrensen/kodex/docContent/DocContent.kt:139-151 | Each block sits at its range's start in the content. The first starts at 0. A block before the last ends at the `\n` that precedes the next block's start. The last range ends at the end of the content. |
| BlockSplit.BlockTagNamesCount | kodex-common/src/main/kotlin/nl/jolanrensen/kodex/docContent/DocContent.kt:204-207 | `findBlockTagNames` finds a name for every block after the first. |
| BlockSplit.TagNamesChars | kodex-common/src/main/kotlin/nl/jolanrensen/kodex/docContent/DocContent.kt:204-207 | Every block tag name consists of tag-name characters. |
| BlockSplit.BlockTagsWithRangesNames | kodex-common/src/main/kotlin/nl/jolanrensen/kodex/docContent/DocContent.kt:210-216 | `findBlockTagsWithRanges` names exactly the tags `findBlockTagNames` names, in the same order. |
| InlineTags.FindInlineTagNamesWithRanges | kodex-common/src/main/kotlin/nl/jolanrensen/kodex/docContent/DocContent.kt:161-195 | The scan with its stack of open `{@` and the map by depth computes `InlineTagsWithRanges`. doc-processor-common's finder (its `docUtils.kt`, lines 438-472) is the same scan. |
| InlineTags.EscapeAfterOddRun | kodex-common/src/main/kotlin/nl/jolanrensen/kodex/docContent/DocContent.kt:170-172 | The scan escapes the next character exactly when an odd run of backslashes precedes it. |
| InlineTags.OpenedUnescaped | kodex-common/src/main/kotlin/nl/jolanrensen/kodex/docContent/DocContent.kt:174-176 | Every open `{@` and every found tag the scan records starts at an unescaped `{`. |
| InlineTags.InlineTagsSound | kodex-common/src/main/kotlin/nl/jolanrensen/kodex/docContent/DocContent.kt:168-191 | Every result spans a `{@` to a `}` of the content, and its `{` is not escaped (an even run of backslashes precedes it). Its name is what `getTagNameOrNull` reads from that span. |
| InlineTags.InlineTagsPermutation | kodex-common/src/main/kotlin/nl/jolanrensen/kodex/docContent/DocContent.kt:188-194 | The result holds each tag the scan closes exactly once. |
| InlineTags.InlineTagsDeepestFirst | kodex-common/src/main/kotlin/nl/jolanrensen/kodex/docContent/DocContent.kt:156-163 | The result lists tags the scan closed, by non-increasing depth; depth is the number of `{@` still open when a `}` closes. It holds each of them once. |
| InlineTags.SingleInlineTag | kodex-common/src/main/kotlin/nl/jolanrensen/kodex/docContent/DocContent.kt:175-189 | `{@name}` is found once, over its whole span. |
| InlineTags.EscapedInlineTag | kodex-common/src/main/kotlin/nl/jolanrensen/kodex/docContent/DocContent.kt:171-173 | `\{@name}` yields no tag. |
| InlineTags.InlineNamesChars | kodex-common/src/main/kotlin/nl/jolanrensen/kodex/docContent/DocContent.kt:201 | Every name `findInlineTagNames` returns consists of tag-name characters. |
| InlineTags.AllTagNamesChars | kodex-common/src/main/kotlin/nl/jolanrensen/kodex/docContent/DocContent.kt:219-221 | `findTagNames` holds the inline names and then the block names. Each consists of tag-name characters. |
| KdocLinks.ReplaceKdocLinks | kodex-common/src/main/kotlin/nl/jolanrensen/kodex/docContent/DocContent.kt:322-374 | The character loop computes `KdocLinksReplaced`. |
| KdocLinks.ReferenceLink | kodex-common/src/main/kotlin/nl/jolanrensen/kodex/docContent/DocContent.kt:383-394 | `[Ref]` becomes `[Ref][P]` when `process(Ref) == P` differs from `Ref`, and stays as it is otherwise. |
| KdocLinks.AliasedLink | kodex-common/src/main/kotlin/nl/jolanrensen/kodex/docContent/DocContent.kt:396-403 | `[Alias][Ref]` becomes `[Alias][process(Ref)]`. |
| KdocLinks.CodeSpanKept | kodex-common/src/main/kotlin/nl/jolanrensen/kodex/docContent/DocContent.kt:347 | A reference inside backticks is left as it is, whatever `process` does. |
| KdocLinks.IdentityProcessKeepsKdoc | kodex-common/src/main/kotlin/nl/jolanrensen/kodex/docContent/DocContent.kt:322-408 | A `process` that changes nothing leaves every text as it was. |
| KdocLinks.NoReferenceKeepsKdoc | kodex-common/src/main/kotlin/nl/jolanrensen/kodex/docContent/DocContent.kt:349-367 | Text without `[` is left as it was, whatever `process` does. |
| KdocLinks.ProcessKeeps | kodex-common/src/main/kotlin/nl/jolanrensen/kodex/docContent/DocContent.kt:376-408 | With an identity `process`, `processReference` appends and keeps exactly the text it was given. |
| KdocLinks.RemoveKotlinLinks | kodex-common/src/main/kotlin/nl/jolanrensen/kodex/docContent/DocContent.kt:234-320 | The character loop computes `KotlinLinksRemoved`. |
| KdocLinks.KotlinReference | kodex-common/src/main/kotlin/nl/jolanrensen/kodex/docContent/DocContent.kt:234-320 | `[Ref]` becomes `` `Ref` ``. |
| KdocLinks.KotlinAliasedReference | kodex-common/src/main/kotlin/nl/jolanrensen/kodex/docContent/DocContent.kt:234-320 | `[Alias][Ref]` becomes `` `Alias` ``: the target is dropped. |
| KdocLinks.KotlinBoldReference | kodex-common/src/main/kotlin/nl/jolanrensen/kodex/docContent/DocContent.kt:234-320 | `[**Ref**]` becomes `` **`Ref`** ``: the bold markers move outside the code span. |
| KdocLinks.NoBracketsSurvive | kodex-common/src/main/kotlin/nl/jolanrensen/kodex/docContent/DocContent.kt:234-320 | Without escapes or backticks, no reference bracket is left. |
| KdocLinks.PlainTextKept | kodex-common/src/main/kotlin/nl/jolanrensen/kodex/docContent/DocContent.kt:234-320 | Text without escapes, backticks, brackets or `*` is left as it was. |
| DocTexts.AsDocText | kodex-common/src/main/kotlin/nl/jolanrensen/kodex/docContent/DocText.kt:7-18 | A `DocText` exists exactly for a non-blank text that starts with `/**` and ends with `*/` (surrounding whitespace aside). That text is the value. |
| DocTexts.AsDocTextOrNull | kodex-common/src/main/kotlin/nl/jolanrensen/kodex/docContent/DocText.kt:20-25 | `null` exactly when the `DocText` invariant fails. Otherwise the text itself. |
| DocTexts.GetDocContentWithMap | kodex-common/src/main/kotlin/nl/jolanrensen/kodex/docContent/DocText.kt:38-97 | The loops over lines and characters compute `DocContentWithMap`. |
| DocTexts.ContentMapsBack | kodex-common/src/main/kotlin/nl/jolanrensen/kodex/docContent/DocText.kt:33-36 | The map has one entry per content character. Each entry is an index into the comment, and the comment has the same character at that index. |
| DocTexts.ToDocText | kodex-common/src/main/kotlin/nl/jolanrensen/kodex/docContent/DocText.kt:102-125 | The rendering always passes the `DocText` invariant. |
| DocTexts.ToDocTextIndented | kodex-common/src/main/kotlin/nl/jolanrensen/kodex/docContent/DocText.kt:102-125 | The text has one line per content line, and each starts with `indent` spaces. |
| DocTexts.ToDocTextFramed | kodex-common/src/main/kotlin/nl/jolanrensen/kodex/docContent/DocText.kt:102-125 | The text starts with the indent and `/**`, and ends with `*/`. |
| DocTexts.ToDocTextContinuation | kodex-common/src/main/kotlin/nl/jolanrensen/kodex/docContent/DocText.kt:111-122 | A middle line is the indent, ` *`, and a space and the content line when that line is non-empty. |
| DocTexts.ToDocTextClosing | kodex-common/src/main/kotlin/nl/jolanrensen/kodex/docContent/DocText.kt:111-122 | The last of several lines: ` */` for a blank content line, else ` * `, the trimmed line and ` */`. |
| DocTexts.RoundTrip | kodex-common/src/main/kotlin/nl/jolanrensen/kodex/docContent/DocText.kt:30-125 | `getDocContent(toDocText(content, indent)) == content` for every content that this rendering can restore. Such a content has an empty or trimmed last line, and a single line does not start with `*`. |
| LegacyDocUtils.DocContentOrNull | doc-processor-common/src/main/kotlin/nl/jolanrensen/docProcessor/docUtils.kt:38-71 | `null` exactly when the text is blank, does not start with `/**` or does not end with `*/`. There is no trimming first. |
| LegacyDocUtils.DocContentOrNullAgrees | doc-processor-common/src/main/kotlin/nl/jolanrensen/docProcessor/docUtils.kt:38-71 | Where doc-processor-common's `getDocContentOrNull` yields content, it is a `DocText`, and the content is `getDocContent` of kodex-common. |
| LegacyDocUtils.ToDoc | doc-processor-common/src/main/kotlin/nl/jolanrensen/docProcessor/docUtils.kt:76-98 | doc-processor-common's `toDoc` renders what kodex-common's `toDocText` renders. |
| LegacyDocUtils.ToDocOpens | doc-processor-common/src/main/kotlin/nl/jolanrensen/docProcessor/docUtils.kt:80-84 | The first line is the indent and `/**`, or `/** ` and the first content line when it is non-empty. |
| LegacyDocUtils.ToDocCloses | doc-processor-common/src/main/kotlin/nl/jolanrensen/docProcessor/docUtils.kt:80-84 | The last line ends with ` */`. |
| LegacyDocUtils.ToDocReadBack | doc-processor-common/src/main/kotlin/nl/jolanrensen/docProcessor/docUtils.kt:38-98 | Reading back an unindented rendering of a restorable content gives that content. |
| LegacyDocUtils.IndentedToDocRejected | doc-processor-common/src/main/kotlin/nl/jolanrensen/docProcessor/docUtils.kt:38-39 | An indented rendering starts with spaces, so `getDocContentOrNull` refuses it. |
| GradleDocText.ToDocNormalizes | doc-processor-gradle-plugin/src/test/kotlin/nl/jolanrensen/docProcessor/DocProcessorPluginTest.kt:75-131 | Reading a rendered comment back with `getDocContent` and rendering it again gives the same comment. This holds for every content whose lines before the last do not end with `*/`. |
| GradleDocText.RenderedLines | doc-processor-gradle-plugin/src/main/kotlin/nl/jolanrensen/docProcessor/docUtils.kt:31-53 | `toDoc` is the rendered lines joined with newlines. |
| GradleDocText.ToDocLines | doc-processor-gradle-plugin/src/main/kotlin/nl/jolanrensen/docProcessor/docUtils.kt:31-53 | Splitting the rendered comment at newlines gives back exactly the rendered lines. |
| GradleDocText.DocLinesNoNewline | doc-processor-gradle-plugin/src/main/kotlin/nl/jolanrensen/docProcessor/docUtils.kt:31-53 | No rendered line contains a newline. |
| GradleDocText.ContentOfLines | doc-processor-gradle-plugin/src/main/kotlin/nl/jolanrensen/docProcessor/docUtils.kt:13-25 | `getDocContent` works line by line: its result is the per-line contents joined with newlines. |
| GradleTagTargets.GetTagTarget | doc-processor-gradle-plugin/src/main/kotlin/nl/jolanrensen/docProcessor/docUtils.kt:59-89 | An error exactly when `@tag` is missing. Otherwise the target is trimmed and holds no `#` and no newline. |
| GradleTagTargets.TagTargetOfReference | doc-processor-gradle-plugin/src/main/kotlin/nl/jolanrensen/docProcessor/docUtils.kt:57 | `@tag [path]` gives `path` for any plain path. |
| GradleTagTargets.TagTargetOfInline | doc-processor-gradle-plugin/src/main/kotlin/nl/jolanrensen/docProcessor/docUtils.kt:63 | `{@tag [path]}` gives `path`. |
| GradleTagTargets.TagTargetOfAlias | doc-processor-gradle-plugin/src/main/kotlin/nl/jolanrensen/docProcessor/docUtils.kt:73 | `[alias][path]` gives `path`. |
| GradleTagTargets.TagTargetOfLink | doc-processor-gradle-plugin/src/main/kotlin/nl/jolanrensen/docProcessor/docUtils.kt:81-82 | `{@link p#m(…)}` gives `p.m`. |
| GradleTagTargets.TargetOneLine | doc-processor-gradle-plugin/src/main/kotlin/nl/jolanrensen/docProcessor/docUtils.kt:59-89 | The target never spans lines. |
| GradleTagTargets.GetFileTarget | doc-processor-gradle-plugin/src/main/kotlin/nl/jolanrensen/docProcessor/docUtils.kt:95-109 | An error exactly when `@tag` is missing. Otherwise the file target is trimmed and holds no newline. |
| GradleTagTargets.FileTargetOf | doc-processor-gradle-plugin/src/main/kotlin/nl/jolanrensen/docProcessor/docUtils.kt:93 | `@tag (f)` gives `f`, for any trimmed one-line `f`. |
| GradleTagTargets.TagNameOrNull | doc-processor-gradle-plugin/src/main/kotlin/nl/jolanrensen/docProcessor/docUtils.kt:119-124 | `Some` exactly when the content starts with `@` after leading whitespace, or with `{@`. The name then holds no whitespace. |
| GradleTagTargets.TagNameExtendsKodex | doc-processor-gradle-plugin/src/main/kotlin/nl/jolanrensen/docProcessor/docUtils.kt:119-124 | Finds a name exactly when the kodex reader does. The kodex name is a prefix of this one, because this reader only stops at whitespace. |
| GradleTagTargets.BraceInName | doc-processor-gradle-plugin/src/main/kotlin/nl/jolanrensen/docProcessor/docUtils.kt:119-124 | For `{@name}` this reader keeps the closing brace (`name}`); the kodex reader gives `name`. |
| GradlePaths.NextOrNull | doc-processor-gradle-plugin/src/main/kotlin/nl/jolanrensen/docProcessor/docUtils.kt:126 | `Some` exactly when another element exists, and then it is that element. |
| GradlePaths.DropTrailingDots | doc-processor-gradle-plugin/src/main/kotlin/nl/jolanrensen/docProcessor/docUtils.kt:162 | The result is a prefix of the input that does not end with `.`, and only dots were dropped. |
| GradlePaths.Expansion | doc-processor-gradle-plugin/src/main/kotlin/nl/jolanrensen/docProcessor/docUtils.kt:133-136 | An empty target gives the current path, and an empty current path gives the target. Any other result does not end with `.`. |
| GradlePaths.ExpandPath | doc-processor-gradle-plugin/src/main/kotlin/nl/jolanrensen/docProcessor/docUtils.kt:133-163 | The loop over the two segment iterators computes `Expansion`. |
| GradlePaths.WalkParentsFirst | doc-processor-gradle-plugin/src/main/kotlin/nl/jolanrensen/docProcessor/docUtils.kt:137-160 | The walk emits every segment of the current path, then the target segments left unmatched. |
| GradlePaths.UnmatchedNoneIffSubsequence | doc-processor-gradle-plugin/src/main/kotlin/nl/jolanrensen/docProcessor/docUtils.kt:137-160 | Every target segment is matched exactly when the target's segments are a subsequence of the current path's. |
| GradlePaths.ExpansionExtendsCurrent | doc-processor-gradle-plugin/src/main/kotlin/nl/jolanrensen/docProcessor/docUtils.kt:133-163 | For a non-empty target and a current path that does not end with `.`, the expansion always starts with the current path. |
| GradlePaths.ExpansionOfSubsequence | doc-processor-gradle-plugin/src/main/kotlin/nl/jolanrensen/docProcessor/docUtils.kt:133-163 | A target whose segments all appear in order in the current path expands to the current path. |
| GradlePaths.ExpandRelative | doc-processor-gradle-plugin/src/main/kotlin/nl/jolanrensen/docProcessor/docUtils.kt:133-163 | A current path `pre.shared` and a target `shared.extra` expand to `pre.shared.extra`, when the first shared segment does not occur in `pre`. |
| GradlePaths.ExpansionExample | doc-processor-gradle-plugin/src/main/kotlin/nl/jolanrensen/docProcessor/docUtils.kt:128-132 | `"plugin.Class.Class2"` expanded from `"com.example.plugin.Class"` is `"com.example.plugin.Class.Class2"`. |
| GradleBlocks.SplitDocContentPerBlock | doc-processor-gradle-plugin/src/main/kotlin/nl/jolanrensen/docProcessor/docUtils.kt:172-210 | The loop computes `Blocks`, the left fold of the per-line step. |
| GradleBlocks.ScanLine | doc-processor-gradle-plugin/src/main/kotlin/nl/jolanrensen/docProcessor/docUtils.kt:191-207 | The character loop computes the line's bracket and backtick indicators. |
| GradleBlocks.LineIndicatorsCount | doc-processor-gradle-plugin/src/main/kotlin/nl/jolanrensen/docProcessor/docUtils.kt:191-207 | After a line, each bracket kind stands at its opening count minus its closing count. Backtick fences toggle by parity. |
| GradleBlocks.BlockStartsWithTag | doc-processor-gradle-plugin/src/main/kotlin/nl/jolanrensen/docProcessor/docUtils.kt:172-210 | Every block after the first starts with a tag line. |
| GradleBlocks.BlocksJoin | doc-processor-gradle-plugin/src/main/kotlin/nl/jolanrensen/docProcessor/docUtils.kt:170 | When the first line is neither empty nor a tag line, joining the blocks with newlines gives back the content. |
| GradleBlocks.TagFirstLineAddsBlock | doc-processor-gradle-plugin/src/main/kotlin/nl/jolanrensen/docProcessor/docUtils.kt:181-190 | A content whose first line is a tag line gets an extra empty first block, so the join adds a leading newline. |
| GradleBlocks.LeadingEmptyLineLost | doc-processor-gradle-plugin/src/main/kotlin/nl/jolanrensen/docProcessor/docUtils.kt:181-190 | An empty first line is dropped: `"\n" + line` splits into just `[line]`. |
| GradleBlocks.FixedBlocksJoin | doc-processor-gradle-plugin/src/main/kotlin/nl/jolanrensen/docProcessor/docUtils.kt:170 | The corrected split keeps every line, and joining its blocks gives back the content. |
| GradleBlocks.OpenLineJoins | doc-processor-gradle-plugin/src/main/kotlin/nl/jolanrensen/docProcessor/docUtils.kt:181-207 | A line that leaves a bracket open pulls the next line into its block, even a tag line. |
| GradleBlocks.UnclosedBracketJoins | doc-processor-gradle-plugin/src/main/kotlin/nl/jolanrensen/docProcessor/docUtils.kt:191-200 | `"a [b\n@g c"` is one block: the open `[` keeps `@g` from starting a new one. |
| GradleInlineTags.FindInlineTagRange | doc-processor-gradle-plugin/src/main/kotlin/nl/jolanrensen/docProcessor/docUtils.kt:213-227 | The scan computes `InlineRange`: the first `{@ … }` pair, with its depth. |
| GradleInlineTags.InlineRangeResult | doc-processor-gradle-plugin/src/main/kotlin/nl/jolanrensen/docProcessor/docUtils.kt:213-227 | `None` exactly when no `}` closes an open `{@` before the end. A range starts at `{`, ends at `}`, and has depth at least 1. |
| GradleInlineTags.OpenCountBound | doc-processor-gradle-plugin/src/main/kotlin/nl/jolanrensen/docProcessor/docUtils.kt:213-227 | The depth never exceeds the number of `{` read. |
| GradleInlineTags.MaskedCloses | doc-processor-gradle-plugin/src/main/kotlin/nl/jolanrensen/docProcessor/docUtils.kt:245-250 | Masking a found tag leaves the text with fewer `}`, so the outer loop terminates. |
| GradleInlineTags.FindInlineTagNamesWithRanges | doc-processor-gradle-plugin/src/main/kotlin/nl/jolanrensen/docProcessor/docUtils.kt:234-254 | The loop computes `InlineTagsWithRanges`. |
| GradleInlineTags.InlineTagsFound | doc-processor-gradle-plugin/src/main/kotlin/nl/jolanrensen/docProcessor/docUtils.kt:234-254 | Every reported pair is the name and range of a tag found in some pass. |
| GradleInlineTags.InlineTagsPermutes | doc-processor-gradle-plugin/src/main/kotlin/nl/jolanrensen/docProcessor/docUtils.kt:252-253 | The deepest-first sort only reorders: the result is a permutation of the pairs found. |
| GradleInlineTags.PassesBound | doc-processor-gradle-plugin/src/main/kotlin/nl/jolanrensen/docProcessor/docUtils.kt:238-251 | There are at most as many passes as `}` characters. |
| Highlights.ContainsCovered | kodex-common/src/main/kotlin/nl/jolanrensen/kodex/intellij/HighlightInfo.kt:82 | An index is in a highlight exactly when one of its ranges covers it. |
| Highlights.MapAllCovers | kodex-common/src/main/kotlin/nl/jolanrensen/kodex/intellij/HighlightInfo.kt:60-69 | A mapped range list covers exactly the images of the indices the original covered. |
| Highlights.MappedMeaning | kodex-common/src/main/kotlin/nl/jolanrensen/kodex/intellij/HighlightInfo.kt:60-69 | Mapping keeps kind, processor name and description, and maps the related highlights too. The result contains exactly the images of its indices. |
| Highlights.ApplyMappingPruned | kodex-common/src/main/kotlin/nl/jolanrensen/kodex/intellij/HighlightInfo.kt:60-69 | No highlight without ranges survives, at any depth. |
| Highlights.ApplyMappingMembers | kodex-common/src/main/kotlin/nl/jolanrensen/kodex/intellij/HighlightInfo.kt:60-69 | Every result is the image of an input, and every input with an index has its image kept. |
| Highlights.ApplyIdentity | kodex-common/src/main/kotlin/nl/jolanrensen/kodex/intellij/HighlightInfo.kt:60-69 | The identity mapping gives back a list that already has no empty highlight or range. |
| Highlights.RemoveAllCovers | kodex-common/src/main/kotlin/nl/jolanrensen/kodex/intellij/HighlightInfo.kt:71-80 | After removal, a range list covers exactly the indices it covered that were not removed. |
| Highlights.RemovedMeaning | kodex-common/src/main/kotlin/nl/jolanrensen/kodex/intellij/HighlightInfo.kt:71-80 | Removal keeps kind, processor name and description, and applies to the related highlights too. The result contains an index exactly when the original did and it was not removed. |
| Highlights.RemoveIndicesAvoids | kodex-common/src/main/kotlin/nl/jolanrensen/kodex/intellij/HighlightInfo.kt:71-80 | No removed index survives at any depth, and no highlight is left without ranges. |
| Highlights.RemoveIndicesMembers | kodex-common/src/main/kotlin/nl/jolanrensen/kodex/intellij/HighlightInfo.kt:71-80 | Every result is the trimmed form of an input, and every input that keeps an index is kept. |
| Highlights.RemoveNothing | kodex-common/src/main/kotlin/nl/jolanrensen/kodex/intellij/HighlightInfo.kt:71-80 | Removing nothing gives back a list that already has no empty highlight or range. |
| Processors.DocProcessor.ProcessSafely | kodex-common/src/main/kotlin/nl/jolanrensen/kodex/processor/DocProcessor.kt:54-68 | A second run fails with the `already run` message. A first run passes on the outcome, unfiltered, or wraps its failure with the processor name. Afterwards the processor counts as run. |
| Processors.DocProcessor.BuiltHighlight | kodex-common/src/main/kotlin/nl/jolanrensen/kodex/processor/DocProcessor.kt:90-114 | The highlight contains exactly the indices of its range, under its kind, name and description. `addSelfToRelated` appends the highlight itself, without related, to the related list. |
| Processors.FindCompletionFirst | kodex-common/src/main/kotlin/nl/jolanrensen/kodex/processor/DocProcessor.kt:134-135 | `find` gives the first completion info with the tag, or `None` when none has it. |
| Processors.DescriptionCases | kodex-common/src/main/kotlin/nl/jolanrensen/kodex/processor/DocProcessor.kt:124-146 | No matching info gives an empty description. Otherwise it is the quoted block text, or else the quoted inline text, followed by `: ` and then the tail text. |
| Documentables.Int32 | kodex-common/src/main/kotlin/nl/jolanrensen/kodex/documentableWrapper/DocumentableWrapper.kt:93-110 | Wraps to 32-bit two's complement: in range and congruent modulo 2^32. |
| Documentables.StringHash | kodex-common/src/main/kotlin/nl/jolanrensen/kodex/documentableWrapper/DocumentableWrapper.kt:93-110 | `String.hashCode` is a 32-bit value. |
| Documentables.ComputeIdentifier | kodex-common/src/main/kotlin/nl/jolanrensen/kodex/documentableWrapper/DocumentableWrapper.kt:93-110 | The UUID is built from one byte per argument: the low byte of the hash code of the file path, the path, the extension path (0 when there is none) and the range start, then one per import and one per super path, in that order. |
| Documentables.IdentifierCollision | kodex-common/src/main/kotlin/nl/jolanrensen/kodex/documentableWrapper/DocumentableWrapper.kt:93-110 | Only the low byte of `textRangeStart` reaches the identifier: starts 256 apart collide. |
| Documentables.IdentifierSeesHashesOnly | kodex-common/src/main/kotlin/nl/jolanrensen/kodex/documentableWrapper/DocumentableWrapper.kt:102-105 | Two files whose path hash codes agree in the low byte get the same identifier, whatever the paths are. |
| Documentables.IdentityUnique | kodex-common/src/main/kotlin/nl/jolanrensen/kodex/documentableWrapper/DocumentableWrapper.kt:93-110 | The corrected identity is equal exactly when file, path, extension path, range start, imports and super paths all are. |
| Documentables.IdentitySeparatesCollision | kodex-common/src/main/kotlin/nl/jolanrensen/kodex/documentableWrapper/DocumentableWrapper.kt:89-92 | Where `computeIdentifier` gives two documentables 256 characters apart one identifier, the identity that the documentation promises ("a unique identifier") tells them apart. |
| Documentables.NewDocumentable | kodex-common/src/main/kotlin/nl/jolanrensen/kodex/documentableWrapper/DocumentableWrapper.kt:71-148 | The tags are the content's tag names, and `isModified` is false. `sourceHasDocumentation` holds exactly for a non-empty content whose comment range is longer than 1. The identifier is `computeIdentifier` of the imports, the file, the paths, the super paths and the start of `fileTextRange`. |
| Documentables.ConstructedIdentifiersCollide | kodex-common/src/main/kotlin/nl/jolanrensen/kodex/documentableWrapper/DocumentableWrapper.kt:71-78 | Two documentables built from the same values, except for a `fileTextRange` 256 characters further on, are different but get the same identifier. |
| Documentables.Paths | kodex-common/src/main/kotlin/nl/jolanrensen/kodex/documentableWrapper/DocumentableWrapper.kt:150 | The paths are the fully qualified path, then the extension path when there is one. |
| Documentables.CopyLaws | kodex-common/src/main/kotlin/nl/jolanrensen/kodex/documentableWrapper/DocumentableWrapper.kt:176-201 | A copy keeps identifier and paths. Copying with the current values is the identity, and a copy of a copy equals one copy. |
| Documentables.Lines | kodex-common/src/main/kotlin/nl/jolanrensen/kodex/documentableWrapper/DocumentableWrapper.kt:207 | `lines()` yields at least one line, and no line holds a `\n` or `\r`. |
| Documentables.LoneReturnEndsLine | kodex-common/src/main/kotlin/nl/jolanrensen/kodex/documentableWrapper/DocumentableWrapper.kt:207 | A lone `\r` ends a line: `"a\rb"` has the lines `a` and `b`. |
| Documentables.ReturnNewlineEndsLine | kodex-common/src/main/kotlin/nl/jolanrensen/kodex/documentableWrapper/DocumentableWrapper.kt:207 | `\r\n` is one line break: `"a\r\nb"` has the lines `a` and `b`. |
| Documentables.DocContentForHtmlRange | kodex-common/src/main/kotlin/nl/jolanrensen/kodex/documentableWrapper/DocumentableWrapper.kt:206-211 | An index error exactly when the start or the end falls outside the lines. Otherwise, when the start comes after the end plus one, `subList`'s IllegalArgumentException with its message `fromIndex(start) > toIndex(end + 1)`. |
| Documentables.ReversedMarkersRefused | kodex-common/src/main/kotlin/nl/jolanrensen/kodex/documentableWrapper/DocumentableWrapper.kt:206-211 | The start marker on line 3 and the end marker on line 0 give IllegalArgumentException `fromIndex(3) > toIndex(1)`, not an index error. |
| Documentables.HtmlRangeLines | kodex-common/src/main/kotlin/nl/jolanrensen/kodex/documentableWrapper/DocumentableWrapper.kt:206-211 | For a non-empty range, the lines of the result are exactly lines `start` to `end` of the content, both included. |
| Documentables.HtmlRangeDefault | kodex-common/src/main/kotlin/nl/jolanrensen/kodex/documentableWrapper/DocumentableWrapper.kt:206-211 | Without markers, the whole content, with each `\r\n` and lone `\r` written as `\n`. Content without a `\r` comes back unchanged. |
| Documentables.WithoutFilters | kodex-common/src/main/kotlin/nl/jolanrensen/kodex/processor/DocProcessor.kt:58 | Both filters are dropped; the documentables are kept. |
| Documentables.AllTypesSpec | kodex-common/src/main/kotlin/nl/jolanrensen/kodex/documentableWrapper/DocumentableWrapper.kt:158-173 | The list starts with the documentable itself and has no duplicates. It includes everything any of its super paths yields. |
| Documentables.AllTypesReachable | kodex-common/src/main/kotlin/nl/jolanrensen/kodex/documentableWrapper/DocumentableWrapper.kt:158-173 | A documentable is among the types exactly when it is the documentable itself, or is reached from it in at most `depth` steps, each step a query of a super path of the one before. |
| Documentables.AllTypesCache.GetAllTypes | kodex-common/src/main/kotlin/nl/jolanrensen/kodex/documentableWrapper/DocumentableWrapper.kt:158-173 | The first call computes the types over the unfiltered documentables and caches them. Later calls return the cached list. |
| ExportAsHtml.FirstLineWith | kodex-common/src/main/kotlin/nl/jolanrensen/kodex/defaultProcessors/ExportAsHtmlDocProcessor.kt:80-82 | `indexOfFirst`: the first line holding the needle, or -1 exactly when no line does. |
| ExportAsHtml.UpdateHtmlRangeInDoc | kodex-common/src/main/kotlin/nl/jolanrensen/kodex/defaultProcessors/ExportAsHtmlDocProcessor.kt:76-87 | An immutable wrapper is refused and left as it was. A mutable one gets its start or end marker set at the first line mentioning `@tag`. |
| ExportAsHtml.ProcessBlockTagWithContent | kodex-common/src/main/kotlin/nl/jolanrensen/kodex/defaultProcessors/ExportAsHtmlDocProcessor.kt:54-63 | No tag name: the text is returned unchanged. Otherwise the range is updated, and the text after `@tag` is returned. |
| ExportAsHtml.ProcessInlineTagWithContent | kodex-common/src/main/kotlin/nl/jolanrensen/kodex/defaultProcessors/ExportAsHtmlDocProcessor.kt:65-74 | No tag name: the text is returned unchanged. Otherwise the range is updated, and the text between `{@tag` and `}` is returned. |
| ExportAsHtml.BlockContentSplits | kodex-common/src/main/kotlin/nl/jolanrensen/kodex/defaultProcessors/ExportAsHtmlDocProcessor.kt:61 | `@`, the name and the returned content reassemble the trimmed tag text. |
| ExportAsHtml.InlineContentSplits | kodex-common/src/main/kotlin/nl/jolanrensen/kodex/defaultProcessors/ExportAsHtmlDocProcessor.kt:72 | `{@`, the name, the returned content and `}` reassemble the tag text. |
| QueryUtils.PathsUsingImports | kodex-common/src/main/kotlin/nl/jolanrensen/kodex/documentableWrapper/QueryUtils.kt:106-118 | The loop over the imports computes `ImportPaths`. |
| QueryUtils.ImportPathsSound | kodex-common/src/main/kotlin/nl/jolanrensen/kodex/documentableWrapper/QueryUtils.kt:106-118 | Every path produced comes from some import. |
| QueryUtils.ImportPathsComplete | kodex-common/src/main/kotlin/nl/jolanrensen/kodex/documentableWrapper/QueryUtils.kt:106-118 | Every import contributes its path. |
| QueryUtils.ImportPathMeaning | kodex-common/src/main/kotlin/nl/jolanrensen/kodex/documentableWrapper/QueryUtils.kt:108-116 | A star import gives its package plus the target. A named import gives its path, but only for a target that starts with the imported name. |
| QueryUtils.SubPaths | kodex-common/src/main/kotlin/nl/jolanrensen/kodex/documentableWrapper/QueryUtils.kt:144-152 | The loop computes all dotted prefixes of the given paths. |
| QueryUtils.BasePathsMembers | kodex-common/src/main/kotlin/nl/jolanrensen/kodex/documentableWrapper/QueryUtils.kt:143-166 | The candidates are distinct and include the target itself and every import path. They also include `parent.target` for every enclosing path of every type; nothing else is there. |
| QueryUtils.NoReceiverCandidates | kodex-common/src/main/kotlin/nl/jolanrensen/kodex/documentableWrapper/QueryUtils.kt:168-173 | Without an extension receiver, the candidates are exactly the base ones. |
| QueryUtils.BaseComesFirst | kodex-common/src/main/kotlin/nl/jolanrensen/kodex/documentableWrapper/QueryUtils.kt:154-189 | The base candidates come first, in order, and the whole list is distinct. |
| QueryUtils.ReceiverCandidates | kodex-common/src/main/kotlin/nl/jolanrensen/kodex/documentableWrapper/QueryUtils.kt:170-185 | When the receiver resolves, every type of it contributes `type.member`. |
| QueryUtils.FirstHitSpec | kodex-common/src/main/kotlin/nl/jolanrensen/kodex/documentableWrapper/QueryUtils.kt:94-100 | The first candidate path, in order, with a passing documentable decides the result. `None` exactly when no path has one. |
| QueryUtils.QueryOnlyItself | kodex-common/src/main/kotlin/nl/jolanrensen/kodex/documentableWrapper/QueryUtils.kt:89-91 | When not all paths need querying, only the query itself is looked up. |
| QueryUtils.QueryAllCandidates | kodex-common/src/main/kotlin/nl/jolanrensen/kodex/documentableWrapper/QueryUtils.kt:71-88 | Otherwise all candidates are tried. From Java, a leading `…Kt` file segment is also tried without it. |
| QueryUtils.FewestCollisionsSpec | kodex-common/src/main/kotlin/nl/jolanrensen/kodex/documentableWrapper/QueryUtils.kt:27-33 | The chosen path has no more collisions than any other, and it is the first with that count. |
| QueryUtils.ForPathFound | kodex-common/src/main/kotlin/nl/jolanrensen/kodex/documentableWrapper/QueryUtils.kt:12-42 | A found documentable yields a path. With valid paths it is a valid one with the fewest collisions; otherwise the fully qualified path. |
| QueryUtils.FirstQueriedSpec | kodex-common/src/main/kotlin/nl/jolanrensen/kodex/documentableWrapper/QueryUtils.kt:44-52 | The first candidate path that is known, or `None` exactly when none is. |
| Graphs.BuildGraph | kodex-common/src/main/kotlin/nl/jolanrensen/kodex/utils/GraphUtils.kt:13-18 | The graph has exactly the given edges and their endpoints. Without self loops it is simple. |
| Graphs.BreadthFirst | kodex-common/src/main/kotlin/nl/jolanrensen/kodex/query/DocumentablesByPathWithCache.kt:239-251 | The search reaches exactly the vertices reachable from the start, the start included. |
| Graphs.ClosedHoldsReachable | kodex-common/src/main/kotlin/nl/jolanrensen/kodex/query/DocumentablesByPathWithCache.kt:239-251 | A set closed under the edges holds everything reachable from its members. |
| IncludeAnalysis.IncludeDocAnalyzer.UnfilteredDocumentablesByPath | kodex-common/src/main/kotlin/nl/jolanrensen/kodex/defaultProcessors/IncludeDocAnalyzer.kt:43 | Queries go to the documentables without filters. |
| IncludeAnalysis.IncludeDocAnalyzer.AnalyseContent | kodex-common/src/main/kotlin/nl/jolanrensen/kodex/defaultProcessors/IncludeDocAnalyzer.kt:48-71 | A found target adds the edge target to documentable. The documentable is recorded as analysed, and with `analyzeQueriesToo` the target is returned to analyse. |
| IncludeAnalysis.IncludeDocAnalyzer.Analyze | kodex-common/src/main/kotlin/nl/jolanrensen/kodex/processor/DocAnalyser.kt:14-25 | A second run is refused and changes nothing. Otherwise the processor counts as run afterwards; the edges, the analysed identifiers and the targets handed back are those of `AnalysisOf` over all the lines; a failure stops the run and comes back wrapped with the processor's name. |
| IncludeAnalysis.IncludeDocAnalyzer.AnalyseLines | kodex-common/src/main/kotlin/nl/jolanrensen/kodex/defaultProcessors/IncludeDocAnalyzer.kt:48-71 | `analyseContent` on each line in order until one fails leaves the state that `AnalysisOf` gives for all the lines. |
| IncludeAnalysis.IncludeDocAnalyzer.AnalyseLine | kodex-common/src/main/kotlin/nl/jolanrensen/kodex/defaultProcessors/IncludeDocAnalyzer.kt:48-71 | One `analyseContent` call is one `AnalysisStep` with that line's query outcome: a failure is kept, a target handed back joins the targets to analyse. |
| IncludeAnalysis.AnalysisStep | kodex-common/src/main/kotlin/nl/jolanrensen/kodex/defaultProcessors/IncludeDocAnalyzer.kt:59-70 | A failed run takes no step. Edges and analysed identifiers only grow. |
| IncludeAnalysis.RequestedExtends | kodex-common/src/main/kotlin/nl/jolanrensen/kodex/defaultProcessors/IncludeDocAnalyzer.kt:66-68 | Over a run, the targets handed back are only appended to: the starting ones stay a prefix. |
| IncludeAnalysis.AnalysisEdges | kodex-common/src/main/kotlin/nl/jolanrensen/kodex/defaultProcessors/IncludeDocAnalyzer.kt:59-70 | A run that does not fail ends with exactly the starting edges plus, for each line whose target was found, the edge from the target to the line's documentable. It also ends with exactly the starting identifiers plus every line's documentable. |
| IncludeAnalysis.AnalysisFailure | kodex-common/src/main/kotlin/nl/jolanrensen/kodex/defaultProcessors/IncludeDocAnalyzer.kt:49-57 | From a state that has not failed, the run fails exactly when some line's query fails, and then with the error of the first such line. |
| IncludeAnalysis.RequestedFound | kodex-common/src/main/kotlin/nl/jolanrensen/kodex/defaultProcessors/IncludeDocAnalyzer.kt:66-68 | Every target handed back was found by some line's query while queries are analysed too. It was not analysed at the start, nor the documentable of any earlier line. |
| IncludeAnalysis.FoundRequested | kodex-common/src/main/kotlin/nl/jolanrensen/kodex/defaultProcessors/IncludeDocAnalyzer.kt:66-68 | With queries analysed too, a run that does not fail hands back every line's target that was not analysed at the start and was not an earlier line's documentable. |
| IncludeAnalysis.AnalyzedGrows | kodex-common/src/main/kotlin/nl/jolanrensen/kodex/defaultProcessors/IncludeDocAnalyzer.kt:70 | The analysed identifiers keep the starting ones and gain each line's documentable. |
| IncludeAnalysis.AnalyzedOnly | kodex-common/src/main/kotlin/nl/jolanrensen/kodex/defaultProcessors/IncludeDocAnalyzer.kt:70 | Only the lines' documentables are added to the analysed identifiers. |
| IncludeAnalysis.NothingRequested | kodex-common/src/main/kotlin/nl/jolanrensen/kodex/defaultProcessors/IncludeDocAnalyzer.kt:66 | Without `analyzeQueriesToo`, no target is handed back. |
| IncludeAnalysis.AnalysisStuck | kodex-common/src/main/kotlin/nl/jolanrensen/kodex/processor/DocAnalyser.kt:14-25 | After a failure, the remaining lines change nothing. |
| IncludeAnalysis.IncludeDocAnalyzer.GetAnalyzedResult | kodex-common/src/main/kotlin/nl/jolanrensen/kodex/defaultProcessors/IncludeDocAnalyzer.kt:73-83 | Refused before a run. Afterwards, the graph of exactly the recorded dependencies is returned, and it is simple. |
| IncludeAnalysis.IncludeDocAnalyzer.IncludeTargetOther | kodex-common/src/main/kotlin/nl/jolanrensen/kodex/defaultProcessors/IncludeDocAnalyzer.kt:53-57 | A documentable never includes itself. |
| IncludeAnalysis.IncludeDocAnalyzer.IncludeTargetFailures | kodex-common/src/main/kotlin/nl/jolanrensen/kodex/defaultProcessors/IncludeDocAnalyzer.kt:49-50 | The only failures are a missing `@include` and an empty argument list. |
| IncludeAnalysis.IncludeDocAnalyzer.UntaggedRefused | kodex-common/src/main/kotlin/nl/jolanrensen/kodex/defaultProcessors/IncludeDocAnalyzer.kt:49 | A line without `@include` fails with that message. |
| IncludeAnalysis.IncludeDocAnalyzer.TargetsHaveDocumentation | kodex-common/src/main/kotlin/nl/jolanrensen/kodex/defaultProcessors/IncludeDocAnalyzer.kt:90-91 | Under the analyser's query filter, every target has documentation. |
| IncludeAnalysis.HitsPassQueryFilter | kodex-common/src/main/kotlin/nl/jolanrensen/kodex/documentableWrapper/QueryUtils.kt:71-100 | Every hit passes the library's query filter. |
| QueryCache.OrderedList | kodex-common/src/main/kotlin/nl/jolanrensen/kodex/query/DocumentablesByPathWithCache.kt:136-140 | The list to query holds the documentable and exactly the ordered ones, the order first. |
| QueryCache.IncomingReplaced | kodex-common/src/main/kotlin/nl/jolanrensen/kodex/query/DocumentablesByPathWithCache.kt:114-134 | The documentable's incoming edges become exactly the new ones; other vertices keep theirs. |
| QueryCache.UpdatedGraph | kodex-common/src/main/kotlin/nl/jolanrensen/kodex/query/DocumentablesByPathWithCache.kt:114-134 | Every analysed vertex is added and gets exactly its new incoming edges. Other vertices keep theirs, and the graph stays simple. |
| QueryCache.AppendAllSpec | kodex-common/src/main/kotlin/nl/jolanrensen/kodex/query/DocumentablesByPathWithCache.kt:144-152 | After appending, a documentable is listed under a key exactly when it was, or it was appended and has that key. |
| QueryCache.StoreAllSpec | kodex-common/src/main/kotlin/nl/jolanrensen/kodex/query/DocumentablesByPathWithCache.kt:256-260 | Every stored documentable has its content stored under its identifier. Other entries are unchanged. |
| QueryCache.DocumentablesByPathWithCache.DocumentablesToProcess | kodex-common/src/main/kotlin/nl/jolanrensen/kodex/query/DocumentablesByPathWithCache.kt:50-59 | Empty when nothing is being processed. Otherwise the same paths, each filtered by the to-process filter. |
| QueryCache.DocumentablesByPathWithCache.GetDocContentResult | kodex-common/src/main/kotlin/nl/jolanrensen/kodex/query/DocumentablesByPathWithCache.kt:61 | The stored result, or `None` exactly when none is stored. |
| QueryCache.DocumentablesByPathWithCache.UpdatePostIncludeDocContentResult | kodex-common/src/main/kotlin/nl/jolanrensen/kodex/query/DocumentablesByPathWithCache.kt:66-68 | Stores the documentable's content under its identifier. |
| QueryCache.DocumentablesByPathWithCache.Get | kodex-common/src/main/kotlin/nl/jolanrensen/kodex/query/DocumentablesByPathWithCache.kt:172-175 | A cached identifier is answered from the query cache, any other one by the lookup. The answer has that identifier. |
| QueryCache.DocumentablesByPathWithCache.Query | kodex-common/src/main/kotlin/nl/jolanrensen/kodex/query/DocumentablesByPathWithCache.kt:179-209 | A cached key is answered from the cache. A new key is queried, filtered and cached; a failed query changes nothing. |
| QueryCache.DocumentablesByPathWithCache.StaleDependencyMakesDue | kodex-common/src/main/kotlin/nl/jolanrensen/kodex/query/DocumentablesByPathWithCache.kt:224-236 | A documentable whose dependency resolves only to stale documentables is due for a rebuild. |
| QueryCache.DocumentablesByPathWithCache.DueWithoutDepth | kodex-common/src/main/kotlin/nl/jolanrensen/kodex/query/DocumentablesByPathWithCache.kt:224-236 | With no depth left, a documentable is due exactly when it is stale itself or has a dependency at all. |
| QueryCache.DocumentablesByPathWithCache.DueMonotone | kodex-common/src/main/kotlin/nl/jolanrensen/kodex/query/DocumentablesByPathWithCache.kt:239-250 | Storing hash codes and dropping caches never makes a due documentable cease to be due. |
| QueryCache.DocumentablesByPathWithCache.NeedsRebuild | kodex-common/src/main/kotlin/nl/jolanrensen/kodex/query/DocumentablesByPathWithCache.kt:213-254 | True exactly when the documentable is stale itself or a dependency counted as stale. A dependency counts as stale only when it is unknown, was itself rebuilt (its caches dropped), or the depth bound is reached. Every documentable that `RebuildDue` (the rebuild condition of lines 213-237, stated on its own) holds for gets true. On true, the new hash is stored, and the caches of the documentable and of everything it reaches are dropped. False changes nothing. |
| QueryCache.DocumentablesByPathWithCache.DependenciesNeedRebuild | kodex-common/src/main/kotlin/nl/jolanrensen/kodex/query/DocumentablesByPathWithCache.kt:227-231 | Every dependency is checked, none skipped after the first hit: each due dependency is counted as stale, and the result is true exactly when one is. |
| QueryCache.DocumentablesByPathWithCache.DependencyNeedsRebuild | kodex-common/src/main/kotlin/nl/jolanrensen/kodex/query/DocumentablesByPathWithCache.kt:230 | `it == null` or `needsRebuild(it)`: true for every due dependency, and false changes nothing. |
| QueryCache.DocumentablesByPathWithCache.Invalidate | kodex-common/src/main/kotlin/nl/jolanrensen/kodex/query/DocumentablesByPathWithCache.kt:239-251 | The hash is updated, and the documentable and every vertex it reaches lose their cached results. Nothing else is dropped. |
| QueryCache.DocumentablesByPathWithCache.RebuildIfNeeded | kodex-common/src/main/kotlin/nl/jolanrensen/kodex/query/DocumentablesByPathWithCache.kt:159 | Every due documentable gets true. On true, its caches and those of everything it reaches are gone; on false no result is dropped. |
| QueryCache.DocumentablesByPathWithCache.MarkRebuilds | kodex-common/src/main/kotlin/nl/jolanrensen/kodex/query/DocumentablesByPathWithCache.kt:154-168 | Each ordered documentable that is due is rebuilt and queued under its paths, and only ordered ones are. The result is true exactly when one is rebuilt. |
| QueryCache.DocumentablesByPathWithCache.UpdatePreProcessing | kodex-common/src/main/kotlin/nl/jolanrensen/kodex/query/DocumentablesByPathWithCache.kt:92-169 | The graph gets the analysed edges, and the query cache lists exactly the entries the `@include` analysis left and the documentable and the ordered ones under their paths. The queue holds the documentable and exactly the rebuilt ones. Every one of them that is due for a rebuild, in the state after the graph update, is rebuilt; in particular a stale documentable to process is rebuilt and the result is true. The result is true exactly when one is queued. |
| QueryCache.DocumentablesByPathWithCache.UpdatePostProcessing | kodex-common/src/main/kotlin/nl/jolanrensen/kodex/query/DocumentablesByPathWithCache.kt:256-260 | Every processed documentable has its content stored. Other entries are unchanged. |
| QueryCache.DocumentablesByPathWithCache.WithQueryFilter | kodex-common/src/main/kotlin/nl/jolanrensen/kodex/query/DocumentablesByPathWithCache.kt:264-265 | Sets the query filter in place and returns the same object. |
| QueryCache.DocumentablesByPathWithCache.WithDocsToProcessFilter | kodex-common/src/main/kotlin/nl/jolanrensen/kodex/query/DocumentablesByPathWithCache.kt:267-268 | Sets the to-process filter in place and returns the same object. |
| QueryCache.DocumentablesByPathWithCache.WithFilters | kodex-common/src/main/kotlin/nl/jolanrensen/kodex/query/DocumentablesByPathWithCache.kt:270-277 | Sets both filters in place and returns the same object. |
| QueryCache.DocumentablesByPathWithCache.ToMutable | kodex-common/src/main/kotlin/nl/jolanrensen/kodex/query/DocumentablesByPathWithCache.kt:262 | Already mutable: returns itself. |
| LegacyDocumentables.DocumentablesToProcess | doc-processor-common/src/main/kotlin/nl/jolanrensen/docProcessor/DocumentablesByPath.kt:57-60 | Every path with a documentable passing the to-process filter, listing exactly those. No path is left with an empty list. |
| LegacyDocumentables.FilteredNonEmpty | doc-processor-common/src/main/kotlin/nl/jolanrensen/docProcessor/DocumentablesByPath.kt:57-60 | A filtered list is non-empty exactly when some member passes. |
| LegacyDocumentables.Query | doc-processor-common/src/main/kotlin/nl/jolanrensen/docProcessor/DocumentablesByPath.kt:62-68 | Exactly the documentables at the path that pass the query filter; an unknown path gives nothing. |
| LegacyDocumentables.ToMutable | doc-processor-common/src/main/kotlin/nl/jolanrensen/docProcessor/DocumentablesByPath.kt:71-76 | A mutable view that answers every query and the to-process map as before. A mutable one is returned as it is. |
| LegacyDocumentables.WithQueryFilter | doc-processor-common/src/main/kotlin/nl/jolanrensen/docProcessor/DocumentablesByPath.kt:78-83 | Replaces the query filter; the documentables, the other filter and the to-process map stay. |
| LegacyDocumentables.WithDocsToProcessFilter | doc-processor-common/src/main/kotlin/nl/jolanrensen/docProcessor/DocumentablesByPath.kt:85-90 | Replaces the to-process filter; the documentables and every query answer stay. |
| LegacyDocumentables.EmptyFindsNothing | doc-processor-common/src/main/kotlin/nl/jolanrensen/docProcessor/DocumentablesByPath.kt:26 | `EMPTY` answers every query with nothing and has nothing to process. |
| LegacyDocumentables.WithCache.DocumentablesToProcess | doc-processor-common/src/main/kotlin/nl/jolanrensen/docProcessor/DocumentablesByPath.kt:137-141 | The unfiltered map filtered by the to-process filter, with no empty list. |
| LegacyDocumentables.WithCache.Lookup | doc-processor-common/src/main/kotlin/nl/jolanrensen/docProcessor/DocumentablesByPath.kt:145-151 | The answer lines 147-149 evidently mean: for a known path, the documentables to process under it, otherwise the external query's, either way exactly those the query filter keeps. |
| LegacyDocumentables.WithCache.Query | doc-processor-common/src/main/kotlin/nl/jolanrensen/docProcessor/DocumentablesByPath.kt:145-151 | As written: a cached path or a known path is answered with `Lookup` and cached. Any other path calls the member `query` again and fails with a stack overflow, caching nothing. |
| LegacyDocumentables.WithCache.QueryIntended | doc-processor-common/src/main/kotlin/nl/jolanrensen/docProcessor/DocumentablesByPath.kt:145-151 | As evidently intended: the answer is `Lookup` and is cached, and the external query is asked exactly for an uncached, unknown path. |
| LegacyDocumentables.WithCache.QueryTwice | doc-processor-common/src/main/kotlin/nl/jolanrensen/docProcessor/DocumentablesByPath.kt:145-151 | Asking twice gives the same outcome. An answer is cached, and a stack overflow leaves the cache as it was. |
| LegacyDocumentables.WithCache.ToMutable | doc-processor-common/src/main/kotlin/nl/jolanrensen/docProcessor/DocumentablesByPath.kt:154-160 | A mutable object is returned as it is. Otherwise a fresh mutable copy with the same sources and filters and an empty cache, whose external query answers with this collection's `Lookup`. |
| LegacyDocumentables.WithCache.WithQueryFilter | doc-processor-common/src/main/kotlin/nl/jolanrensen/docProcessor/DocumentablesByPath.kt:162-169 | A fresh object with the new query filter, the same sources and an empty cache. |
| LegacyDocumentables.WithCache.WithDocsToProcessFilter | doc-processor-common/src/main/kotlin/nl/jolanrensen/docProcessor/DocumentablesByPath.kt:171-178 | A fresh object with the new to-process filter, the same sources and an empty cache. |
| LegacyDocumentables.UnknownPathOverflows | doc-processor-common/src/main/kotlin/nl/jolanrensen/docProcessor/DocumentablesByPath.kt:145-151 | For an empty collection and any path, the query as written overflows the stack, while the intended query asks the external query and answers with nothing. |
| PluginTestExamples.OneArgument | doc-processor-gradle-plugin/src/test/kotlin/nl/jolanrensen/docProcessor/DocProcessorPluginTest.kt:137 | Four plain words read as one argument come back as the whole text. |
| PluginTestExamples.TwoArguments | doc-processor-gradle-plugin/src/test/kotlin/nl/jolanrensen/docProcessor/DocProcessorPluginTest.kt:138 | Read as two arguments: the first word, then the other three with their spaces. |
| PluginTestExamples.ThreeArguments | doc-processor-gradle-plugin/src/test/kotlin/nl/jolanrensen/docProcessor/DocProcessorPluginTest.kt:139 | Read as three arguments: the first two words, then the last two with their space. |
| PluginTestExamples.InlineTagArguments | doc-processor-gradle-plugin/src/test/kotlin/nl/jolanrensen/docProcessor/DocProcessorPluginTest.kt:134-139 | `{@tag w1 w2 w3 w4}` with 1, 2 and 3 arguments gives the splits the test expects, for any four plain words. |
| PluginTestExamples.GetTagContent | doc-processor-gradle-plugin/src/test/kotlin/nl/jolanrensen/docProcessor/DocProcessorPluginTest.kt:134-139 | `{@tag simple content with spaces}` with 1, 2 and 3 arguments gives exactly the lists of the test. |
| PluginTestBlocks.ThreeBlocks | kodex-common/src/main/kotlin/nl/jolanrensen/kodex/docContent/DocContent.kt:42-127 | A first line that is no tag is a block, the lines from a tag line up to the last line that never starts a block are one, and a final tag line outside any indicator is one. |
| PluginTestBlocks.DifficultKdocBlocks | doc-processor-gradle-plugin/src/test/kotlin/nl/jolanrensen/docProcessor/DocProcessorPluginTest.kt:29-64 | `difficultKdoc` splits into exactly the three blocks the test expects, and they rejoin to the content. |
| PluginTestBlocks.CommonUnclosedBracket | doc-processor-gradle-plugin/src/test/kotlin/nl/jolanrensen/docProcessor/DocProcessorPluginTest.kt:43-64 | The splitter of doc-processor-common and kodex-common does not track brackets: `"a [b\n@g c"` is two blocks. |

## Left out

- Recursion without a limit. `getAllTypes`, `needsRebuild` and the candidate-path queries of `QueryUtils` recurse as deep as the data goes. The model gives them a depth bound (`depth`, `fuel`), and at `fuel` 0 `needsRebuild` counts every dependency as stale. On a cycle of supertypes or dependencies the source overflows the stack, because `allTypes` is assigned only after `buildSet` finishes; the model stops at the bound instead.
- QueryCache.DocumentablesByPathWithCache.NeedsRebuild: the result holds for every documentable the rebuild condition `RebuildDue` holds for. The converse is stated only as the bound on the stale dependencies: each is unknown, was rebuilt, or lies at the depth bound.
- QueryCache.DocumentablesByPathWithCache.UpdatePreProcessing: the rebuild condition is read in the state after the graph update. The ghost set `prepared` names the vertices of that state.
- QueryCache.DocumentablesByPathWithCache.UpdatePreProcessing: the query cache entries stored by the `@include` analysis (lines 104-109, through `getOrPut` at line 184) are the parameter `analysisCache`, not derived from the analysis. The contract says the cache then holds exactly those entries plus the ordered documentables and the documentable to process.
- `get` through `MutableDocumentablesByPath`, `queryNew` and `modifyDocContentAndUpdate` are given functions of the cache (`lookup`, `queryNew`, `modifyDocContentAndUpdate`). The classes behind them are not part of this model.
- The analysed graph, the query cache entries the analysis left and the topological order are parameters of `UpdatePreProcessing`. `getAnalyzedResult` with `processLimit - 1` queries through the cache itself (after line 99 clears it), so what it stores there is given rather than computed, and jgrapht's `TopologicalOrderIterator` is not part of this model. The order is only required to list the graph's vertices.
- jgrapht's `addEdge` throws on a self loop. `UpdatePreProcessing` instead requires that no analysed edge joins a documentable to itself.
- The `DocumentablesByPath` a documentable is queried through is the value `Documentables.Library`: a map from paths to documentables with its two filters. It ignores the query context and `canBeCache`.
- Documentables compare by value. The source's sets and its `it != documentable` compare `DocumentableWrapper` objects by identity, as it is not a data class.
- `String.hashCode` runs over UTF-16 code units; `Documentables.StringHash` runs over Dafny characters, which are Unicode scalar values. The two agree on text inside the Basic Multilingual Plane. `SimpleImportPath.hashCode` is the parameter `importHash`.
- `UUID.nameUUIDFromBytes` hashes the bytes with MD5. The model keeps the bytes themselves (`Uuid(bytes)`), so it ignores MD5 collisions.
- Indices, lengths and depths are unbounded integers. Only `String.hashCode`, `toByte` and the identifier bytes model 32-bit and 8-bit arithmetic.
- IncludeAnalysis.IncludeDocAnalyzer.Analyze: takes the documentables' `@include` lines as a list of (line, documentable) pairs, in place of the traversal of `analyzeSafely`. It returns the targets to analyse next, in place of calling `analyzeDocumentable(target, 10_000)` on them, so their own lines are not part of the run.
- LegacyDocumentables.WithCache.ToMutable: the copy's external query is this collection's intended `Lookup`. As written it is this collection's member `query`, which caches in this collection and overflows the stack for an unknown path.
- Indices and ranges count Dafny characters, which are Unicode scalar values; Kotlin's strings count UTF-16 code units. Outside the Basic Multilingual Plane the two differ, and so do the indices and ranges of DocUtils.GetTagArgumentsWithRanges, DocTexts.GetDocContentWithMap, DocTexts.ContentMapsBack, BlockSplit.SplitPerBlockWithRanges, InlineTags.FindInlineTagNamesWithRanges, GradleInlineTags.FindInlineTagNamesWithRanges, RangeMapping.MapToRanges and the highlight indices of the Highlights members.
- `hasExternalDependency` reads the tags of the loaded `SampleDocProcessor` and `IncludeFileDocProcessor` through `.single()`. The model gives their union as the constant `externalTags`, and so never throws when two are loaded.
- The iteration order of the source's maps is not modelled: they are Dafny maps. The lists stored in them keep the order their values were added in.
- DocTexts.RoundTrip: proved for restorable content only (a last line that is empty or trimmed, and a single line that does not start with `*`). The converse, that other content does not come back, is not stated.
- A negative indent: `toDocText` and the two `toDoc` take `indent` as a `nat`. In the source `" ".repeat` throws on a negative count; the model has no such failure.
- `renderToHtml` and its Markdown providers, I/O (`queryFileForDocTextRange`, `IncludeFileDocProcessor`), `SampleDocProcessor`, `RemoveEscapeCharsProcessor`, `findProcessors`, the IntelliJ plugin and the Gradle task wiring are not part of this model. They are a Markdown library wrapper, file access, regexes over raw source, coroutines, reflection and editor UI.
- The Gradle plugin's `findBlockTagNamesInDocContent` and `findTagNamesInDocContent` compose functions that are modelled, and are left out.
- The other functions of doc-processor-common's docUtils.kt (`decodeCallableTarget`, `splitDocContentPerBlockWithRanges`, the tag-name finders, `replaceKdocLinks`, `removeKotlinLinks`) are older copies of the kodex-common functions. The kodex-common members stand for them only where the table cites both places.
- The other cases of the `Get tag content` test (lines 141-156 of DocProcessorPluginTest.kt: bracketed, quoted and trailing-newline arguments) are not stated as lemmas.

## Findings

| source | as written | input that shows it | evidently intended | confidence | as-written member | corrected member |
|---|---|---|---|---|---|---|
| kodex-common/src/main/kotlin/nl/jolanrensen/kodex/utils/DocUtils.kt:65-71 | Whitespace skipped between arguments does not advance the start index of the next argument, so the ranges of the second and later arguments drift. | `"@tag a b c"` with 3 arguments: ranges 5, 6 and 8 | ranges 5, 7 and 9, each selecting the text of its argument | not executed | DocUtils.RangesDriftExample | DocUtils.FixedRangesExample |
| doc-processor-gradle-plugin/src/main/kotlin/nl/jolanrensen/docProcessor/docUtils.kt:181-190 | A first line that is a tag line closes the still-empty first block, and an empty first line is replaced by the next line. | `"@a x"` gives `["", "@a x"]`; `"\nfoo"` gives `["foo"]` | blocks that rejoin to the content, as the kodex-common splitter promises at DocContent.kt:34-41 | not executed | GradleBlocks.TagFirstLineAddsBlock | GradleBlocks.FixedBlocksJoin |
| kodex-common/src/main/kotlin/nl/jolanrensen/kodex/docContent/DocContent.kt:83-85 | With `ignoreKDocMarkers`, a line whose inspected form is empty contributes only its `\n`, so its text is lost. | `" *"` with `ignoreKDocMarkers` gives `[""]` | blocks that rejoin to the content (lines 34-41) | not executed | BlockSplit.MarkerLineDropped | BlockSplit.FixedBlocksJoin |
| kodex-common/src/main/kotlin/nl/jolanrensen/kodex/documentableWrapper/DocumentableWrapper.kt:93-110 | Only the low byte of each hash code reaches the UUID, so different documentables share an identifier. | two documentables of one file whose `fileTextRange` starts 256 characters apart | "a unique identifier for a documentable" (lines 89-92) | not executed | Documentables.ConstructedIdentifiersCollide | Documentables.IdentitySeparatesCollision |
| doc-processor-gradle-plugin/src/main/kotlin/nl/jolanrensen/docProcessor/docUtils.kt:191-200 | The doc comment at line 169 says the splitter takes `{}`, `[]` and `()` into account, and the code counts `[` and `]`. The test at DocProcessorPluginTest.kt:45-63 expects the splitter that does not count them, that of doc-processor-common and kodex-common. The two disagree: a `[` left open in text keeps every later tag line in the current block. | `"a [b\n@g c"` gives one block; `difficultKdoc` of DocProcessorPluginTest.kt:29-41 has such a `[` | either behaviour, as the comment or the test says; the other splitter matches the test | not executed; a conflict between comment and test, not a certain bug | GradleBlocks.UnclosedBracketJoins | PluginTestBlocks.CommonUnclosedBracket |
| doc-processor-common/src/main/kotlin/nl/jolanrensen/docProcessor/DocumentablesByPath.kt:145-151 | Inside `getOrPut`, the unqualified `query(path)` calls the member function `query`, not the `query` property, so an uncached path outside the documentables to process recurses without end. | an empty collection queried for any path | the external query's answer, filtered and cached | not executed | LegacyDocumentables.UnknownPathOverflows | LegacyDocumentables.WithCache.QueryIntended |
