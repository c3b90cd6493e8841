# Verified model of the retrieval pipeline, the settings cache and the backend connector

This project models, in Dafny, the logic of five parts of the service and proves what they promise:

* **The Persian normaliser** (`app/retrieval/normalize.py`), from the text past the character maps to
  the canonical form. `Rewriting` is the leftmost scan of `re.sub` with one matcher for each pattern,
  look-behind and look-ahead included; `Normalize.Normalized` is the chain of passes; `Tokens` sees a
  text as words, separators and other characters. The main step, `NormalizeTokenwise`, shows that the
  nine passes together rewrite every token on its own, looking only at its two neighbours. Everything
  else (when it is idempotent, what it keeps, which spellings meet) follows from that form. The proofs
  are for any table of stems in which no stem starts with a prefix itself (`Stages.GoodStems`);
  `Stems.VerbStemsAreGood` shows it of the table in the source, and `Persian` puts the two together.
* **Chunking** (`app/retrieval/chunk.py`): the greedy packing with its carried overlap (`Packing`,
  `PackBudget`, `PackOptimal`), paragraphs (`Paragraphs`), headings and sections (`Sections`, `Headings`,
  `SectionRoundTrip`), documents and the entry point (`Chunking`, `ChunkTheorems`), FAQ entries (`Faq`),
  what of a document reaches the paragraphs (`Conservation`), what becomes of the fields of an item
  (`Items`), and the label in front of every chunk (`Labels`).
* **HTML cleaning** (`app/retrieval/clean.py`): the extractor object with its skip depth and two list
  stacks (`Extraction`, `Tags`), its agreement with a recursive rendering of the document tree
  (`ExtractionTrees`, `ListNumbering`), the tidying of the text (`Tidying`, `LineBreaks`, `Cleaning`),
  the choice between HTML and plain text (`Bodies`), which words are kept (`Words`), which lines end up
  indented (`TidyIndent`, `Indentation`, `HtmlIndent`), and how headings of HTML become sections of the
  chunker (`HtmlSections`).
* **The runtime settings cache** (`app/db/repositories/settings.py`): coroutines interleave at every
  `await`, so each uninterrupted stretch of `get` and `set` is one event of a state machine with a clock
  and a history of the database (`Settings`). `SettingsTheorems` and `ReadYourWrites` hold over all runs.
* **The idempotent write protocol** between `app/connectors/http.py` as client and
  `app/connectors/fake.py` as server (`Backend`, `BackendRuns`, `Http`, `ExactlyOnce`): the network
  between them may lose a request or a response, put a response of its own in the place of one, garble
  a body, or bring a request to the backend late, after its caller has given up and other requests have
  come in; and the caller may replay.

Code that changes state step by step is imperative here too: `Packing.Pack`, `Packing.CarryOver`,
`Sections.SplitSections` and the loops of `Chunking` are methods proved equal to a function;
`Extraction.TextExtractor`, `Settings.SettingsStore`, `Backend.FakeMainBackend` and
`Http.HttpMainBackend` are classes whose methods are tied to a step of a state machine (`Step`,
`Handle`, `Exchange`). The theorems are about those functions and state machines. Lemmas carry
`{:induction false}`: every induction is an explicit recursive call.

## Where the code does not do what it says

The model follows the code. Each of these has a concrete input or run that fails and a theorem over all
inputs or runs that says when the statement does hold.

* `_pack` says its pieces are of at most `max_tokens` (`app/retrieval/chunk.py:65`). With an overlap
  they need not be: the carry is added without a second look. `Packing.OverlapCanExceedBudget` is an
  input; exactly when all pieces are within the budget: `PackBudget.AllWithinBudgetIff`, a condition on
  the paragraphs alone. `Packing.PieceSize` bounds the others.
* The real token count of a piece can exceed its accounted tokens: `Packing.RealCountCanExceed`;
  exactly when it does not: `Packing.RealCountWithinIff`; by no more than `Packing.RealCount` allows.
* "Every chunk text is prefixed with title › section" (`app/retrieval/chunk.py:194`) is not so when
  the first line holds the title: `Labels.PrefixCanBeMissing` is a document whose only chunk has no
  label; exactly when all chunks of an item have theirs: `Labels.DocumentLabelledIff`.
* `normalize` returns "the canonical form" (`app/retrieval/normalize.py:122`), but normalising it again
  can change it: `NormalizeTheorems.TabIsNotSteady` and `NormalizeTheorems.BlankLineIsNotSteady`;
  exactly when: `NormalizeTheorems.IdempotentExactly`; never on ordinary text:
  `NormalizeTheorems.OrdinaryIsIdempotent`. Two runs settle every text: `NormalizeTheorems.TwoRunsSettle`.
* `_tidy` can leave two blank lines in a row in plain text: `LineBreaks.TidyCanLeaveTriple`; exactly
  when: `LineBreaks.TidyNoTripleIff`. Text that came from HTML never has them (`Cleaning.HtmlShape`).
* `set` drops the cache entry of its key, yet a `get` that has read the old row can store it
  afterwards: `ReadYourWrites.SetCanBeLost`; exactly when: `ReadYourWrites.SetIsSeenExactly`.
* The default of one caller of `get` can be served to another:
  `ReadYourWrites.FirstDefaultIsServed`; it never is exactly for the keys with a built-in default:
  `ReadYourWrites.OwnDefaultIff`.
* The backend does not ask who handles a conversation before it posts
  (`Backend.PostIgnoresHandledBy`): `Backend.PostAfterHandoff` is a run that writes into a conversation
  staff have taken over; exactly when a post does not: `Backend.PostRespectsStaffIff`.
* Its idempotency keys are global: `ExactlyOnce.KeysAreGlobal`; exactly when a reply names a message of
  the caller's own conversation: `ExactlyOnce.OwnConversationIff`.
* The comment in `_tidy` says indentation is kept for nested list items only
  (`app/retrieval/clean.py:141`). A line of text that looks like an item keeps it too:
  `Indentation.TextCanBeIndented`; exactly when a tidied text has an indented line:
  `TidyIndent.TidyIndentIff`. In HTML the comment holds as long as no text that begins a line starts
  with white space: `HtmlIndent.NestedItemsOnly`.
* `handoff` takes any response below 400 for success (`app/connectors/http.py:179-186`):
  `Http.HandoffCanBeLost` is a call that succeeds although the backend never saw it; exactly when its
  success can be believed: `Http.HandoffIsTrueIff`.

## Model

| member | source | states |
|---|---|---|
| `Normalize.NormalizeTokenwise` | app/retrieval/normalize.py:138-148 | the whole chain of passes equals a description token by token: words parted after their prefix, each separator settled by its two neighbours alone |
| `Stages.PrefixSpacedPass` | app/retrieval/normalize.py:138 | the first pass joins exactly the separators of spaces and half-spaces between a whole-word prefix and a word |
| `Stages.PrefixAttachedPass` | app/retrieval/normalize.py:139 | the second pass parts exactly the words that are a prefix and a stem of the table |
| `Stages.SuffixSpacedPass` | app/retrieval/normalize.py:140 | the third pass joins exactly the separators between a word of two letters or more and a suffix of the list |
| `Stages.AlternativeIsWord` | app/retrieval/normalize.py:110-114 | an alternation followed by "no Arabic letter" matches a whole word or nothing, so the order of the alternatives does not matter |
| `Stems.VerbStemsAreGood` | app/retrieval/normalize.py:76-106 | every stem of the table is an Arabic-block word of two letters or more that does not start with a prefix itself |
| `Edges.EdgePass` | app/retrieval/normalize.py:143 | the fifth pass drops exactly the half-spaces that do not stand between two Arabic-block characters |
| `Lines.LineEdgesStripLines` | app/retrieval/normalize.py:148 | stripping every line is a substitution of the blanks at its edges |
| `NormalizeTheorems.IdempotentExactly` | app/retrieval/normalize.py:138-148 | normalising twice is normalising once if and only if every separator inside the text is steady |
| `NormalizeTheorems.OrdinaryIsIdempotent` | app/retrieval/normalize.py:138-148 | it is idempotent on texts with no white space but spaces and newlines and no line of only spaces and half-spaces between two newlines |
| `NormalizeTheorems.TwoRunsSettle` | app/retrieval/normalize.py:138-148 | for every text, two runs settle it: a third changes nothing |
| `NormalizeTheorems.TabIsNotSteady` | app/retrieval/normalize.py:138-145 | a tab after the prefix becomes a space only after the prefix pass has run: a second run changes the text |
| `NormalizeTheorems.BlankLineIsNotSteady` | app/retrieval/normalize.py:147-148 | a line of one space is emptied only after blank lines were collapsed: a second run changes the text |
| `NormalizeTheorems.LettersSurvive` | app/retrieval/normalize.py:138-148 | without white space and half-spaces, the result is the text: the same characters in the same order |
| `NormalizeTheorems.HalfSpacesAreHeld` | app/retrieval/normalize.py:142-143 | every half-space of the result stands between two Arabic-block characters |
| `Variants.VariantsMeet` | app/retrieval/normalize.py:109-113 | a prefix attached to a stem of the table, or parted from it by any run of spaces and half-spaces, is one spelling after normalising, in any context that does not touch it with a letter |
| `Variants.PartedPairsMeet` | app/retrieval/normalize.py:109-140 | two words that the normaliser joins, parted by any run of spaces and half-spaces, are one spelling after normalising |
| `Variants.SuffixesMeet` | app/retrieval/normalize.py:114-140 | a word of two letters or more, parted from one of the nine suffixes by any run of spaces and half-spaces, is one spelling after normalising |
| `Variants.PairExactly` | app/retrieval/normalize.py:109-145 | two words with any run of spaces and half-spaces in between become the two words, each parted only behind a prefix of a stem, with a half-space exactly if the first is a prefix, or has two letters or more and the second is one of the nine suffixes, or no space stood there, and with one space else |
| `CanonLines.LinesSurvive` | app/retrieval/normalize.py:138-148 | the non-empty lines of the result are the normalised lines of the text that are not empty, in order |
| `Persian.CanonPromises` | app/retrieval/normalize.py:138-148 | with the table of the source, for every text: idempotent exactly when steady, always when ordinary; settled after two runs; the same characters; half-spaces only between letters; the lines are the normalised lines |
| `Persian.SpellingsMeet` | app/retrieval/normalize.py:109-113 | with the table of the source: every way to part a prefix and a stem by spaces and half-spaces, or not at all, is one spelling after normalising |
| `Persian.SuffixSpellingsMeet` | app/retrieval/normalize.py:114-140 | with the table of the source: every way to part a word of two letters or more and a suffix of the list by spaces and half-spaces is one spelling after normalising |
| `Persian.PairsExactly` | app/retrieval/normalize.py:70-145 | the same with the table of the source |
| `Packing.CountTokens` | app/retrieval/chunk.py:30-39 | the count is zero only for the empty text and is the length over 2.5 to within half a token |
| `Packing.CarryOver` | app/retrieval/chunk.py:87-99 | the backward loop finds the carried suffix and its token sum |
| `Packing.CarryIsLongest` | app/retrieval/chunk.py:87-99 | the carry is the longest suffix of the piece whose token sum is within the overlap |
| `Packing.Pack` | app/retrieval/chunk.py:64-84 | the loop joins exactly the groups of the greedy pass |
| `Packing.PackDecomposes` | app/retrieval/chunk.py:74-84 | every piece is the carry of the one before and a non-empty fresh part; the fresh parts are the input; a new piece starts only when the next paragraph would not fit; a piece over budget has one fresh paragraph |
| `Packing.PieceSize` | app/retrieval/chunk.py:74-84 | a piece is within the budget, or it is a carry within the overlap and exactly one paragraph |
| `PackBudget.AllWithinBudgetIff` | app/retrieval/chunk.py:64-99 | every piece is within the budget if and only if every paragraph of the input fits behind the longest tail, within the overlap, of the paragraphs before it |
| `PackBudget.RoomForOverlap` | app/retrieval/chunk.py:64-99 | it is enough that every paragraph leaves room for the overlap; without an overlap it is necessary and enough that every paragraph is within the budget |
| `Packing.OverBudgetExactly` | app/retrieval/chunk.py:76-80 | piece by piece: a piece exceeds the budget if and only if its carry and its first fresh paragraph already do |
| `Packing.OverlapCanExceedBudget` | app/retrieval/chunk.py:64-80 | three paragraphs within the budget whose second piece exceeds it |
| `Packing.RealCount` | app/retrieval/chunk.py:30-83 | the real count of a piece of k paragraphs is at most its accounted tokens plus (12k - 3) / 10 |
| `Packing.RealCountWithinIff` | app/retrieval/chunk.py:30-83 | the real count of a piece is within its accounted tokens if and only if rounding the paragraphs one by one gains what the joining newlines cost, less half a token |
| `Packing.RealCountCanExceed` | app/retrieval/chunk.py:75-83 | two paragraphs of one token each are packed, within a budget of two, into a piece of three |
| `PackOptimal.PackIsOptimal` | app/retrieval/chunk.py:64-84 | without an overlap no order-preserving grouping, with every block one paragraph or within the budget, has fewer blocks |
| `PackOptimal.PackIsGrouping` | app/retrieval/chunk.py:64-84 | ... and what is returned is such a grouping of all the paragraphs |
| `Text.SpacesListed` | app/retrieval/chunk.py:61 | the white space that `strip` and `isspace` know, one by one |
| `Paragraphs.SplitYieldsParagraphs` | app/retrieval/chunk.py:60-61 | every paragraph is non-empty, trimmed and without two newlines in a row |
| `Paragraphs.ParagraphRoundTrip` | app/retrieval/chunk.py:60-83 | splitting a joined piece gives back exactly the paragraphs that were joined |
| `Paragraphs.ParagraphsKeepInk` | app/retrieval/chunk.py:60-61 | the paragraphs hold every character that is not white space, in order |
| `Paragraphs.NoParagraphsIffBlank` | app/retrieval/chunk.py:60-61 | there is no paragraph if and only if the text is blank |
| `Sections.SplitSections` | app/retrieval/chunk.py:133-161 | the loop with its buffer returns the sections of the text cut above its h1 to h3 lines |
| `Headings.BreakIff` | app/retrieval/chunk.py:27-158 | a section ends at exactly the lines of one to three hashes, white space and a title that is not blank, with blanks around them |
| `Headings.HeadingOpens` | app/retrieval/chunk.py:145-157 | of such a line one hash opens a section without a title, two and three one with the stripped title and that level |
| `Headings.HashtagIsText` | app/retrieval/chunk.py:27-159 | hashes that no white space follows are text |
| `Headings.SectionBelow` | app/retrieval/chunk.py:136-157 | the section below a heading has its title and level and the stripped lines up to the next heading; only a blank run below an h1 gives none |
| `Headings.CutAtHeadings` | app/retrieval/chunk.py:145-160 | the segments are all lines in order, each but the first below a line of that form, and no line of a run has it |
| `Sections.SegmentsConserve` | app/retrieval/chunk.py:145-160 | every line lies in exactly one run or is the heading above one, in order |
| `Sections.SegmentsCut` | app/retrieval/chunk.py:145-159 | no run holds an h1 to h3 heading, and every run but the first has one above it |
| `Sections.NothingFiltered` | app/retrieval/chunk.py:140-161 | the last filter removes nothing |
| `SectionRoundTrip.AllProper` | app/retrieval/chunk.py:133-161 | no body of a section holds an h1 to h3 heading line, bodies are trimmed, titles are one trimmed line |
| `SectionRoundTrip.RenderedSplits` | app/retrieval/chunk.py:133-161 | any list of proper sections, rendered as markdown, splits into exactly these sections |
| `SectionRoundTrip.SectionsRoundTrip` | app/retrieval/chunk.py:133-161 | rendering the sections as markdown and splitting again gives the same sections |
| `Conservation.ParagraphsHoldText` | app/retrieval/chunk.py:60-161 | the paragraphs of all sections hold, in order, exactly the characters, white space aside, of the lines that are not h1 to h3 headings |
| `Chunking.ChunkFaq` | app/retrieval/chunk.py:105-120 | one whole chunk, or the answer in packed pieces with the question repeated, numbered in order |
| `Chunking.ChunkDoc` | app/retrieval/chunk.py:164-185 | the chunks laid out section by section, or the whole text when no section gives one |
| `Chunking.ChunkSections` | app/retrieval/chunk.py:175-181 | the loop lays the pieces of the sections one after the other, positions counting on |
| `Chunking.Finish` | app/retrieval/chunk.py:206-232 | each raw chunk becomes one labelled chunk with its metadata; none is skipped |
| `Chunking.ChunkDocument` | app/retrieval/chunk.py:191-232 | one labelled chunk for each raw chunk of the cleaned body, in order |
| `Chunking.RawHasInk` | app/retrieval/chunk.py:204-214 | no raw chunk is blank, so the blank-text skip never fires |
| `ChunkTheorems.DocEmptyIffBlank` | app/retrieval/chunk.py:171-185 | a document has no chunk if and only if its cleaned text is blank |
| `ChunkTheorems.RawCounted` | app/retrieval/chunk.py:112-184 | raw chunks are numbered 0, 1, 2, ... across sections |
| `ChunkTheorems.PiecesAreRuns` | app/retrieval/chunk.py:74-84 | every piece is a non-empty run of consecutive paragraphs of the input |
| `ChunkTheorems.ParagraphLands` | app/retrieval/chunk.py:175-181 | every paragraph of every section stands whole in one of the chunks of that section, under its heading |
| `ChunkTheorems.ChunkHoldsRun` | app/retrieval/chunk.py:175-185 | every chunk is a run of consecutive paragraphs of the section it belongs to, under its heading, or the whole text when no section has a body |
| `ChunkTheorems.SectionPacked` | app/retrieval/chunk.py:175-181 | the chunks of a section are its packed paragraphs within the limit and overlap of the document: each repeats the longest tail of the one before it and goes on with new paragraphs, and is begun only when the next paragraph would not fit |
| `Faq.FaqWhole` | app/retrieval/chunk.py:105-112 | an entry within the limit is exactly one chunk of question and answer |
| `Faq.FaqEmptyIff` | app/retrieval/chunk.py:111-120 | an entry has no chunk if and only if it is too long and its answer is blank |
| `Faq.FaqSplit` | app/retrieval/chunk.py:114-120 | a long entry is split into a grouping of its paragraphs with the question repeated in each; the budget is the limit less the tokens of the question and two, at least one; a piece is cut off only when the next paragraph does not fit it, and no grouping within it has fewer pieces |
| `Faq.FaqPieceSize` | app/retrieval/chunk.py:114-120 | a split chunk whose k paragraphs fit that budget has at most the limit plus (12k + 9) / 10 real tokens |
| `Items.RawChunksAre` | app/retrieval/chunk.py:16-204 | an item of type "faq" is an entry with a limit of 800 tokens, any other a document with 500 and an overlap of 50; the title is that of the item without the blanks around it |
| `Items.ChunkOfItem` | app/retrieval/chunk.py:53-230 | each chunk is its raw text, behind "title › section" and a newline unless its first line holds the title; its position and section, and the metadata field by field |
| `Items.ContainsIff` | app/retrieval/chunk.py:212 | the test of the first line asks whether the title stands in it at some position |
| `Labels.LabelledHasTitle` | app/retrieval/chunk.py:208-212 | a title that is not empty starts the text or lies in its first line |
| `Labels.LabelledHasPrefix` | app/retrieval/chunk.py:208-212 | the text starts with the label if and only if there is no title, the first line does not hold the title, or the text starts with the label anyway |
| `Labels.DocumentLabelledIff` | app/retrieval/chunk.py:194-212 | all chunks of an item start with their label if and only if it has no title, or each raw chunk lacks the title in its first line or starts with the label anyway |
| `Labels.PrefixCanBeMissing` | app/retrieval/chunk.py:194-212 | the text "## Fees", "to pay" under the title "pay" is one chunk, "to pay", without its label |
| `ChunkTheorems.DocumentChunks` | app/retrieval/chunk.py:206-232 | positions and metadata positions are 0 to n-1, sections are kept, no text is blank, the title is in front or in the first line |
| `ChunkTheorems.DocumentHolds` | app/retrieval/chunk.py:175-232 | every paragraph of every section is a paragraph of one of the chunks of that section, and the labelled chunk is that text with at most the label in front |
| `Extraction.TextExtractor.constructor` | app/retrieval/clean.py:49-54 | the extractor starts empty |
| `Extraction.TextExtractor.HandleStartTag` | app/retrieval/clean.py:64-92 | a start tag makes the step of the machine and keeps both stacks of equal length |
| `Extraction.TextExtractor.HandleEndTag` | app/retrieval/clean.py:94-111 | an end tag makes the step of the machine and keeps both stacks of equal length |
| `Extraction.TextExtractor.HandleData` | app/retrieval/clean.py:113-120 | character data makes the step of the machine |
| `Extraction.Extract` | app/retrieval/clean.py:127-132 | feeding the events leaves the parts of the run of the machine |
| `ExtractionTrees.MachineRenders` | app/retrieval/clean.py:64-120 | on every well-nested tree the machine does what a recursive rendering without stacks does, and gives both stacks back |
| `ExtractionTrees.DroppedRegion` | app/retrieval/clean.py:64-99 | a dropped element with any content balanced in such elements leaves the whole state unchanged, at any point |
| `ExtractionTrees.DroppedRegionInvisible` | app/retrieval/clean.py:64-115 | inserting such a region anywhere in any sequence of events changes nothing |
| `Tags.TagEffects` | app/retrieval/clean.py:17-111 | name by name: which tags open a skipped region, which bring one newline or two, and that all others change nothing |
| `Tags.SkippedEvents` | app/retrieval/clean.py:64-115 | inside a skipped region nothing is emitted, and only tags that are dropped change the depth |
| `Tags.ItemEffect` | app/retrieval/clean.py:80-107 | an item is a line of its own, two spaces in for each list around its own, with the next number of an ordered list or a dash |
| `Extraction.IndentIs` | app/retrieval/clean.py:82-83 | the indentation of an item is two spaces for each level |
| `Tags.ListEffect` | app/retrieval/clean.py:73-105 | a list is pushed with a count of its own and popped again, and only an outermost one brings newlines |
| `ListNumbering.OrderedListNumbered` | app/retrieval/clean.py:64-111 | an item directly inside an ordered list, closed or not, is emitted with the number of items of that list before it plus one, two spaces in for each level beyond the first, whatever the list holds besides |
| `Text.DecimalReads` | app/retrieval/clean.py:84-87 | the number of an item is written in decimal digits, without a zero in front |
| `ListNumbering.NthItemIsN` | app/retrieval/clean.py:80-86 | the n-th item directly inside an ordered list gets the number n if and only if no child before it holds an item of that list that is not directly inside it |
| `ListNumbering.ListRestores` | app/retrieval/clean.py:73-105 | a whole list gives both stacks back as they were |
| `Tidying.TidyIsShapely` | app/retrieval/clean.py:135-143 | no tidied line has trailing white space, leading white space stands only before a list marker, and the text is trimmed |
| `LineBreaks.TrailingLines` | app/retrieval/clean.py:139 | the first substitution trims spaces and tabs from every line that a newline ends |
| `LineBreaks.TrimEndExactly` | app/retrieval/clean.py:139 | ... and what it trims is exactly the spaces and tabs at the end |
| `LineBreaks.CollapseThins` | app/retrieval/clean.py:140 | the second substitution cuts every run of newlines down to two |
| `LineBreaks.TidyNoTripleIff` | app/retrieval/clean.py:138-143 | a tidied text has no three newlines in a row if and only if no run of two or more blank lines between lines with ink holds white space other than spaces and tabs |
| `LineBreaks.TidyCanLeaveTriple` | app/retrieval/clean.py:138-143 | a plain text that is tidied to three newlines in a row |
| `Cleaning.FeedIsGood` | app/retrieval/clean.py:58-120 | every part ever emitted is one or two newlines, one space, or a piece of one line with ink |
| `Cleaning.HtmlShape` | app/retrieval/clean.py:127-143 | whatever the events, cleaned HTML has no three newlines in a row, no trailing white space on a line, and leading white space only before a list marker |
| `Indentation.IndentSources` | app/retrieval/clean.py:58-120 | over every run: a part that starts with white space other than a newline is the whole marker of an item opened in a nested list, or comes from text that starts with white space |
| `TidyIndent.IsListItemIff` | app/retrieval/clean.py:135 | a line looks like an item if and only if it is white space, a dash, a star or digits and a dot, and white space behind it |
| `TidyIndent.TidyIndentIff` | app/retrieval/clean.py:135-143 | a tidied text has an indented line if and only if, behind some line with ink, a line looks like an item once its trailing spaces and tabs are gone (the last line as it is) |
| `HtmlIndent.NestedItemsOnly` | app/retrieval/clean.py:58-143 | if no text that begins a line starts with white space, every indented line of cleaned HTML starts with the indented marker of an item in a nested list |
| `Indentation.TextCanBeIndented` | app/retrieval/clean.py:135-143 | a text without any list whose second line keeps its indentation, because it looks like an item |
| `Words.LayoutCollapses` | app/retrieval/clean.py:116 | data is emitted with every run of spaces, tabs and line ends as one space and all other characters in order |
| `Words.TidyKeepsWords` | app/retrieval/clean.py:138-143 | tidying keeps the words of a text in order: none is lost, parted or glued to another |
| `Words.PlainKeepsWords` | app/retrieval/clean.py:146-152 | a body without a tag is cleaned to a text with exactly its words |
| `Words.HtmlKeepsWords` | app/retrieval/clean.py:58-143 | cleaned HTML has exactly the words of its data outside skipped regions and of its markers, parted where the data or a break parts them and nowhere else |
| `HtmlSections.HeadingsSurvive` | app/retrieval/clean.py:45-143 | a document of h1 to h6 and paragraphs is cleaned to their lines with a blank line in between, and each heading parses as a heading of the same depth and title |
| `HtmlSections.ChaptersBecomeSections` | app/retrieval/clean.py:127-132 | HTML of chapters, each an h2 or h3 and its paragraphs, is cleaned and split into exactly one section for each chapter, with its title, level and paragraphs |
| `Bodies.LooksLikeHtmlIff` | app/retrieval/clean.py:47-124 | a body is taken for HTML if and only if it holds a `<`, an ASCII letter, `/` or `!` right behind it, and a `>` further on |
| `Bodies.CleanIs` | app/retrieval/clean.py:146-152 | such a body is cleaned to the tidied parts of its events, any other to the tidied text without exactly the carriage returns directly before a newline |
| `Bodies.UnixIsUnique` | app/retrieval/clean.py:152 | ... and there is only one such text |
| `Cleaning.CleanHtml` | app/retrieval/clean.py:127-132 | the extractor object and the tidying together give the text of the events |
| `Settings.AutoMode` | app/db/repositories/settings.py:80-86 | "off", "shadow" and "live" are kept, any other value gives "shadow" |
| `Settings.SettingsStore.GetStart` | app/db/repositories/settings.py:48-53 | a value is served only from an entry that has not expired; otherwise the call waits, its time taken |
| `Settings.SettingsStore.DbRead` | app/db/repositories/settings.py:55-57 | the read sees the row of that moment, or the fallback |
| `Settings.SettingsStore.GetFinish` | app/db/repositories/settings.py:62-63 | what was read is stored under the time at which the call started plus the TTL |
| `Settings.SettingsStore.GetFail` | app/db/repositories/settings.py:58-60 | a failed call returns its fallback and leaves the cache alone |
| `Settings.SettingsStore.SetCommit` | app/db/repositories/settings.py:66-76 | the commit changes the row and not yet the cache |
| `Settings.SettingsStore.SetPop` | app/db/repositories/settings.py:77 | after the commit the entry of the key is dropped |
| `Settings.SettingsStore.ClearCache` | app/db/repositories/settings.py:38-39 | the cache is emptied and nothing else changes |
| `Settings.SettingsStore.Get` | app/db/repositories/settings.py:42-63 | an uninterrupted call is the run of its steps |
| `Settings.SettingsStore.ReadAutoMode` | app/db/repositories/settings.py:80-86 | the mode is always one of the three, even when the database fails |
| `SettingsTheorems.EveryRunSound` | app/db/repositories/settings.py:42-77 | under every interleaving each call and each cache entry traces back to one read of the database |
| `SettingsTheorems.BoundedStaleness` | app/db/repositories/settings.py:48-63 | a value served from the cache at time t was the value of the database, or the fallback of the call that filled it, at a moment later than t minus 10 seconds |
| `SettingsTheorems.FreshRead` | app/db/repositories/settings.py:53-63 | a value that was read was in the database at a moment after the call started; after an error it is the fallback |
| `SettingsTheorems.FailuresAreNotCached` | app/db/repositories/settings.py:58-62 | every cache entry was stored by a call that read it |
| `SettingsTheorems.KillSwitchSettles` | app/db/repositories/settings.py:42-63 | if the stored value is v from time T on, every call that starts 10 seconds after T or later and meets no error returns v |
| `SettingsTheorems.NotLiveAfterSwitch` | app/db/repositories/settings.py:80-86 | ... and the mode is then that of v, or "shadow" after an error: never "live" once "live" has been switched off |
| `SettingsTheorems.ClearedReadsDatabase` | app/db/repositories/settings.py:38-63 | after the cache is cleared the next call of any key waits for the database and returns its row, or its default |
| `SettingsTheorems.BoundIsTight` | app/db/repositories/settings.py:48-62 | at any time short of 10 seconds after a write a call can still return the old value |
| `ReadYourWrites.SetIsSeenExactly` | app/db/repositories/settings.py:55-77 | every later call sees the written value, under every interleaving until the next write, if and only if no younger call that has read another value is still in flight |
| `ReadYourWrites.StaleReadWins` | app/db/repositories/settings.py:62-77 | such a call stores its value after the pop, and the next call is served it |
| `ReadYourWrites.SetCanBeLost` | app/db/repositories/settings.py:55-77 | the race in one run |
| `ReadYourWrites.OwnDefaultIff` | app/db/repositories/settings.py:42-63 | in every run every call of a key that met no error returns a row the key has had or its own fallback, if and only if the key is "auto_mode", which has a built-in default |
| `ReadYourWrites.FirstDefaultIsServed` | app/db/repositories/settings.py:53-63 | the default of the first caller is cached and served to the next one |
| `Backend.FakeMainBackend.SetHandledBy` | app/connectors/fake.py:77-89 | only who handles the conversation changes |
| `Backend.FakeMainBackend.VisibleTo` | app/connectors/fake.py:96-107 | the call succeeds if and only if the conversation exists and the role is staff, admin or service or the user is its owner; it is not found else |
| `Backend.FakeMainBackend.GetConversation` | app/connectors/fake.py:111-113 | the call is counted, then answered under the ownership rule |
| `Backend.FakeMainBackend.GetMessages` | app/connectors/fake.py:115-119 | the call is counted, then answered with the last messages under the ownership rule |
| `Backend.FakeMainBackend.PostAssistantMessage` | app/connectors/fake.py:136-153 | a known key returns its id and changes nothing; a new key appends one message and is recorded |
| `Backend.FakeMainBackend.Handoff` | app/connectors/fake.py:155-160 | the conversation goes to staff and the handoff is recorded |
| `Backend.LastMessages` | app/connectors/fake.py:115-119 | a successful read returns exactly the last min(limit, length) messages |
| `Backend.ReadAllowedIff` | app/connectors/fake.py:96-119 | both reads succeed if and only if the conversation exists and the role is staff, admin or service or the user is its owner; they are not found else, and a conversation is returned as it is |
| `Backend.HiddenIsMissing` | app/connectors/fake.py:96-107 | to an actor a hidden conversation answers exactly as a missing one |
| `Backend.PostIgnoresHandledBy` | app/connectors/fake.py:136-153 | the result of a post does not depend on who handles the conversation |
| `Backend.PostRepeats` | app/connectors/fake.py:140-143 | a post to a conversation that does not exist is not found, whatever its key; a known key answers with its id; neither writes |
| `Backend.PostWrites` | app/connectors/fake.py:144-153 | a post that appends writes one message of the assistant with its text at the end of its conversation and answers with the id of it |
| `Backend.HandoffEffect` | app/connectors/fake.py:155-160 | a handoff succeeds if and only if the conversation exists; then staff handle it, the handoff is recorded, and nothing else changes |
| `Backend.PostAppendsIff` | app/connectors/fake.py:136-153 | a post appends if and only if its conversation exists and its key is new, and it touches no other conversation |
| `Backend.PostRespectsStaffIff` | app/connectors/fake.py:136-153 | a post leaves the conversations that staff handle alone if and only if it appends nothing or its conversation is the assistant's |
| `Backend.PostAfterHandoff` | app/connectors/fake.py:136-160 | a handoff and then a post with a new key: the message is written into the conversation that staff have taken over |
| `Backend.SomeBackendIsLoaded` | app/connectors/fake.py:46-71 | a backend as fixtures leave it, to start such a run from |
| `BackendRuns.RunGrows` | app/connectors/fake.py:111-160 | over any run lists only grow at the end, conversations and lists keep the same ids, nothing but the handler of a conversation changes, and it never returns from staff to the assistant |
| `BackendRuns.CallsCounted` | app/connectors/base.py:139-150 | the count of an operation is the number of its calls, the failed ones included |
| `BackendRuns.KeysAndMessages` | app/connectors/fake.py:136-153 | over any run keys and appended messages are one to one, and generated ids are pairwise distinct |
| `Http.HttpMainBackend.Request` | app/connectors/http.py:72-112 | the retry loop does what the recursive exchange says, and returns only responses below 400 |
| `Http.HttpMainBackend.PostAssistantMessage` | app/connectors/http.py:166-177 | a post is one exchange and the reading of its body |
| `Http.HandoffIsTrueIff` | app/connectors/http.py:82-186 | that a handoff succeeds means that it happened, if and only if the network does not answer below 400 in place of a backend that did not do it |
| `Http.HandoffCanBeLost` | app/connectors/http.py:179-186 | a handoff that succeeds and leaves the backend untouched |
| `Http.CallIsCopies` | app/connectors/http.py:82-112 | to the backend a call is the same request some number of times: at most one for a write, two for a read |
| `Http.WriteOutcome` | app/connectors/http.py:82-112 | a write is sent once; what happens to that one request decides the state of the backend and, status by status, what the caller learns |
| `Http.ReadOutcome` | app/connectors/http.py:82-112 | a read is sent a second time if and only if the first exchange failed in transport or with 500 or above; any other first answer is final; the requests that reach the backend are counted |
| `Http.ReadReply` | app/connectors/http.py:82-164 | whatever the network does, a read changes no data, and a successful one returns what the backend holds |
| `Http.RetryMasksOneFault` | app/connectors/http.py:89-103 | one lost exchange or one server error is made good by the retry |
| `ExactlyOnce.FirstPostWins` | app/connectors/fake.py:139-153 | after any run of calls and late arrivals the message of a key is the one asked for by the first post with the key to come to the backend, in time or late, that names a conversation; the key is unknown if there is none |
| `ExactlyOnce.AtMostOneMessage` | app/connectors/http.py:166-177 | over any run each key appends exactly one message if such a post exists, and none otherwise |
| `ExactlyOnce.NoStrayMessage` | app/connectors/fake.py:139-153 | every message a run appended belongs to a key that a post of the run applied |
| `ExactlyOnce.RepliesAgree` | app/connectors/http.py:166-177 | all successful replies for a key carry the same id |
| `ExactlyOnce.SuccessMeansStored` | app/connectors/http.py:166-177 | a successful reply names a message that is stored exactly once |
| `ExactlyOnce.PostsHandled` | app/connectors/http.py:82-112 | the backend handles exactly the posts that come to it, late ones included; they are no more than the calls if what comes late was lost before and comes once |
| `ExactlyOnce.OwnConversationIff` | app/connectors/fake.py:142-143 | a successful reply names a message of the caller's own conversation if and only if the first applied post with the key went to that conversation |
| `ExactlyOnce.KeysAreGlobal` | app/connectors/fake.py:142-143 | a key used in two conversations appends once, and the second caller gets the id of the first message |

## Left out

* Unicode NFKC, the tables of letters, digits and invisible characters, and the removal of diacritics
  (`app/retrieval/normalize.py:132-136`): the model starts from the text past these maps.
* The order of the verb stems in the pattern, longest first: `Stages.AlternativeIsWord` shows that any
  order gives the same match.
* The table of verb stems is data, copied from the source; the theorems hold for any table of good stems.
* The tokenizer of `HTMLParser` and the decoding of entities: the cleaner starts from a sequence of
  start, end and data events; the tokenizer is a parameter of `Cleaning.Clean`.
* The character class `\d` of the list marker is a parameter; where it matters, it must not contain
  white space.
* Python strings are sequences of code points here, and rounding in `count_tokens` is written out in
  integers: 0.4 n never ends in .5, so the rounding of ties plays no part.
* Arguments that are not of the expected type, such as an item whose title is a number.
* The values of an item are strings, null or missing; other JSON values of identifiers and dates are
  only copied by the source and add nothing.
* SQLAlchemy, the session factory and Postgres: a read or a commit is one atomic event that happens or
  fails. A commit that succeeds although its caller sees an error is the event `OtherWrite`.
* `updated_by` of a setting, logging, and the HTTP status of the errors.
* httpx, timeouts and the pause between attempts: what can happen to one exchange is the datatype
  `Delivery`, and what comes late or twice is the operation `Late`; an attempt beyond the plan is lost.
  A response that the network makes up holds no reply of its own.
* The mapping of wire formats to domain objects, request headers, KB items and orders: thin calls
  around the same request loop with no property of their own.
* Loading fixtures and `add_conversation` are only the initial state of a run. Generated ids are
  distinct from each other; nothing is claimed about ids in fixtures.
* FastAPI, JWT verification, ORM models, migrations, configuration, provider and benchmark scripts.
