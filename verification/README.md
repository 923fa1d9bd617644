# Blog-writing pipeline: a Dafny model

The repository is a small blog-writing pipeline in three stages. This project models each one.

1. **The report parser** (`src/pascal_parser.py`) reads an SEO report exported as HTML. It extracts:
   - the "A" and "B" article outlines, each a list of H2 headings that carry H3 sections with advice and keywords;
   - the H1 title candidates;
   - the originality proposals.

   It then assembles the pattern and the proposals the user chose.
2. **The prompt generator** (`src/prompt_generator.py`) cuts a Markdown template into its `## phase…` sections. It fills them with the outline:
   - one prompt per H2 for phases 1 and 3;
   - one prompt per H3 for phase 2;
   - the template alone for phases 4 to 6. Phase 4 also carries a Markdown "blueprint" of the outline.
3. **The article scaffold generator** (`src/article_structure_generator.py`) picks the H1 and derives an article id `date_seq_title`. It then lays out the article directory:
   - the metadata;
   - the H1 file;
   - one directory per titled H2, holding the H2 file, the "pascal" design file, the experience file and one file per titled H3.

## How the model is organised

- `wrappers.dfy` holds `Option` and `Result`.
- `text.dfy` holds the Python string operations the code relies on: `strip`, `str.find` with a start, `replace`, `split`, `join`, decimal formatting and zero padding.
- `dom.dfy` is a read-only HTML tree in the manner of BeautifulSoup:
  - `find`, `find_all`, `find_parent`;
  - a node's own `.string`;
  - `get_text(strip=True)`, optionally skipping the subtrees of removed `check-icon` spans.
- `outline.dfy` holds the outline datatypes. It also holds the H2/H3 sibling scan of `_extract_pattern_structure` as a state machine on values:
  - The state keeps every H3 list object it created.
  - A flushed entry refers to its list object by number.
  - So the aliasing of Python lists is captured exactly.

  `Outline` is an independent, hierarchical reading of the same blocks: each titled H2 with the H3s that follow it.
- `pattern_scan.dfy` runs the scan imperatively over a heap-allocated `H3List` class, as the source does. It is proved equal to the functional scan.
- `pascal_parser.dfy` holds the report parser. `filenames.dfy` holds `_sanitize_filename`, which both generators define identically.
- `prompt_generator.dfy` holds the prompt generator.
- `article_structure.dfy` holds the scaffold generator. Directory creation and file writes are planned as a list of `Output` values (make a directory, write a file with a content, write the metadata, copy the source JSON). The pascal file is the sequence of its `write` calls.
  - The plan is then carried out in order until the file system refuses a name.
  - The H1, H2 and H3 file names use the raw titles, and only the H2 directory name is sanitised. So a `/` in any title stops the scaffold part-way, with the directories and files before it already made.

Each loop of the source is a method proved against a specification function. The properties are lemmas about those functions.

## Model

| member | source | states |
|---|---|---|
| PascalParser.FindAiArticleSection | src/pascal_parser.py:21-30 | The section is absent if and only if the "AIによる記事構成案" anchor heading is absent or has no `sectionContents` ancestor. When present, it is the anchor's nearest `sectionContents` ancestor. |
| PascalParser.HeadingIn | src/pascal_parser.py:120-126 | The first heading of the given kind inside the anchor section. It is absent if and only if the section or such a heading is absent. When present, it lies inside the section and matches the kind, and no element before it in document order does. |
| PascalParser.ExtractPatterns | src/pascal_parser.py:32-52 | A missing anchor section gives the empty map. Otherwise the keys are a subset of {A, B}. The only failure is a missing `section-draft-inn` container, for A or B. |
| PascalParser.ExtractPatternsKeys | src/pascal_parser.py:38-52 | A key is present if and only if that pattern's `section-draft-title` was found. Its value is the structure scanned from that title's `section-draft-inn` ancestor. |
| PascalParser.PatternsOfSection | src/pascal_parser.py:38-50 | Pattern A, then pattern B, added to the empty map give exactly the titles that were found, each with the structure of its container. |
| PascalParser.AddPatternSuccess | src/pascal_parser.py:38-50 | One successful addition adds the letter exactly when its title was found, maps it to its container's structure, and keeps every other key. |
| PascalParser.AddPatternFails | src/pascal_parser.py:41-50 | One addition fails exactly when the title was found with no `section-draft-inn` ancestor. |
| PascalParser.ExtractPatternsFails | src/pascal_parser.py:41-50 | Extraction fails exactly when a pattern title was found without a `section-draft-inn` ancestor. |
| PascalParser.AvailablePatterns | src/pascal_parser.py:199-200 | The available pattern names are exactly the map's keys, with A listed before B. |
| PascalParser.ExtractH3Data | src/pascal_parser.py:92-116 | There is no H3 if and only if there is no `h3-left` element. An empty `h3-left` text still yields an H3. The advice is `""` when absent. The keywords are the non-empty stripped span texts in order, or `[]` when absent. |
| PascalParser.ToBlock | src/pascal_parser.py:63-82 | A div classed `h2` is an H2 block even when it is also classed `h3`. An H2 block has a title exactly when it holds `block-tag-text`. An H3 block carries what `_extract_h3_data` returns. |
| PascalParser.ExtractPatternStructure | src/pascal_parser.py:54-90 | The structure is the scan of the container's direct `div` children, in document order. |
| PascalParser.PatternWithoutTitledH2IsEmpty | src/pascal_parser.py:61-88 | A container without a titled H2 block yields no entries: every H3 before a titled H2 is dropped. |
| PatternScan.ScanBlocks | src/pascal_parser.py:57-90 | The imperative scan over mutable H3 lists returns exactly the functional `Scan`, shared lists included. |
| PatternScan.ScanBlock | src/pascal_parser.py:62-82 | One loop iteration. A titled H2 flushes the pending H2 and opens a fresh empty list. An untitled H2 flushes the pending H2 and keeps both the title and the list object. An H3 appends to the current list object in place. |
| PatternScan.ScanStep | src/pascal_parser.py:62-82 | One iteration keeps the variables and list objects representing the scan state, advanced by one `Step`. |
| PatternScan.RunScan | src/pascal_parser.py:61-82 | After the loop, the variables and the list objects represent the state of the functional scan over all the blocks. |
| PatternScan.FinalFlushReadsOut | src/pascal_parser.py:84-90 | Flushing the last pending H2 and reading every list object's final contents gives `Finish` of the scan state. |
| PatternScan.FlushedPairs | src/pascal_parser.py:65-69 | A flush in place appends the pending (title, list object) pair exactly as the functional `Flush` does. |
| PatternScan.ReadOut | src/pascal_parser.py:66-69 | Each flushed pair becomes an H2 entry with the final contents of its list object. |
| Outline.ScanMatchesOutline | src/pascal_parser.py:61-88 | Without untitled H2 blocks, the scan equals the hierarchical outline: each titled H2 with the H3 entries up to the next H2, and the last pending H2 flushed once. |
| Outline.UntitledH2RepeatsSharedEntry | src/pascal_parser.py:64-75 | An H2 block without `block-tag-text` flushes the previous title again and shares its list. Here the scan gives two entries with the same H3s, where the hierarchical outline gives one. |
| Outline.UntitledH2Scan | src/pascal_parser.py:64-81 | The scan of A, e1, untitled H2, e2 is `[(A, [e1, e2]), (A, [e1, e2])]`. |
| Outline.UntitledH2Outline | src/pascal_parser.py:64-81 | The hierarchical reading of the same blocks is `[(A, [e1])]`. |
| Outline.ScanTitlesNonEmpty | src/pascal_parser.py:65-88 | Every emitted entry has a non-empty H2 title. |
| Outline.ScanLengthBound | src/pascal_parser.py:61-88 | There are never more entries than H2 blocks. |
| Outline.ScanIgnoresInert | src/pascal_parser.py:61-82 | Blocks classed neither `h2` nor `h3`, and H3 blocks without `h3-left`, do not change the result. |
| Outline.ScanFlushesLastH2 | src/pascal_parser.py:84-88 | A final titled H2 is emitted exactly once, with an empty H3 list. |
| Outline.ScanDropsBlocksBeforeFirstTitledH2 | src/pascal_parser.py:72-75 | Everything before the first titled H2 is discarded. |
| Outline.ScanFromSplit | src/pascal_parser.py:61 | The scan over a concatenation is the scan of the second part from the state the first part left. |
| Outline.ScanFromMatchesPending | src/pascal_parser.py:61-88 | From any state, without untitled H2s, the finished scan is the already flushed entries followed by the pending H2 and the outline of the remaining blocks. |
| Outline.MatchesPendingStep | src/pascal_parser.py:61-88 | The flushed-plus-pending reading of the finished scan is kept by one block. |
| Outline.OtherStepPending | src/pascal_parser.py:76-81 | A non-H2 block leaves the flushed entries alone and adds its H3, if any, to the pending list. |
| Outline.StepShape | src/pascal_parser.py:63-81 | A titled H2 block opens a new empty list and flushes the pending entry. Any other block only extends the current list. |
| Outline.ScanFromAgree | src/pascal_parser.py:61-82 | Two scan states that differ only in list objects no entry refers to stay in agreement after any blocks. |
| Outline.ScanFromNoTitled | src/pascal_parser.py:61-82 | Blocks without a titled H2 leave the initial state with no title, no entries and one list. |
| Outline.ScanFromKeepsTitles | src/pascal_parser.py:65-69 | The scan never emits an untitled entry. |
| Outline.ScanFromFlushBound | src/pascal_parser.py:61-88 | Each H2 block adds at most one entry. |
| Outline.OutlineSkipsLeading | src/pascal_parser.py:72-75 | The hierarchical outline ignores the blocks before the first H2. |
| Outline.PendingAfterNonH2 | src/pascal_parser.py:78-81 | A non-H2 block adds its H3, if any, to the pending H2. |
| Outline.PendingAtTitledH2 | src/pascal_parser.py:63-75 | A titled H2 closes the pending entry, if it has a title, and opens its own. |
| PascalParser.TitleCandidates | src/pascal_parser.py:118-151 | No candidates when any link of the anchor, h4, `sectionBlock`, `section-title` chain is missing. Otherwise the candidates are the non-empty, stripped, icon-free texts of the `div`s classed `title` inside that `section-title`, in document order. |
| PascalParser.CandidateTitleBox | src/pascal_parser.py:118-137 | The title box is absent if and only if a link is missing: the "記事タイトルの候補" h4 inside the section, its `sectionBlock` ancestor, or a `section-title` below that. When present, it is the first `section-title`, in document order, inside the h4's nearest `sectionBlock` ancestor. |
| PascalParser.ExtractH1TitleCandidates | src/pascal_parser.py:118-151 | The method's result is exactly the candidate list described above. |
| PascalParser.IconStrippedTitles | src/pascal_parser.py:143-149 | The loop keeps each element's text without its `check-icon` spans, and only when that text is non-empty. |
| PascalParser.NonEmptyAppend | src/pascal_parser.py:143-149 | Filtering out empty texts distributes over concatenation. |
| PascalParser.NonEmptyStep | src/pascal_parser.py:143-149 | One more text adds itself to the kept texts when it is non-empty, and nothing otherwise. |
| PascalParser.NonEmptyKeepsAll | src/pascal_parser.py:148 | Filtering keeps everything when no text is empty. |
| PascalParser.NonEmptyOfStripped | src/pascal_parser.py:146-149 | The kept texts are non-empty and stripped. |
| PascalParser.ProposalOf | src/pascal_parser.py:173-192 | A proposal's title is non-empty and stripped, and its advice is stripped. |
| PascalParser.ProposalOfFields | src/pascal_parser.py:174-188 | A proposal's title is the `block-title` text without its `check-icon` spans. Its advice is the `block-text` text, or `""` when the block has no `block-text`. |
| PascalParser.ProposalOfNone | src/pascal_parser.py:174-188 | A block gives no proposal exactly when it has no `block-title`, or the title's text is empty once the icons are removed. |
| PascalParser.ProposalsFromKeepsAll | src/pascal_parser.py:173-192 | Every block that gives a proposal contributes it to the list. |
| PascalParser.ProposalsFromSound | src/pascal_parser.py:173-192 | Conversely, every listed proposal is the proposal of one of the blocks. |
| PascalParser.ProposalSource | src/pascal_parser.py:173-192 | A listed proposal names the block that contributed it. |
| PascalParser.ProposalKept | src/pascal_parser.py:173-192 | A block's proposal stays among the proposals of every longer run of blocks. |
| PascalParser.ProposalsFromStep | src/pascal_parser.py:173-192 | Each block appends its own proposal, if any, to the ones before it, so document order is kept. |
| PascalParser.OriginalityProposals | src/pascal_parser.py:153-194 | No proposals when the anchor, h4 or `sectionBlock` is missing. Otherwise, the proposals of the `block-original` blocks, every title non-empty. |
| PascalParser.ProposalsBlock | src/pascal_parser.py:155-167 | The proposals block is absent if and only if the "独自性の提案" h4 inside the section, or its `sectionBlock` ancestor, is missing. When present, it is the h4's nearest `sectionBlock` ancestor. |
| PascalParser.ExtractOriginalityProposals | src/pascal_parser.py:153-194 | The method's result is exactly the proposals described above. |
| PascalParser.CollectProposals | src/pascal_parser.py:170-194 | The loop over the `block-original` blocks collects exactly their proposals, in order. |
| PascalParser.ReadProposal | src/pascal_parser.py:174-187 | The block's icon-stripped title and its advice form the proposal, which exists exactly when the title is non-empty. |
| PascalParser.ExtractSelectedPattern | src/pascal_parser.py:196-205 | A failure to extract propagates. A pattern that was extracted is returned with its structure. An unknown pattern fails, naming the pattern and exactly the available keys. |
| PascalParser.OnlyPatternsAAndB | src/pascal_parser.py:196-200 | Any pattern other than A or B is an error. |
| PascalParser.Selected | src/pascal_parser.py:207-216 | At most one proposal per index, each one of the proposals. |
| PascalParser.SelectedAllValid | src/pascal_parser.py:212-214 | With every index in range, the selection has one proposal per index, in index order, duplicates kept. |
| PascalParser.SelectedSkipsInvalid | src/pascal_parser.py:213 | An index below 0 or past the end, negatives included, is dropped silently. |
| PascalParser.SelectedAppend | src/pascal_parser.py:212-214 | Selection distributes over concatenation of index lists. |
| PascalParser.SelectByIndices | src/pascal_parser.py:207-216 | The loop returns exactly the selection. |
| PascalParser.ExtractSelectedProposals | src/pascal_parser.py:207-216 | The selection is taken from the document's proposals. |
| PascalParser.ExtractAll | src/pascal_parser.py:218-230 | It fails exactly when the pattern selection fails, with the same error. Otherwise the result holds the pattern, its structure and the title candidates. The proposals are the selection, or `[]` when no indices are given. |
| PromptGenerator.ExtractPhase | src/prompt_generator.py:34-41 | No section without a `## name` heading. A section found is stripped. |
| PromptGenerator.ExtractPhaseOfSection | src/prompt_generator.py:34-41 | For a template of the form heading line, body, then end or `\n## `, the section is exactly the body, and `extract_phase` returns it stripped. |
| PromptGenerator.HeadingLineEnd | src/prompt_generator.py:37 | When found, the heading line ends at a newline inside the template. |
| PromptGenerator.HeadingLineEndOf | src/prompt_generator.py:37 | The heading line ends at the first newline after the first `## name`. |
| PromptGenerator.HeadingLineEndAt | src/prompt_generator.py:37 | A newline after the first `## name`, with no newline between them, is where the heading line ends. |
| PromptGenerator.FirstOccurrence | src/prompt_generator.py:37 | The search finds the first occurrence at or after its start. |
| PromptGenerator.NoOccurrence | src/prompt_generator.py:37-41 | The search finds nothing when the pattern never occurs. |
| PromptGenerator.Phase1PromptsSound | src/prompt_generator.py:50-65 | Each phase 1 prompt belongs to the titled H2 at its 1-based index. It is the section with every placeholder replaced by that title. |
| PromptGenerator.Phase1PromptsComplete | src/prompt_generator.py:50-65 | Every titled H2 gets a prompt, so skipped H2s still use up their index. |
| PromptGenerator.Phase1PromptsOrdered | src/prompt_generator.py:50-65 | Phase 1 prompts follow the H2 order strictly. |
| PromptGenerator.Phase1Prompts | src/prompt_generator.py:50-65 | At most one prompt per H2, each with a title and an index in range. |
| PromptGenerator.Phase1PromptsPrefix | src/prompt_generator.py:50-65 | The prompts for the first H2s are a prefix of the prompts for all of them. |
| PromptGenerator.Phase1PromptsUnfold | src/prompt_generator.py:57-65 | The last H2 adds its prompt after the others exactly when it has a title. |
| PromptGenerator.CollectPhase1Prompts | src/prompt_generator.py:50-65 | The loop returns exactly the phase 1 prompts. |
| PromptGenerator.GeneratePhase1 | src/prompt_generator.py:43-67 | The loop returns exactly the phase 1 prompts, or none when the section is missing or empty. |
| PromptGenerator.H3Prompts | src/prompt_generator.py:80-97 | Each H3 prompt names its H2 and the titled H3 at its 1-based index. It is the section with the placeholder replaced by that H3. |
| PromptGenerator.Phase2Prompts | src/prompt_generator.py:76-97 | Each phase 2 prompt names an H2, even an untitled one, and one of its titled H3s, by 1-based indices. |
| PromptGenerator.Phase2PromptsCount | src/prompt_generator.py:76-97 | There is exactly one phase 2 prompt per titled H3 across all H2s. |
| PromptGenerator.H3PromptsCount | src/prompt_generator.py:80-97 | One H3 prompt per titled H3. |
| PromptGenerator.Phase2PromptsOrdered | src/prompt_generator.py:76-97 | Phase 2 prompts are in strict (H2 index, H3 index) order. |
| PromptGenerator.H3PromptsOrdered | src/prompt_generator.py:80-97 | Within one H2, the prompts follow the H3 order strictly. |
| PromptGenerator.Phase2PromptsStep | src/prompt_generator.py:76-97 | Each H2 appends its own H3 prompts to the earlier ones. |
| PromptGenerator.GenerateH3Prompts | src/prompt_generator.py:80-97 | The inner loop returns exactly the H3 prompts of one H2. |
| PromptGenerator.CollectPhase2Prompts | src/prompt_generator.py:76-97 | The nested loops return exactly the phase 2 prompts. |
| PromptGenerator.GeneratePhase2 | src/prompt_generator.py:69-99 | The nested loops return exactly the phase 2 prompts, or none when the section is missing or empty. |
| PromptGenerator.Phase3PromptsSound | src/prompt_generator.py:108-131 | Each phase 3 prompt belongs to an H2 that has a title and H3s. It is the section with the H2 placeholder replaced first and the H3 list placeholder second. |
| PromptGenerator.Phase3PromptsComplete | src/prompt_generator.py:108-131 | Every H2 with a title and H3 sections gets a prompt. |
| PromptGenerator.Phase3PromptsOrdered | src/prompt_generator.py:108-131 | Phase 3 prompts follow the H2 order strictly. |
| PromptGenerator.Phase3Prompts | src/prompt_generator.py:108-131 | At most one prompt per H2, each with an index in range. |
| PromptGenerator.Phase3PromptsStep | src/prompt_generator.py:108-131 | Each H2 appends its own prompt, if any, to the earlier ones. |
| PromptGenerator.CollectPhase3Prompts | src/prompt_generator.py:108-131 | The loop returns exactly the phase 3 prompts. |
| PromptGenerator.GeneratePhase3 | src/prompt_generator.py:101-133 | The loop returns exactly the phase 3 prompts, or none when the section is missing or empty. |
| PromptGenerator.H3ListRoundTrip | src/prompt_generator.py:116 | Splitting the H3 list at newlines gives back one `- title` line per titled H3, in order. |
| PromptGenerator.BulletsOfTitles | src/prompt_generator.py:116 | The bullet lines are exactly `- title` for the titled H3s, and none holds a newline. |
| PromptGenerator.TitledH3s | src/prompt_generator.py:116 | Only non-empty H3 titles are listed. |
| PromptGenerator.BulletLines | src/prompt_generator.py:116 | At most one bullet per H3. |
| PromptGenerator.TemplateOnly | src/prompt_generator.py:154-174 | Phases 5 and 6 give a prompt exactly when their section is non-empty, and the prompt is that section unmodified. |
| PromptGenerator.Phase4 | src/prompt_generator.py:135-152 | Phase 4 gives a prompt exactly when its section is non-empty. The prompt is the section unmodified, and it carries the blueprint of the data. |
| PromptGenerator.GeneratePhase4 | src/prompt_generator.py:135-152 | The method returns the phase 4 prompt described above. |
| PromptGenerator.BlueprintCoversOutline | src/prompt_generator.py:176-209 | The blueprint opens with the pattern heading and holds a `## ` line for every H2 and a `### ` line for every H3. With proposals, the "独自性の提案" heading follows the outline, with a `### ` line per proposal. The line count is exact. |
| PromptGenerator.KeywordsLineIffKeywords | src/prompt_generator.py:194-196 | An H3 gets a keywords line if and only if it has keywords. |
| PromptGenerator.H3Lines | src/prompt_generator.py:188-197 | An H3 takes four lines with keywords and three without. |
| PromptGenerator.H3sLinesHaveTitles | src/prompt_generator.py:187-197 | Every H3 of an H2 has its `### ` line. |
| PromptGenerator.StructureLinesHaveH2s | src/prompt_generator.py:181-197 | Every H2 of the outline has its `## ` line. |
| PromptGenerator.StructureLinesHaveH3s | src/prompt_generator.py:181-197 | Every H3 of the outline has its `### ` line. |
| PromptGenerator.ProposalLinesHaveTitles | src/prompt_generator.py:203-207 | Each proposal takes exactly two lines, one of them its `### ` title line. |
| PromptGenerator.FormatBlueprint | src/prompt_generator.py:176-209 | The loops build exactly the blueprint text: its lines joined by newlines. |
| PromptGenerator.FormatStructure | src/prompt_generator.py:181-197 | The outer loop builds exactly the outline's lines. |
| PromptGenerator.FormatH3s | src/prompt_generator.py:187-197 | The inner loop builds exactly one H2's H3 lines. |
| PromptGenerator.FormatProposals | src/prompt_generator.py:203-207 | The proposals loop builds exactly the proposal lines. |
| PromptGenerator.GenerateAll | src/prompt_generator.py:211-220 | The result holds exactly the six phases. Phases 4 to 6 are present if and only if their sections are non-empty. |
| Filenames.SanitizeFilename | src/prompt_generator.py:319-328 | The replacement loop over the nine characters, followed by the cut, gives `Sanitized`. |
| Filenames.Sanitized | src/article_structure_generator.py:26-34 | The result has at most 100 characters: the input's length, capped at 100. |
| Filenames.SanitizedChars | src/article_structure_generator.py:29-30 | No character of the result is one of `/ \ : * ? " < > \|`. Each result character is the original one or a `_` that replaced one of them. |
| Filenames.SanitizedFixedPoint | src/prompt_generator.py:321-328 | A name is left unchanged if and only if it has at most 100 characters and none of the nine. |
| Filenames.SanitizedIdempotent | src/article_structure_generator.py:26-34 | Sanitising twice gives the same as sanitising once. |
| ArticleStructure.SelectH1 | src/article_structure_generator.py:77-86 | It fails with no candidates, or with a non-empty selection that is not a candidate, naming it. A non-empty selection is used as given. An empty or absent one yields the first candidate. The result is always a candidate. |
| ArticleStructure.CountWithPrefix | src/article_structure_generator.py:45-50 | The count is the number of positions whose name starts with the date prefix. |
| ArticleStructure.SequenceNumber | src/article_structure_generator.py:45-51 | The sequence number lies between 1 and one more than the number of existing directories. |
| ArticleStructure.NextSequenceNumber | src/article_structure_generator.py:45-51 | Once an article of that date exists, the next one on the same date takes the next number. |
| ArticleStructure.SequenceText | src/article_structure_generator.py:52 | The sequence is written in at least three digits. |
| ArticleStructure.TitlePart | src/article_structure_generator.py:55-58 | The title part is the sanitised title cut to at most 30 characters. It holds none of the nine characters. |
| ArticleStructure.ArticleIdRoundTrip | src/article_structure_generator.py:36-61 | The id splits back at its first two `_` into the date, the sequence number and the title part. |
| ArticleStructure.IdPartsRoundTrip | src/article_structure_generator.py:60 | `date_seq_title` parses back into its three parts for any number and title part. |
| Text.ZeroPadValue | src/article_structure_generator.py:52 | Zero padding keeps a decimal number's value. |
| Text.DecimalRoundTrip | src/article_structure_generator.py:52 | A number written in decimal reads back as itself. |
| ArticleStructure.MetadataOf | src/article_structure_generator.py:100-111 | `h2_count` counts every H2 entry, untitled ones included. `originality_proposals_count` is the number of proposals. `source_html` is recorded only when a file name is given. |
| ArticleStructure.H2DirNameInjective | src/article_structure_generator.py:136 | Two H2 directory names are equal only for the same position and the same sanitised title, so different positions never collide. |
| ArticleStructure.H2NameInjective | src/article_structure_generator.py:136-141 | `h2-{i}_{t}` determines both i and t. |
| ArticleStructure.NumberedNameInjective | src/article_structure_generator.py:136-141 | `{i}_{t}` determines both i and t. |
| ArticleStructure.H2DirsExact | src/article_structure_generator.py:130-138 | The directories created in the H2 loop are exactly the expected H2 directories, in order. |
| ArticleStructure.H2DirsCount | src/article_structure_generator.py:130-138 | One directory is created per titled H2. |
| ArticleStructure.H2DirsSound | src/article_structure_generator.py:130-138 | Each directory is `h2-{i}_{sanitised title}` for a titled H2 at 1-based position i. |
| ArticleStructure.H2DirsComplete | src/article_structure_generator.py:130-138 | Every titled H2 gets its directory, numbered by its position, so skipped H2s are not renumbered. |
| ArticleStructure.EntryDirs | src/article_structure_generator.py:132-138 | An untitled H2 creates nothing. A titled one creates exactly its own directory. |
| ArticleStructure.EntryOutputs | src/article_structure_generator.py:130-196 | An H2 produces outputs if and only if it has a title. |
| ArticleStructure.EntryFiles | src/article_structure_generator.py:141-184 | The H2, pascal and experience files are three planned writes directly inside the H2 directory. Whether the file system accepts their names is decided when they are carried out (`Issue`). |
| ArticleStructure.WriteEntry | src/article_structure_generator.py:131-196 | One iteration of the H2 loop yields exactly that H2's outputs. |
| ArticleStructure.WriteH2s | src/article_structure_generator.py:130-196 | The H2 loop yields exactly the outputs of all H2s, in order. |
| ArticleStructure.H2OutputsStep | src/article_structure_generator.py:130-196 | Each H2 appends its own outputs to the earlier ones. |
| ArticleStructure.H3FilesExact | src/article_structure_generator.py:188-196 | An H3 file is planned if and only if the H3 has a title. It is named `h3-{j}_{title}.md` after its 1-based position j, with the raw title, and holds the H3 heading. Whether the file system accepts the name is decided when it is carried out (`Issue`). |
| ArticleStructure.H3FilesMakeNoDir | src/article_structure_generator.py:188-196 | The H3 loop creates no directory. |
| ArticleStructure.WriteH3Files | src/article_structure_generator.py:188-196 | The H3 loop yields exactly those writes. |
| ArticleStructure.H3Writes | src/article_structure_generator.py:158-178 | An H3 contributes to the pascal file if and only if it has a title. |
| ArticleStructure.H3WritesShape | src/article_structure_generator.py:163-178 | A titled H3 starts with its `### H3-{j}:` heading and ends with the rule. The advice label appears exactly when there is advice, and the keywords label exactly when there are keywords. |
| ArticleStructure.H3WritesContain | src/article_structure_generator.py:163-176 | The heading, the non-empty advice and the non-empty keywords joined by ", " are all written. |
| ArticleStructure.H3sWritesComplete | src/article_structure_generator.py:158-178 | Every titled H3 of an H2 appears in its pascal file, numbered by its position, with its advice and keywords when present. |
| ArticleStructure.PascalFileWrites | src/article_structure_generator.py:148-178 | The pascal file's writes are the header, then the H3 list when there are H3 sections. |
| ArticleStructure.H3sFileWrites | src/article_structure_generator.py:158-178 | The H3 loop in the pascal file yields exactly the H3 writes. |
| ArticleStructure.H3BlockWrites | src/article_structure_generator.py:159-178 | One H3 iteration yields exactly that H3's writes. |
| ArticleStructure.H2OutputsUnder | src/article_structure_generator.py:130-196 | Everything the H2 loop creates lies inside the content directory. |
| ArticleStructure.EntryOutputsUnder | src/article_structure_generator.py:136-196 | Everything one H2 creates lies inside the content directory. |
| ArticleStructure.H3FilesUnder | src/article_structure_generator.py:193 | H3 files lie inside their H2 directory. |
| ArticleStructure.PreludeUnder | src/article_structure_generator.py:89-125 | The article directory, its subdirectories, the metadata, the source copy and the H1 file all lie inside the article directory. |
| ArticleStructure.Issue | src/article_structure_generator.py:89-196 | The outputs are carried out in order up to the first one the file system refuses. A name is refused when it holds `/` or NUL, or takes more than 255 bytes (`Utf8Length`). What is done is a prefix of the plan, every done output is accepted, and the refused one comes right after it. Nothing is refused if and only if every output is accepted. |
| ArticleStructure.IssueOutputs | src/article_structure_generator.py:89-196 | The loop carries out exactly the run `Issue` describes. |
| ArticleStructure.IssueOf | src/article_structure_generator.py:89-196 | The run is fixed by the first refused position: everything before it is done, and that output is refused. |
| ArticleStructure.GenerateStructure | src/article_structure_generator.py:63-198 | The method yields exactly the scaffold of the data, or the refusal that stops it. |
| ArticleStructure.StructureShape | src/article_structure_generator.py:77-125 | With a failing H1 selection it fails with the same error. Otherwise the H1 is a candidate, and the metadata records the id derived from it, the H1, every H2 (never fewer than the titled ones, by the helper `TitledH2Count`) and the proposals count. It then succeeds if and only if the file system accepts every planned name, and on success every planned output is done. |
| ArticleStructure.StructureStopsAtRefusal | src/article_structure_generator.py:89-196 | A refused scaffold has done exactly a proper prefix of the plan, all of it accepted. It names the first refused path, and that path is not accepted. |
| ArticleStructure.SlashInH1Refused | src/article_structure_generator.py:122-123 | A `/` in the chosen H1 makes the scaffold fail, since the H1 file's name uses the raw title. The helper `SlashRefused` shows that a path ending in a name with `/` is refused. |
| ArticleStructure.SlashInH2Refused | src/article_structure_generator.py:141-142 | A `/` in any H2 title makes the scaffold fail. The directory name is sanitised but the H2 file's name is not. |
| ArticleStructure.SlashInH3Refused | src/article_structure_generator.py:193-194 | A `/` in any H3 title below a titled H2 makes the scaffold fail, since the H3 file's name uses the raw title. |
| ArticleStructure.UnwritableInEntry | src/article_structure_generator.py:130-196 | Any output of one H2 that the file system refuses makes the scaffold fail. |
| ArticleStructure.UnwritablePlanned | src/article_structure_generator.py:89-196 | Any planned output that the file system refuses makes the scaffold fail. |
| ArticleStructure.EntryOutputsIn | src/article_structure_generator.py:130-196 | What one H2 writes is among what the H2 loop writes. |
| ArticleStructure.H2OutputsPrefix | src/article_structure_generator.py:130-196 | The outputs for the first k H2s are a prefix of the outputs for all of them. |
| ArticleStructure.StructureInArticleDir | src/article_structure_generator.py:89-196 | Every directory and file of the scaffold lies inside the article directory. This holds for a complete scaffold and for what was done before a refusal. |

## Left out

- GenerateStructure, Issue: the file system is taken to refuse a name only when it holds a `/` or a NUL, or takes more than 255 bytes in UTF-8 (Linux's NAME_MAX). Other failures are not modelled: permissions, a full disk, or an existing non-directory entry in the way. The output directory is taken to hold only directories.
- GenerateStructure: the outputs are built first and then carried out in order. The source interleaves building a name with using it. Building has no effect, so the same outputs are done and the same one is refused. A refusal is returned as a `Refused` error carrying the refused path and the outputs done before it, where the source raises `FileNotFoundError`, `OSError` or `ValueError`.
- File I/O is not modelled. This covers reading the HTML, the template and the JSON, `load_json_data`, `save_prompts` (src/prompt_generator.py:222-317), `mkdir`, the JSON dump and `shutil.copy2`. The scaffold's directories and files are returned as a list of `Output` values instead, and the JSON input is given as an `ExtractedResult` value.
- The clock and the directory listing of `_generate_article_id` are parameters. These are the date string, the ISO creation time, and the names of the existing entries under the output directory, all taken to be directories.
- The metadata's JSON serialisation is not modelled. The metadata is a record value.
- HTML parsing is taken as given: the model starts from a read-only tree. The whitespace set of `strip` is the concrete list of Python's whitespace characters, and no lemma depends on its exact members.
- `decompose()` of `check-icon` spans is modelled as taking each element's text with the icon subtrees skipped. This differs from the source only when a later lookup would have seen the removed span.
- The regular expression of `extract_phase` is modelled as an explicit search with the same result: the first `## name`, the first newline after it, and the body up to the first `\n## ` or the end.
- Missing JSON keys and their defaults (`'Unknown'` for the pattern, `''` for titles, `[]` for lists) are not modelled. Every record carries every field.
- `list_h1_candidates` (src/article_structure_generator.py:200-202) just returns the `h1Candidates` field.
- The command-line front ends are not part of this model: `src/cli.py`, `src/article_cli.py` and `src/prompt_cli.py`.
- ExtractPatterns: a pattern title without a `section-draft-inn` ancestor makes the source fail inside `_extract_pattern_structure` with an `AttributeError`. The model returns a `MissingContainer` error naming the pattern instead.
- ProposalsFromKeepsAll: states only that every proposal-giving block contributes its proposal. The converse is `ProposalsFromSound`.
- Sanitized: the character-level properties are stated in the lemma `SanitizedChars` rather than in the function's own contract.
- A tidier reading, in which an H2 block without a title is ignored, differs from the code. The code flushes the previous title again and keeps appending to the list that is already shared. The model follows the code, and `Outline.UntitledH2RepeatsSharedEntry` exhibits the difference.
