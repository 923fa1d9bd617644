/**
 * The report parser: the lookups that locate the "AIによる記事構成案" section of a
 * Pascal SEO report, the two article patterns inside it, the H1 title candidates,
 * the originality proposals, and the assembly of the extracted result.
 *
 * The parsed document is a read-only `Node`; every lookup is one of the searches
 * of the Dom module. Removing check-icon spans before reading a title is
 * modelled as reading the title's text with those subtrees skipped.
 */
module PascalParser {
  import opened Wrappers
  import opened Text
  import opened Dom
  import opened Outline
  import opened PatternScan

  // The searches the parser issues, as (tag, class, contained literal).
  const AnchorHeading := Selector("h2", Some("title"), Some("AIによる記事構成案"))
  const SectionContents := Selector("div", Some("sectionContents"), None)
  const DraftInn := Selector("div", Some("section-draft-inn"), None)
  const BlockTagText := Selector("div", Some("block-tag-text"), None)
  const H3Left := Selector("div", Some("h3-left"), None)
  const AdviceText := Selector("div", Some("block-advice-text"), None)
  const KeywordText := Selector("div", Some("block-keyword-text"), None)
  const AnySpan := Selector("span", None, None)
  const CandidatesHeading := Selector("h4", Some("title"), Some("記事タイトルの候補"))
  const SectionBlock := Selector("div", Some("sectionBlock"), None)
  const SectionTitle := Selector("div", Some("section-title"), None)
  const TitleDiv := Selector("div", Some("title"), None)
  const ProposalsHeading := Selector("h4", Some("title"), Some("独自性の提案"))
  const BlockOriginal := Selector("div", Some("block-original"), None)
  const BlockTitle := Selector("div", Some("block-title"), None)
  const BlockText := Selector("div", Some("block-text"), None)
  const IconSpan := Selector("span", Some("check-icon"), None)

  /** The section-draft-title holding "記事構成案 パターン" followed by the pattern letter. */
  function PatternTitle(letter: string): Selector
  {
    Selector("div", Some("section-draft-title"), Some("記事構成案 パターン" + letter))
  }

  /** The two ways extraction stops with an error. */
  datatype ParseError =
    | MissingContainer(letter: string)                        // a pattern title with no section-draft-inn ancestor
    | PatternNotFound(pattern: string, available: seq<string>) // the requested pattern was not extracted

  /** `a` is one of the ancestors of `l`, with its own ancestor chain. */
  predicate IsAncestor(a: Loc, l: Loc)
  {
    && |a.ancestors| < |l.ancestors|
    && l.ancestors[|a.ancestors|] == a.node
    && a.ancestors == l.ancestors[..|a.ancestors|]
  }

  /** `a` is the nearest ancestor of `l` that matches `sel`, as find_parent returns it. */
  predicate NearestAncestor(a: Loc, l: Loc, sel: Selector)
  {
    && IsAncestor(a, l)
    && Matches(sel, a.node)
    && forall j :: |a.ancestors| < j < |l.ancestors| ==> !Matches(sel, l.ancestors[j])
  }

  /** No ancestor of `l` matches `sel`, so find_parent returns None. */
  predicate NoAncestor(l: Loc, sel: Selector)
  {
    forall j :: 0 <= j < |l.ancestors| ==> !Matches(sel, l.ancestors[j])
  }

  /**
   * find_ai_article_section: the nearest sectionContents div above the first
   * "AIによる記事構成案" h2 title of the document.
   */
  function FindAiArticleSection(doc: Node): (r: Option<Loc>)
    ensures r.None? <==>
      Find(Loc(doc, []), AnchorHeading).None? || NoAncestor(Find(Loc(doc, []), AnchorHeading).value, SectionContents)
    ensures r.Some? ==>
      && Find(Loc(doc, []), AnchorHeading).Some?
      && NearestAncestor(r.value, Find(Loc(doc, []), AnchorHeading).value, SectionContents)
  {
    match Find(Loc(doc, []), AnchorHeading)
    case None => None
    case Some(heading) => FindParent(heading, SectionContents)
  }

  /** The first `sel` element below the anchor section, when both exist. */
  function HeadingIn(doc: Node, sel: Selector): (r: Option<Loc>)
    ensures r.None? <==> FindAiArticleSection(doc).None? || Find(FindAiArticleSection(doc).value, sel).None?
    ensures r.Some? ==>
      && FindAiArticleSection(doc).Some?
      && r.value in Descendants(FindAiArticleSection(doc).value.node, FindAiArticleSection(doc).value.ancestors)
      && Matches(sel, r.value.node)
      && FirstMatching(Descendants(FindAiArticleSection(doc).value.node, FindAiArticleSection(doc).value.ancestors), r.value, sel)
  {
    match FindAiArticleSection(doc)
    case None => None
    case Some(section) => Find(section, sel)
  }

  // ---------------------------------------------------------------------------
  // Texts of a list of elements.

  /** get_text(strip=True) of a location, with the `removed` subtrees skipped. */
  function TextOf(l: Loc, removed: Option<Selector>): (r: string)
    ensures IsStripped(r)
  {
    if removed.Some? then GetTextWithout(l.node, removed.value) else GetText(l.node)
  }

  /** The texts of the given elements, one per element. */
  function Texts(locs: seq<Loc>, removed: Option<Selector>): (r: seq<string>)
    ensures |r| == |locs|
    ensures forall k :: 0 <= k < |r| ==> IsStripped(r[k])
  {
    seq(|locs|, i requires 0 <= i < |locs| => TextOf(locs[i], removed))
  }

  /** The non-empty strings of `ss`, in order (a comprehension with `if text`). */
  function NonEmpty(ss: seq<string>): (r: seq<string>)
    ensures |r| <= |ss|
    ensures forall x :: x in r <==> x in ss && x != []
  {
    if ss == [] then []
    else
      var n := |ss| - 1;
      assert forall x :: x in ss <==> x in ss[..n] || x == ss[n] by {
        assert ss == ss[..n] + [ss[n]];
      }
      NonEmpty(ss[..n]) + (if ss[n] != [] then [ss[n]] else [])
  }

  /** Filtering one more string appends it exactly when it is non-empty. */
  lemma NonEmptySnoc(ss: seq<string>, s: string)
    ensures NonEmpty(ss + [s]) == NonEmpty(ss) + (if s != [] then [s] else [])
  {
    assert (ss + [s])[..|ss|] == ss;
  }

  /** One more string, if non-empty, extends the filtered prefix. */
  lemma NonEmptyStep(ss: seq<string>, i: nat)
    requires i < |ss|
    ensures NonEmpty(ss[..i + 1]) == NonEmpty(ss[..i]) + (if ss[i] != [] then [ss[i]] else [])
  {
    assert ss[..i + 1] == ss[..i] + [ss[i]];
    NonEmptySnoc(ss[..i], ss[i]);
  }

  /** The filter keeps the order of its input: it distributes over concatenation. */
  lemma {:induction false} NonEmptyAppend(a: seq<string>, b: seq<string>)
    ensures NonEmpty(a + b) == NonEmpty(a) + NonEmpty(b)
    decreases |b|
  {
    if b == [] {
      assert a + b == a;
    } else {
      var n := |b| - 1;
      assert (a + b)[..|a + b| - 1] == a + b[..n];
      assert (a + b)[|a + b| - 1] == b[n];
      NonEmptyAppend(a, b[..n]);
    }
  }

  /** A list with no empty string passes the filter unchanged. */
  lemma {:induction false} NonEmptyKeepsAll(ss: seq<string>)
    requires forall j :: 0 <= j < |ss| ==> ss[j] != []
    ensures NonEmpty(ss) == ss
  {
    if ss != [] {
      var n := |ss| - 1;
      NonEmptyKeepsAll(ss[..n]);
      assert ss == ss[..n] + [ss[n]];
    }
  }

  /** The non-empty texts of stripped strings are stripped. */
  lemma NonEmptyOfStripped(ss: seq<string>)
    requires forall k :: 0 <= k < |ss| ==> IsStripped(ss[k])
    ensures forall k :: 0 <= k < |NonEmpty(ss)| ==> NonEmpty(ss)[k] != [] && IsStripped(NonEmpty(ss)[k])
  {
    forall k | 0 <= k < |NonEmpty(ss)|
      ensures NonEmpty(ss)[k] != [] && IsStripped(NonEmpty(ss)[k])
    {
      assert NonEmpty(ss)[k] in NonEmpty(ss);
    }
  }

  // ---------------------------------------------------------------------------
  // One pattern's outline.

  /** _extract_h3_data: None exactly when the block has no h3-left; missing advice and keywords read as empty. */
  function ExtractH3Data(el: Loc): (r: Option<H3Entry>)
    ensures r.None? <==> Find(el, H3Left).None?
    ensures r.Some? ==> r.value.h3 == GetText(Find(el, H3Left).value.node)
    ensures r.Some? ==> r.value.advice == (if Find(el, AdviceText).Some? then GetText(Find(el, AdviceText).value.node) else [])
    ensures r.Some? && Find(el, KeywordText).None? ==> r.value.keywords == []
    ensures r.Some? && Find(el, KeywordText).Some? ==>
      r.value.keywords == NonEmpty(Texts(FindAll(Find(el, KeywordText).value, AnySpan), None))
  {
    match Find(el, H3Left)
    case None => None
    case Some(h3) =>
      var advice := match Find(el, AdviceText) case None => [] case Some(a) => GetText(a.node);
      var keywords := match Find(el, KeywordText)
        case None => []
        case Some(k) => NonEmpty(Texts(FindAll(k, AnySpan), None));
      Some(H3Entry(GetText(h3.node), advice, keywords))
  }

  /** The element carries class `c`. */
  predicate HasClass(l: Loc, c: string)
  {
    l.node.Element? && c in l.node.classes
  }

  /** The block one direct div child contributes: a div classed both h2 and h3 counts as H2. */
  function ToBlock(el: Loc): (b: Block)
    ensures b.H2Block? <==> HasClass(el, "h2")
    ensures b.H3Block? <==> HasClass(el, "h3") && !HasClass(el, "h2")
    ensures b.H2Block? ==> (b.title.None? <==> Find(el, BlockTagText).None?)
    ensures b.H2Block? && b.title.Some? ==> b.title.value == GetText(Find(el, BlockTagText).value.node)
    ensures b.H3Block? ==> b.entry == ExtractH3Data(el)
  {
    if HasClass(el, "h2") then
      H2Block(match Find(el, BlockTagText) case None => None case Some(t) => Some(GetText(t.node)))
    else if HasClass(el, "h3") then H3Block(ExtractH3Data(el))
    else OtherBlock
  }

  /** The blocks of a pattern container: its direct div children, in document order. */
  function Blocks(container: Loc): seq<Block>
  {
    var els := ChildElements(container, "div");
    seq(|els|, i requires 0 <= i < |els| => ToBlock(els[i]))
  }

  /** The outline _extract_pattern_structure returns for a container. */
  function PatternStructure(container: Loc): seq<H2Entry>
  {
    Scan(Blocks(container))
  }

  /**
   * _extract_pattern_structure: every direct div child of the container is
   * classified (ToBlock) and run through the sibling scan with its shared,
   * in-place H3 list objects (PatternScan.ScanBlocks).
   */
  method ExtractPatternStructure(container: Loc) returns (structure: seq<H2Entry>)
    ensures structure == PatternStructure(container)
  {
    var blocks := Blocks(container);
    structure := ScanBlocks(blocks);
  }

  /** The structure of a pattern whose container has no H2 block with block-tag-text is empty. */
  lemma PatternWithoutTitledH2IsEmpty(container: Loc)
    requires NoTitledH2(Blocks(container))
    ensures PatternStructure(container) == []
  {
    ScanFromNoTitled(Blocks(container));
  }

  // ---------------------------------------------------------------------------
  // Both patterns.

  /** The container of pattern `letter` inside the section: absent title, or a title with or without container. */
  function PatternContainer(section: Loc, letter: string): Option<Option<Loc>>
  {
    match Find(section, PatternTitle(letter))
    case None => None
    case Some(title) => Some(FindParent(title, DraftInn))
  }

  /** Records pattern `letter` when its title is present; a title outside any section-draft-inn is an error. */
  function AddPattern(section: Loc, letter: string, patterns: map<string, seq<H2Entry>>)
    : Result<map<string, seq<H2Entry>>, ParseError>
  {
    match PatternContainer(section, letter)
    case None => Success(patterns)
    case Some(None) => Failure(MissingContainer(letter))
    case Some(Some(container)) => Success(patterns[letter := PatternStructure(container)])
  }

  /**
   * extract_patterns: pattern A, then pattern B; with no anchor section the result
   * is empty, and the keys are always among A and B.
   */
  function ExtractPatterns(doc: Node): (r: Result<map<string, seq<H2Entry>>, ParseError>)
    ensures FindAiArticleSection(doc).None? ==> r == Success(map[])
    ensures r.Success? ==> r.value.Keys <= {"A", "B"}
    ensures r.Failure? ==> r.error.MissingContainer? && r.error.letter in {"A", "B"}
  {
    match FindAiArticleSection(doc)
    case None => Success(map[])
    case Some(section) =>
      var withA := AddPattern(section, "A", map[]);
      if withA.Failure? then withA else AddPattern(section, "B", withA.value)
  }

  /**
   * A letter is a key exactly when its pattern title was found below the anchor
   * section, and its value is the outline of that title's section-draft-inn.
   */
  lemma ExtractPatternsKeys(doc: Node, letter: string)
    requires letter == "A" || letter == "B"
    requires ExtractPatterns(doc).Success? && FindAiArticleSection(doc).Some?
    ensures var section := FindAiArticleSection(doc).value;
      && (letter in ExtractPatterns(doc).value <==> Find(section, PatternTitle(letter)).Some?)
      && (letter in ExtractPatterns(doc).value ==>
            && PatternContainer(section, letter).Some?
            && PatternContainer(section, letter).value.Some?
            && ExtractPatterns(doc).value[letter] == PatternStructure(PatternContainer(section, letter).value.value))
  {
    var section := FindAiArticleSection(doc).value;
    var withA := AddPattern(section, "A", map[]);
    assert withA.Success?;
    assert ExtractPatterns(doc) == AddPattern(section, "B", withA.value);
    PatternsOfSection(section, letter);
  }

  /** ExtractPatternsKeys for the two additions made below one section. */
  lemma PatternsOfSection(section: Loc, letter: string)
    requires letter == "A" || letter == "B"
    requires AddPattern(section, "A", map[]).Success?
    requires AddPattern(section, "B", AddPattern(section, "A", map[]).value).Success?
    ensures var r := AddPattern(section, "B", AddPattern(section, "A", map[]).value).value;
      && (letter in r <==> Find(section, PatternTitle(letter)).Some?)
      && (letter in r ==>
            && PatternContainer(section, letter).Some?
            && PatternContainer(section, letter).value.Some?
            && r[letter] == PatternStructure(PatternContainer(section, letter).value.value))
  {
    var withA := AddPattern(section, "A", map[]).value;
    AddPatternSuccess(section, "A", map[], letter);
    AddPatternSuccess(section, "B", withA, letter);
  }

  /**
   * One addition: the keys grow by `letter` exactly when its title is found, that
   * key maps to the outline of its container, and every other entry is kept.
   */
  lemma AddPatternSuccess(section: Loc, letter: string, patterns: map<string, seq<H2Entry>>, k: string)
    requires AddPattern(section, letter, patterns).Success?
    ensures var r := AddPattern(section, letter, patterns).value;
      && (k in r <==> k in patterns || (k == letter && Find(section, PatternTitle(letter)).Some?))
      && (k in r && k != letter ==> r[k] == patterns[k])
      && (k == letter && Find(section, PatternTitle(letter)).Some? ==>
            && PatternContainer(section, letter).Some?
            && PatternContainer(section, letter).value.Some?
            && r[k] == PatternStructure(PatternContainer(section, letter).value.value))
  {
  }

  /** One addition fails exactly when the title is found outside any section-draft-inn. */
  lemma AddPatternFails(section: Loc, letter: string, patterns: map<string, seq<H2Entry>>)
    ensures AddPattern(section, letter, patterns).Failure? <==> PatternContainer(section, letter) == Some(None)
  {
  }

  /** Extraction fails exactly when a pattern title it found has no section-draft-inn ancestor. */
  lemma ExtractPatternsFails(doc: Node)
    ensures ExtractPatterns(doc).Failure? <==>
      && FindAiArticleSection(doc).Some?
      && (PatternContainer(FindAiArticleSection(doc).value, "A") == Some(None)
          || PatternContainer(FindAiArticleSection(doc).value, "B") == Some(None))
  {
    match FindAiArticleSection(doc)
    case None =>
    case Some(section) =>
      AddPatternFails(section, "A", map[]);
      var withA := AddPattern(section, "A", map[]);
      if withA.Success? {
        AddPatternFails(section, "B", withA.value);
      }
  }

  /** The extracted pattern letters in insertion order, as list(patterns.keys()) shows them. */
  function AvailablePatterns(patterns: map<string, seq<H2Entry>>): (r: seq<string>)
    requires patterns.Keys <= {"A", "B"}
    ensures forall x :: x in r <==> x in patterns
    ensures forall i, j :: 0 <= i < j < |r| ==> r[i] == "A" && r[j] == "B"
  {
    (if "A" in patterns then ["A"] else []) + (if "B" in patterns then ["B"] else [])
  }

  datatype SelectedPattern = SelectedPattern(pattern: string, structure: seq<H2Entry>)

  /** extract_selected_pattern: the outline of the requested pattern, or an error naming the available ones. */
  function ExtractSelectedPattern(doc: Node, pattern: string): (r: Result<SelectedPattern, ParseError>)
    ensures ExtractPatterns(doc).Failure? ==> r == Failure(ExtractPatterns(doc).error)
    ensures r.Success? <==> ExtractPatterns(doc).Success? && pattern in ExtractPatterns(doc).value
    ensures r.Success? ==>
      r.value.pattern == pattern && r.value.structure == ExtractPatterns(doc).value[pattern]
    ensures ExtractPatterns(doc).Success? && pattern !in ExtractPatterns(doc).value ==>
      && r.Failure? && r.error.PatternNotFound? && r.error.pattern == pattern
      && (forall x :: x in r.error.available <==> x in ExtractPatterns(doc).value)
  {
    match ExtractPatterns(doc)
    case Failure(e) => Failure(e)
    case Success(patterns) =>
      if pattern in patterns then Success(SelectedPattern(pattern, patterns[pattern]))
      else Failure(PatternNotFound(pattern, AvailablePatterns(patterns)))
  }

  /** A pattern letter other than A and B is never found. */
  lemma OnlyPatternsAAndB(doc: Node, pattern: string)
    requires pattern != "A" && pattern != "B"
    ensures ExtractSelectedPattern(doc, pattern).Failure?
  {
  }

  // ---------------------------------------------------------------------------
  // H1 title candidates.

  /**
   * The section-title element of the "記事タイトルの候補" block: the first one below
   * the nearest sectionBlock above the h4, absent when any link of the chain is.
   */
  function CandidateTitleBox(doc: Node): (r: Option<Loc>)
    ensures FindAiArticleSection(doc).None? ==> r.None?
    ensures r.None? <==>
      || HeadingIn(doc, CandidatesHeading).None?
      || NoAncestor(HeadingIn(doc, CandidatesHeading).value, SectionBlock)
      || Find(FindParent(HeadingIn(doc, CandidatesHeading).value, SectionBlock).value, SectionTitle).None?
    ensures r.Some? ==>
      var h4 := HeadingIn(doc, CandidatesHeading).value;
      var block := FindParent(h4, SectionBlock).value;
      && NearestAncestor(block, h4, SectionBlock)
      && r.value in Descendants(block.node, block.ancestors)
      && Matches(SectionTitle, r.value.node)
      && FirstMatching(Descendants(block.node, block.ancestors), r.value, SectionTitle)
  {
    match HeadingIn(doc, CandidatesHeading)
    case None => None
    case Some(h4) =>
      match FindParent(h4, SectionBlock)
      case None => None
      case Some(block) => Find(block, SectionTitle)
  }

  /** The non-empty, icon-stripped texts of the title divs, in document order; empty when the chain breaks. */
  function TitleCandidates(doc: Node): (r: seq<string>)
    ensures CandidateTitleBox(doc).None? ==> r == []
    ensures forall k :: 0 <= k < |r| ==> r[k] != [] && IsStripped(r[k])
    ensures CandidateTitleBox(doc).Some? ==>
      r == NonEmpty(Texts(FindAll(CandidateTitleBox(doc).value, TitleDiv), Some(IconSpan)))
  {
    match CandidateTitleBox(doc)
    case None => []
    case Some(box) =>
      var texts := Texts(FindAll(box, TitleDiv), Some(IconSpan));
      NonEmptyOfStripped(texts);
      NonEmpty(texts)
  }

  /** extract_h1_title_candidates: the lookup chain, then the loop over the title divs. */
  method ExtractH1TitleCandidates(doc: Node) returns (titles: seq<string>)
    ensures titles == TitleCandidates(doc)
  {
    var sectionTitle := CandidateTitleBox(doc);
    if sectionTitle.None? {
      return [];
    }
    titles := IconStrippedTitles(FindAll(sectionTitle.value, TitleDiv));
  }

  /** The loop of extract_h1_title_candidates: each title div's text without its check icons, when non-empty. */
  method IconStrippedTitles(titleElements: seq<Loc>) returns (titles: seq<string>)
    ensures titles == NonEmpty(Texts(titleElements, Some(IconSpan)))
  {
    ghost var texts := Texts(titleElements, Some(IconSpan));
    titles := [];
    var i := 0;
    while i < |titleElements|
      invariant 0 <= i <= |titleElements|
      invariant titles == NonEmpty(texts[..i])
    {
      var title := GetTextWithout(titleElements[i].node, IconSpan);
      assert title == texts[i];
      NonEmptyStep(texts, i);
      if title != [] {
        titles := titles + [title];
      }
      i := i + 1;
    }
    assert texts[..i] == texts;
  }

  // ---------------------------------------------------------------------------
  // Originality proposals.

  /** One block-original: a proposal when its icon-stripped block-title text is non-empty. */
  function ProposalOf(block: Loc): (r: Option<Proposal>)
    ensures r.Some? ==> r.value.title != [] && IsStripped(r.value.title) && IsStripped(r.value.advice)
  {
    var title := match Find(block, BlockTitle) case None => [] case Some(t) => GetTextWithout(t.node, IconSpan);
    var advice := match Find(block, BlockText) case None => [] case Some(a) => GetText(a.node);
    if title != [] then Some(Proposal(title, advice)) else None
  }

  /**
   * A proposal's title is the block-title's text without its check icons, and its
   * advice the block-text's text, or "" when the block has no block-text.
   */
  lemma ProposalOfFields(block: Loc)
    ensures var r := ProposalOf(block);
      r.Some? ==>
        && Find(block, BlockTitle).Some?
        && r.value.title == GetTextWithout(Find(block, BlockTitle).value.node, IconSpan)
        && r.value.advice == match Find(block, BlockText) case None => "" case Some(a) => GetText(a.node)
  {
  }

  /** A block gives no proposal exactly when it has no block-title, or one whose text is all icons or empty. */
  lemma ProposalOfNone(block: Loc)
    ensures ProposalOf(block).None? <==>
      Find(block, BlockTitle).None? || Strings(Find(block, BlockTitle).value.node, Some(IconSpan)) == []
  {
  }

  /** The proposals of the given blocks, in order. */
  function ProposalsFrom(blocks: seq<Loc>): (r: seq<Proposal>)
    ensures |r| <= |blocks|
    ensures forall k :: 0 <= k < |r| ==> r[k].title != []
  {
    if blocks == [] then []
    else
      var n := |blocks| - 1;
      ProposalsFrom(blocks[..n]) + ProposalItem(blocks[n])
  }

  /** What one block adds to the proposals: its proposal, if it makes one. */
  function ProposalItem(block: Loc): seq<Proposal>
  {
    match ProposalOf(block) case None => [] case Some(p) => [p]
  }

  lemma ProposalsFromStep(blocks: seq<Loc>, i: nat)
    requires i < |blocks|
    ensures ProposalsFrom(blocks[..i + 1]) == ProposalsFrom(blocks[..i]) + ProposalItem(blocks[i])
  {
    assert blocks[..i + 1][..i] == blocks[..i];
  }

  /** No block with a non-empty title is lost. */
  lemma ProposalsFromKeepsAll(blocks: seq<Loc>)
    ensures forall j :: 0 <= j < |blocks| && ProposalOf(blocks[j]).Some? ==> ProposalOf(blocks[j]).value in ProposalsFrom(blocks)
  {
    forall j | 0 <= j < |blocks| && ProposalOf(blocks[j]).Some?
      ensures ProposalOf(blocks[j]).value in ProposalsFrom(blocks)
    {
      ProposalKept(blocks, j, |blocks|, ProposalOf(blocks[j]).value);
      assert blocks[..|blocks|] == blocks;
    }
  }

  /** Every listed proposal is the proposal of one of the blocks. */
  lemma ProposalsFromSound(blocks: seq<Loc>)
    ensures forall p :: p in ProposalsFrom(blocks) ==> exists j :: 0 <= j < |blocks| && ProposalOf(blocks[j]) == Some(p)
  {
    forall p | p in ProposalsFrom(blocks)
      ensures exists j :: 0 <= j < |blocks| && ProposalOf(blocks[j]) == Some(p)
    {
      var j := ProposalSource(blocks, p);
      ProposalItemOf(blocks[j], p);
    }
  }

  /** A listed proposal is contributed by one of the blocks, the `j`th. */
  lemma {:induction false} ProposalSource(blocks: seq<Loc>, p: Proposal) returns (j: nat)
    requires p in ProposalsFrom(blocks)
    ensures j < |blocks| && p in ProposalItem(blocks[j])
  {
    var n := |blocks| - 1;
    var front := ProposalsFrom(blocks[..n]);
    assert ProposalsFrom(blocks) == front + ProposalItem(blocks[n]);
    InEitherPart(p, front, ProposalItem(blocks[n]));
    if p in front {
      j := ProposalSource(blocks[..n], p);
      assert blocks[..n][j] == blocks[j];
    } else {
      j := n;
    }
  }

  /** An element of a concatenation is in one of its parts. */
  lemma InEitherPart<T>(x: T, a: seq<T>, b: seq<T>)
    requires x in a + b
    ensures x in a || x in b
  {
    var k :| 0 <= k < |a + b| && (a + b)[k] == x;
    if k >= |a| {
      assert b[k - |a|] == x;
    }
  }

  lemma ProposalItemOf(block: Loc, p: Proposal)
    requires p in ProposalItem(block)
    ensures ProposalOf(block) == Some(p)
  {
  }

  /** The proposal `p` of the block at position `j` is among the proposals of every prefix that holds that block. */
  lemma {:induction false} ProposalKept(blocks: seq<Loc>, j: nat, i: nat, p: Proposal)
    requires j < i <= |blocks| && ProposalOf(blocks[j]) == Some(p)
    ensures p in ProposalsFrom(blocks[..i])
    decreases i
  {
    ProposalsFromStep(blocks, i - 1);
    if j < i - 1 {
      ProposalKept(blocks, j, i - 1, p);
    } else {
      assert ProposalItem(blocks[j]) == [p];
    }
  }

  /** The sectionBlock of the "独自性の提案" heading: the nearest one above it, absent when the heading or such an ancestor is. */
  function ProposalsBlock(doc: Node): (r: Option<Loc>)
    ensures FindAiArticleSection(doc).None? ==> r.None?
    ensures r.None? <==>
      HeadingIn(doc, ProposalsHeading).None? || NoAncestor(HeadingIn(doc, ProposalsHeading).value, SectionBlock)
    ensures r.Some? ==> NearestAncestor(r.value, HeadingIn(doc, ProposalsHeading).value, SectionBlock)
  {
    match HeadingIn(doc, ProposalsHeading)
    case None => None
    case Some(h4) => FindParent(h4, SectionBlock)
  }

  /** Every block-original below the proposals block that has a non-empty title, in document order. */
  function OriginalityProposals(doc: Node): (r: seq<Proposal>)
    ensures ProposalsBlock(doc).None? ==> r == []
    ensures forall k :: 0 <= k < |r| ==> r[k].title != []
    ensures ProposalsBlock(doc).Some? ==> r == ProposalsFrom(FindAll(ProposalsBlock(doc).value, BlockOriginal))
  {
    match ProposalsBlock(doc)
    case None => []
    case Some(block) => ProposalsFrom(FindAll(block, BlockOriginal))
  }

  /** extract_originality_proposals: the lookup chain, then the loop over the block-original divs. */
  method ExtractOriginalityProposals(doc: Node) returns (proposals: seq<Proposal>)
    ensures proposals == OriginalityProposals(doc)
  {
    var sectionBlock := ProposalsBlock(doc);
    if sectionBlock.None? {
      return [];
    }
    proposals := CollectProposals(FindAll(sectionBlock.value, BlockOriginal));
  }

  /** The loop of extract_originality_proposals. */
  method CollectProposals(originalBlocks: seq<Loc>) returns (proposals: seq<Proposal>)
    ensures proposals == ProposalsFrom(originalBlocks)
  {
    proposals := [];
    var i := 0;
    while i < |originalBlocks|
      invariant 0 <= i <= |originalBlocks|
      invariant proposals == ProposalsFrom(originalBlocks[..i])
    {
      var title, advice := ReadProposal(originalBlocks[i]);
      ProposalsFromStep(originalBlocks, i);
      if title != [] {
        proposals := proposals + [Proposal(title, advice)];
      }
      i := i + 1;
    }
    assert originalBlocks[..i] == originalBlocks;
  }

  /** The body of that loop: the block's icon-stripped title and its advice text, each empty when the element is missing. */
  method ReadProposal(block: Loc) returns (title: string, advice: string)
    ensures ProposalOf(block) == if title != [] then Some(Proposal(title, advice)) else None
    ensures ProposalItem(block) == if title != [] then [Proposal(title, advice)] else []
  {
    var titleElem := Find(block, BlockTitle);
    if titleElem.Some? {
      title := GetTextWithout(titleElem.value.node, IconSpan);
    } else {
      title := "";
    }
    var adviceElem := Find(block, BlockText);
    advice := if adviceElem.Some? then GetText(adviceElem.value.node) else "";
  }

  // ---------------------------------------------------------------------------
  // Selected proposals and the whole result.

  /** The proposals at the given indices, in the order of the indices; indices outside [0, |all|) are skipped. */
  function Selected(all: seq<Proposal>, indices: seq<int>): (r: seq<Proposal>)
    ensures |r| <= |indices|
    ensures forall k :: 0 <= k < |r| ==> r[k] in all
  {
    if indices == [] then []
    else
      var n := |indices| - 1;
      var idx := indices[n];
      Selected(all, indices[..n]) + (if 0 <= idx < |all| then [all[idx]] else [])
  }

  lemma {:induction false} SelectedAppend(all: seq<Proposal>, a: seq<int>, b: seq<int>)
    ensures Selected(all, a + b) == Selected(all, a) + Selected(all, b)
    decreases |b|
  {
    if b == [] {
      assert a + b == a;
    } else {
      var n := |b| - 1;
      assert (a + b)[..|a + b| - 1] == a + b[..n];
      assert (a + b)[|a + b| - 1] == b[n];
      SelectedAppend(all, a, b[..n]);
    }
  }

  /** An index outside the list is dropped without affecting the others. */
  lemma SelectedSkipsInvalid(all: seq<Proposal>, a: seq<int>, idx: int, b: seq<int>)
    requires idx < 0 || idx >= |all|
    ensures Selected(all, a + [idx] + b) == Selected(all, a + b)
  {
    assert Selected(all, [idx]) == [] by {
      assert [idx][..0] == [];
    }
    SelectedAppend(all, a + [idx], b);
    SelectedAppend(all, a, [idx]);
    SelectedAppend(all, a, b);
    assert Selected(all, a + [idx]) == Selected(all, a);
  }

  /** With every index valid, the selection has one proposal per index, duplicates included. */
  lemma {:induction false} SelectedAllValid(all: seq<Proposal>, indices: seq<int>)
    requires forall k :: 0 <= k < |indices| ==> 0 <= indices[k] < |all|
    ensures |Selected(all, indices)| == |indices|
    ensures forall k :: 0 <= k < |indices| ==> Selected(all, indices)[k] == all[indices[k]]
  {
    if indices != [] {
      var n := |indices| - 1;
      SelectedAllValid(all, indices[..n]);
    }
  }

  /** extract_selected_proposals: every proposal, then the ones at the requested indices. */
  method ExtractSelectedProposals(doc: Node, selectedIndices: seq<int>) returns (selected: seq<Proposal>)
    ensures selected == Selected(OriginalityProposals(doc), selectedIndices)
  {
    var allProposals := ExtractOriginalityProposals(doc);
    selected := SelectByIndices(allProposals, selectedIndices);
  }

  /** The loop of extract_selected_proposals: in-range indices pick a proposal, the others are skipped. */
  method SelectByIndices(allProposals: seq<Proposal>, selectedIndices: seq<int>) returns (selected: seq<Proposal>)
    ensures selected == Selected(allProposals, selectedIndices)
  {
    selected := [];
    var i := 0;
    while i < |selectedIndices|
      invariant 0 <= i <= |selectedIndices|
      invariant selected == Selected(allProposals, selectedIndices[..i])
    {
      var idx := selectedIndices[i];
      if 0 <= idx < |allProposals| {
        selected := selected + [allProposals[idx]];
      }
      assert selectedIndices[..i + 1][..i] == selectedIndices[..i];
      i := i + 1;
    }
    assert selectedIndices[..i] == selectedIndices;
  }

  /**
   * extract_all: the selected pattern (whose error stops everything), the title
   * candidates, and the selected proposals, or none when no indices were given.
   */
  method ExtractAll(doc: Node, pattern: string, proposalIndices: Option<seq<int>>)
    returns (r: Result<ExtractedResult, ParseError>)
    ensures r.Failure? <==> ExtractSelectedPattern(doc, pattern).Failure?
    ensures r.Failure? ==> r.error == ExtractSelectedPattern(doc, pattern).error
    ensures r.Success? ==>
      && r.value.pattern == pattern
      && r.value.structure == ExtractSelectedPattern(doc, pattern).value.structure
      && r.value.h1Candidates == TitleCandidates(doc)
      && r.value.proposals
         == (if proposalIndices.Some? then Selected(OriginalityProposals(doc), proposalIndices.value) else [])
  {
    var selectedPattern := ExtractSelectedPattern(doc, pattern);
    if selectedPattern.Failure? {
      return Failure(selectedPattern.error);
    }
    var candidates := ExtractH1TitleCandidates(doc);
    var proposals: seq<Proposal>;
    if proposalIndices.Some? {
      proposals := ExtractSelectedProposals(doc, proposalIndices.value);
    } else {
      proposals := [];
    }
    r := Success(ExtractedResult(pattern, selectedPattern.value.structure, candidates, proposals));
  }
}
