/**
 * The article scaffold generator: the choice of the H1 title, the article id,
 * the metadata record, and every directory and file generate_structure
 * creates, with their names and contents.
 *
 * The clock (the date stamp and the creation time), the names of the
 * directories already in the output directory and the name of the JSON file
 * are parameters. Writing is modelled as the sequence of outputs the generator
 * issues, each with its path below the output directory.
 */
module ArticleStructure {
  import opened Wrappers
  import opened Text
  import opened Outline
  import opened Filenames

  datatype ScaffoldError =
    | NoCandidates                 // the JSON holds no H1 title candidate
    | UnknownTitle(title: string)  // the requested title is not among the candidates
    | Refused(path: Path, done: seq<Output>)
      // the file system refused to create `path`; the outputs in `done` were carried out before it

  // ---------------------------------------------------------------------------
  // H1 selection

  /** The H1 title: the requested one if non-empty and known, else the first candidate. */
  function SelectH1(candidates: seq<string>, selected: Option<string>): (r: Result<string, ScaffoldError>)
    ensures r.Failure? <==> candidates == [] || (selected.Some? && selected.value != [] && selected.value !in candidates)
    ensures candidates == [] ==> r == Failure(NoCandidates)
    ensures candidates != [] && r.Failure? ==> r.error == UnknownTitle(selected.value)
    ensures r.Success? ==> r.value in candidates
    ensures r.Success? && selected.Some? && selected.value != [] ==> r.value == selected.value
    ensures r.Success? && (selected.None? || selected.value == []) ==> r.value == candidates[0]
  {
    if candidates == [] then Failure(NoCandidates)
    else if selected.Some? && selected.value != [] then
      if selected.value in candidates then Success(selected.value) else Failure(UnknownTitle(selected.value))
    else Success(candidates[0])
  }

  // ---------------------------------------------------------------------------
  // The article id: date, sequence number and a short title, joined by '_'.

  const SequenceWidth: nat := 3

  const TitlePartLength: nat := 30

  /** How many of `names` start with `prefix`: the number of their positions that do. */
  function CountWithPrefix(names: seq<string>, prefix: string): (n: nat)
    ensures n == |PositionsWithPrefix(names, prefix)|
    ensures n <= |names|
  {
    if names == [] then 0
    else
      var m := |names| - 1;
      var front := CountWithPrefix(names[..m], prefix);
      assert PositionsWithPrefix(names, prefix)
        == PositionsWithPrefix(names[..m], prefix) + (if IsPrefix(prefix, names[m]) then {m} else {});
      front + (if IsPrefix(prefix, names[m]) then 1 else 0)
  }

  /** The positions of the names that start with `prefix`. */
  function PositionsWithPrefix(names: seq<string>, prefix: string): (r: set<nat>)
    ensures forall k :: k in r ==> k < |names|
  {
    set k: nat | k < |names| && IsPrefix(prefix, names[k])
  }

  /** The sequence number: one more than the directories already named after the date. */
  function SequenceNumber(date: string, dirNames: seq<string>): (n: nat)
    ensures 1 <= n <= |dirNames| + 1
  {
    CountWithPrefix(dirNames, date) + 1
  }

  /** The sequence number in decimal, zero-padded to at least three digits. */
  function SequenceText(n: nat): (r: string)
    ensures |r| >= SequenceWidth && AllDigits(r)
  {
    var d := Decimal(n);
    ZeroPadValue(d, SequenceWidth);
    ZeroPad(d, SequenceWidth)
  }

  /** The title part: the sanitised title, cut to its first 30 characters. */
  function TitlePart(title: string): (r: string)
    ensures |r| <= TitlePartLength
    ensures IsPrefix(r, Sanitized(title))
    ensures |r| == if |Sanitized(title)| <= TitlePartLength then |Sanitized(title)| else TitlePartLength
    ensures forall k :: 0 <= k < |r| ==> r[k] !in InvalidChars
  {
    SanitizedChars(title);
    var s := Sanitized(title);
    if |s| > TitlePartLength then s[..TitlePartLength] else s
  }

  /** What _generate_article_id returns for a date stamp, the names of the existing directories and the title. */
  function ArticleId(date: string, dirNames: seq<string>, title: string): string
  {
    date + "_" + SequenceText(SequenceNumber(date, dirNames)) + "_" + TitlePart(title)
  }

  /** The three parts of an article id. */
  datatype IdParts = IdParts(date: string, sequence: nat, title: string)

  /** Reads an id back: the text before the first '_', the number up to the second, and the rest. */
  function ParseArticleId(id: string): Option<IdParts>
  {
    var parts := Split(id, "_");
    if |parts| < 3 || !AllDigits(parts[1]) then None
    else Some(IdParts(parts[0], ParseDecimal(parts[1]), Join(parts[2..], "_")))
  }

  /**
   * An article id reads back as its date, its sequence number and its title
   * part, whatever the title holds, as long as the date stamp holds no '_'
   * (strftime('%Y%m%d') gives digits only).
   */
  lemma ArticleIdRoundTrip(date: string, dirNames: seq<string>, title: string)
    requires '_' !in date
    ensures ParseArticleId(ArticleId(date, dirNames, title))
      == Some(IdParts(date, SequenceNumber(date, dirNames), TitlePart(title)))
  {
    IdPartsRoundTrip(date, SequenceNumber(date, dirNames), TitlePart(title));
  }

  /** The same for any sequence number and any title text. */
  lemma IdPartsRoundTrip(date: string, n: nat, tp: string)
    requires '_' !in date
    ensures ParseArticleId(date + "_" + SequenceText(n) + "_" + tp) == Some(IdParts(date, n, tp))
  {
    var st := SequenceText(n);
    var id := date + "_" + st + "_" + tp;
    NoUnderscoreInDigits(st);
    assert id == date + ['_'] + (st + ['_'] + tp);
    SplitAtFirstChar(date, '_', st + ['_'] + tp);
    SplitAtFirstChar(st, '_', tp);
    var parts := Split(id, "_");
    assert parts == [date] + ([st] + Split(tp, "_"));
    assert parts[2..] == Split(tp, "_");
    SplitJoinRoundTrip(tp, "_");
    ZeroPadValue(Decimal(n), SequenceWidth);
    DecimalRoundTrip(n);
  }

  /**
   * Once the new article's directory exists, the next article of the same day
   * gets the next sequence number.
   */
  lemma NextSequenceNumber(date: string, dirNames: seq<string>, title: string)
    ensures SequenceNumber(date, dirNames + [ArticleId(date, dirNames, title)]) == SequenceNumber(date, dirNames) + 1
  {
    var id := ArticleId(date, dirNames, title);
    assert (dirNames + [id])[..|dirNames|] == dirNames;
    assert id[..|date|] == date;
  }

  // ---------------------------------------------------------------------------
  // Metadata

  /** The fields of .article.json. */
  datatype Metadata = Metadata(
    articleId: string,
    h1Title: string,
    h1Candidates: seq<string>,
    pattern: string,
    createdAt: string,
    sourceJson: string,
    sourceHtml: Option<string>,
    h2Count: nat,
    proposalsCount: nat)

  /** The metadata record; an empty HTML file name is recorded as no name. */
  function MetadataOf(id: string, h1: string, data: ExtractedResult, createdAt: string, sourceJson: string, sourceHtml: Option<string>): (m: Metadata)
    ensures m.h2Count == |data.structure| && m.proposalsCount == |data.proposals|
    ensures m.sourceHtml.Some? <==> sourceHtml.Some? && sourceHtml.value != []
  {
    Metadata(id, h1, data.h1Candidates, data.pattern, createdAt, sourceJson,
      if sourceHtml.Some? && sourceHtml.value != [] then sourceHtml else None,
      |data.structure|, |data.proposals|)
  }

  // ---------------------------------------------------------------------------
  // Names and contents of what is written

  /** A path below the output directory, one component per directory level. */
  type Path = seq<string>

  datatype Output =
    | MakeDir(path: Path)
    | WriteMetadata(path: Path, metadata: Metadata)
    | CopySource(path: Path)                // the extraction JSON, copied as it is
    | WriteFile(path: Path, content: string)

  // ---------------------------------------------------------------------------
  // What the file system accepts as a name

  /** The longest name of one directory entry, in bytes (Linux's NAME_MAX). */
  const NameMax: nat := 255

  /** The bytes a character takes in UTF-8, the encoding file names are written in. */
  function Utf8Width(c: char): (w: nat)
    ensures 1 <= w <= 4
  {
    if c as int < 0x80 then 1 else if c as int < 0x800 then 2 else if c as int < 0x1_0000 then 3 else 4
  }

  /** The bytes a name takes in UTF-8. */
  function Utf8Length(s: string): (n: nat)
    ensures |s| <= n <= 4 * |s|
  {
    if s == [] then 0 else Utf8Length(s[..|s| - 1]) + Utf8Width(s[|s| - 1])
  }

  /**
   * A name the file system creates as one entry of its directory. A '/' makes
   * it a path through a directory nobody created, a NUL is refused by Python,
   * and a name longer than 255 bytes is refused by the file system.
   */
  predicate WritableName(name: string)
  {
    '/' !in name && '\0' !in name && Utf8Length(name) <= NameMax
  }

  /** Every component of the path is a name the file system accepts. */
  predicate WritablePath(p: Path)
  {
    forall k :: 0 <= k < |p| ==> WritableName(p[k])
  }

  /** A path whose last name holds '/' cannot be created. */
  lemma SlashRefused(dir: Path, name: string)
    requires '/' in name
    ensures !WritablePath(dir + [name])
  {
    assert (dir + [name])[|dir|] == name;
  }

  function H1FileName(h1: string): string { "h1_" + h1 + ".md" }

  function H1Content(h1: string): string { "# " + h1 + "\n\n" + "<!-- ここにH1用のコンテンツを記入 -->\n" }

  /** The directory of the H2 at 1-based position `i`, named after its sanitised title. */
  function H2DirName(i: nat, h2: string): string { "h2-" + Decimal(i) + "_" + Sanitized(h2) }

  /** The H2 file, named after the title as it is. */
  function H2FileName(i: nat, h2: string): string { "h2-" + Decimal(i) + "_" + h2 + ".md" }

  function H2Content(h2: string): string { "## " + h2 + "\n\n" + "<!-- ここにH2用のコンテンツを記入 -->\n" }

  function PascalFileName(i: nat): string { "pascal_h2-" + Decimal(i) + ".md" }

  function ExperienceFileName(i: nat): string { "experience_h2-" + Decimal(i) + ".md" }

  function ExperienceContent(h2: string): string { "# Experience: " + h2 + "\n\n" + "<!-- ここに体験談を記入 -->\n" }

  /** The file of the H3 at 1-based position `j`, named after the title as it is. */
  function H3FileName(j: nat, h3: string): string { "h3-" + Decimal(j) + "_" + h3 + ".md" }

  function H3Content(h3: string): string { "### " + h3 + "\n\n" + "<!-- ここにH3用のコンテンツを記入 -->\n" }

  /**
   * Two H2 directories with different positions never share a name: the
   * position is spelled out between "h2-" and the first '_'.
   */
  lemma H2DirNameInjective(i: nat, a: string, j: nat, b: string)
    requires H2DirName(i, a) == H2DirName(j, b)
    ensures i == j && Sanitized(a) == Sanitized(b)
  {
    H2NameInjective(i, Sanitized(a), j, Sanitized(b));
  }

  /** The same after the "h2-" prefix. */
  lemma H2NameInjective(i: nat, a: string, j: nat, b: string)
    requires "h2-" + Decimal(i) + "_" + a == "h2-" + Decimal(j) + "_" + b
    ensures i == j && a == b
  {
    var x := Decimal(i) + ['_'] + a;
    var y := Decimal(j) + ['_'] + b;
    assert ("h2-" + Decimal(i) + "_" + a)[3..] == x;
    assert ("h2-" + Decimal(j) + "_" + b)[3..] == y;
    NumberedNameInjective(i, a, j, b);
  }

  /** A decimal number, '_', then any text: the number and the text can be read back. */
  lemma NumberedNameInjective(i: nat, a: string, j: nat, b: string)
    requires Decimal(i) + ['_'] + a == Decimal(j) + ['_'] + b
    ensures i == j && a == b
  {
    var x := Decimal(i) + ['_'] + a;
    NoUnderscoreInDigits(Decimal(i));
    NoUnderscoreInDigits(Decimal(j));
    SplitAtFirstChar(Decimal(i), '_', a);
    SplitAtFirstChar(Decimal(j), '_', b);
    assert Split(x, ['_'])[0] == Decimal(i) == Decimal(j);
    DecimalRoundTrip(i);
    DecimalRoundTrip(j);
    assert x[|Decimal(i)| + 1..] == a;
  }

  lemma NoUnderscoreInDigits(s: string)
    requires AllDigits(s)
    ensures '_' !in s
  {
    forall k | 0 <= k < |s|
      ensures s[k] != '_'
    {
      assert IsDigit(s[k]);
    }
  }

  // ---------------------------------------------------------------------------
  // The pascal file of one H2, as the sequence of its writes.

  const H3ListHeading := "## H3一覧\n\n"

  const AdviceLabel := "**執筆アドバイス:**\n\n"

  const KeywordsLabel := "**キーワード:**\n\n"

  const Rule := "---\n\n"

  function H3Heading(j: nat, h3: string): string { "### H3-" + Decimal(j) + ": " + h3 + "\n\n" }

  /** The advice paragraph of an H3. */
  function AdviceText(advice: string): string { advice + "\n\n" }

  /** The keywords paragraph of an H3: its keywords joined by ", ". */
  function KeywordsText(keywords: seq<string>): string { Join(keywords, ", ") + "\n\n" }

  /** The first three writes: the H2 title, the pattern and the H2 number. */
  function PascalHeader(h2: string, pattern: string, i: nat): seq<string>
  {
    ["# Pascal設計図: " + h2 + "\n\n", "**パターン:** " + pattern + "\n", "**H2番号:** " + Decimal(i) + "\n\n"]
  }

  /** The writes for the H3 at position `j`: none for an untitled one. */
  function H3Writes(j: nat, h: H3Entry): (r: seq<string>)
    ensures r == [] <==> h.h3 == []
  {
    if h.h3 == [] then []
    else
      [H3Heading(j, h.h3)]
      + (if h.advice != [] then [AdviceLabel, AdviceText(h.advice)] else [])
      + (if h.keywords != [] then [KeywordsLabel, KeywordsText(h.keywords)] else [])
      + [Rule]
  }

  /** The writes for a run of H3s, each numbered by its position. */
  function H3sWrites(h3s: seq<H3Entry>): seq<string>
  {
    if h3s == [] then [] else H3sWrites(h3s[..|h3s| - 1]) + H3Writes(|h3s|, h3s[|h3s| - 1])
  }

  /** Every write of the pascal file, in order; the H3 part only when the H2 has H3s. */
  function PascalWrites(h2: string, pattern: string, i: nat, h3s: seq<H3Entry>): seq<string>
  {
    PascalHeader(h2, pattern, i) + (if h3s != [] then [H3ListHeading] + H3sWrites(h3s) else [])
  }

  /**
   * A titled H3's block opens with its heading; the advice label follows it
   * exactly when the H3 has advice, and the keywords label comes next exactly
   * when it has keywords; the rule closes it.
   */
  lemma H3WritesShape(j: nat, h: H3Entry)
    requires h.h3 != []
    ensures H3Writes(j, h)[0] == H3Heading(j, h.h3)
    ensures H3Writes(j, h)[1] == AdviceLabel <==> h.advice != []
    ensures var k := if h.advice != [] then 3 else 1;
      k < |H3Writes(j, h)| && (H3Writes(j, h)[k] == KeywordsLabel <==> h.keywords != [])
    ensures H3Writes(j, h)[|H3Writes(j, h)| - 1] == Rule
  {
    assert AdviceLabel[2] != KeywordsLabel[2];
    assert AdviceLabel != Rule && KeywordsLabel != Rule by {
      assert Rule[0] == '-' && AdviceLabel[0] == '*' && KeywordsLabel[0] == '*';
    }
  }

  /** A titled H3's block holds its heading, and its advice and keywords when it has them. */
  lemma H3WritesContain(j: nat, h: H3Entry)
    ensures h.h3 != [] ==> H3Heading(j, h.h3) in H3Writes(j, h)
    ensures h.h3 != [] && h.advice != [] ==> AdviceText(h.advice) in H3Writes(j, h)
    ensures h.h3 != [] && h.keywords != [] ==> KeywordsText(h.keywords) in H3Writes(j, h)
  {
    if h.h3 != [] {
      var w := H3Writes(j, h);
      assert w[0] == H3Heading(j, h.h3);
      if h.advice != [] {
        assert w[2] == AdviceText(h.advice);
      }
      if h.keywords != [] {
        assert w[if h.advice != [] then 4 else 2] == KeywordsText(h.keywords);
      }
    }
  }

  /** Every titled H3 has its heading, numbered by its position, and its advice and keywords when it has any. */
  lemma {:induction false} H3sWritesComplete(h3s: seq<H3Entry>)
    ensures forall j :: 0 <= j < |h3s| && h3s[j].h3 != [] ==> H3Heading(j + 1, h3s[j].h3) in H3sWrites(h3s)
    ensures forall j :: 0 <= j < |h3s| && h3s[j].h3 != [] && h3s[j].advice != [] ==> AdviceText(h3s[j].advice) in H3sWrites(h3s)
    ensures forall j :: 0 <= j < |h3s| && h3s[j].h3 != [] && h3s[j].keywords != [] ==>
      KeywordsText(h3s[j].keywords) in H3sWrites(h3s)
  {
    if h3s != [] {
      var n := |h3s| - 1;
      var front := H3sWrites(h3s[..n]);
      var last := H3Writes(n + 1, h3s[n]);
      assert H3sWrites(h3s) == front + last;
      H3sWritesComplete(h3s[..n]);
      H3WritesContain(n + 1, h3s[n]);
      forall j | 0 <= j < n
        ensures h3s[j].h3 != [] ==> H3Heading(j + 1, h3s[j].h3) in front + last
        ensures h3s[j].h3 != [] && h3s[j].advice != [] ==> AdviceText(h3s[j].advice) in front + last
        ensures h3s[j].h3 != [] && h3s[j].keywords != [] ==> KeywordsText(h3s[j].keywords) in front + last
      {
        assert h3s[..n][j] == h3s[j];
      }
    }
  }

  /** The pascal writes of one H2: the header, then the H3 part when the H2 has H3s. */
  method PascalFileWrites(h2: string, pattern: string, i: nat, h3s: seq<H3Entry>) returns (writes: seq<string>)
    ensures writes == PascalWrites(h2, pattern, i, h3s)
  {
    writes := PascalHeader(h2, pattern, i);
    if h3s != [] {
      var h3Writes := H3sFileWrites(h3s);
      writes := writes + ([H3ListHeading] + h3Writes);
    }
  }

  /** The H3 loop of the pascal file. */
  method H3sFileWrites(h3s: seq<H3Entry>) returns (writes: seq<string>)
    ensures writes == H3sWrites(h3s)
  {
    writes := [];
    var j := 0;
    while j < |h3s|
      invariant 0 <= j <= |h3s|
      invariant writes == H3sWrites(h3s[..j])
    {
      var block := H3BlockWrites(j + 1, h3s[j]);
      assert h3s[..j + 1][..j] == h3s[..j];
      writes := writes + block;
      j := j + 1;
    }
    assert h3s[..j] == h3s;
  }

  /** The body of the H3 loop in the pascal file: nothing for an untitled H3. */
  method H3BlockWrites(j: nat, h: H3Entry) returns (writes: seq<string>)
    ensures writes == H3Writes(j, h)
  {
    writes := [];
    if h.h3 == [] {
      return;
    }
    writes := writes + [H3Heading(j, h.h3)];
    if h.advice != [] {
      writes := writes + [AdviceLabel, AdviceText(h.advice)];
    }
    if h.keywords != [] {
      writes := writes + [KeywordsLabel, KeywordsText(h.keywords)];
    }
    writes := writes + [Rule];
  }

  // ---------------------------------------------------------------------------
  // The outputs of one H2 and of the whole outline

  /** The H3 files of one H2 directory, numbered by position, untitled H3s skipped. */
  function H3Files(dir: Path, h3s: seq<H3Entry>): seq<Output>
  {
    if h3s == [] then []
    else
      var n := |h3s| - 1;
      var h3 := h3s[n].h3;
      H3Files(dir, h3s[..n]) + (if h3 != [] then [WriteFile(dir + [H3FileName(n + 1, h3)], H3Content(h3))] else [])
  }

  /** Every H3 file belongs to a titled H3, numbered by its position, and every titled H3 has one. */
  lemma {:induction false} H3FilesExact(dir: Path, h3s: seq<H3Entry>)
    ensures forall o :: o in H3Files(dir, h3s) ==>
      exists j :: 0 <= j < |h3s| && h3s[j].h3 != [] && o == WriteFile(dir + [H3FileName(j + 1, h3s[j].h3)], H3Content(h3s[j].h3))
    ensures forall j :: 0 <= j < |h3s| && h3s[j].h3 != [] ==>
      WriteFile(dir + [H3FileName(j + 1, h3s[j].h3)], H3Content(h3s[j].h3)) in H3Files(dir, h3s)
  {
    if h3s != [] {
      var n := |h3s| - 1;
      H3FilesExact(dir, h3s[..n]);
      assert forall j :: 0 <= j < n ==> h3s[..n][j] == h3s[j];
    }
  }

  /** What one iteration of the H2 loop writes: nothing for an untitled H2. */
  function EntryOutputs(contentDir: Path, pattern: string, i: nat, e: H2Entry): (r: seq<Output>)
    ensures r == [] <==> e.h2 == []
  {
    if e.h2 == [] then []
    else
      var dir := contentDir + [H2DirName(i, e.h2)];
      [MakeDir(dir)] + EntryFiles(dir, pattern, i, e) + H3Files(dir, e.h3Sections)
  }

  /** The H2 file, the pascal file and the experience file of the H2 at position `i`, in its directory. */
  function EntryFiles(dir: Path, pattern: string, i: nat, e: H2Entry): (r: seq<Output>)
    ensures |r| == 3 && forall o :: o in r ==> o.WriteFile? && |o.path| == |dir| + 1 && o.path[..|dir|] == dir
  {
    [ WriteFile(dir + [H2FileName(i, e.h2)], H2Content(e.h2)),
      WriteFile(dir + [PascalFileName(i)], Concat(PascalWrites(e.h2, pattern, i, e.h3Sections))),
      WriteFile(dir + [ExperienceFileName(i)], ExperienceContent(e.h2)) ]
  }

  /** What the H2 loop writes, the H2s numbered by position. */
  function H2Outputs(contentDir: Path, pattern: string, entries: seq<H2Entry>): seq<Output>
  {
    if entries == [] then []
    else
      var n := |entries| - 1;
      H2Outputs(contentDir, pattern, entries[..n]) + EntryOutputs(contentDir, pattern, n + 1, entries[n])
  }

  /** The H3 file loop of one H2. */
  method WriteH3Files(dir: Path, h3s: seq<H3Entry>) returns (outputs: seq<Output>)
    ensures outputs == H3Files(dir, h3s)
  {
    outputs := [];
    var j := 0;
    while j < |h3s|
      invariant 0 <= j <= |h3s|
      invariant outputs == H3Files(dir, h3s[..j])
    {
      var h3Title := h3s[j].h3;
      assert h3s[..j + 1][..j] == h3s[..j];
      if h3Title != [] {
        outputs := outputs + [WriteFile(dir + [H3FileName(j + 1, h3Title)], H3Content(h3Title))];
      }
      j := j + 1;
    }
    assert h3s[..j] == h3s;
  }

  /** One iteration of the H2 loop: the directory, the H2, pascal and experience files, then the H3 files. */
  method WriteEntry(contentDir: Path, pattern: string, i: nat, e: H2Entry) returns (outputs: seq<Output>)
    ensures outputs == EntryOutputs(contentDir, pattern, i, e)
  {
    if e.h2 == [] {
      return [];
    }
    var dir := contentDir + [H2DirName(i, e.h2)];
    var pascal := PascalFileWrites(e.h2, pattern, i, e.h3Sections);
    var files := [
      WriteFile(dir + [H2FileName(i, e.h2)], H2Content(e.h2)),
      WriteFile(dir + [PascalFileName(i)], Concat(pascal)),
      WriteFile(dir + [ExperienceFileName(i)], ExperienceContent(e.h2))];
    var h3Files := WriteH3Files(dir, e.h3Sections);
    outputs := [MakeDir(dir)] + files + h3Files;
  }

  /** The directories among some outputs, in order. */
  function Dirs(outputs: seq<Output>): seq<Path>
  {
    if outputs == [] then []
    else (if outputs[0].MakeDir? then [outputs[0].path] else []) + Dirs(outputs[1..])
  }

  lemma {:induction false} DirsAppend(a: seq<Output>, b: seq<Output>)
    ensures Dirs(a + b) == Dirs(a) + Dirs(b)
  {
    if a != [] {
      DirsAppend(a[1..], b);
      assert (a + b)[1..] == a[1..] + b;
    } else {
      assert a + b == b;
    }
  }

  lemma {:induction false} H3FilesMakeNoDir(dir: Path, h3s: seq<H3Entry>)
    ensures Dirs(H3Files(dir, h3s)) == []
  {
    if h3s != [] {
      var n := |h3s| - 1;
      H3FilesMakeNoDir(dir, h3s[..n]);
      var h3 := h3s[n].h3;
      DirsAppend(H3Files(dir, h3s[..n]), if h3 != [] then [WriteFile(dir + [H3FileName(n + 1, h3)], H3Content(h3))] else []);
    }
  }

  /** The H2s with a non-empty title. */
  function TitledH2Count(entries: seq<H2Entry>): (n: nat)
    ensures n <= |entries|
  {
    if entries == [] then 0
    else TitledH2Count(entries[..|entries| - 1]) + (if entries[|entries| - 1].h2 != [] then 1 else 0)
  }

  /** The directories the H2 loop is meant to make: one per titled H2, named after its position. */
  function H2Dirs(contentDir: Path, entries: seq<H2Entry>): seq<Path>
  {
    if entries == [] then []
    else
      var n := |entries| - 1;
      H2Dirs(contentDir, entries[..n]) + (if entries[n].h2 == [] then [] else [contentDir + [H2DirName(n + 1, entries[n].h2)]])
  }

  /** The directories among the H2 loop's outputs are exactly those of H2Dirs, in the same order. */
  lemma {:induction false} H2DirsExact(contentDir: Path, pattern: string, entries: seq<H2Entry>)
    ensures Dirs(H2Outputs(contentDir, pattern, entries)) == H2Dirs(contentDir, entries)
  {
    if entries != [] {
      var n := |entries| - 1;
      H2DirsExact(contentDir, pattern, entries[..n]);
      DirsAppend(H2Outputs(contentDir, pattern, entries[..n]), EntryOutputs(contentDir, pattern, n + 1, entries[n]));
      EntryDirs(contentDir, pattern, n + 1, entries[n]);
    }
  }

  /** One directory per titled H2. */
  lemma {:induction false} H2DirsCount(contentDir: Path, entries: seq<H2Entry>)
    ensures |H2Dirs(contentDir, entries)| == TitledH2Count(entries)
  {
    if entries != [] {
      H2DirsCount(contentDir, entries[..|entries| - 1]);
    }
  }

  /**
   * Every directory belongs to a titled H2 and is named after that H2's own
   * position, so skipped H2s leave gaps in the numbering rather than shifting it.
   */
  lemma {:induction false} H2DirsSound(contentDir: Path, entries: seq<H2Entry>)
    ensures forall d :: d in H2Dirs(contentDir, entries) ==>
      exists i :: 0 <= i < |entries| && entries[i].h2 != [] && d == contentDir + [H2DirName(i + 1, entries[i].h2)]
  {
    if entries != [] {
      var n := |entries| - 1;
      var front := entries[..n];
      H2DirsSound(contentDir, front);
      forall d | d in H2Dirs(contentDir, entries)
        ensures exists i :: 0 <= i < |entries| && entries[i].h2 != [] && d == contentDir + [H2DirName(i + 1, entries[i].h2)]
      {
        if d in H2Dirs(contentDir, front) {
          var i :| 0 <= i < n && front[i].h2 != [] && d == contentDir + [H2DirName(i + 1, front[i].h2)];
          assert front[i] == entries[i];
        } else {
          assert d == contentDir + [H2DirName(n + 1, entries[n].h2)];
        }
      }
    }
  }

  /** Every titled H2 gets its directory, named after its position. */
  lemma {:induction false} H2DirsComplete(contentDir: Path, entries: seq<H2Entry>)
    ensures forall i :: 0 <= i < |entries| && entries[i].h2 != [] ==>
      contentDir + [H2DirName(i + 1, entries[i].h2)] in H2Dirs(contentDir, entries)
  {
    if entries != [] {
      var n := |entries| - 1;
      var front := entries[..n];
      H2DirsComplete(contentDir, front);
      var f := H2Dirs(contentDir, front);
      var last := if entries[n].h2 == [] then [] else [contentDir + [H2DirName(n + 1, entries[n].h2)]];
      assert H2Dirs(contentDir, entries) == f + last;
      forall i | 0 <= i < n && entries[i].h2 != []
        ensures contentDir + [H2DirName(i + 1, entries[i].h2)] in f + last
      {
        assert front[i] == entries[i];
        assert contentDir + [H2DirName(i + 1, front[i].h2)] in f;
      }
      if entries[n].h2 != [] {
        assert (f + last)[|f|] == contentDir + [H2DirName(n + 1, entries[n].h2)];
      }
    }
  }

  /** Outputs that make no directory contribute none. */
  lemma {:induction false} NoDirs(outputs: seq<Output>)
    requires forall o :: o in outputs ==> !o.MakeDir?
    ensures Dirs(outputs) == []
  {
    if outputs != [] {
      assert outputs[0] in outputs;
      NoDirs(outputs[1..]);
    }
  }

  /** One iteration of the H2 loop makes one directory for a titled H2 and none otherwise. */
  lemma EntryDirs(contentDir: Path, pattern: string, i: nat, e: H2Entry)
    ensures Dirs(EntryOutputs(contentDir, pattern, i, e)) == if e.h2 == [] then [] else [contentDir + [H2DirName(i, e.h2)]]
  {
    if e.h2 != [] {
      var dir := contentDir + [H2DirName(i, e.h2)];
      var files := EntryFiles(dir, pattern, i, e);
      var h3Files := H3Files(dir, e.h3Sections);
      assert EntryOutputs(contentDir, pattern, i, e) == [MakeDir(dir)] + (files + h3Files);
      DirsAppend([MakeDir(dir)], files + h3Files);
      DirsAppend(files, h3Files);
      NoDirs(files);
      H3FilesMakeNoDir(dir, e.h3Sections);
      assert Dirs([MakeDir(dir)]) == [dir] by {
        assert [MakeDir(dir)][1..] == [];
      }
    }
  }

  /** Everything the H2 loop writes lies below the content directory. */
  lemma {:induction false} H2OutputsUnder(contentDir: Path, pattern: string, entries: seq<H2Entry>)
    ensures forall o :: o in H2Outputs(contentDir, pattern, entries) ==>
      |o.path| > |contentDir| && o.path[..|contentDir|] == contentDir
  {
    if entries != [] {
      var n := |entries| - 1;
      H2OutputsUnder(contentDir, pattern, entries[..n]);
      EntryOutputsUnder(contentDir, pattern, n + 1, entries[n]);
    }
  }

  /** Everything one iteration of the H2 loop writes lies below the content directory. */
  lemma EntryOutputsUnder(contentDir: Path, pattern: string, i: nat, e: H2Entry)
    ensures forall o :: o in EntryOutputs(contentDir, pattern, i, e) ==>
      |o.path| > |contentDir| && o.path[..|contentDir|] == contentDir
  {
    if e.h2 != [] {
      var dir := contentDir + [H2DirName(i, e.h2)];
      var files := EntryFiles(dir, pattern, i, e);
      var h3Files := H3Files(dir, e.h3Sections);
      var out := EntryOutputs(contentDir, pattern, i, e);
      assert out == [MakeDir(dir)] + files + h3Files;
      H3FilesUnder(dir, e.h3Sections);
      assert dir[..|contentDir|] == contentDir;
      forall o | o in out
        ensures |o.path| > |contentDir| && o.path[..|contentDir|] == contentDir
      {
        if o in files || o in h3Files {
          assert |o.path| > |dir| && o.path[..|dir|] == dir;
          assert o.path[..|contentDir|] == o.path[..|dir|][..|contentDir|];
        } else {
          assert o == MakeDir(dir);
        }
      }
    }
  }

  /** Every H3 file lies in the H2 directory. */
  lemma {:induction false} H3FilesUnder(dir: Path, h3s: seq<H3Entry>)
    ensures forall o :: o in H3Files(dir, h3s) ==> |o.path| > |dir| && o.path[..|dir|] == dir
  {
    if h3s != [] {
      H3FilesUnder(dir, h3s[..|h3s| - 1]);
    }
  }

  // ---------------------------------------------------------------------------
  // generate_structure

  /** The article id and, in order, everything generate_structure creates below the output directory. */
  datatype Scaffold = Scaffold(articleId: string, outputs: seq<Output>)

  /** The writes before the H2 loop: the article directories, the metadata, the JSON copy and the H1 file. */
  function Prelude(id: string, h1: string, m: Metadata): seq<Output>
  {
    [ MakeDir([id]),
      MakeDir([id, "content"]),
      MakeDir([id, "prompts"]),
      WriteMetadata([id, ".article.json"], m),
      CopySource([id, "source.json"]),
      WriteFile([id, "content", H1FileName(h1)], H1Content(h1)) ]
  }

  /** Everything written before the H2 loop lies in the article directory. */
  lemma PreludeUnder(id: string, h1: string, m: Metadata)
    ensures forall o :: o in Prelude(id, h1, m) ==> |o.path| >= 1 && o.path[0] == id
  {
    var p := Prelude(id, h1, m);
    forall o | o in p
      ensures |o.path| >= 1 && o.path[0] == id
    {
      var k :| 0 <= k < |p| && p[k] == o;
    }
  }

  /** Everything generate_structure sets out to create, in the order it does so. */
  function Planned(data: ExtractedResult, id: string, h1: string, m: Metadata): seq<Output>
  {
    Prelude(id, h1, m) + H2Outputs([id, "content"], data.pattern, data.structure)
  }

  /** The outputs carried out, and the first one the file system refused, if any. */
  datatype Run = Run(done: seq<Output>, refused: Option<Output>)

  /**
   * Carrying out outputs in order until the file system refuses one: what was
   * done before it stays done, and nothing after it is attempted.
   */
  function Issue(planned: seq<Output>): (r: Run)
    ensures |r.done| <= |planned| && r.done == planned[..|r.done|]
    ensures forall o :: o in r.done ==> WritablePath(o.path)
    ensures forall k :: 0 <= k < |r.done| ==> WritablePath(planned[k].path)
    ensures r.refused.None? ==> r.done == planned
    ensures r.refused.Some? ==>
      |r.done| < |planned| && r.refused.value == planned[|r.done|] && !WritablePath(r.refused.value.path)
    ensures r.refused.None? <==> forall o :: o in planned ==> WritablePath(o.path)
  {
    if planned == [] then Run([], None)
    else if !WritablePath(planned[0].path) then Run([], Some(planned[0]))
    else
      var rest := Issue(planned[1..]);
      assert forall o :: o in planned ==> o == planned[0] || o in planned[1..];
      assert forall k :: 0 < k < |planned| ==> planned[k] == planned[1..][k - 1];
      Run([planned[0]] + rest.done, rest.refused)
  }

  /** Carries out the outputs one by one, stopping at the first the file system refuses. */
  method IssueOutputs(planned: seq<Output>) returns (done: seq<Output>, refused: Option<Output>)
    ensures Run(done, refused) == Issue(planned)
  {
    done := [];
    var i := 0;
    while i < |planned|
      invariant 0 <= i <= |planned| && done == planned[..i]
      invariant forall k :: 0 <= k < i ==> WritablePath(planned[k].path)
    {
      if !WritablePath(planned[i].path) {
        IssueOf(planned, i);
        return done, Some(planned[i]);
      }
      done := done + [planned[i]];
      i := i + 1;
    }
    IssueOf(planned, i);
    refused := None;
  }

  /** The run is fixed by where the first refused output sits: everything before it is carried out. */
  lemma IssueOf(planned: seq<Output>, n: nat)
    requires n <= |planned|
    requires forall k :: 0 <= k < n ==> WritablePath(planned[k].path)
    requires n == |planned| || !WritablePath(planned[n].path)
    ensures Issue(planned) == Run(planned[..n], if n == |planned| then None else Some(planned[n]))
  {
    assert |Issue(planned).done| == n;
  }

  /** What generate_structure does for one extraction result, clock reading and directory listing. */
  function Structure(data: ExtractedResult, selected: Option<string>, date: string, dirNames: seq<string>,
                     createdAt: string, sourceJson: string, sourceHtml: Option<string>): (r: Result<Scaffold, ScaffoldError>)
  {
    match SelectH1(data.h1Candidates, selected)
    case Failure(e) => Failure(e)
    case Success(h1) =>
      var id := ArticleId(date, dirNames, h1);
      var run := Issue(Planned(data, id, h1, MetadataOf(id, h1, data, createdAt, sourceJson, sourceHtml)));
      if run.refused.Some? then Failure(Refused(run.refused.value.path, run.done))
      else Success(Scaffold(id, run.done))
  }

  /**
   * generate_structure: the H1 choice, the id, the fixed files, then the loop
   * over the H2s. The outputs are built first and then carried out in order:
   * building a name or a content has no effect of its own, so this stops at the
   * same output, with the same outputs done, as the interleaved original.
   */
  method GenerateStructure(data: ExtractedResult, selected: Option<string>, date: string, dirNames: seq<string>,
                           createdAt: string, sourceJson: string, sourceHtml: Option<string>)
    returns (r: Result<Scaffold, ScaffoldError>)
    ensures r == Structure(data, selected, date, dirNames, createdAt, sourceJson, sourceHtml)
  {
    var selection := SelectH1(data.h1Candidates, selected);
    if selection.Failure? {
      return Failure(selection.error);
    }
    var h1 := selection.value;
    var id := ArticleId(date, dirNames, h1);
    var m := MetadataOf(id, h1, data, createdAt, sourceJson, sourceHtml);
    var outputs := Prelude(id, h1, m);
    var h2Outputs := WriteH2s([id, "content"], data.pattern, data.structure);
    outputs := outputs + h2Outputs;
    var done, refused := IssueOutputs(outputs);
    if refused.Some? {
      return Failure(Refused(refused.value.path, done));
    }
    r := Success(Scaffold(id, done));
  }

  /** The H2 loop of generate_structure, each H2 numbered by its position. */
  method WriteH2s(contentDir: Path, pattern: string, entries: seq<H2Entry>) returns (outputs: seq<Output>)
    ensures outputs == H2Outputs(contentDir, pattern, entries)
  {
    outputs := [];
    var i := 0;
    while i < |entries|
      invariant 0 <= i <= |entries|
      invariant outputs == H2Outputs(contentDir, pattern, entries[..i])
    {
      var entryOutputs := WriteEntry(contentDir, pattern, i + 1, entries[i]);
      H2OutputsStep(contentDir, pattern, entries, i);
      outputs := outputs + entryOutputs;
      i := i + 1;
    }
    assert entries[..i] == entries;
  }

  lemma H2OutputsStep(contentDir: Path, pattern: string, entries: seq<H2Entry>, i: nat)
    requires i < |entries|
    ensures H2Outputs(contentDir, pattern, entries[..i + 1])
      == H2Outputs(contentDir, pattern, entries[..i]) + EntryOutputs(contentDir, pattern, i + 1, entries[i])
  {
    assert entries[..i + 1][..i] == entries[..i];
  }

  /**
   * A scaffold fails with the selection's error when the H1 selection fails.
   * Otherwise it is built around the chosen candidate: the metadata counts every
   * H2 (titled or not) and every proposal, and it succeeds, with every planned
   * output done, exactly when the file system accepts every name.
   */
  lemma StructureShape(data: ExtractedResult, selected: Option<string>, date: string, dirNames: seq<string>,
                       createdAt: string, sourceJson: string, sourceHtml: Option<string>)
    ensures var r := Structure(data, selected, date, dirNames, createdAt, sourceJson, sourceHtml);
      var selection := SelectH1(data.h1Candidates, selected);
      selection.Failure? ==> r == Failure(selection.error)
    ensures var r := Structure(data, selected, date, dirNames, createdAt, sourceJson, sourceHtml);
      var selection := SelectH1(data.h1Candidates, selected);
      selection.Success? ==>
        var h1 := selection.value;
        var id := ArticleId(date, dirNames, h1);
        var planned := Planned(data, id, h1, MetadataOf(id, h1, data, createdAt, sourceJson, sourceHtml));
        && h1 in data.h1Candidates
        && |planned| >= 6
        && planned[3].WriteMetadata?
        && planned[3].metadata.articleId == id
        && planned[3].metadata.h1Title == h1
        && planned[3].metadata.h2Count == |data.structure| >= TitledH2Count(data.structure)
        && planned[3].metadata.proposalsCount == |data.proposals|
        && (r.Success? <==> forall o :: o in planned ==> WritablePath(o.path))
        && (r.Success? ==> r.value == Scaffold(id, planned))
  {
    var selection := SelectH1(data.h1Candidates, selected);
    if selection.Success? {
      var h1 := selection.value;
      var id := ArticleId(date, dirNames, h1);
      var m := MetadataOf(id, h1, data, createdAt, sourceJson, sourceHtml);
      var pre := Prelude(id, h1, m);
      var planned := Planned(data, id, h1, m);
      assert planned[3] == pre[3];
    }
  }

  /**
   * A refused scaffold stops at the first planned output the file system
   * refuses: every output before it was done, and nothing after it.
   */
  lemma StructureStopsAtRefusal(data: ExtractedResult, selected: Option<string>, date: string, dirNames: seq<string>,
                                createdAt: string, sourceJson: string, sourceHtml: Option<string>)
    ensures var r := Structure(data, selected, date, dirNames, createdAt, sourceJson, sourceHtml);
      var selection := SelectH1(data.h1Candidates, selected);
      selection.Success? && r.Failure? ==>
        var h1 := selection.value;
        var id := ArticleId(date, dirNames, h1);
        var planned := Planned(data, id, h1, MetadataOf(id, h1, data, createdAt, sourceJson, sourceHtml));
        && r.error.Refused?
        && |r.error.done| < |planned|
        && r.error.done == planned[..|r.error.done|]
        && (forall o :: o in r.error.done ==> WritablePath(o.path))
        && r.error.path == planned[|r.error.done|].path
        && !WritablePath(r.error.path)
  {
  }

  /**
   * A '/' in the H1 title stops the scaffold: the title is used unsanitised in
   * the H1 file's name, and the file system reads the '/' as a directory that
   * does not exist.
   */
  lemma SlashInH1Refused(data: ExtractedResult, selected: Option<string>, date: string, dirNames: seq<string>,
                         createdAt: string, sourceJson: string, sourceHtml: Option<string>)
    requires SelectH1(data.h1Candidates, selected).Success?
    requires '/' in SelectH1(data.h1Candidates, selected).value
    ensures Structure(data, selected, date, dirNames, createdAt, sourceJson, sourceHtml).Failure?
  {
    var h1 := SelectH1(data.h1Candidates, selected).value;
    var id := ArticleId(date, dirNames, h1);
    var m := MetadataOf(id, h1, data, createdAt, sourceJson, sourceHtml);
    var pre := Prelude(id, h1, m);
    assert "h1_" + h1 + ".md" == "h1_" + (h1 + ".md");
    SlashRefused([id, "content"], H1FileName(h1));
    assert pre[5].path == [id, "content"] + [H1FileName(h1)];
    assert Planned(data, id, h1, m)[5] == pre[5];
    UnwritablePlanned(data, selected, date, dirNames, createdAt, sourceJson, sourceHtml, h1, id, pre[5]);
  }

  /** A '/' in an H2's title stops the scaffold: the title is used unsanitised in the H2 file's name. */
  lemma SlashInH2Refused(data: ExtractedResult, selected: Option<string>, date: string, dirNames: seq<string>,
                         createdAt: string, sourceJson: string, sourceHtml: Option<string>, i: nat)
    requires SelectH1(data.h1Candidates, selected).Success?
    requires i < |data.structure| && '/' in data.structure[i].h2
    ensures Structure(data, selected, date, dirNames, createdAt, sourceJson, sourceHtml).Failure?
  {
    var h1 := SelectH1(data.h1Candidates, selected).value;
    var id := ArticleId(date, dirNames, h1);
    var e := data.structure[i];
    var dir := [id, "content"] + [H2DirName(i + 1, e.h2)];
    var o := WriteFile(dir + [H2FileName(i + 1, e.h2)], H2Content(e.h2));
    assert EntryOutputs([id, "content"], data.pattern, i + 1, e)[1] == o;
    SlashRefused(dir, H2FileName(i + 1, e.h2));
    UnwritableInEntry(data, selected, date, dirNames, createdAt, sourceJson, sourceHtml, h1, id, i, o);
  }

  /** A '/' in the title of an H3 below a titled H2 stops the scaffold: it is used unsanitised in the H3 file's name. */
  lemma SlashInH3Refused(data: ExtractedResult, selected: Option<string>, date: string, dirNames: seq<string>,
                         createdAt: string, sourceJson: string, sourceHtml: Option<string>, i: nat, j: nat)
    requires SelectH1(data.h1Candidates, selected).Success?
    requires i < |data.structure| && data.structure[i].h2 != []
    requires j < |data.structure[i].h3Sections| && '/' in data.structure[i].h3Sections[j].h3
    ensures Structure(data, selected, date, dirNames, createdAt, sourceJson, sourceHtml).Failure?
  {
    var h1 := SelectH1(data.h1Candidates, selected).value;
    var id := ArticleId(date, dirNames, h1);
    var e := data.structure[i];
    var dir := [id, "content"] + [H2DirName(i + 1, e.h2)];
    var h3 := e.h3Sections[j].h3;
    var o := WriteFile(dir + [H3FileName(j + 1, h3)], H3Content(h3));
    H3FilesExact(dir, e.h3Sections);
    assert EntryOutputs([id, "content"], data.pattern, i + 1, e)
      == [MakeDir(dir)] + EntryFiles(dir, data.pattern, i + 1, e) + H3Files(dir, e.h3Sections);
    SlashRefused(dir, H3FileName(j + 1, h3));
    UnwritableInEntry(data, selected, date, dirNames, createdAt, sourceJson, sourceHtml, h1, id, i, o);
  }

  /** An output of one H2 that the file system refuses stops the scaffold. */
  lemma UnwritableInEntry(data: ExtractedResult, selected: Option<string>, date: string, dirNames: seq<string>,
                          createdAt: string, sourceJson: string, sourceHtml: Option<string>,
                          h1: string, id: string, i: nat, o: Output)
    requires SelectH1(data.h1Candidates, selected) == Success(h1) && id == ArticleId(date, dirNames, h1)
    requires i < |data.structure| && o in EntryOutputs([id, "content"], data.pattern, i + 1, data.structure[i])
    requires !WritablePath(o.path)
    ensures Structure(data, selected, date, dirNames, createdAt, sourceJson, sourceHtml).Failure?
  {
    var m := MetadataOf(id, h1, data, createdAt, sourceJson, sourceHtml);
    var rest := H2Outputs([id, "content"], data.pattern, data.structure);
    EntryOutputsIn([id, "content"], data.pattern, data.structure, i, o);
    assert Planned(data, id, h1, m) == Prelude(id, h1, m) + rest;
    UnwritablePlanned(data, selected, date, dirNames, createdAt, sourceJson, sourceHtml, h1, id, o);
  }

  /** Any planned output the file system refuses stops the scaffold. */
  lemma UnwritablePlanned(data: ExtractedResult, selected: Option<string>, date: string, dirNames: seq<string>,
                          createdAt: string, sourceJson: string, sourceHtml: Option<string>,
                          h1: string, id: string, o: Output)
    requires SelectH1(data.h1Candidates, selected) == Success(h1) && id == ArticleId(date, dirNames, h1)
    requires o in Planned(data, id, h1, MetadataOf(id, h1, data, createdAt, sourceJson, sourceHtml))
    requires !WritablePath(o.path)
    ensures Structure(data, selected, date, dirNames, createdAt, sourceJson, sourceHtml).Failure?
  {
    StructureShape(data, selected, date, dirNames, createdAt, sourceJson, sourceHtml);
  }

  /** What one H2 writes is among what the H2 loop writes. */
  lemma EntryOutputsIn(contentDir: Path, pattern: string, entries: seq<H2Entry>, i: nat, o: Output)
    requires i < |entries| && o in EntryOutputs(contentDir, pattern, i + 1, entries[i])
    ensures o in H2Outputs(contentDir, pattern, entries)
  {
    H2OutputsStep(contentDir, pattern, entries, i);
    InSecondPart(o, H2Outputs(contentDir, pattern, entries[..i]), EntryOutputs(contentDir, pattern, i + 1, entries[i]));
    H2OutputsPrefix(contentDir, pattern, entries, i + 1);
    InPrefix(o, H2Outputs(contentDir, pattern, entries[..i + 1]), H2Outputs(contentDir, pattern, entries));
  }

  lemma InSecondPart<T>(x: T, a: seq<T>, b: seq<T>)
    requires x in b
    ensures x in a + b
  {
    var k :| 0 <= k < |b| && b[k] == x;
    assert (a + b)[|a| + k] == x;
  }

  lemma InPrefix<T>(x: T, a: seq<T>, b: seq<T>)
    requires x in a && |a| <= |b| && b[..|a|] == a
    ensures x in b
  {
    var k :| 0 <= k < |a| && a[k] == x;
    assert b[k] == x;
  }

  /** What the H2 loop writes for the first `k` H2s is a prefix of what it writes for all of them. */
  lemma {:induction false} H2OutputsPrefix(contentDir: Path, pattern: string, entries: seq<H2Entry>, k: nat)
    requires k <= |entries|
    ensures var f := H2Outputs(contentDir, pattern, entries[..k]);
      |f| <= |H2Outputs(contentDir, pattern, entries)| && H2Outputs(contentDir, pattern, entries)[..|f|] == f
    decreases |entries|
  {
    if k == |entries| {
      assert entries[..k] == entries;
    } else {
      var n := |entries| - 1;
      assert entries[..n][..k] == entries[..k];
      H2OutputsPrefix(contentDir, pattern, entries[..n], k);
      assert H2Outputs(contentDir, pattern, entries)
        == H2Outputs(contentDir, pattern, entries[..n]) + EntryOutputs(contentDir, pattern, n + 1, entries[n]);
    }
  }

  /** Nothing generate_structure writes lies outside the article directory, whether it completes or is refused. */
  lemma StructureInArticleDir(data: ExtractedResult, selected: Option<string>, date: string, dirNames: seq<string>,
                              createdAt: string, sourceJson: string, sourceHtml: Option<string>)
    ensures var r := Structure(data, selected, date, dirNames, createdAt, sourceJson, sourceHtml);
      r.Success? ==> forall o :: o in r.value.outputs ==> |o.path| >= 1 && o.path[0] == r.value.articleId
    ensures var r := Structure(data, selected, date, dirNames, createdAt, sourceJson, sourceHtml);
      var selection := SelectH1(data.h1Candidates, selected);
      selection.Success? && r.Failure? ==>
        forall o :: o in r.error.done ==> |o.path| >= 1 && o.path[0] == ArticleId(date, dirNames, selection.value)
  {
    var selection := SelectH1(data.h1Candidates, selected);
    if selection.Success? {
      var h1 := selection.value;
      var id := ArticleId(date, dirNames, h1);
      var m := MetadataOf(id, h1, data, createdAt, sourceJson, sourceHtml);
      var pre := Prelude(id, h1, m);
      var contentDir := [id, "content"];
      var rest := H2Outputs(contentDir, data.pattern, data.structure);
      var run := Issue(pre + rest);
      assert Planned(data, id, h1, m) == pre + rest;
      H2OutputsUnder(contentDir, data.pattern, data.structure);
      PreludeUnder(id, h1, m);
      AllUnder(id, pre, contentDir, rest);
      assert forall o :: o in run.done ==> o in pre + rest;
    }
  }

  /** Outputs in the article directory, followed by outputs below one of its subdirectories, all lie in it. */
  lemma AllUnder(id: string, pre: seq<Output>, dir: Path, rest: seq<Output>)
    requires forall o :: o in pre ==> |o.path| >= 1 && o.path[0] == id
    requires |dir| >= 1 && dir[0] == id
    requires forall o :: o in rest ==> |o.path| > |dir| && o.path[..|dir|] == dir
    ensures forall o :: o in pre + rest ==> |o.path| >= 1 && o.path[0] == id
  {
    forall o | o in pre + rest
      ensures |o.path| >= 1 && o.path[0] == id
    {
      if o in rest {
        assert o.path[0] == o.path[..|dir|][0];
      }
    }
  }
}
