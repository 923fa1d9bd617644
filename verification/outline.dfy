/**
 * The outline of one article pattern and the sibling scan that builds it.
 *
 * Each direct `div` child of a pattern container is abstracted to a `Block`; the
 * scan keeps the pending H2 title and the H3 list object being filled, flushes on
 * every H2 block and once more at the end. List objects are kept in a store by
 * identity, so the model reproduces the sharing the code has: a flushed entry
 * refers to a list object, and later appends to that object show up in it.
 */
module Outline {
  import opened Wrappers

  datatype H3Entry = H3Entry(h3: string, advice: string, keywords: seq<string>)

  datatype H2Entry = H2Entry(h2: string, h3Sections: seq<H3Entry>)

  /** One originality proposal: its title with check icons removed, and its advice text. */
  datatype Proposal = Proposal(title: string, advice: string)

  /**
   * What extract_all hands to the prompt and scaffold generators (the JSON file
   * between the tools): the chosen pattern letter, its outline, the H1 title
   * candidates and the chosen originality proposals.
   */
  datatype ExtractedResult = ExtractedResult(
    pattern: string,
    structure: seq<H2Entry>,
    h1Candidates: seq<string>,
    proposals: seq<Proposal>)

  /** What one direct child of a pattern container contributes to the scan. */
  datatype Block =
    | H2Block(title: Option<string>)   // class h2; the block-tag-text, if the block has one
    | H3Block(entry: Option<H3Entry>)  // class h3 and not h2; None when there is no h3-left
    | OtherBlock

  /** One `structure.append(...)`: a title and the identity of the H3 list object it holds. */
  datatype Flushed = Flushed(title: string, list: nat)

  /**
   * The scan's variables. `current` is current_h2, where "" stands both for None
   * and for an empty title (the code only ever tests it for truth). `lists` holds
   * every list object created so far, by identity; the last one is
   * current_h3_list. `emitted` is `structure`.
   */
  datatype ScanState = ScanState(current: string, lists: seq<seq<H3Entry>>, emitted: seq<Flushed>)
  {
    ghost predicate Valid() {
      |lists| >= 1 && forall f :: f in emitted ==> f.list < |lists|
    }
  }

  const Init := ScanState("", [[]], [])

  /** `structure` after `if current_h2: structure.append({h2: current_h2, h3_sections: current_h3_list})`. */
  function Flush(st: ScanState): (r: seq<Flushed>)
    requires st.Valid()
    ensures forall f :: f in r ==> f.list < |st.lists|
  {
    if st.current != "" then st.emitted + [Flushed(st.current, |st.lists| - 1)] else st.emitted
  }

  /** One iteration of the loop over the container's direct div children. */
  function Step(st: ScanState, b: Block): (r: ScanState)
    requires st.Valid()
    ensures r.Valid()
  {
    match b
    case H2Block(title) =>
      if title.Some? then ScanState(title.value, st.lists + [[]], Flush(st))
      else ScanState(st.current, st.lists, Flush(st))
    case H3Block(entry) =>
      if entry.Some? then
        var k := |st.lists| - 1;
        ScanState(st.current, st.lists[k := st.lists[k] + [entry.value]], st.emitted)
      else st
    case OtherBlock => st
  }

  function ScanFrom(st: ScanState, bs: seq<Block>): (r: ScanState)
    requires st.Valid()
    ensures r.Valid()
    decreases |bs|
  {
    if bs == [] then st else ScanFrom(Step(st, bs[0]), bs[1..])
  }

  /** The flushed entries as they read once the scan is over, when the caller serialises them. */
  function Resolve(lists: seq<seq<H3Entry>>, fs: seq<Flushed>): (r: seq<H2Entry>)
    requires forall f :: f in fs ==> f.list < |lists|
    ensures |r| == |fs|
  {
    seq(|fs|, i requires 0 <= i < |fs| => H2Entry(fs[i].title, lists[fs[i].list]))
  }

  /** The final flush after the loop, then the resolved structure. */
  function Finish(st: ScanState): seq<H2Entry>
    requires st.Valid()
  {
    Resolve(st.lists, Flush(st))
  }

  /** `_extract_pattern_structure` over the blocks of one container. */
  function Scan(bs: seq<Block>): seq<H2Entry>
  {
    Finish(ScanFrom(Init, bs))
  }

  // ---------------------------------------------------------------------------
  // A hierarchical reading of the same blocks: each titled H2 owns the H3s up to the next H2.

  predicate NoUntitledH2(bs: seq<Block>) {
    forall k :: 0 <= k < |bs| ==> bs[k] != H2Block(None)
  }

  predicate NoTitledH2(bs: seq<Block>) {
    forall k :: 0 <= k < |bs| ==> !(bs[k].H2Block? && bs[k].title.Some?)
  }

  /** The length of the longest prefix holding no H2 block. */
  function LeadingNonH2(bs: seq<Block>): (n: nat)
    ensures n <= |bs|
    ensures forall k :: 0 <= k < n ==> !bs[k].H2Block?
    ensures n < |bs| ==> bs[n].H2Block?
  {
    if bs == [] || bs[0].H2Block? then 0 else 1 + LeadingNonH2(bs[1..])
  }

  /** The entries of the usable H3 blocks, in order. */
  function H3sOf(bs: seq<Block>): seq<H3Entry>
  {
    if bs == [] then []
    else (if bs[0].H3Block? && bs[0].entry.Some? then [bs[0].entry.value] else []) + H3sOf(bs[1..])
  }

  /**
   * Every H2 block with a non-empty title owns the usable H3 blocks that follow it
   * up to the next H2 block; blocks before the first titled H2 belong to nobody.
   */
  function Outline(bs: seq<Block>): seq<H2Entry>
    decreases |bs|
  {
    if bs == [] then []
    else if bs[0].H2Block? && bs[0].title.Some? then
      var rest := bs[1..];
      var n := LeadingNonH2(rest);
      var t := bs[0].title.value;
      (if t != "" then [H2Entry(t, H3sOf(rest[..n]))] else []) + Outline(rest[n..])
    else Outline(bs[1..])
  }

  /** What the reading above still owes for a pending title `t` whose list holds `l`. */
  function Pending(t: string, l: seq<H3Entry>, bs: seq<Block>): seq<H2Entry>
  {
    var n := LeadingNonH2(bs);
    (if t != "" then [H2Entry(t, l + H3sOf(bs[..n]))] else []) + Outline(bs[n..])
  }

  // ---------------------------------------------------------------------------
  // Lemmas about the scan.

  lemma ResolveAppend(lists: seq<seq<H3Entry>>, fs: seq<Flushed>, f: Flushed)
    requires forall g :: g in fs ==> g.list < |lists|
    requires f.list < |lists|
    ensures Resolve(lists, fs + [f]) == Resolve(lists, fs) + [H2Entry(f.title, lists[f.list])]
  {
  }

  lemma ResolveUnchanged(lists: seq<seq<H3Entry>>, lists': seq<seq<H3Entry>>, fs: seq<Flushed>)
    requires forall g :: g in fs ==> g.list < |lists| && g.list < |lists'| && lists[g.list] == lists'[g.list]
    ensures Resolve(lists, fs) == Resolve(lists', fs)
  {
    forall i | 0 <= i < |fs| ensures Resolve(lists, fs)[i] == Resolve(lists', fs)[i] {
      assert fs[i] in fs;
    }
  }

  lemma {:induction false} ScanFromAppend(st: ScanState, bs: seq<Block>, b: Block)
    requires st.Valid()
    ensures ScanFrom(st, bs + [b]) == Step(ScanFrom(st, bs), b)
    decreases |bs|
  {
    if bs != [] {
      assert (bs + [b])[1..] == bs[1..] + [b];
      ScanFromAppend(Step(st, bs[0]), bs[1..], b);
    }
  }

  predicate AllTitled(fs: seq<Flushed>) {
    forall i :: 0 <= i < |fs| ==> fs[i].title != ""
  }

  lemma {:induction false} ScanFromKeepsTitles(st: ScanState, bs: seq<Block>)
    requires st.Valid() && AllTitled(st.emitted)
    ensures AllTitled(ScanFrom(st, bs).emitted)
    decreases |bs|
  {
    if bs != [] {
      ScanFromKeepsTitles(Step(st, bs[0]), bs[1..]);
    }
  }

  /** Every emitted entry has a non-empty H2 title. */
  lemma ScanTitlesNonEmpty(bs: seq<Block>)
    ensures forall i :: 0 <= i < |Scan(bs)| ==> Scan(bs)[i].h2 != ""
  {
    ScanFromKeepsTitles(Init, bs);
  }

  function CountH2(bs: seq<Block>): nat
  {
    if bs == [] then 0 else (if bs[0].H2Block? then 1 else 0) + CountH2(bs[1..])
  }

  lemma {:induction false} ScanFromFlushBound(st: ScanState, bs: seq<Block>)
    requires st.Valid()
    ensures |Flush(ScanFrom(st, bs))| <= |Flush(st)| + CountH2(bs)
    decreases |bs|
  {
    if bs != [] {
      ScanFromFlushBound(Step(st, bs[0]), bs[1..]);
    }
  }

  /** At most one entry per H2 block: flushes happen on H2 blocks and once at the end, and only after a titled H2. */
  lemma ScanLengthBound(bs: seq<Block>)
    ensures |Scan(bs)| <= CountH2(bs)
  {
    ScanFromFlushBound(Init, bs);
  }

  predicate Inert(b: Block) {
    b == OtherBlock || b == H3Block(None)
  }

  function WithoutInert(bs: seq<Block>): (r: seq<Block>)
    ensures |r| <= |bs|
  {
    if bs == [] then []
    else (if Inert(bs[0]) then [] else [bs[0]]) + WithoutInert(bs[1..])
  }

  lemma {:induction false} ScanFromIgnoresInert(st: ScanState, bs: seq<Block>)
    requires st.Valid()
    ensures ScanFrom(st, bs) == ScanFrom(st, WithoutInert(bs))
    decreases |bs|
  {
    if bs != [] {
      ScanFromIgnoresInert(Step(st, bs[0]), bs[1..]);
      var w := WithoutInert(bs);
      if Inert(bs[0]) {
        assert Step(st, bs[0]) == st;
        assert w == WithoutInert(bs[1..]);
      } else {
        assert w == [bs[0]] + WithoutInert(bs[1..]);
        assert w[0] == bs[0] && w[1..] == WithoutInert(bs[1..]);
      }
    }
  }

  /** Blocks classed neither h2 nor h3, and h3 blocks without h3-left, leave the outline unchanged. */
  lemma ScanIgnoresInert(bs: seq<Block>)
    ensures Scan(bs) == Scan(WithoutInert(bs))
  {
    ScanFromIgnoresInert(Init, bs);
  }

  /** The final flush: a titled H2 block at the end of the container still yields its entry. */
  lemma ScanFlushesLastH2(bs: seq<Block>, t: string)
    requires t != ""
    ensures Scan(bs + [H2Block(Some(t))]) == Scan(bs) + [H2Entry(t, [])]
  {
    var st := ScanFrom(Init, bs);
    ScanFromAppend(Init, bs, H2Block(Some(t)));
    var st' := Step(st, H2Block(Some(t)));
    assert st' == ScanState(t, st.lists + [[]], Flush(st));
    assert Flush(st') == Flush(st) + [Flushed(t, |st.lists|)];
    ResolveAppend(st'.lists, Flush(st), Flushed(t, |st.lists|));
    ResolveUnchanged(st.lists, st'.lists, Flush(st));
    assert Scan(bs + [H2Block(Some(t))]) == Resolve(st'.lists, Flush(st'));
    assert Scan(bs) == Resolve(st.lists, Flush(st));
  }

  /** A leading non-H2 block only feeds the pending list. */
  lemma PendingAfterNonH2(t: string, l: seq<H3Entry>, bs: seq<Block>)
    requires bs != [] && !bs[0].H2Block?
    ensures Pending(t, l, bs) == Pending(t, l + H3sOf([bs[0]]), bs[1..])
  {
    var rest := bs[1..];
    var m := LeadingNonH2(rest);
    assert LeadingNonH2(bs) == 1 + m;
    var seg := bs[..1 + m];
    assert seg[0] == bs[0] && seg[1..] == rest[..m];
    assert H3sOf(seg) == H3sOf([bs[0]]) + H3sOf(rest[..m]) by {
      assert [bs[0]][1..] == [];
    }
    assert bs[1 + m..] == rest[m..];
    assert l + H3sOf(seg) == (l + H3sOf([bs[0]])) + H3sOf(rest[..m]);
  }

  /** A leading titled H2 block closes the pending entry and opens its own. */
  lemma PendingAtTitledH2(t: string, l: seq<H3Entry>, bs: seq<Block>)
    requires bs != [] && bs[0].H2Block? && bs[0].title.Some?
    ensures Pending(t, l, bs)
         == (if t != "" then [H2Entry(t, l)] else []) + Pending(bs[0].title.value, [], bs[1..])
  {
    assert LeadingNonH2(bs) == 0;
    assert bs[..0] == [] && bs[0..] == bs;
    assert l + H3sOf([]) == l;
    var rest := bs[1..];
    var m := LeadingNonH2(rest);
    assert [] + H3sOf(rest[..m]) == H3sOf(rest[..m]);
  }

  /** The closing flush: nothing left to scan, and the pending title yields its entry. */
  lemma MatchesPendingAtEnd(st: ScanState)
    requires st.Valid()
    requires forall f :: f in st.emitted ==> f.list < |st.lists| - 1
    ensures Finish(ScanFrom(st, []))
         == Resolve(st.lists, st.emitted) + Pending(st.current, st.lists[|st.lists| - 1], [])
  {
    var l := st.lists[|st.lists| - 1];
    assert l + H3sOf([]) == l;
    if st.current != "" {
      ResolveAppend(st.lists, st.emitted, Flushed(st.current, |st.lists| - 1));
    }
  }

  /** Scanning a titled H2 block: the pending entry is flushed and a new list object opened. */
  lemma MatchesPendingAtH2(st: ScanState, bs: seq<Block>)
    requires st.Valid() && bs != [] && bs[0].H2Block? && bs[0].title.Some?
    requires forall f :: f in st.emitted ==> f.list < |st.lists| - 1
    ensures var st' := Step(st, bs[0]);
      Resolve(st'.lists, st'.emitted) + Pending(st'.current, st'.lists[|st'.lists| - 1], bs[1..])
      == Resolve(st.lists, st.emitted) + Pending(st.current, st.lists[|st.lists| - 1], bs)
  {
    StepShape(st, bs[0]);
    assert (st.lists + [[]])[|st.lists|] == [];
    FlushThenOpen(st, bs);
  }

  lemma FlushThenOpen(st: ScanState, bs: seq<Block>)
    requires st.Valid() && bs != [] && bs[0].H2Block? && bs[0].title.Some?
    requires forall f :: f in st.emitted ==> f.list < |st.lists| - 1
    ensures Resolve(st.lists + [[]], Flush(st)) + Pending(bs[0].title.value, [], bs[1..])
         == Resolve(st.lists, st.emitted) + Pending(st.current, st.lists[|st.lists| - 1], bs)
  {
    var last := |st.lists| - 1;
    var l := st.lists[last];
    var head: seq<H2Entry> := if st.current != "" then [H2Entry(st.current, l)] else [];
    var before := Resolve(st.lists, st.emitted);
    var after := Pending(bs[0].title.value, [], bs[1..]);
    ResolveUnchanged(st.lists, st.lists + [[]], Flush(st));
    assert Resolve(st.lists, Flush(st)) == before + head by {
      if st.current != "" {
        ResolveAppend(st.lists, st.emitted, Flushed(st.current, last));
      }
    }
    PendingAtTitledH2(st.current, l, bs);
    assert Pending(st.current, l, bs) == head + after;
    assert (before + head) + after == before + (head + after);
  }

  /** Scanning a block that is not an H2 block: at most one entry joins the open list object. */
  lemma MatchesPendingAtOther(st: ScanState, bs: seq<Block>)
    requires st.Valid() && bs != [] && !bs[0].H2Block?
    requires forall f :: f in st.emitted ==> f.list < |st.lists| - 1
    ensures var st' := Step(st, bs[0]);
      Resolve(st'.lists, st'.emitted) + Pending(st'.current, st'.lists[|st'.lists| - 1], bs[1..])
      == Resolve(st.lists, st.emitted) + Pending(st.current, st.lists[|st.lists| - 1], bs)
  {
    OtherStepPending(st, bs[0], bs[1..]);
    PendingAfterNonH2(st.current, st.lists[|st.lists| - 1], bs);
  }

  /** After a block that is not an H2 block, the flushed entries resolve as before and the block's H3 joins the pending list. */
  lemma OtherStepPending(st: ScanState, b: Block, rest: seq<Block>)
    requires st.Valid() && !b.H2Block?
    requires forall f :: f in st.emitted ==> f.list < |st.lists| - 1
    ensures var st' := Step(st, b);
      Resolve(st'.lists, st'.emitted) + Pending(st'.current, st'.lists[|st'.lists| - 1], rest)
      == Resolve(st.lists, st.emitted) + Pending(st.current, st.lists[|st.lists| - 1] + H3sOf([b]), rest)
  {
    StepShape(st, b);
    ResolveUnchanged(st.lists, Step(st, b).lists, st.emitted);
  }

  /** The state after one block, as the induction in ScanFromMatchesPending sees it. */
  lemma StepShape(st: ScanState, b: Block)
    requires st.Valid() && b != H2Block(None)
    ensures b.H2Block? ==> Step(st, b) == ScanState(b.title.value, st.lists + [[]], Flush(st))
    ensures !b.H2Block? ==>
      && Step(st, b).current == st.current && Step(st, b).emitted == st.emitted
      && |Step(st, b).lists| == |st.lists|
      && Step(st, b).lists[|st.lists| - 1] == st.lists[|st.lists| - 1] + H3sOf([b])
      && forall j :: 0 <= j < |st.lists| - 1 ==> Step(st, b).lists[j] == st.lists[j]
  {
    if b.H3Block? && b.entry.Some? {
      assert H3sOf([b]) == [b.entry.value] + H3sOf([]);
    } else if !b.H2Block? {
      assert H3sOf([b]) == [] + H3sOf([]);
    }
  }

  lemma {:induction false} ScanFromMatchesPending(st: ScanState, bs: seq<Block>)
    requires st.Valid() && NoUntitledH2(bs)
    requires forall f :: f in st.emitted ==> f.list < |st.lists| - 1
    ensures Finish(ScanFrom(st, bs))
         == Resolve(st.lists, st.emitted) + Pending(st.current, st.lists[|st.lists| - 1], bs)
    decreases |bs|
  {
    if bs == [] {
      MatchesPendingAtEnd(st);
    } else {
      NoUntitledH2Tail(bs);
      StepKeepsOlder(st, bs[0]);
      ScanFromMatchesPending(Step(st, bs[0]), bs[1..]);
      MatchesPendingStep(st, bs);
    }
  }

  /** After a block other than an untitled H2, the flushed entries still refer only to closed list objects. */
  lemma StepKeepsOlder(st: ScanState, b: Block)
    requires st.Valid() && b != H2Block(None)
    requires forall f :: f in st.emitted ==> f.list < |st.lists| - 1
    ensures forall f :: f in Step(st, b).emitted ==> f.list < |Step(st, b).lists| - 1
  {
    StepShape(st, b);
  }

  /** The induction step of ScanFromMatchesPending, from the state after the first block. */
  lemma MatchesPendingStep(st: ScanState, bs: seq<Block>)
    requires st.Valid() && bs != [] && bs[0] != H2Block(None)
    requires forall f :: f in st.emitted ==> f.list < |st.lists| - 1
    requires var st' := Step(st, bs[0]);
      Finish(ScanFrom(st', bs[1..]))
      == Resolve(st'.lists, st'.emitted) + Pending(st'.current, st'.lists[|st'.lists| - 1], bs[1..])
    ensures Finish(ScanFrom(st, bs))
         == Resolve(st.lists, st.emitted) + Pending(st.current, st.lists[|st.lists| - 1], bs)
  {
    assert ScanFrom(st, bs) == ScanFrom(Step(st, bs[0]), bs[1..]);
    if bs[0].H2Block? {
      MatchesPendingAtH2(st, bs);
    } else {
      MatchesPendingAtOther(st, bs);
    }
  }

  /** Without untitled H2 blocks, the first block is not one and neither are the others. */
  lemma NoUntitledH2Tail(bs: seq<Block>)
    requires bs != [] && NoUntitledH2(bs)
    ensures bs[0] != H2Block(None) && NoUntitledH2(bs[1..])
  {
    forall k | 0 <= k < |bs| - 1 ensures bs[1..][k] != H2Block(None) {
      assert bs[1..][k] == bs[k + 1];
    }
  }

  lemma {:induction false} OutlineSkipsLeading(bs: seq<Block>)
    ensures Outline(bs) == Outline(bs[LeadingNonH2(bs)..])
    decreases |bs|
  {
    if bs != [] && !bs[0].H2Block? {
      OutlineSkipsLeading(bs[1..]);
      assert bs[1..][LeadingNonH2(bs[1..])..] == bs[LeadingNonH2(bs)..];
    }
  }

  /**
   * When every H2 block carries a block-tag-text, the scan is exactly the
   * hierarchical outline: each non-empty title once, with the H3 blocks up to the
   * next H2, in document order.
   */
  lemma ScanMatchesOutline(bs: seq<Block>)
    requires NoUntitledH2(bs)
    ensures Scan(bs) == Outline(bs)
  {
    ScanFromMatchesPending(Init, bs);
    OutlineSkipsLeading(bs);
  }

  /**
   * An H2 block without block-tag-text does not end the previous entry: the code
   * flushes the previous title a second time, keeps its list object, and the H3
   * blocks after the untitled H2 land in that shared list, so both copies show them.
   */
  lemma UntitledH2RepeatsSharedEntry(e1: H3Entry, e2: H3Entry)
    ensures Scan([H2Block(Some("A")), H3Block(Some(e1)), H2Block(None), H3Block(Some(e2))])
         == [H2Entry("A", [e1, e2]), H2Entry("A", [e1, e2])]
    ensures Outline([H2Block(Some("A")), H3Block(Some(e1)), H2Block(None), H3Block(Some(e2))])
         == [H2Entry("A", [e1])]
  {
    UntitledH2Scan(e1, e2);
    UntitledH2Outline(e1, e2);
  }

  /** The loop's reading of that block sequence, one step at a time. */
  lemma UntitledH2Scan(e1: H3Entry, e2: H3Entry)
    ensures Scan([H2Block(Some("A")), H3Block(Some(e1)), H2Block(None), H3Block(Some(e2))])
         == [H2Entry("A", [e1, e2]), H2Entry("A", [e1, e2])]
  {
    var bs := [H2Block(Some("A")), H3Block(Some(e1)), H2Block(None), H3Block(Some(e2))];
    var s1 := ScanState("A", [[], []], []);
    var s2 := ScanState("A", [[], [e1]], []);
    var s3 := ScanState("A", [[], [e1]], [Flushed("A", 1)]);
    var s4 := ScanState("A", [[], [e1, e2]], [Flushed("A", 1)]);
    assert Step(Init, bs[0]) == s1;
    assert s1.lists[1] + [e1] == [e1];
    assert s1.lists[1 := [e1]] == s2.lists;
    assert Step(s1, bs[1]) == s2;
    assert Step(s2, bs[2]) == s3;
    assert s3.lists[1] + [e2] == [e1, e2];
    assert s3.lists[1 := [e1, e2]] == s4.lists;
    assert Step(s3, bs[3]) == s4;
    assert ScanFrom(s4, []) == s4;
    assert ScanFrom(s3, bs[3..]) == s4 by { assert bs[3..][1..] == []; }
    assert ScanFrom(s2, bs[2..]) == s4 by { assert bs[2..][1..] == bs[3..]; }
    assert ScanFrom(s1, bs[1..]) == s4 by { assert bs[1..][1..] == bs[2..]; }
    assert ScanFrom(Init, bs) == s4;
    var fs := Flush(s4);
    assert fs == [Flushed("A", 1), Flushed("A", 1)];
    assert Resolve(s4.lists, fs) == [H2Entry("A", [e1, e2]), H2Entry("A", [e1, e2])];
  }

  /** The hierarchical reading of the same blocks: the untitled H2 and what follows it are skipped. */
  lemma UntitledH2Outline(e1: H3Entry, e2: H3Entry)
    ensures Outline([H2Block(Some("A")), H3Block(Some(e1)), H2Block(None), H3Block(Some(e2))])
         == [H2Entry("A", [e1])]
  {
    var bs := [H2Block(Some("A")), H3Block(Some(e1)), H2Block(None), H3Block(Some(e2))];
    var rest := bs[1..];
    assert LeadingNonH2(rest) == 1;
    assert rest[..1] == [H3Block(Some(e1))];
    assert H3sOf(rest[..1]) == [e1];
    var tail := rest[1..];
    assert tail == [H2Block(None), H3Block(Some(e2))];
    assert Outline(tail) == Outline(tail[1..]);
    assert Outline(tail[1..]) == Outline(tail[1..][1..]);
    assert tail[1..][1..] == [];
  }

  /** Two states that differ only in list objects below `k`, which nothing refers to any more. */
  ghost predicate AgreeFrom(a: ScanState, b: ScanState, k: nat) {
    && a.Valid() && b.Valid()
    && a.current == b.current && a.emitted == b.emitted
    && |a.lists| == |b.lists| && k < |a.lists|
    && a.lists[k..] == b.lists[k..]
    && forall f :: f in a.emitted ==> k <= f.list
  }

  lemma FlushAgree(a: ScanState, b: ScanState, k: nat)
    requires AgreeFrom(a, b, k)
    ensures Flush(a) == Flush(b)
  {
  }

  lemma {:induction false} ScanFromAgree(a: ScanState, b: ScanState, k: nat, bs: seq<Block>)
    requires AgreeFrom(a, b, k)
    ensures AgreeFrom(ScanFrom(a, bs), ScanFrom(b, bs), k)
    decreases |bs|
  {
    if bs != [] {
      var a', b' := Step(a, bs[0]), Step(b, bs[0]);
      var n := |a.lists|;
      match bs[0] {
        case H2Block(title) =>
          if title.Some? {
            assert a'.lists[k..] == a.lists[k..] + [[]];
            assert b'.lists[k..] == b.lists[k..] + [[]];
          }
        case H3Block(entry) =>
          if entry.Some? {
            assert a.lists[n - 1] == a.lists[k..][n - 1 - k];
            assert b.lists[n - 1] == b.lists[k..][n - 1 - k];
            assert a'.lists[k..] == a.lists[k..][n - 1 - k := a.lists[n - 1] + [entry.value]];
            assert b'.lists[k..] == b.lists[k..][n - 1 - k := b.lists[n - 1] + [entry.value]];
          }
        case OtherBlock =>
      }
      assert AgreeFrom(a', b', k);
      ScanFromAgree(a', b', k, bs[1..]);
    }
  }

  lemma {:induction false} ScanFromNoTitled(bs: seq<Block>)
    requires NoTitledH2(bs)
    ensures ScanFrom(Init, bs).current == "" && |ScanFrom(Init, bs).lists| == 1
    ensures ScanFrom(Init, bs).emitted == []
  {
    var n := |bs|;
    if n > 0 {
      var front := bs[..n - 1];
      assert bs == front + [bs[n - 1]];
      ScanFromNoTitled(front);
      ScanFromAppend(Init, front, bs[n - 1]);
    }
  }

  /**
   * Blocks before the first titled H2 (H3 blocks, untitled H2 blocks, anything
   * else) contribute nothing: the first titled H2 replaces the list they filled.
   */
  lemma ScanDropsBlocksBeforeFirstTitledH2(pre: seq<Block>, t: string, rest: seq<Block>)
    requires NoTitledH2(pre)
    ensures Scan(pre + [H2Block(Some(t))] + rest) == Scan([H2Block(Some(t))] + rest)
  {
    var h := H2Block(Some(t));
    ScanFromNoTitled(pre);
    ScanFromAppend(Init, pre, h);
    var a := Step(ScanFrom(Init, pre), h);
    var b := Step(Init, h);
    assert AgreeFrom(a, b, 1);
    ScanFromAgree(a, b, 1, rest);
    ScanFromSplit(Init, pre + [h], rest);
    ScanFromSplit(Init, [h], rest);
    assert ScanFrom(Init, [h]) == b;
    var fa, fb := ScanFrom(a, rest), ScanFrom(b, rest);
    FlushAgree(fa, fb, 1);
    ResolveUnchanged(fa.lists, fb.lists, Flush(fa)) by {
      forall g | g in Flush(fa) ensures g.list < |fa.lists| && g.list < |fb.lists| && fa.lists[g.list] == fb.lists[g.list] {
        assert fa.lists[g.list] == fa.lists[1..][g.list - 1];
      }
    }
    assert Scan(pre + [h] + rest) == Finish(fa);
    assert Scan([h] + rest) == Finish(fb);
  }

  lemma {:induction false} ScanFromSplit(st: ScanState, xs: seq<Block>, ys: seq<Block>)
    requires st.Valid()
    ensures ScanFrom(st, xs + ys) == ScanFrom(ScanFrom(st, xs), ys)
    decreases |xs|
  {
    if xs != [] {
      assert (xs + ys)[0] == xs[0] && (xs + ys)[1..] == xs[1..] + ys;
      ScanFromSplit(Step(st, xs[0]), xs[1..], ys);
      assert ScanFrom(st, xs + ys) == ScanFrom(Step(st, xs[0]), xs[1..] + ys);
      assert ScanFrom(st, xs) == ScanFrom(Step(st, xs[0]), xs[1..]);
    } else {
      assert xs + ys == ys;
    }
  }
}
