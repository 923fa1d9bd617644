/**
 * The loop of _extract_pattern_structure as the program runs it: a current H2
 * title, a current H3 list OBJECT that H3 blocks append to in place, and a list
 * of (title, list object) pairs flushed so far. A flushed pair keeps referring to
 * its list object, so an untitled H2 that flushes the same title again shares
 * that object with the earlier pair.
 *
 * ScanBlocks is proved equal to Outline.Scan, the value-level account of the
 * same loop, whose properties are proved in the Outline module.
 */
module PatternScan {
  import opened Outline

  /** A Python list object of H3 entries: `current_h3_list`. */
  class H3List {
    var items: seq<H3Entry>

    constructor ()
      ensures items == []
    {
      items := [];
    }
  }

  /**
   * The loop variables stand for the scan state `st`: `objs` are the list objects
   * created so far, in creation order, the last one being the current list; each
   * flushed pair names the title and the object of one emitted entry.
   */
  ghost predicate Represents(st: ScanState, objs: seq<H3List>, current: string, currentList: H3List,
                             flushed: seq<(string, H3List)>)
    reads objs
  {
    && st.Valid()
    && |objs| == |st.lists| && objs[|objs| - 1] == currentList
    && (forall a, b :: 0 <= a < b < |objs| ==> objs[a] != objs[b])
    && (forall k :: 0 <= k < |objs| ==> objs[k].items == st.lists[k])
    && current == st.current
    && |flushed| == |st.emitted|
    && (forall k :: 0 <= k < |flushed| ==>
          flushed[k].0 == st.emitted[k].title && flushed[k].1 == objs[st.emitted[k].list])
  }

  /**
   * One pass of the loop body. An H2 block flushes the current pair when a title
   * is set, and a titled one starts a fresh list; an H3 block with data appends
   * to the current list object in place; anything else changes nothing.
   */
  method ScanBlock(b: Block, current: string, currentList: H3List, flushed: seq<(string, H3List)>)
    returns (current': string, currentList': H3List, flushed': seq<(string, H3List)>)
    modifies currentList
    ensures b.H2Block? ==>
      && flushed' == flushed + (if current != "" then [(current, currentList)] else [])
      && currentList.items == old(currentList.items)
      && (b.title.Some? ==> current' == b.title.value && fresh(currentList') && currentList'.items == [])
      && (b.title.None? ==> current' == current && currentList' == currentList)
    ensures b.H3Block? ==>
      && current' == current && currentList' == currentList && flushed' == flushed
      && currentList.items == old(currentList.items) + (if b.entry.Some? then [b.entry.value] else [])
    ensures b.OtherBlock? ==>
      && current' == current && currentList' == currentList && flushed' == flushed
      && currentList.items == old(currentList.items)
  {
    current', currentList', flushed' := current, currentList, flushed;
    if b.H2Block? {
      if current != "" {
        flushed' := flushed + [(current, currentList)];
      }
      if b.title.Some? {
        current' := b.title.value;
        currentList' := new H3List();
      }
    } else if b.H3Block? {
      if b.entry.Some? {
        currentList.items := currentList.items + [b.entry.value];
      }
    }
  }

  /**
   * The whole loop followed by the final flush and the read-out of every flushed
   * pair: the result is exactly the value-level scan of the same blocks.
   */
  method ScanBlocks(bs: seq<Block>) returns (structure: seq<H2Entry>)
    ensures structure == Scan(bs)
  {
    var current, currentList, flushed, st, objs := RunScan(bs);
    var final := flushed;
    if current != "" {
      final := flushed + [(current, currentList)];
    }
    structure := ReadOut(final);
    FinalFlushReadsOut(st, objs, current, currentList, flushed, structure);
  }

  /** The loop itself: afterwards the loop variables represent the scan state of all blocks. */
  method RunScan(bs: seq<Block>)
    returns (current: string, currentList: H3List, flushed: seq<(string, H3List)>,
             ghost st: ScanState, ghost objs: seq<H3List>)
    ensures st.Valid() && st == ScanFrom(Init, bs)
    ensures Represents(st, objs, current, currentList, flushed)
  {
    current := "";
    currentList := new H3List();
    flushed := [];
    objs := [currentList];
    st := Init;
    var i := 0;
    while i < |bs|
      invariant 0 <= i <= |bs|
      invariant st.Valid() && ScanFrom(st, bs[i..]) == ScanFrom(Init, bs)
      invariant Represents(st, objs, current, currentList, flushed)
      invariant fresh(currentList)
    {
      assert bs[i..][0] == bs[i] && bs[i..][1..] == bs[i + 1..];
      current, currentList, flushed, st, objs := ScanStep(bs[i], current, currentList, flushed, st, objs);
      i := i + 1;
    }
    assert bs[i..] == [];
  }

  /** One iteration of the loop: the variables then represent the scan state one block further. */
  method ScanStep(b: Block, current: string, currentList: H3List, flushed: seq<(string, H3List)>,
                  ghost st: ScanState, ghost objs: seq<H3List>)
    returns (current': string, currentList': H3List, flushed': seq<(string, H3List)>,
             ghost st': ScanState, ghost objs': seq<H3List>)
    requires Represents(st, objs, current, currentList, flushed)
    modifies currentList
    ensures st' == Step(st, b)
    ensures Represents(st', objs', current', currentList', flushed')
    ensures currentList' == currentList || fresh(currentList')
  {
    current', currentList', flushed' := ScanBlock(b, current, currentList, flushed);
    objs', st' := objs, st;
    if b.H2Block? {
      if b.title.Some? {
        objs' := objs + [currentList'];
        st' := ScanState(b.title.value, st.lists + [[]], Flush(st));
      } else {
        st' := ScanState(st.current, st.lists, Flush(st));
      }
      FlushedPairs(st, objs, objs', currentList, flushed, flushed');
    } else if b.H3Block? && b.entry.Some? {
      var last := |st.lists| - 1;
      st' := ScanState(st.current, st.lists[last := st.lists[last] + [b.entry.value]], st.emitted);
    }
  }

  /** The pairs after an H2 block's flush name the entries Flush emits, each with its list object. */
  lemma FlushedPairs(st: ScanState, objs: seq<H3List>, objs': seq<H3List>, currentList: H3List,
                     flushed: seq<(string, H3List)>, flushed': seq<(string, H3List)>)
    requires st.Valid() && |objs| == |st.lists| && objs[|objs| - 1] == currentList
    requires |flushed| == |st.emitted|
    requires forall k :: 0 <= k < |flushed| ==>
      flushed[k].0 == st.emitted[k].title && flushed[k].1 == objs[st.emitted[k].list]
    requires objs <= objs'
    requires flushed' == flushed + (if st.current != "" then [(st.current, currentList)] else [])
    ensures |flushed'| == |Flush(st)|
    ensures forall k :: 0 <= k < |flushed'| ==>
      flushed'[k].0 == Flush(st)[k].title && flushed'[k].1 == objs'[Flush(st)[k].list]
  {
    var e := Flush(st);
    forall k | 0 <= k < |flushed'|
      ensures flushed'[k].0 == e[k].title && flushed'[k].1 == objs'[e[k].list]
    {
      if k < |flushed| {
        assert e[k] == st.emitted[k];
        assert objs'[e[k].list] == objs[e[k].list];
      } else {
        assert e[k] == Flushed(st.current, |st.lists| - 1);
      }
    }
  }

  /** Reading out the pairs left after the final flush gives the scan's resolved outline. */
  lemma FinalFlushReadsOut(st: ScanState, objs: seq<H3List>, current: string, currentList: H3List,
                           flushed: seq<(string, H3List)>, structure: seq<H2Entry>)
    requires Represents(st, objs, current, currentList, flushed)
    requires var final := if current != "" then flushed + [(current, currentList)] else flushed;
      && |structure| == |final|
      && forall k :: 0 <= k < |final| ==> structure[k] == H2Entry(final[k].0, final[k].1.items)
    ensures structure == Finish(st)
  {
  }

  /** The flushed pairs as the caller sees them: each title with the current contents of its list object. */
  method ReadOut(flushed: seq<(string, H3List)>) returns (structure: seq<H2Entry>)
    ensures |structure| == |flushed|
    ensures forall k :: 0 <= k < |flushed| ==> structure[k] == H2Entry(flushed[k].0, flushed[k].1.items)
  {
    structure := [];
    var j := 0;
    while j < |flushed|
      invariant 0 <= j <= |flushed|
      invariant |structure| == j
      invariant forall k :: 0 <= k < j ==> structure[k] == H2Entry(flushed[k].0, flushed[k].1.items)
    {
      structure := structure + [H2Entry(flushed[j].0, flushed[j].1.items)];
      j := j + 1;
    }
  }
}
