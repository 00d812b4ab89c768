/**
 Rebuilding a row group from the slices of its selected terms: their bytes are put one
 after the other, their offsets rebased, and every other term's info left at its default
 (src/query/search.rs).
 */
module TermSlices {
  import opened Wrappers
  import opened Bytes
  import opened SearchIndexData
  import opened SearchEvaluation

  /** A selected term and where its fetched bytes are among the chunks. */
  datatype TermPlan = TermPlan(ordinal: nat, info: TermInfo, postings: nat, positions: Option<nat>)

  datatype LoadError = OffsetTooLarge | RangeOutsideGroup | OutsideObject | SliceOutOfRange | BadDictionary

  /** The chunks named by the plan are the term's own slices. */
  ghost predicate Fetched(g: RowGroup, chunks: seq<ByteString>, t: TermPlan) {
    && t.ordinal < |g.infos| && t.info == g.infos[t.ordinal]
    && t.postings < |chunks| && Cut(g.postings, t.info.postingsOffset, t.info.postingsLen) == Some(chunks[t.postings])
    && (t.positions.Some? ==>
          && t.info.positionsLen > 0 && t.positions.value < |chunks|
          && Cut(g.positions, t.info.positionsOffset, t.info.positionsLen) == Some(chunks[t.positions.value]))
  }

  /** Ordinals ascend, as they come out of an ordered map. */
  ghost predicate InOrder(plans: seq<TermPlan>) {
    forall i, j :: 0 <= i < j < |plans| ==> plans[i].ordinal < plans[j].ordinal
  }

  /** The rebuilt info finds, in the rebuilt buffers, the bytes the original finds in the original ones. */
  ghost predicate Rebased(g: RowGroup, t: TermPlan, info: TermInfo, postings: ByteString, positions: ByteString) {
    && info.docCount == t.info.docCount
    && Cut(postings, info.postingsOffset, info.postingsLen).Some?
    && Cut(postings, info.postingsOffset, info.postingsLen) == Cut(g.postings, t.info.postingsOffset, t.info.postingsLen)
    && (t.positions.None? ==> info.positionsLen == 0)
    && (t.positions.Some? ==>
          && info.positionsLen > 0 && t.info.positionsLen > 0
          && Cut(positions, info.positionsOffset, info.positionsLen).Some?
          && Cut(positions, info.positionsOffset, info.positionsLen) == Cut(g.positions, t.info.positionsOffset, t.info.positionsLen))
  }

  lemma {:induction false} CutAppend(bytes: ByteString, more: ByteString, offset: nat, len: nat)
    requires Cut(bytes, offset, len).Some?
    ensures Cut(bytes + more, offset, len) == Cut(bytes, offset, len)
  {
    assert (bytes + more)[offset..offset + len] == bytes[offset..offset + len];
  }

  lemma {:induction false} CutLast(bytes: ByteString, more: ByteString)
    ensures Cut(bytes + more, |bytes|, |more|) == Some(more)
  {
    assert (bytes + more)[|bytes|..|bytes| + |more|] == more;
  }

  lemma {:induction false} CutLen(bytes: ByteString, offset: nat, len: nat)
    requires Cut(bytes, offset, len).Some?
    ensures |Cut(bytes, offset, len).value| == len
  {
  }

  /** Earlier terms stay found while the buffers grow. */
  lemma {:induction false} RebasedGrows(g: RowGroup, t: TermPlan, info: TermInfo, postings: ByteString, positions: ByteString, a: ByteString, b: ByteString)
    requires Rebased(g, t, info, postings, positions)
    ensures Rebased(g, t, info, postings + a, positions + b)
  {
    CutAppend(postings, a, info.postingsOffset, info.postingsLen);
    if t.positions.Some? {
      CutAppend(positions, b, info.positionsOffset, info.positionsLen);
    }
    hide Cut;
  }

  /** A rebased term decodes to what the original decodes to. */
  lemma {:induction false} RebasedDecodesSame(g: RowGroup, h: RowGroup, t: TermPlan)
    requires t.ordinal < |g.infos| && t.info == g.infos[t.ordinal] && |h.infos| == |g.infos| && h.terms == g.terms
    requires Rebased(g, t, h.infos[t.ordinal], h.postings, h.positions)
    ensures TermAt(h, t.ordinal, false) == TermAt(g, t.ordinal, false)
    ensures t.positions.Some? || t.info.positionsLen == 0 ==> TermAt(h, t.ordinal, true) == TermAt(g, t.ordinal, true)
  {
    hide DecodeTerm, Cut;
  }

  // ---- groups whose slices lie one after the other ----

  /** Slices in order, without overlap, inside the buffers. */
  ghost predicate SlicesInOrder(g: RowGroup) {
    && (forall o :: 0 <= o < |g.infos| ==>
          && g.infos[o].postingsOffset + g.infos[o].postingsLen <= |g.postings|
          && g.infos[o].positionsOffset + g.infos[o].positionsLen <= |g.positions|)
    && (forall o, o' :: 0 <= o < o' < |g.infos| ==>
          && g.infos[o].postingsOffset + g.infos[o].postingsLen <= g.infos[o'].postingsOffset
          && g.infos[o].positionsOffset + g.infos[o].positionsLen <= g.infos[o'].positionsOffset)
  }

  /** As the index builder lays terms out: in order, at least one, and each with postings. */
  ghost predicate LaidOut(g: RowGroup) {
    && SlicesInOrder(g) && g.infos != []
    && forall o :: 0 <= o < |g.infos| ==> g.infos[o].postingsLen > 0
  }

  /** The rebuilt buffers never run ahead of the originals. */
  ghost predicate Behind(g: RowGroup, plans: seq<TermPlan>, done: nat, postings: ByteString, positions: ByteString) {
    if done == 0 || done > |plans| then postings == [] && positions == []
    else
      && plans[done - 1].ordinal < |g.infos|
      && |postings| <= g.infos[plans[done - 1].ordinal].postingsOffset + g.infos[plans[done - 1].ordinal].postingsLen
      && |positions| <= g.infos[plans[done - 1].ordinal].positionsOffset + g.infos[plans[done - 1].ordinal].positionsLen
  }

  ghost predicate AllRebased(g: RowGroup, plans: seq<TermPlan>, done: nat, infos: seq<TermInfo>, postings: ByteString, positions: ByteString) {
    forall k :: 0 <= k < done && k < |plans| ==>
      plans[k].ordinal < |infos| && Rebased(g, plans[k], infos[plans[k].ordinal], postings, positions)
  }

  /** Terms that no plan names keep the default info. */
  ghost predicate DefaultElsewhere(plans: seq<TermPlan>, infos: seq<TermInfo>) {
    forall o :: 0 <= o < |infos| && infos[o] != NO_TERM ==> exists k :: 0 <= k < |plans| && plans[k].ordinal == o
  }

  lemma {:induction false} OneMoreNamed(plans: seq<TermPlan>, k: nat, infos: seq<TermInfo>, info: TermInfo)
    requires k < |plans| && DefaultElsewhere(plans[..k], infos) && plans[k].ordinal < |infos|
    ensures DefaultElsewhere(plans[..k + 1], infos[plans[k].ordinal := info])
  {
    var after, named := infos[plans[k].ordinal := info], plans[..k + 1];
    forall o | 0 <= o < |after| && after[o] != NO_TERM
      ensures exists i :: 0 <= i < |named| && named[i].ordinal == o
    {
      if o == plans[k].ordinal {
        assert named[k].ordinal == o;
      } else {
        var i :| 0 <= i < k && plans[..k][i].ordinal == o;
        assert named[i].ordinal == o;
      }
    }
  }

  lemma {:induction false} OneMoreRebased(
    g: RowGroup, plans: seq<TermPlan>, k: nat, infos: seq<TermInfo>, info: TermInfo,
    postings: ByteString, positions: ByteString, a: ByteString, b: ByteString)
    requires k < |plans| && InOrder(plans) && AllRebased(g, plans, k, infos, postings, positions)
    requires plans[k].ordinal < |infos| && Rebased(g, plans[k], info, postings + a, positions + b)
    ensures AllRebased(g, plans, k + 1, infos[plans[k].ordinal := info], postings + a, positions + b)
  {
    hide Rebased;
    forall i | 0 <= i < k
      ensures Rebased(g, plans[i], infos[plans[i].ordinal], postings + a, positions + b)
    {
      RebasedGrows(g, plans[i], infos[plans[i].ordinal], postings, positions, a, b);
    }
  }

  lemma {:induction false} NextOffsetFits(g: RowGroup, plans: seq<TermPlan>, k: nat, postings: ByteString, positions: ByteString)
    requires LaidOut(g) && InOrder(plans) && k < |plans| && plans[k].ordinal < |g.infos|
    requires Behind(g, plans, k, postings, positions)
    ensures |postings| <= g.infos[plans[k].ordinal].postingsOffset && |positions| <= g.infos[plans[k].ordinal].positionsOffset
  {
  }

  /** The inner loop of `materialize_term_data_groups`. */
  method MaterializeTerms(ghost g: RowGroup, chunks: seq<ByteString>, infoCount: nat, plans: seq<TermPlan>)
    returns (result: Result<(seq<TermInfo>, ByteString, ByteString), LoadError>)
    requires infoCount == |g.infos| && InOrder(plans)
    requires forall k :: 0 <= k < |plans| ==> Fetched(g, chunks, plans[k])
    ensures result.Ok? ==> |result.value.0| == infoCount
    ensures result.Ok? ==> AllRebased(g, plans, |plans|, result.value.0, result.value.1, result.value.2)
    ensures result.Ok? ==> DefaultElsewhere(plans, result.value.0)
    ensures LaidOut(g) ==> result.Ok?
  {
    var infos := seq(infoCount, i => NO_TERM);
    var postings: ByteString, positions: ByteString := [], [];
    assert DefaultElsewhere(plans[..0], infos);
    hide Rebased, LaidOut, InOrder, Cut, DefaultElsewhere;
    for k := 0 to |plans|
      invariant |infos| == infoCount
      invariant AllRebased(g, plans, k, infos, postings, positions)
      invariant LaidOut(g) ==> Behind(g, plans, k, postings, positions)
      invariant DefaultElsewhere(plans[..k], infos)
    {
      var t := plans[k];
      assert Fetched(g, chunks, t);
      if LaidOut(g) {
        NextOffsetFits(g, plans, k, postings, positions);
      }
      if |postings| > U32_MAX || |positions| > U32_MAX {
        return Err(OffsetTooLarge);
      }
      var a := chunks[t.postings];
      var b := if t.positions.Some? then chunks[t.positions.value] else [];
      OneTerm(g, chunks, t, postings, positions);
      var info := TermInfo(t.info.docCount, |postings|, |a|, |positions|, |b|);
      OneMoreRebased(g, plans, k, infos, info, postings, positions, a, b);
      OneMoreNamed(plans, k, infos, info);
      infos := infos[t.ordinal := info];
      postings := postings + a;
      positions := positions + b;
    }
    assert plans[..|plans|] == plans;
    result := Ok((infos, postings, positions));
  }

  lemma {:induction false} OneTerm(g: RowGroup, chunks: seq<ByteString>, t: TermPlan, postings: ByteString, positions: ByteString)
    requires Fetched(g, chunks, t) && |postings| <= U32_MAX && |positions| <= U32_MAX
    ensures var a := chunks[t.postings];
            var b := if t.positions.Some? then chunks[t.positions.value] else [];
            && |a| == t.info.postingsLen && |b| <= t.info.positionsLen
            && Rebased(g, t, TermInfo(t.info.docCount, |postings|, |a|, |positions|, |b|), postings + a, positions + b)
  {
    var a := chunks[t.postings];
    var b := if t.positions.Some? then chunks[t.positions.value] else [];
    CutLen(g.postings, t.info.postingsOffset, t.info.postingsLen);
    CutLast(postings, a);
    if t.positions.Some? {
      CutLen(g.positions, t.info.positionsOffset, t.info.positionsLen);
      CutLast(positions, b);
    }
    hide Cut;
  }
}
