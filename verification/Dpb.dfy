/**
Packing a client's reference frames into the V4L2 DPB (h264.c, h265.c): consecutively from slot zero, because the
hardware has one reference register per slot, and for HEVC with index lists over the packed slots.
*/
module Dpb {

  const INVALID_SURFACE := 0xffff_ffff
  const SLOTS := 16

  /** What both codecs' reference pictures have in common; `flag` bits of either are kept as booleans. */
  datatype Picture = Picture(id: int, invalid: bool, longTerm: bool, avc: Avc, hevc: Rps, order: int)

  datatype Avc = Avc(top: bool, bottom: bool, frameIdx: int, bottomOrder: int)

  datatype Rps = Rps(before: bool, after: bool, lt: bool)

  /** surface_heap as far as it matters here: the timestamps of the live surfaces. */
  type Surfaces = map<int, nat>

  predicate Usable(pic: Picture, live: Surfaces)
  {
    pic.id != INVALID_SURFACE && !pic.invalid && pic.id in live
  }

  /** The usable references, in the client's order. */
  function Kept(refs: seq<Picture>, live: Surfaces): (r: seq<Picture>)
    ensures |r| <= |refs|
  {
    if refs == [] then []
    else
      var n := |refs| - 1;
      Kept(refs[..n], live) + if Usable(refs[n], live) then [refs[n]] else []
  }

  // ----- packing is an order-preserving filter

  /** The slot a reference goes to: how many usable ones come before it. */
  function Slot(refs: seq<Picture>, live: Surfaces, i: nat): (s: nat)
    requires i <= |refs|
    ensures s <= i
  {
    |Kept(refs[..i], live)|
  }

  lemma {:induction false} KeptExtends(refs: seq<Picture>, live: Surfaces, i: nat)
    requires i <= |refs|
    ensures Kept(refs[..i], live) <= Kept(refs, live)
    decreases |refs|
  {
    if i < |refs| {
      var n := |refs| - 1;
      KeptExtends(refs[..n], live, i);
      assert refs[..n][..i] == refs[..i];
    } else {
      assert refs[..i] == refs;
    }
  }

  /** Every usable reference is in its slot, and later references are in later slots. */
  lemma UsableIsPacked(refs: seq<Picture>, live: Surfaces, i: nat, j: nat)
    requires i < j <= |refs| && Usable(refs[i], live)
    ensures Slot(refs, live, i) < Slot(refs, live, j) <= |Kept(refs, live)|
    ensures Kept(refs, live)[Slot(refs, live, i)] == refs[i]
  {
    var next := refs[..i + 1];
    assert next[..i] == refs[..i] && refs[..j][..i + 1] == next;
    KeptExtends(refs[..j], live, i + 1);
    KeptExtends(refs, live, i + 1);
    KeptExtends(refs, live, j);
    assert Kept(next, live) == Kept(refs[..i], live) + [refs[i]];
  }

  /** Every filled slot holds a usable reference: there are no holes. */
  lemma {:induction false} SlotIsUsable(refs: seq<Picture>, live: Surfaces, k: nat) returns (i: nat)
    requires k < |Kept(refs, live)|
    ensures i < |refs| && Usable(refs[i], live) && Slot(refs, live, i) == k && Kept(refs, live)[k] == refs[i]
    ensures refs[i].id != 0xffff_ffff && !refs[i].invalid && refs[i].id in live
    decreases |refs|
  {
    var n := |refs| - 1;
    var front := refs[..n];
    if k < |Kept(front, live)| {
      i := SlotIsUsable(front, live, k);
      assert front[..i] == refs[..i];
    } else {
      i := n;
    }
  }

  // ----- H.264

  datatype Fields = NoField | TopField | BottomField | Frame

  datatype AvcEntry = AvcEntry(timestamp: nat, frameNum: int, picNum: int, topOrder: int, bottomOrder: int,
                               valid: bool, longTerm: bool, fields: Fields)

  const NO_AVC_ENTRY := AvcEntry(0, 0, 0, 0, 0, false, false, NoField)

  function AvcEntryOf(pic: Picture, live: Surfaces): (e: AvcEntry)
    requires Usable(pic, live)
    ensures e.valid
  {
    AvcEntry(live[pic.id], pic.avc.frameIdx, pic.avc.frameIdx, pic.order, pic.avc.bottomOrder, true, pic.longTerm,
             if pic.avc.top then TopField else if pic.avc.bottom then BottomField else Frame)
  }

  ghost predicate PackedAvc(dpb: seq<AvcEntry>, kept: seq<Picture>, live: Surfaces)
  {
    && |kept| <= |dpb|
    && (forall k | 0 <= k < |kept| :: Usable(kept[k], live) && dpb[k] == AvcEntryOf(kept[k], live))
    && (forall k | |kept| <= k < |dpb| :: dpb[k] == NO_AVC_ENTRY)
  }

  /** fill_dpb of h264.c, on the 16 references of a picture parameter buffer. */
  method FillAvcDpb(dpb: array<AvcEntry>, refs: seq<Picture>, live: Surfaces)
    requires dpb.Length == SLOTS && |refs| == SLOTS
    modifies dpb
    ensures PackedAvc(dpb[..], Kept(refs, live), live)
  {
    forall k | 0 <= k < dpb.Length {
      dpb[k] := NO_AVC_ENTRY;
    }
    var slot, i := 0, 0;
    assert refs[..0] == [];
    while i < SLOTS && slot < SLOTS
      invariant 0 <= i <= SLOTS && slot == |Kept(refs[..i], live)| <= i
      invariant PackedAvc(dpb[..], Kept(refs[..i], live), live)
    {
      var pic := refs[i];
      assert refs[..i + 1][..i] == refs[..i] && refs[..i + 1][i] == pic;
      i := i + 1;
      if pic.id == INVALID_SURFACE || pic.invalid {
        continue;
      }
      if pic.id !in live {
        continue;
      }
      var fields := if pic.avc.top then TopField else if pic.avc.bottom then BottomField else Frame;
      dpb[slot] := AvcEntry(live[pic.id], pic.avc.frameIdx, pic.avc.frameIdx, pic.order, pic.avc.bottomOrder,
                            true, pic.longTerm, fields);
      slot := slot + 1;
    }
    assert refs[..SLOTS] == refs;
    if i < SLOTS {
      assert false;
    }
  }

  /** The main result for H.264: valid entries are exactly the first slots, one for each usable reference, in order. */
  lemma AvcPacked(dpb: seq<AvcEntry>, refs: seq<Picture>, live: Surfaces)
    requires PackedAvc(dpb, Kept(refs, live), live)
    ensures forall k | 0 <= k < |dpb| :: dpb[k].valid <==> k < |Kept(refs, live)|
    ensures forall i | 0 <= i < |refs| && Usable(refs[i], live) ::
      var s, pic := Slot(refs, live, i), refs[i];
      && s < |dpb| && dpb[s].timestamp == live[pic.id]
      && dpb[s].frameNum == pic.avc.frameIdx == dpb[s].picNum
      && dpb[s].topOrder == pic.order && dpb[s].bottomOrder == pic.avc.bottomOrder
      && (dpb[s].longTerm <==> pic.longTerm)
      && (dpb[s].fields == TopField <==> pic.avc.top)
      && (dpb[s].fields == BottomField <==> pic.avc.bottom && !pic.avc.top)
      && (dpb[s].fields == Frame <==> !pic.avc.top && !pic.avc.bottom)
  {
    forall i | 0 <= i < |refs| && Usable(refs[i], live)
      ensures Slot(refs, live, i) < |dpb| && dpb[Slot(refs, live, i)] == AvcEntryOf(refs[i], live)
    {
      UsableIsPacked(refs, live, i, |refs|);
    }
  }

  // ----- HEVC

  datatype HevcEntry = HevcEntry(timestamp: nat, order: int, longTerm: bool)

  const NO_HEVC_ENTRY := HevcEntry(0, 0, false)

  datatype List = Before | After | LongTerm | Unlisted

  /** The list a reference goes to: the first of its flags, so one at most. */
  function ListOf(pic: Picture): List
  {
    if pic.hevc.before then Before else if pic.hevc.after then After else if pic.hevc.lt then LongTerm else Unlisted
  }

  /** The packed slots that go to a list, in order. */
  function Indices(kept: seq<Picture>, list: List): (r: seq<nat>)
    ensures |r| <= |kept|
  {
    if kept == [] then []
    else
      var n := |kept| - 1;
      Indices(kept[..n], list) + if ListOf(kept[n]) == list then [n] else []
  }

  ghost predicate Increasing(s: seq<nat>)
  {
    forall a, b | 0 <= a < b < |s| :: s[a] < s[b]
  }

  lemma {:induction false} IndicesExact(kept: seq<Picture>, list: List)
    ensures forall k: nat :: k in Indices(kept, list) <==> k < |kept| && ListOf(kept[k]) == list
    ensures Increasing(Indices(kept, list))
  {
    if kept != [] {
      var n := |kept| - 1;
      var front := Indices(kept[..n], list);
      IndicesExact(kept[..n], list);
      forall a | 0 <= a < |front|
        ensures front[a] < n
      {
        assert front[a] in front;
      }
      assert Increasing(front);
    }
  }

  /** v4l2_ctrl_hevc_decode_params, as far as fill_dpb writes it. */
  class DecodeParams {
    const dpb: array<HevcEntry>
    const pocStCurrBefore: array<nat>
    const pocStCurrAfter: array<nat>
    const pocLtCurr: array<nat>
    var numActiveDpbEntries: nat
    var numPocStCurrBefore: nat
    var numPocStCurrAfter: nat
    var numPocLtCurr: nat

    constructor ()
      ensures Valid() && fresh(dpb) && fresh(pocStCurrBefore) && fresh(pocStCurrAfter) && fresh(pocLtCurr)
    {
      dpb := new HevcEntry[SLOTS](_ => NO_HEVC_ENTRY);
      pocStCurrBefore, pocStCurrAfter, pocLtCurr := new nat[SLOTS], new nat[SLOTS], new nat[SLOTS];
      numActiveDpbEntries, numPocStCurrBefore, numPocStCurrAfter, numPocLtCurr := 0, 0, 0, 0;
    }

    ghost predicate Valid()
      reads this`numPocStCurrBefore, this`numPocStCurrAfter, this`numPocLtCurr
    {
      && dpb.Length == pocStCurrBefore.Length == pocStCurrAfter.Length == pocLtCurr.Length == SLOTS
      && pocStCurrBefore != pocStCurrAfter && pocStCurrBefore != pocLtCurr && pocStCurrAfter != pocLtCurr
      && numPocStCurrBefore <= SLOTS && numPocStCurrAfter <= SLOTS && numPocLtCurr <= SLOTS
    }

    /** The entries and the three lists are those of the packed references. */
    ghost predicate Holds(kept: seq<Picture>, live: Surfaces)
      requires Valid()
      reads this`numPocStCurrBefore, this`numPocStCurrAfter, this`numPocLtCurr
      reads dpb, pocStCurrBefore, pocStCurrAfter, pocLtCurr
    {
      && PackedHevc(dpb[..], kept, live)
      && pocStCurrBefore[..numPocStCurrBefore] == Indices(kept, Before)
      && pocStCurrAfter[..numPocStCurrAfter] == Indices(kept, After)
      && pocLtCurr[..numPocLtCurr] == Indices(kept, LongTerm)
    }

    /** fill_dpb of h265.c, on the 15 references of a picture parameter buffer. */
    method FillDpb(refs: seq<Picture>, live: Surfaces)
      requires Valid() && |refs| == 15
      modifies this, dpb, pocStCurrBefore, pocStCurrAfter, pocLtCurr
      ensures Valid() && Holds(Kept(refs, live), live)
      ensures numActiveDpbEntries == |Kept(refs, live)|
    {
      hide Holds, Indices;
      Clear(live);
      var slot, i := 0, 0;
      assert refs[..0] == [];
      while i < 15 && slot < SLOTS
        invariant 0 <= i <= 15 && slot == |Kept(refs[..i], live)| <= i
        invariant Valid() && Holds(Kept(refs[..i], live), live)
      {
        var pic := refs[i];
        assert refs[..i + 1][..i] == refs[..i] && refs[..i + 1][i] == pic;
        assert Kept(refs[..i + 1], live)
            == if Usable(pic, live) then Kept(refs[..i], live) + [pic] else Kept(refs[..i], live);
        i := i + 1;
        if pic.id == INVALID_SURFACE || pic.invalid {
          continue;
        }
        if pic.id !in live {
          continue;
        }
        AddEntry(pic, slot, live, Kept(refs[..i - 1], live));
        slot := slot + 1;
      }
      numActiveDpbEntries := slot;
      assert refs[..15] == refs;
    }

    /** The memset and the zeroed counters before the loop. */
    method Clear(ghost live: Surfaces)
      requires Valid()
      modifies this, dpb
      ensures Valid() && Holds([], live)
    {
      forall k | 0 <= k < dpb.Length {
        dpb[k] := NO_HEVC_ENTRY;
      }
      numActiveDpbEntries, numPocStCurrBefore, numPocStCurrAfter, numPocLtCurr := 0, 0, 0, 0;
    }

    /** One turn of the loop, past its tests. */
    method AddEntry(pic: Picture, slot: nat, live: Surfaces, ghost kept: seq<Picture>)
      requires Valid() && Holds(kept, live) && slot == |kept| < SLOTS && Usable(pic, live)
      modifies this, dpb, pocStCurrBefore, pocStCurrAfter, pocLtCurr
      ensures Valid() && Holds(kept + [pic], live)
    {
      ghost var more := kept + [pic];
      assert more[..slot] == kept;
      dpb[slot] := HevcEntry(live[pic.id], pic.order, pic.longTerm);
      if pic.hevc.before {
        pocStCurrBefore[numPocStCurrBefore] := slot;
        numPocStCurrBefore := numPocStCurrBefore + 1;
      } else if pic.hevc.after {
        pocStCurrAfter[numPocStCurrAfter] := slot;
        numPocStCurrAfter := numPocStCurrAfter + 1;
      } else if pic.hevc.lt {
        pocLtCurr[numPocLtCurr] := slot;
        numPocLtCurr := numPocLtCurr + 1;
      }
    }
  }

  ghost predicate PackedHevc(dpb: seq<HevcEntry>, kept: seq<Picture>, live: Surfaces)
  {
    && |kept| <= |dpb|
    && (forall k | 0 <= k < |kept| ::
          Usable(kept[k], live) && dpb[k] == HevcEntry(live[kept[k].id], kept[k].order, kept[k].longTerm))
    && (forall k | |kept| <= k < |dpb| :: dpb[k] == NO_HEVC_ENTRY)
  }

  /**
  The main result for HEVC: a usable reference's slot is in a list exactly when that list is the reference's own, so
  in one list at most, and a list names no slot beyond the packed ones.
  */
  lemma HevcListed(refs: seq<Picture>, live: Surfaces, i: nat, list: List)
    requires i < |refs| && Usable(refs[i], live)
    ensures Slot(refs, live, i) in Indices(Kept(refs, live), list) <==>
      var flags := refs[i].hevc;
      match list
      case Before => flags.before
      case After => !flags.before && flags.after
      case LongTerm => !flags.before && !flags.after && flags.lt
      case Unlisted => !flags.before && !flags.after && !flags.lt
  {
    UsableIsPacked(refs, live, i, |refs|);
    IndicesExact(Kept(refs, live), list);
  }

  lemma ListsNameReferences(refs: seq<Picture>, live: Surfaces, k: nat, list: List) returns (i: nat)
    requires k in Indices(Kept(refs, live), list)
    ensures i < |refs| && Usable(refs[i], live) && Slot(refs, live, i) == k && ListOf(refs[i]) == list
  {
    IndicesExact(Kept(refs, live), list);
    i := SlotIsUsable(refs, live, k);
  }

  lemma ListsApart(kept: seq<Picture>, k: nat, one: List, other: List)
    requires k in Indices(kept, one) && k in Indices(kept, other)
    ensures one == other
  {
    IndicesExact(kept, one);
    IndicesExact(kept, other);
  }
}
