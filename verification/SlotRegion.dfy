/** One registered region cut into equal slots. */
module SlotRegion {
  import opened Splitmix
  import opened Payloads

  /** Where `slot` starts in the region. */
  function SlotStart(slot: nat, msgSize: nat): nat {
    slot * msgSize
  }

  /** Slot ranges follow each other without overlap and stay inside the region. */
  lemma {:induction false} SlotsApart(j: nat, k: nat, msgSize: nat)
    requires j < k
    ensures SlotStart(j, msgSize) + msgSize <= SlotStart(k, msgSize)
  {
    NextSlot(k - 1, msgSize);
    hide SlotStart;
    if j < k - 1 {
      SlotsApart(j, k - 1, msgSize);
    }
  }

  lemma NextSlot(k: nat, msgSize: nat)
    ensures SlotStart(k + 1, msgSize) == SlotStart(k, msgSize) + msgSize
  {
  }

  /** Every bound of every slot's range is a 64-bit number exactly when the size of the region is one. */
  lemma RangesRepresentable(window: nat, msgSize: nat)
    requires window > 0
    ensures (forall slot: nat :: slot < window ==> SlotStart(slot, msgSize) + msgSize < U64_LIMIT)
            <==> window * msgSize < U64_LIMIT
  {
    hide SlotStart;
    forall slot: nat | slot < window
      ensures SlotStart(slot, msgSize) + msgSize <= SlotStart(window, msgSize)
    {
      SlotsApart(slot, window, msgSize);
    }
    LastSlotEnds(window, msgSize);
  }

  lemma LastSlotEnds(window: nat, msgSize: nat)
    requires window > 0
    ensures SlotStart(window - 1, msgSize) + msgSize == SlotStart(window, msgSize) == window * msgSize
  {
  }

  /** The flat region `mem` holds the slots `slots`. */
  ghost predicate Slotted(mem: Bytes, slots: seq<Bytes>, msgSize: nat) {
    && |mem| == SlotStart(|slots|, msgSize)
    && forall k :: 0 <= k < |slots| ==> HoldsSlot(mem, k, slots[k], msgSize)
  }

  ghost predicate HoldsSlot(mem: Bytes, k: nat, content: Bytes, msgSize: nat) {
    && SlotStart(k, msgSize) + msgSize <= |mem|
    && mem[SlotStart(k, msgSize)..SlotStart(k, msgSize) + msgSize] == content
  }

  /** The slots of any region of the right size. */
  function Cut(mem: Bytes, n: nat, msgSize: nat): (slots: seq<Bytes>)
    requires |mem| >= SlotStart(n, msgSize)
    ensures |slots| == n
  {
    if n == 0 then []
    else
      SlotsApart(n - 1, n, msgSize);
      Cut(mem, n - 1, msgSize) + [mem[SlotStart(n - 1, msgSize)..SlotStart(n - 1, msgSize) + msgSize]]
  }

  lemma {:induction false} CutHolds(mem: Bytes, n: nat, msgSize: nat)
    requires |mem| >= SlotStart(n, msgSize)
    ensures forall k :: 0 <= k < n ==> HoldsSlot(mem, k, Cut(mem, n, msgSize)[k], msgSize)
    ensures forall k :: 0 <= k < n ==> |Cut(mem, n, msgSize)[k]| == msgSize
  {
    hide SlotStart;
    if n > 0 {
      SlotsApart(n - 1, n, msgSize);
      CutHolds(mem, n - 1, msgSize);
    }
  }

  /** Writing one slot's range changes that slot and no other. */
  lemma SlotWritten(mem: Bytes, after: Bytes, slots: seq<Bytes>, k: nat, content: Bytes, msgSize: nat)
    requires Slotted(mem, slots, msgSize) && k < |slots| && |content| == msgSize
    requires SlotStart(k, msgSize) + msgSize <= |mem|
    requires after == mem[..SlotStart(k, msgSize)] + content + mem[SlotStart(k, msgSize) + msgSize..]
    ensures Slotted(after, slots[k := content], msgSize)
  {
    hide SlotStart;
    var updated := slots[k := content];
    forall j | 0 <= j < |updated|
      ensures HoldsSlot(after, j, updated[j], msgSize)
    {
      assert HoldsSlot(mem, j, slots[j], msgSize);
      var lo := SlotStart(j, msgSize);
      if j < k {
        SlotsApart(j, k, msgSize);
        assert after[lo..lo + msgSize] == mem[lo..lo + msgSize];
      } else if k < j {
        SlotsApart(k, j, msgSize);
        assert after[lo..lo + msgSize] == mem[lo..lo + msgSize];
      } else {
        assert after[lo..lo + msgSize] == content;
      }
    }
  }

  lemma SlotInside(slots: nat, k: nat, msgSize: nat)
    requires k < slots
    ensures SlotStart(k, msgSize) + msgSize <= SlotStart(slots, msgSize)
  {
    SlotsApart(k, slots, msgSize);
  }

  /** Reading the front of a slot's range reads the front of that slot. */
  lemma SlotRead(mem: Bytes, slots: seq<Bytes>, k: nat, len: nat, msgSize: nat)
    requires Slotted(mem, slots, msgSize) && k < |slots| && |slots[k]| == msgSize && len <= msgSize
    ensures SlotStart(k, msgSize) + len <= |mem|
    ensures mem[SlotStart(k, msgSize)..SlotStart(k, msgSize) + len] == slots[k][..len]
  {
    hide SlotStart;
    var lo := SlotStart(k, msgSize);
    assert HoldsSlot(mem, k, slots[k], msgSize);
    assert mem[lo..lo + len] == mem[lo..lo + msgSize][..len];
  }

  /** Writes `content` at the front of slot `k`; what the slot held beyond it stays. */
  method WriteSlot(region: array<Byte>, ghost slots: seq<Bytes>, k: nat, content: Bytes, msgSize: nat)
    requires Slotted(region[..], slots, msgSize) && k < |slots| && |content| <= msgSize
    requires forall j :: 0 <= j < |slots| ==> |slots[j]| == msgSize
    modifies region
    ensures Slotted(region[..], slots[k := content + slots[k][|content|..]], msgSize)
  {
    var lo := SlotStart(k, msgSize);
    SlotInside(|slots|, k, msgSize);
    hide SlotStart;
    ghost var before := region[..];
    assert HoldsSlot(before, k, slots[k], msgSize);
    forall i | 0 <= i < |content| {
      region[lo + i] := content[i];
    }
    ghost var filled := content + slots[k][|content|..];
    assert region[..] == before[..lo] + filled + before[lo + msgSize..];
    SlotWritten(before, region[..], slots, k, filled, msgSize);
  }
}
