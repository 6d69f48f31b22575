/**
 * The merge-lab dialog's selection logic: the slot-change key, the table of merge filters
 * grouped by "modelType,samplingRate,embChannels", the models matching the chosen filter,
 * the per-model merge weights and the merge request.
 */
module MergeLab {
  import opened Wrappers
  import opened Text
  import opened Seqs
  import opened Settings

  /** `newSlotChangeKey`: "_" + modelFile for every slot, in order. */
  function SlotChangeKey(slots: seq<ModelSlot>): (key: string)
    ensures key == "" <==> slots == []
    ensures |key| >= |slots|
  {
    if slots == [] then "" else SlotChangeKey(slots[..|slots| - 1]) + "_" + slots[|slots| - 1].modelFile
  }

  /** The key of one slot is "_" followed by its model file. */
  lemma SlotChangeKeySingle(slot: ModelSlot)
    ensures SlotChangeKey([slot]) == "_" + slot.modelFile
  {
    assert [slot][..0] == [];
  }

  /** The key of a concatenation is the concatenation of the keys. */
  lemma {:induction false} SlotChangeKeyAppend(a: seq<ModelSlot>, b: seq<ModelSlot>)
    ensures SlotChangeKey(a + b) == SlotChangeKey(a) + SlotChangeKey(b)
  {
    if b == [] {
      assert a + b == a;
    } else {
      var n := |b| - 1;
      SlotChangeKeyAppend(a, b[..n]);
      assert (a + b)[..|a + b| - 1] == a + b[..n];
      assert (a + b)[|a + b| - 1] == b[n];
      calc {
        SlotChangeKey(a + b);
        SlotChangeKey(a + b[..n]) + "_" + b[n].modelFile;
        SlotChangeKey(a) + SlotChangeKey(b[..n]) + "_" + b[n].modelFile;
        SlotChangeKey(a) + (SlotChangeKey(b[..n]) + "_" + b[n].modelFile);
        SlotChangeKey(a) + SlotChangeKey(b);
      }
    }
  }

  /** A slot that may serve as a merge source: an RVC slot with a model file that is not ONNX. */
  predicate Qualifies(slot: ModelSlot) {
    slot.voiceChangerType == RVC && slot.modelFile != ""
    && slot.modelType != "onnxRVC" && slot.modelType != "onnxRVCNono"
  }

  /** The filter key `${modelType},${samplingRate},${embChannels}`. */
  function FilterKey(slot: ModelSlot): string {
    slot.modelType + "," + IntToString(slot.samplingRate) + "," + IntToString(slot.embChannels)
  }

  datatype FilterVal = FilterVal(modelType: string, samplingRate: int, embChannels: int)

  function ValOf(slot: ModelSlot): FilterVal {
    FilterVal(slot.modelType, slot.samplingRate, slot.embChannels)
  }

  /** The `filterItems` dictionary: its keys in enumeration (insertion) order, and its entries. */
  datatype FilterTable = FilterTable(keys: seq<string>, entries: map<string, FilterVal>)

  ghost predicate WellFormed(t: FilterTable) {
    && (forall a, b :: 0 <= a < b < |t.keys| ==> t.keys[a] != t.keys[b])
    && (forall k :: k in t.entries <==> k in t.keys)
  }

  /**
   * One step of the `filterItems` reduce: a qualifying slot whose key is new appends that key
   * with the slot's values; any other slot leaves the table as it is.
   */
  function AddSlot(t: FilterTable, slot: ModelSlot): (r: FilterTable)
    ensures t.keys <= r.keys && |r.keys| <= |t.keys| + 1
    ensures Qualifies(slot) ==> FilterKey(slot) in r.keys
    ensures r != t ==> Qualifies(slot) && FilterKey(slot) !in t.keys
                       && FilterKey(slot) in r.entries && r.entries[FilterKey(slot)] == ValOf(slot)
  {
    if !Qualifies(slot) || FilterKey(slot) in t.keys then t
    else FilterTable(t.keys + [FilterKey(slot)], t.entries[FilterKey(slot) := ValOf(slot)])
  }

  /** `filterItems`: the reduce over all slots, from the empty dictionary. */
  function FilterItems(slots: seq<ModelSlot>): (r: FilterTable)
    ensures |r.keys| <= |slots|
  {
    if slots == [] then FilterTable([], map[])
    else AddSlot(FilterItems(slots[..|slots| - 1]), slots[|slots| - 1])
  }

  /** The `filterItems` reduce, with its accumulator dictionary updated in place. */
  method BuildFilterItems(slots: seq<ModelSlot>) returns (t: FilterTable)
    ensures t == FilterItems(slots)
  {
    var keys: seq<string> := [];
    var entries: map<string, FilterVal> := map[];
    for i := 0 to |slots|
      invariant FilterTable(keys, entries) == FilterItems(slots[..i])
    {
      assert slots[..i + 1][..i] == slots[..i];
      var cur := slots[i];
      if cur.voiceChangerType != RVC {
        continue;
      }
      var key := FilterKey(cur);
      var val := ValOf(cur);
      if cur.modelFile == "" {
        continue;
      }
      if cur.modelType == "onnxRVC" || cur.modelType == "onnxRVCNono" {
        continue;
      }
      if key !in keys {
        entries := entries[key := val];
        keys := keys + [key];
      }
    }
    assert slots[..|slots|] == slots;
    t := FilterTable(keys, entries);
  }

  /** Slot `j` qualifies, and no earlier qualifying slot has its key. */
  ghost predicate FirstWithKey(slots: seq<ModelSlot>, j: int) {
    && 0 <= j < |slots| && Qualifies(slots[j])
    && forall i :: 0 <= i < j ==> !(Qualifies(slots[i]) && FilterKey(slots[i]) == FilterKey(slots[j]))
  }

  /** One reduce step keeps the table well formed, keeps every entry, and adds only the slot's own key. */
  lemma AddSlotStep(t: FilterTable, slot: ModelSlot)
    requires WellFormed(t)
    ensures WellFormed(AddSlot(t, slot))
    ensures forall k :: k in t.entries ==> k in AddSlot(t, slot).entries && AddSlot(t, slot).entries[k] == t.entries[k]
    ensures Qualifies(slot) ==> FilterKey(slot) in AddSlot(t, slot).entries
    ensures forall k :: k in AddSlot(t, slot).entries && k !in t.entries ==>
              k == FilterKey(slot) && Qualifies(slot) && AddSlot(t, slot).entries[k] == ValOf(slot)
  {
  }

  lemma {:induction false} FilterItemsWellFormed(slots: seq<ModelSlot>)
    ensures WellFormed(FilterItems(slots))
  {
    if slots != [] {
      FilterItemsWellFormed(slots[..|slots| - 1]);
      AddSlotStep(FilterItems(slots[..|slots| - 1]), slots[|slots| - 1]);
    }
  }

  /** Every qualifying slot's key is in the table. */
  lemma {:induction false} FilterItemsComplete(slots: seq<ModelSlot>)
    ensures forall j :: 0 <= j < |slots| && Qualifies(slots[j]) ==> FilterKey(slots[j]) in FilterItems(slots).entries
  {
    if slots != [] {
      var n := |slots| - 1;
      var prefix := slots[..n];
      FilterItemsComplete(prefix);
      FilterItemsWellFormed(prefix);
      var t0 := FilterItems(prefix);
      AddSlotStep(t0, slots[n]);
      assert FilterItems(slots) == AddSlot(t0, slots[n]);
      forall j | 0 <= j < |slots| && Qualifies(slots[j])
        ensures FilterKey(slots[j]) in FilterItems(slots).entries
      {
        if j < n {
          assert prefix[j] == slots[j];
          assert FilterKey(slots[j]) in t0.entries;
        }
      }
    }
  }

  /** Every entry holds the type, sampling rate and emb channels of the first qualifying slot with its key. */
  lemma {:induction false} FilterItemsSound(slots: seq<ModelSlot>)
    ensures forall k :: k in FilterItems(slots).entries ==>
              exists j :: FirstWithKey(slots, j) && FilterKey(slots[j]) == k && FilterItems(slots).entries[k] == ValOf(slots[j])
  {
    if slots != [] {
      var n := |slots| - 1;
      var prefix := slots[..n];
      var last := slots[n];
      FilterItemsSound(prefix);
      FilterItemsWellFormed(prefix);
      FilterItemsComplete(prefix);
      var t0 := FilterItems(prefix);
      var t := FilterItems(slots);
      AddSlotStep(t0, last);
      forall k | k in t.entries
        ensures exists j :: FirstWithKey(slots, j) && FilterKey(slots[j]) == k && t.entries[k] == ValOf(slots[j])
      {
        if k in t0.entries {
          var j :| FirstWithKey(prefix, j) && FilterKey(prefix[j]) == k && t0.entries[k] == ValOf(prefix[j]);
          FirstWithKeyInPrefix(slots, n, j);
        } else {
          forall i | 0 <= i < n
            ensures !(Qualifies(slots[i]) && FilterKey(slots[i]) == FilterKey(last))
          {
            assert prefix[i] == slots[i];
          }
          assert FirstWithKey(slots, n);
        }
      }
    }
  }

  /** Being the first slot with its key does not depend on the slots after it. */
  lemma FirstWithKeyInPrefix(slots: seq<ModelSlot>, n: nat, j: int)
    requires n <= |slots| && FirstWithKey(slots[..n], j)
    ensures FirstWithKey(slots, j) && slots[..n][j] == slots[j]
  {
    forall i | 0 <= i < j
      ensures !(Qualifies(slots[i]) && FilterKey(slots[i]) == FilterKey(slots[j]))
    {
      assert slots[..n][i] == slots[i];
    }
  }

  /**
   * What `filterItems` holds: one key per distinct key of the qualifying slots, each mapped to
   * the type, sampling rate and emb channels of the first qualifying slot with that key.
   */
  lemma FilterItemsFacts(slots: seq<ModelSlot>)
    ensures WellFormed(FilterItems(slots))
    ensures forall j :: 0 <= j < |slots| && Qualifies(slots[j]) ==> FilterKey(slots[j]) in FilterItems(slots).entries
    ensures forall k :: k in FilterItems(slots).entries ==>
              exists j :: FirstWithKey(slots, j) && FilterKey(slots[j]) == k && FilterItems(slots).entries[k] == ValOf(slots[j])
  {
    FilterItemsWellFormed(slots);
    FilterItemsComplete(slots);
    FilterItemsSound(slots);
  }

  /**
   * The first key of `filterItems` (the filter the dialog resets to) is that of the first
   * qualifying slot, and it holds that slot's type, sampling rate and emb channels.
   */
  lemma {:induction false} FirstKeyIsFirstQualifying(slots: seq<ModelSlot>, j: nat)
    requires j < |slots| && Qualifies(slots[j])
    requires forall i :: 0 <= i < j ==> !Qualifies(slots[i])
    ensures |FilterItems(slots).keys| > 0 && FilterItems(slots).keys[0] == FilterKey(slots[j])
    ensures FilterKey(slots[j]) in FilterItems(slots).entries
    ensures FilterItems(slots).entries[FilterKey(slots[j])] == ValOf(slots[j])
  {
    var n := |slots| - 1;
    var prefix := slots[..n];
    if j == n {
      forall i | 0 <= i < |prefix|
        ensures !Qualifies(prefix[i])
      {
        assert prefix[i] == slots[i];
      }
      NoQualifyingSlotNoFilter(prefix);
      FilterItemsWellFormed(prefix);
      assert FilterItems(prefix).entries == map[];
    } else {
      assert prefix[j] == slots[j];
      forall i | 0 <= i < j
        ensures !Qualifies(prefix[i])
      {
        assert prefix[i] == slots[i];
      }
      FirstKeyIsFirstQualifying(prefix, j);
    }
  }

  /** With no qualifying slot there is no filter at all. */
  lemma NoQualifyingSlotNoFilter(slots: seq<ModelSlot>)
    requires forall i :: 0 <= i < |slots| ==> !Qualifies(slots[i])
    ensures FilterItems(slots).keys == []
  {
    FilterItemsWellFormed(slots);
    FilterItemsSound(slots);
  }

  /** Slot `x` is an RVC slot of the type, sampling rate and emb channels of filter `current`. */
  predicate InFilter(x: ModelSlot, t: FilterTable, current: string) {
    && x.voiceChangerType == RVC
    && current in t.entries
    && x.modelType == t.entries[current].modelType
    && x.samplingRate == t.entries[current].samplingRate
    && x.embChannels == t.entries[current].embChannels
  }

  /** `models`: the slots that match the current filter. */
  function Models(slots: seq<ModelSlot>, t: FilterTable, current: string): (r: seq<ModelSlot>)
    ensures current !in t.entries ==> r == []
    ensures forall i :: 0 <= i < |r| ==> r[i] in slots && InFilter(r[i], t, current)
    ensures forall i :: 0 <= i < |slots| && InFilter(slots[i], t, current) ==> slots[i] in r
  {
    var r := Filter(slots, x => InFilter(x, t, current));
    assert r != [] ==> InFilter(r[0], t, current);
    r
  }

  /** `models` keeps the slots' order and every matching occurrence. */
  lemma ModelsKeepOrder(slots: seq<ModelSlot>, t: FilterTable, current: string)
    ensures IsSubsequence(Models(slots, t, current), slots)
    ensures forall x :: multiset(Models(slots, t, current))[x] == if InFilter(x, t, current) then multiset(slots)[x] else 0
  {
    FilterIsSubsequence(slots, x => InFilter(x, t, current));
    forall x
      ensures multiset(Models(slots, t, current))[x] == if InFilter(x, t, current) then multiset(slots)[x] else 0
    {
      FilterCount(slots, x => InFilter(x, t, current), x);
    }
  }

  /** A model offered for merging is never an ONNX model, when the filters come from the same slots. */
  lemma ModelsAreNotOnnx(slots: seq<ModelSlot>, current: string)
    ensures forall x :: x in Models(slots, FilterItems(slots), current) ==>
              x.voiceChangerType == RVC && x.modelType != "onnxRVC" && x.modelType != "onnxRVCNono"
  {
    var t := FilterItems(slots);
    FilterItemsSound(slots);
    if current in t.entries {
      var j :| FirstWithKey(slots, j) && FilterKey(slots[j]) == current && t.entries[current] == ValOf(slots[j]);
    }
  }

  /** The `useEffect` on `filterItems`: a non-empty table resets the filter to its first key. */
  function ResetFilter(t: FilterTable, current: string): (r: string)
    ensures WellFormed(t) && t.keys != [] ==> r in t.entries
    ensures t.keys == [] ==> r == current
  {
    if |t.keys| > 0 then t.keys[0] else current
  }

  /** After the reset, the first qualifying slot is among the models offered for merging. */
  lemma FirstQualifyingSlotIsOffered(slots: seq<ModelSlot>, current: string, j: nat)
    requires j < |slots| && Qualifies(slots[j])
    requires forall i :: 0 <= i < j ==> !Qualifies(slots[i])
    ensures slots[j] in Models(slots, FilterItems(slots), ResetFilter(FilterItems(slots), current))
  {
    var t := FilterItems(slots);
    FirstKeyIsFirstQualifying(slots, j);
    var k := t.keys[0];
    assert ResetFilter(t, current) == k;
    assert InFilter(slots[j], t, k);
  }

  /** One merge weight; `filename` is dropped once the weight has been changed. */
  datatype MergeElement = MergeElement(slotIndex: SlotIndex, filename: Option<string>, strength: int)

  /** The merge elements seeded from `models`, all at strength 0. */
  function InitialMergeElements(models: seq<ModelSlot>): (elems: seq<MergeElement>)
    ensures |elems| == |models|
    ensures forall i :: 0 <= i < |elems| ==>
              elems[i].slotIndex == models[i].slotIndex && elems[i].filename == Some(models[i].modelFile) && elems[i].strength == 0
  {
    seq(|models|, i requires 0 <= i < |models| => MergeElement(models[i].slotIndex, Some(models[i].modelFile), 0))
  }

  /** `onMergeElementsChanged`: set the strength of the elements for `slotIndex`. */
  function UpdateStrength(elems: seq<MergeElement>, slotIndex: SlotIndex, strength: int): (r: seq<MergeElement>)
    ensures |r| == |elems|
    ensures forall i :: 0 <= i < |r| && elems[i].slotIndex != slotIndex ==> r[i] == elems[i]
    ensures forall i :: 0 <= i < |r| && elems[i].slotIndex == slotIndex ==>
              r[i].slotIndex == slotIndex && r[i].strength == strength && r[i].filename.None?
  {
    seq(|elems|, i requires 0 <= i < |elems| =>
      if elems[i].slotIndex == slotIndex then MergeElement(slotIndex, None, strength) else elems[i])
  }

  /** Of two weight changes for the same slot, the later one wins. */
  lemma UpdateStrengthLastWins(elems: seq<MergeElement>, slotIndex: SlotIndex, a: int, b: int)
    ensures UpdateStrength(UpdateStrength(elems, slotIndex, a), slotIndex, b) == UpdateStrength(elems, slotIndex, b)
  {
  }

  datatype MergeRequest = MergeRequest(voiceChangerType: string, command: string, files: seq<MergeElement>)

  predicate Positive(e: MergeElement) {
    e.strength > 0
  }

  /** `onMergeClicked`: an RVC "mix" request carrying the elements with a positive strength. */
  function MergeRequestFor(elems: seq<MergeElement>): (req: MergeRequest)
    ensures req.voiceChangerType == RVC && req.command == "mix"
    ensures forall i :: 0 <= i < |req.files| ==> req.files[i] in elems && req.files[i].strength > 0
    ensures forall i :: 0 <= i < |elems| && elems[i].strength > 0 ==> elems[i] in req.files
  {
    MergeRequest(RVC, "mix", Filter(elems, Positive))
  }

  /** The request keeps the elements' order and every positive occurrence. */
  lemma MergeRequestKeepsOrder(elems: seq<MergeElement>)
    ensures IsSubsequence(MergeRequestFor(elems).files, elems)
    ensures forall e :: multiset(MergeRequestFor(elems).files)[e] == if e.strength > 0 then multiset(elems)[e] else 0
  {
    FilterIsSubsequence(elems, Positive);
    forall e
      ensures multiset(MergeRequestFor(elems).files)[e] == if e.strength > 0 then multiset(elems)[e] else 0
    {
      FilterCount(elems, Positive, e);
    }
  }

  /** Merging right after the weights are seeded sends no files. */
  lemma NothingMergedBeforeWeighting(models: seq<ModelSlot>)
    ensures MergeRequestFor(InitialMergeElements(models)).files == []
  {
    FilterNone(InitialMergeElements(models), Positive);
  }

  /** After a weight change, that slot's element is sent exactly when the new weight is positive. */
  lemma WeightedSlotIsMerged(elems: seq<MergeElement>, slotIndex: SlotIndex, strength: int, i: nat)
    requires i < |elems| && elems[i].slotIndex == slotIndex
    ensures MergeElement(slotIndex, None, strength) in MergeRequestFor(UpdateStrength(elems, slotIndex, strength)).files
            <==> strength > 0
  {
    var r := UpdateStrength(elems, slotIndex, strength);
    var files := MergeRequestFor(r).files;
    assert r[i] == MergeElement(slotIndex, None, strength);
    if MergeElement(slotIndex, None, strength) in files {
      var k :| 0 <= k < |files| && files[k] == MergeElement(slotIndex, None, strength);
    }
  }
}
