/**
 * The speaker area: the slot it shows (the same selection rule as the character area), when
 * the source and destination speaker selectors appear, their options, and the id updates.
 */
module SpeakerArea {
  import opened Wrappers
  import opened Text
  import opened Settings
  import CharacterArea

  /** The speaker area's own copy of the slot selection. */
  function Selected(modelSlotIndex: Option<SlotIndex>, slots: seq<ModelSlot>): (r: Option<ModelSlot>)
    ensures r.Some? ==> modelSlotIndex.Some? && r.value in slots
  {
    if modelSlotIndex.None? then None
    else if modelSlotIndex.value == Named(BEATRICE_JVS) then FindSlot(slots, Named(BEATRICE_JVS))
    else SlotAt(slots, modelSlotIndex.value)
  }

  /** Both areas select the same slot outside the web edition. */
  lemma SameSelectionAsCharacterArea(webModelSlot: Option<ModelSlot>, modelSlotIndex: Option<SlotIndex>,
                                     slots: seq<ModelSlot>)
    ensures Selected(modelSlotIndex, slots) == CharacterArea.Selected(false, webModelSlot, modelSlotIndex, slots)
  {
  }

  predicate IsMmvc(voiceChangerType: string) {
    voiceChangerType == "MMVCv13" || voiceChangerType == "MMVCv15"
  }

  /** The source-speaker selector appears for a selected MMVC v1.3 or v1.5 slot. */
  function SrcSelectorShown(selected: Option<ModelSlot>): (shown: bool)
    ensures shown ==> selected.Some?
    ensures selected.Some? ==> (shown <==> IsMmvc(selected.value.voiceChangerType))
  {
    if selected.None? then false
    else if selected.value.voiceChangerType != "MMVCv13" && selected.value.voiceChangerType != "MMVCv15" then false
    else true
  }

  /** The destination selector appears for any selected slot except Beatrice JVS. */
  function DstSelectorShown(selected: Option<ModelSlot>): (shown: bool)
    ensures shown <==> selected.Some? && selected.value.slotIndex != Named(BEATRICE_JVS)
  {
    if selected.None? then false
    else if selected.value.slotIndex == Named(BEATRICE_JVS) then false
    else true
  }

  /** The destination row's title ("voice") appears for DDSP-SVC, so-vits-svc-40 and RVC. */
  function VoiceTitleShown(voiceChangerType: string): (shown: bool)
    ensures shown ==> !IsMmvc(voiceChangerType)
    ensures shown <==> voiceChangerType in {"DDSP-SVC", "so-vits-svc-40", RVC}
  {
    voiceChangerType == "DDSP-SVC" || voiceChangerType == "so-vits-svc-40" || voiceChangerType == RVC
  }

  /** The destination row's "dst" label appears for the MMVC types. */
  function DstLabelShown(voiceChangerType: string): (shown: bool)
    ensures shown <==> IsMmvc(voiceChangerType)
    ensures shown ==> !VoiceTitleShown(voiceChangerType)
  {
    voiceChangerType == "MMVCv13" || voiceChangerType == "MMVCv15"
  }

  /** When both selectors show, the destination row is labelled "dst" and carries no title. */
  lemma BothSelectorsAreMmvc(selected: Option<ModelSlot>)
    requires SrcSelectorShown(selected) && DstSelectorShown(selected)
    ensures DstLabelShown(selected.value.voiceChangerType)
    ensures !VoiceTitleShown(selected.value.voiceChangerType)
  {
  }

  /** `speakers[Number(key)]`: the name stored under a numeric key. */
  function SpeakerName(speakers: seq<Speaker>, id: nat): (r: Option<string>)
    ensures r.Some? <==> exists i :: 0 <= i < |speakers| && speakers[i].id == id
    ensures r.Some? ==> exists i :: 0 <= i < |speakers| && speakers[i].id == id && speakers[i].name == r.value
  {
    if speakers == [] then None
    else if speakers[0].id == id then Some(speakers[0].name)
    else
      var r := SpeakerName(speakers[1..], id);
      assert forall i :: 1 <= i < |speakers| ==> speakers[i] == speakers[1..][i - 1];
      r
  }

  datatype SpeakerOption = SpeakerOption(value: string, text: string)

  /** One option per speaker key: the key as value, and "name[key]" as label. */
  function SpeakerOptions(speakers: seq<Speaker>): (opts: seq<SpeakerOption>)
    ensures |opts| == |speakers|
    ensures forall i :: 0 <= i < |opts| ==> opts[i].value == NatToString(speakers[i].id)
  {
    seq(|speakers|, i requires 0 <= i < |speakers| =>
      var key := NatToString(speakers[i].id);
      SpeakerOption(key, SpeakerName(speakers, ParseNat(key)).GetOr("") + "[" + key + "]"))
  }

  ghost predicate DistinctIds(speakers: seq<Speaker>) {
    forall i, j :: 0 <= i < j < |speakers| ==> speakers[i].id != speakers[j].id
  }

  /** Each option reads back as its speaker's id and is labelled with that speaker's name. */
  lemma SpeakerOptionsMeaning(speakers: seq<Speaker>, i: nat)
    requires DistinctIds(speakers)
    requires i < |speakers|
    ensures ParseNat(SpeakerOptions(speakers)[i].value) == speakers[i].id
    ensures SpeakerOptions(speakers)[i].text == speakers[i].name + "[" + SpeakerOptions(speakers)[i].value + "]"
  {
    ParseNatRoundTrip(speakers[i].id);
    NameOfDistinctId(speakers, i);
  }

  lemma {:induction false} NameOfDistinctId(speakers: seq<Speaker>, i: nat)
    requires DistinctIds(speakers)
    requires i < |speakers|
    ensures SpeakerName(speakers, speakers[i].id) == Some(speakers[i].name)
  {
    if i > 0 {
      assert speakers[0].id != speakers[i].id;
      assert speakers[1..][i - 1] == speakers[i];
      NameOfDistinctId(speakers[1..], i - 1);
    }
  }

  /** Choosing a source speaker replaces `srcId` and nothing else. */
  function SrcIdChosen(server: ServerSetting, val: int): (r: ServerSetting)
    ensures r.srcId == val
    ensures r.(srcId := server.srcId) == server
  {
    server.(srcId := val)
  }

  /** Choosing a destination speaker replaces `dstId` and nothing else. */
  function DstIdChosen(server: ServerSetting, val: int): (r: ServerSetting)
    ensures r.dstId == val
    ensures r.(dstId := server.dstId) == server
  {
    server.(dstId := val)
  }

  /** Picking the i-th option sends exactly that speaker's id to the server. */
  lemma OptionChoiceSendsId(server: ServerSetting, speakers: seq<Speaker>, i: nat)
    requires i < |speakers|
    ensures SrcIdChosen(server, ParseNat(SpeakerOptions(speakers)[i].value)).srcId == speakers[i].id
    ensures DstIdChosen(server, ParseNat(SpeakerOptions(speakers)[i].value)).dstId == speakers[i].id
  {
    ParseNatRoundTrip(speakers[i].id);
  }
}
