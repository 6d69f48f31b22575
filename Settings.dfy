/**
 * The records the components read from the application-state providers: model slots,
 * the server setting, the client setting and the worklet-node setting. Only the fields
 * the modelled logic reads or writes are kept.
 */
module Settings {
  import opened Wrappers

  /** A slot index is a number, or a named slot such as "Beatrice-JVS". */
  datatype SlotIndex = Num(n: int) | Named(name: string)

  const BEATRICE_JVS: string := "Beatrice-JVS"

  const RVC: string := "RVC"

  /** One entry of a slot's speaker table: the numeric key and the speaker's name. */
  datatype Speaker = Speaker(id: nat, name: string)

  datatype ModelSlot = ModelSlot(
    slotIndex: SlotIndex,
    voiceChangerType: string,
    modelType: string,
    samplingRate: int,
    embChannels: int,
    /** "" stands for a missing model file. */
    modelFile: string,
    name: string,
    /** The speaker table in the order its keys are enumerated. */
    speakers: seq<Speaker>)

  datatype Gpu = Gpu(id: int, name: string, memory: int)

  datatype ServerSetting = ServerSetting(
    modelSlotIndex: Option<SlotIndex>,
    modelSlots: seq<ModelSlot>,
    gpus: seq<Gpu>,
    gpu: int,
    /** 0 stands for an absent (falsy) limit. */
    maxInputLength: int,
    extraConvertSize: int,
    serverReadChunkSize: int,
    enableServerAudio: int,
    serverAudioStated: int,
    passThrough: bool,
    serverInputAudioGain: real,
    serverOutputAudioGain: real,
    srcId: int,
    dstId: int,
    f0Detector: string)

  datatype ClientSetting = ClientSetting(
    inputGain: real,
    outputGain: real,
    passThroughConfirmationSkip: bool,
    echoCancel: bool,
    noiseSuppression: bool,
    noiseSuppression2: bool)

  datatype WorkletNodeSetting = WorkletNodeSetting(inputChunkNum: int)

  /** The two class names a toggle button switches between. */
  datatype ButtonStyle = Active | Standby

  /** The position `slots.find(v => v.slotIndex == index)` stops at. */
  function FindSlotIndex(slots: seq<ModelSlot>, index: SlotIndex): (r: Option<nat>)
    ensures r.Some? ==> r.value < |slots| && slots[r.value].slotIndex == index
    ensures r.Some? ==> forall j :: 0 <= j < r.value ==> slots[j].slotIndex != index
    ensures r.None? <==> forall j :: 0 <= j < |slots| ==> slots[j].slotIndex != index
  {
    if slots == [] then None
    else if slots[0].slotIndex == index then Some(0)
    else match FindSlotIndex(slots[1..], index)
      case None => None
      case Some(k) => Some(k + 1)
  }

  /** `slots.find(v => v.slotIndex == index)`: the first slot with that index. */
  function FindSlot(slots: seq<ModelSlot>, index: SlotIndex): (r: Option<ModelSlot>)
    ensures r.Some? ==> r.value in slots && r.value.slotIndex == index
    ensures r.Some? ==> exists k :: 0 <= k < |slots| && slots[k] == r.value
                                    && forall j :: 0 <= j < k ==> slots[j].slotIndex != index
    ensures r.None? <==> forall i :: 0 <= i < |slots| ==> slots[i].slotIndex != index
  {
    match FindSlotIndex(slots, index)
    case None => None
    case Some(i) => Some(slots[i])
  }

  /** `modelSlots[index]`: the slot at a numeric index, nothing outside the list or for a name. */
  function SlotAt(slots: seq<ModelSlot>, index: SlotIndex): (r: Option<ModelSlot>)
    ensures r.Some? <==> index.Num? && 0 <= index.n < |slots|
    ensures r.Some? ==> r.value == slots[index.n]
  {
    if index.Num? && 0 <= index.n < |slots| then Some(slots[index.n]) else None
  }
}
