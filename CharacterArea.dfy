/**
 * The character area: which slot is selected, the start/stop and pass-through buttons, the
 * gain routing between client and server, the web edition's loading view and the ONNX export.
 */
module CharacterArea {
  import opened Wrappers
  import opened Text
  import opened Settings
  import opened AppSession

  /** `selected`: the web model slot on the web edition, else the slot `modelSlotIndex` names. */
  function Selected(webEdition: bool, webModelSlot: Option<ModelSlot>, modelSlotIndex: Option<SlotIndex>,
                    slots: seq<ModelSlot>): (r: Option<ModelSlot>)
    ensures webEdition ==> r == webModelSlot
    ensures !webEdition && modelSlotIndex.None? ==> r.None?
    ensures !webEdition && r.Some? ==> r.value in slots
    ensures !webEdition && modelSlotIndex == Some(Named(BEATRICE_JVS)) ==>
              (r.Some? ==> r.value.slotIndex == Named(BEATRICE_JVS))
              && (r.Some? ==> exists k :: 0 <= k < |slots| && slots[k] == r.value
                                          && forall j :: 0 <= j < k ==> slots[j].slotIndex != Named(BEATRICE_JVS))
              && (r.None? <==> forall i :: 0 <= i < |slots| ==> slots[i].slotIndex != Named(BEATRICE_JVS))
    ensures (!webEdition && modelSlotIndex.Some? && modelSlotIndex.value.Named?
             && modelSlotIndex.value != Named(BEATRICE_JVS)) ==> r.None?
    ensures !webEdition && modelSlotIndex.Some? && modelSlotIndex.value.Num? ==>
              (r.Some? <==> 0 <= modelSlotIndex.value.n < |slots|)
              && (r.Some? ==> r.value == slots[modelSlotIndex.value.n])
  {
    if webEdition then webModelSlot
    else if modelSlotIndex.None? then None
    else if modelSlotIndex.value == Named(BEATRICE_JVS) then FindSlot(slots, Named(BEATRICE_JVS))
    else SlotAt(slots, modelSlotIndex.value)
  }

  /** `onStartClicked`: start the client audio, or ask the server to start its audio. */
  function StartClicked(st: GuiState): (r: GuiState)
    ensures r.isConverting
    ensures st.server.enableServerAudio == 0 ==> r == st.(isConverting := true, clientAudioRunning := true)
    ensures st.server.enableServerAudio != 0 ==>
              r == st.(isConverting := true, server := st.server.(serverAudioStated := 1))
  {
    if st.server.enableServerAudio == 0 then st.(isConverting := true, clientAudioRunning := true)
    else st.(server := st.server.(serverAudioStated := 1), isConverting := true)
  }

  /** `onStopClicked`: stop the client audio, or ask the server to stop its audio. */
  function StopClicked(st: GuiState): (r: GuiState)
    ensures !r.isConverting
    ensures st.server.enableServerAudio == 0 ==> r == st.(isConverting := false, clientAudioRunning := false)
    ensures st.server.enableServerAudio != 0 ==>
              r == st.(isConverting := false, server := st.server.(serverAudioStated := 0))
  {
    if st.server.enableServerAudio == 0 then st.(isConverting := false, clientAudioRunning := false)
    else st.(isConverting := false, server := st.server.(serverAudioStated := 0))
  }

  /** Stopping after starting leaves nothing running and everything else as it was. */
  lemma StopUndoesStart(st: GuiState)
    requires !st.isConverting
    requires st.server.enableServerAudio == 0 ==> !st.clientAudioRunning
    requires st.server.enableServerAudio != 0 ==> st.server.serverAudioStated == 0
    ensures StopClicked(StartClicked(st)) == st
  {
  }

  /** `onPassThroughClicked`: turn pass-through off, or on (directly or through the confirmation dialog). */
  function PassThroughClicked(st: GuiState): (r: GuiState)
    ensures st.server.passThrough ==> r == st.(server := st.server.(passThrough := false))
    ensures !st.server.passThrough && st.client.passThroughConfirmationSkip ==>
              r == st.(server := st.server.(passThrough := true), showEnablePassThroughDialog := false)
    ensures !st.server.passThrough && !st.client.passThroughConfirmationSkip ==>
              r == st.(showEnablePassThroughDialog := true)
  {
    if st.server.passThrough == false then
      if st.client.passThroughConfirmationSkip then
        st.(server := st.server.(passThrough := true), showEnablePassThroughDialog := false)
      else
        st.(showEnablePassThroughDialog := true)
    else
      st.(server := st.server.(passThrough := false))
  }

  /** The start and stop buttons' class names: exactly one of them is active. */
  function StartStopStyles(isConverting: bool): (styles: (ButtonStyle, ButtonStyle))
    ensures styles.0 == Active <==> isConverting
    ensures styles.1 == Active <==> !isConverting
  {
    if isConverting then (Active, Standby) else (Standby, Active)
  }

  /** The pass-through button's class name: active (blinking) while pass-through is on. */
  function PassThroughStyle(passThrough: bool): (style: ButtonStyle)
    ensures style == Active <==> passThrough
  {
    if passThrough == false then Standby else Active
  }

  /** The input gain the slider shows: the client's with browser audio, the server's with server audio. */
  function CurrentInputGain(st: GuiState): (g: real)
    ensures st.server.enableServerAudio == 0 ==> g == st.client.inputGain
    ensures st.server.enableServerAudio != 0 ==> g == st.server.serverInputAudioGain
  {
    if st.server.enableServerAudio == 0 then st.client.inputGain else st.server.serverInputAudioGain
  }

  /** The output gain the slider shows: the client's with browser audio, the server's with server audio. */
  function CurrentOutputGain(st: GuiState): (g: real)
    ensures st.server.enableServerAudio == 0 ==> g == st.client.outputGain
    ensures st.server.enableServerAudio != 0 ==> g == st.server.serverOutputAudioGain
  {
    if st.server.enableServerAudio == 0 then st.client.outputGain else st.server.serverOutputAudioGain
  }

  /** Moving the input-gain slider writes the one gain field the area shows. */
  function InputGainChanged(st: GuiState, val: real): (r: GuiState)
    ensures st.server.enableServerAudio == 0 ==> r == st.(client := st.client.(inputGain := val))
    ensures st.server.enableServerAudio != 0 ==> r == st.(server := st.server.(serverInputAudioGain := val))
  {
    if st.server.enableServerAudio == 0 then st.(client := st.client.(inputGain := val))
    else st.(server := st.server.(serverInputAudioGain := val))
  }

  /** Moving the output-gain slider writes the one gain field the area shows. */
  function OutputGainChanged(st: GuiState, val: real): (r: GuiState)
    ensures st.server.enableServerAudio == 0 ==> r == st.(client := st.client.(outputGain := val))
    ensures st.server.enableServerAudio != 0 ==> r == st.(server := st.server.(serverOutputAudioGain := val))
  {
    if st.server.enableServerAudio == 0 then st.(client := st.client.(outputGain := val))
    else st.(server := st.server.(serverOutputAudioGain := val))
  }

  /** The slider shows the value just set, and the other slider does not move. */
  lemma GainRoundTrip(st: GuiState, val: real)
    ensures CurrentInputGain(InputGainChanged(st, val)) == val
    ensures CurrentOutputGain(InputGainChanged(st, val)) == CurrentOutputGain(st)
    ensures CurrentOutputGain(OutputGainChanged(st, val)) == val
    ensures CurrentInputGain(OutputGainChanged(st, val)) == CurrentInputGain(st)
  {
  }

  datatype StartArea = LoadProgress | WarmupProgress | Controls(passThroughButton: bool) | InvalidLoadingState

  /** What the start-and-gain row shows; an unknown loading state on the web edition is an error. */
  function StartAreaFor(webEdition: bool, loadingState: string): (v: StartArea)
    ensures v.Controls? <==> !webEdition || loadingState == "ready"
    ensures v.Controls? ==> (v.passThroughButton <==> !webEdition)
    ensures v == LoadProgress <==> webEdition && (loadingState == "none" || loadingState == "loading")
    ensures v == WarmupProgress <==> webEdition && loadingState == "warmup"
    ensures v == InvalidLoadingState <==>
              webEdition && loadingState !in {"none", "loading", "warmup", "ready"}
  {
    if webEdition && loadingState != "ready" then
      if loadingState == "none" || loadingState == "loading" then LoadProgress
      else if loadingState == "warmup" then WarmupProgress
      else InvalidLoadingState
    else Controls(!webEdition)
  }

  /** The export-to-ONNX button appears for a selected RVC slot whose model file ends in "pth", outside the web edition. */
  function OnnxExportOffered(webEdition: bool, selected: Option<ModelSlot>): (offered: bool)
    ensures offered <==> !webEdition && selected.Some? && selected.value.voiceChangerType == RVC
                         && EndsWith(selected.value.modelFile, "pth")
  {
    if selected.None? then false
    else if webEdition then false
    else selected.value.voiceChangerType == RVC && EndsWith(selected.value.modelFile, "pth")
  }

  datatype OnnxExport = RefusedWhileConverting | Exporting

  /** Pressing export while converting only raises the alert. */
  function OnnxExportClicked(isConverting: bool): (r: OnnxExport)
    ensures r == RefusedWhileConverting <==> isConverting
  {
    if isConverting then RefusedWhileConverting else Exporting
  }

  method OnStartClicked(s: Session)
    modifies s
    ensures s.State() == StartClicked(old(s.State()))
    ensures StartStopStyles(s.isConverting) == (Active, Standby)
  {
    if s.server.enableServerAudio == 0 {
      s.isConverting := true;
      s.clientAudioRunning := true;
    } else {
      s.server := s.server.(serverAudioStated := 1);
      s.isConverting := true;
    }
  }

  method OnStopClicked(s: Session)
    modifies s
    ensures s.State() == StopClicked(old(s.State()))
    ensures StartStopStyles(s.isConverting) == (Standby, Active)
  {
    if s.server.enableServerAudio == 0 {
      s.isConverting := false;
      s.clientAudioRunning := false;
    } else {
      s.isConverting := false;
      s.server := s.server.(serverAudioStated := 0);
    }
  }

  method OnPassThroughClicked(s: Session)
    modifies s
    ensures s.State() == PassThroughClicked(old(s.State()))
  {
    if s.server.passThrough == false {
      if s.client.passThroughConfirmationSkip {
        s.server := s.server.(passThrough := true);
        s.showEnablePassThroughDialog := false;
      } else {
        s.showEnablePassThroughDialog := true;
      }
    } else {
      s.server := s.server.(passThrough := false);
    }
  }
}
