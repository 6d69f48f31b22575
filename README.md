# Voice-changer demo UI: a verified model of its decision logic

This project models the logic inside the React front end of a real-time voice changer.
The rest of the front end is markup, and is not modelled. The modelled parts are:

- **Message registry.** Each `useMessageBuilder` hook owns a list of message entries. An entry is `(file, id, {language -> text})`.
  - Registration only appends, and the first entry for a `(file, id)` pair wins.
  - Lookup uses the current language and falls back to `"unknown message"`.
  - The language is one of `zh`, `ja`, `ko`, `en`. It starts from the saved preference, or else from the browser locale.
- **Merge-lab dialog.**
  - The slot-change key.
  - The table of merge filters. RVC model slots are grouped by `"modelType,samplingRate,embChannels"`, the first slot per key is kept, and ONNX slots and slots without a model file are skipped.
  - The models that match the chosen filter.
  - The merge weights.
  - The merge request, which carries only the positive weights.
- **Convert area.**
  - The chunk-size options, limited by the server's maximum input length.
  - The GPU list, with a CPU entry added at the end.
  - The five DirectML GPU buttons, of which at most one is active.
  - The extra-convert sizes.
  - The setting updates.
- **Character area.**
  - Which model slot is selected.
  - Start and stop, routed to client audio or server audio.
  - The pass-through button.
  - Button styles.
  - Gain routing between the client setting and the server setting.
  - The web edition's loading view.
  - When the ONNX export is offered.
- **Pass-through confirmation dialog.** OK and Cancel. Together with the pass-through button they form a three-event state machine.
- **Speaker area.**
  - The same slot selection as the character area.
  - When the source and destination speaker selectors appear.
  - The speaker options.
  - The `srcId` and `dstId` updates.
- **Quality area.**
  - The F0-detector options. On the DirectML edition only `crepe_tiny` and `rmvpe_onnx` are enabled.
  - Which rows show.
  - When the noise checkboxes are disabled.
  - The single-field updates.
- **Text-input dialog.** OK and Cancel resolve the pending promise with the typed text or with `""`. Both clear the resolver, so each resolver is resolved at most once.

Data that is a value is modelled as a `datatype`: model slots, settings records, messages and filter tables.
Code that changes things in place is imperative Dafny:

- The message registry is the class `Messages.MessageBuilder`.
- The shared provider state that the click handlers write is the class `AppSession.Session`.
- The `filterItems` reduce, which updates its accumulator dictionary, is the loop `MergeLab.BuildFilterItems`.
- The reassigned chunk-size list is the method `ConvertArea.ChunkSizeOptions`.

Each handler method states its new session state as a pure function of the old state. The lemmas are proved about those functions.

Some JavaScript behaviour is modelled explicitly:

- `find` returns the first match.
- `a || b` falls back on an empty string as well as on a missing value.
- `Number(key)` on a speaker key is `Text.ParseNat`. It is proved to invert the key printer `Text.NatToString`.
- `x < maxInputLength / 128` is stated on reals. It is proved equal to `x * 128 < maxInputLength`.
- A falsy `maxInputLength` is `0`.
- A missing model file is `""`.
- The keys of `filterItems` are kept in insertion order. They contain commas, so JavaScript never reorders them as integer keys.

## Model

| member | source | states |
|---|---|---|
| Messages.FindIndex | voice-changer-better-main/client/demo/src/hooks/useMessageBuilder.ts:41 | the result is the first entry with the given (file, id); None exactly when no entry has it |
| Messages.TextIn | voice-changer-better-main/client/demo/src/hooks/useMessageBuilder.ts:49 | never empty; the stored translation for the language when it is present and non-empty, the sentinel `"unknown message"` otherwise |
| Messages.Lookup | voice-changer-better-main/client/demo/src/hooks/useMessageBuilder.ts:48-50 | never empty; either the sentinel or the current-language text of an entry registered for (file, id) |
| Messages.Register | voice-changer-better-main/client/demo/src/hooks/useMessageBuilder.ts:40-46 | the list only grows, by at most one entry; it grows exactly when no entry has the pair, and the new entry is the last; afterwards the pair is present |
| Messages.RegisterKeepsKeysUnique | voice-changer-better-main/client/demo/src/hooks/useMessageBuilder.ts:40-46 | registration keeps all (file, id) pairs distinct |
| Messages.LookupRegistered | voice-changer-better-main/client/demo/src/hooks/useMessageBuilder.ts:48-50 | with distinct pairs, the lookup of a registered entry is that entry's text for the language (or the sentinel) |
| Messages.LookupFound | voice-changer-better-main/client/demo/src/hooks/useMessageBuilder.ts:48-50 | with distinct pairs, a registered entry with a non-empty translation for the language is shown as exactly that translation |
| Messages.LookupUntranslated | voice-changer-better-main/client/demo/src/hooks/useMessageBuilder.ts:48-50 | with distinct pairs, a registered entry with no or an empty translation for the language is shown as the sentinel |
| Messages.GreetingExample | voice-changer-better-main/client/demo/src/hooks/useMessageBuilder.ts:39-50 | one registered greeting reads "Hello" in English and its Japanese text in Japanese; another language or another id reads as the sentinel |
| Messages.LookupUnregistered | voice-changer-better-main/client/demo/src/hooks/useMessageBuilder.ts:49 | a pair nobody registered reads as `"unknown message"` |
| Messages.FindIndexPrefix | voice-changer-better-main/client/demo/src/hooks/useMessageBuilder.ts:41-44 | pushing entries never moves the entry that `find` stops at |
| Messages.FindIndexAppendNew | voice-changer-better-main/client/demo/src/hooks/useMessageBuilder.ts:44 | pushing the first entry for a pair makes `find` stop at it |
| Messages.FindIndexStable | voice-changer-better-main/client/demo/src/hooks/useMessageBuilder.ts:40-46 | once a pair is registered, later registrations never change which entry `find` returns |
| Messages.NotRegisteredBefore | voice-changer-better-main/client/demo/src/hooks/useMessageBuilder.ts:40-46 | a pair that no registration carries is absent after any run of registrations |
| Messages.FirstRegistrationAppends | voice-changer-better-main/client/demo/src/hooks/useMessageBuilder.ts:40-46 | the first registration of a new pair appends exactly that entry |
| Messages.FirstRegistrationKept | voice-changer-better-main/client/demo/src/hooks/useMessageBuilder.ts:40-46 | after any later registrations, `find` for that pair still returns the first registration, at the position where it was appended |
| Messages.EntryKeptAfter | voice-changer-better-main/client/demo/src/hooks/useMessageBuilder.ts:40-46 | the entry `find` stops at keeps its position and content under any later registrations |
| Messages.RegisterAllSplit | voice-changer-better-main/client/demo/src/hooks/useMessageBuilder.ts:40-46 | a run of registrations is its first part followed by the rest |
| Messages.RegisterAllExtends | voice-changer-better-main/client/demo/src/hooks/useMessageBuilder.ts:44 | a run of registrations only appends |
| Messages.RegisterAllStep | voice-changer-better-main/client/demo/src/hooks/useMessageBuilder.ts:40-46 | registering one more entry is one more `setMessage` step |
| Messages.RegisterAllAppend | voice-changer-better-main/client/demo/src/hooks/useMessageBuilder.ts:40-46 | registering two runs in turn is registering their concatenation |
| Messages.FirstRegistrationWins | voice-changer-better-main/client/demo/src/hooks/useMessageBuilder.ts:41-49 | the text shown for a pair is that of its first registration; later duplicates are ignored |
| Messages.InitialLanguage | voice-changer-better-main/client/demo/src/hooks/useMessageBuilder.ts:20-36 | always a supported language; a supported saved preference is used as is |
| Messages.InitialLanguageFromLocale | voice-changer-better-main/client/demo/src/hooks/useMessageBuilder.ts:26-35 | without a usable preference: zh, ja or ko exactly when the locale starts with it, else en |
| Messages.EmptyTranslationIsUnknown | voice-changer-better-main/client/demo/src/components/demo/903_StartingNoticeDialog.tsx:56-61 | the English `web_edditon_3`, registered as `""`, reads as `"unknown message"` |
| Messages.MessageBuilder.constructor | voice-changer-better-main/client/demo/src/hooks/useMessageBuilder.ts:17-38 | an empty registry whose language is the initial language for the saved preference and locale |
| Messages.MessageBuilder.SetMessage | voice-changer-better-main/client/demo/src/hooks/useMessageBuilder.ts:40-46 | a registered pair leaves the list unchanged, a new one is pushed at the end; pairs stay distinct; the language is untouched |
| Messages.MessageBuilder.GetMessage | voice-changer-better-main/client/demo/src/hooks/useMessageBuilder.ts:48-50 | returns the registered text for the current language of the entry with that pair (exactly its translation when that is non-empty), the sentinel when there is none, and changes nothing |
| Messages.MessageBuilder.SetLanguage | voice-changer-better-main/client/demo/src/hooks/useMessageBuilder.ts:52-56 | a supported code becomes the current and the saved language; any other code changes nothing; the registry is untouched |
| Messages.SavedLanguageSurvivesReload | voice-changer-better-main/client/demo/src/hooks/useMessageBuilder.ts:20-24 | a supported language that was saved is the language a reload starts with |
| Settings.FindSlotIndex | voice-changer-better-main/client/demo/src/components/demo/components2/101_CharacterArea.tsx:138 | the first slot with the given index; None exactly when no slot has it |
| Settings.FindSlot | voice-changer-better-main/client/demo/src/components/demo/components2/101_CharacterArea.tsx:138 | a found slot carries the index and is the first slot that does; None exactly when no slot has it |
| Settings.SlotAt | voice-changer-better-main/client/demo/src/components/demo/components2/101_CharacterArea.tsx:141 | a slot exactly for a numeric index inside the list, and then the slot at that position |
| Text.ParseNatRoundTrip | voice-changer-better-main/client/demo/src/components/demo/components2/101-3_SpeakerArea.tsx:51-52 | `Number` applied to a printed speaker key gives the key back |
| Text.NatToString | voice-changer-better-main/client/demo/src/components/demo/components2/101-3_SpeakerArea.tsx:51 | a key prints as a non-empty run of decimal digits, one digit exactly below 10, with no leading zero (it starts with '0' only for 0) |
| Text.IntToString | voice-changer-better-main/client/demo/src/components/demo/905_MergeLabDialog.tsx:66 | a number prints as its decimal digits, preceded by '-' exactly when negative; reading the digits back gives its magnitude |
| Text.IntToStringInjective | voice-changer-better-main/client/demo/src/components/demo/905_MergeLabDialog.tsx:66 | two numbers print alike only when they are equal, so the filter key tells sampling rates and channel counts apart |
| MergeLab.SlotChangeKey | voice-changer-better-main/client/demo/src/components/demo/905_MergeLabDialog.tsx:50-57 | empty exactly for no slots; at least one character per slot |
| MergeLab.SlotChangeKeySingle | voice-changer-better-main/client/demo/src/components/demo/905_MergeLabDialog.tsx:54-56 | one slot contributes "_" followed by its model file; with the concatenation law this fixes the key as the in-order join over all slots |
| MergeLab.SlotChangeKeyAppend | voice-changer-better-main/client/demo/src/components/demo/905_MergeLabDialog.tsx:54-56 | the key of a concatenation of slot lists is the concatenation of their keys |
| MergeLab.AddSlot | voice-changer-better-main/client/demo/src/components/demo/905_MergeLabDialog.tsx:61-78 | existing keys stay, in order, and at most one key is appended; a qualifying slot's key is present afterwards; the table changes only for a qualifying slot with a new key, which is mapped to that slot's type, rate and channels |
| MergeLab.FilterItems | voice-changer-better-main/client/demo/src/components/demo/905_MergeLabDialog.tsx:59-81 | the reduce from the empty table adds at most one key per slot (what the keys and entries are is stated by the lemmas below) |
| MergeLab.BuildFilterItems | voice-changer-better-main/client/demo/src/components/demo/905_MergeLabDialog.tsx:59-82 | the in-place reduce yields exactly the table of the reference fold `FilterItems` |
| MergeLab.AddSlotStep | voice-changer-better-main/client/demo/src/components/demo/905_MergeLabDialog.tsx:61-78 | one reduce step keeps keys distinct, keeps every entry, and adds only the key of a qualifying slot |
| MergeLab.FilterItemsWellFormed | voice-changer-better-main/client/demo/src/components/demo/905_MergeLabDialog.tsx:59-81 | the keys are distinct and are exactly the entries' keys |
| MergeLab.FilterItemsComplete | voice-changer-better-main/client/demo/src/components/demo/905_MergeLabDialog.tsx:62-77 | every qualifying slot's key is in the table |
| MergeLab.FilterItemsSound | voice-changer-better-main/client/demo/src/components/demo/905_MergeLabDialog.tsx:66-77 | every entry holds the values of the first qualifying slot with its key |
| MergeLab.FirstWithKeyInPrefix | voice-changer-better-main/client/demo/src/components/demo/905_MergeLabDialog.tsx:75-77 | being the first qualifying slot with a key does not depend on later slots |
| MergeLab.FilterItemsFacts | voice-changer-better-main/client/demo/src/components/demo/905_MergeLabDialog.tsx:62-77 | keys are distinct and match the entries; every qualifying slot's key is present; every entry holds the type, rate and channels of the first qualifying slot with that key |
| MergeLab.FirstKeyIsFirstQualifying | voice-changer-better-main/client/demo/src/components/demo/905_MergeLabDialog.tsx:75-77 | the first key of the table is that of the first qualifying slot, and it holds that slot's type, rate and channels |
| MergeLab.NoQualifyingSlotNoFilter | voice-changer-better-main/client/demo/src/components/demo/905_MergeLabDialog.tsx:62-74 | without a qualifying slot (RVC, with model file, not ONNX) the table is empty |
| MergeLab.Models | voice-changer-better-main/client/demo/src/components/demo/905_MergeLabDialog.tsx:84-100 | empty when the filter key is absent; exactly the RVC slots matching the filter's type, rate and channels |
| MergeLab.ModelsKeepOrder | voice-changer-better-main/client/demo/src/components/demo/905_MergeLabDialog.tsx:84-100 | the models are an order-preserving sub-list holding every matching occurrence |
| MergeLab.ModelsAreNotOnnx | voice-changer-better-main/client/demo/src/components/demo/905_MergeLabDialog.tsx:72-94 | with filters built from the same slots, no ONNX model is offered |
| MergeLab.ResetFilter | voice-changer-better-main/client/demo/src/components/demo/905_MergeLabDialog.tsx:102-106 | a non-empty table resets the filter to one of its keys; an empty one leaves it alone |
| MergeLab.FirstQualifyingSlotIsOffered | voice-changer-better-main/client/demo/src/components/demo/905_MergeLabDialog.tsx:84-106 | after the reset, the first qualifying slot is among the models |
| MergeLab.InitialMergeElements | voice-changer-better-main/client/demo/src/components/demo/905_MergeLabDialog.tsx:107-113 | one element per model, in order, with its slot index and file and strength 0 |
| MergeLab.UpdateStrength | voice-changer-better-main/client/demo/src/components/demo/905_MergeLabDialog.tsx:143-152 | length and order kept; elements of other slots untouched; the matching ones get the strength and lose the file name |
| MergeLab.UpdateStrengthLastWins | voice-changer-better-main/client/demo/src/components/demo/905_MergeLabDialog.tsx:143-152 | of two weight changes for a slot, the later one wins |
| MergeLab.MergeRequestFor | voice-changer-better-main/client/demo/src/components/demo/905_MergeLabDialog.tsx:154-163 | an RVC "mix" request whose files are elements with positive strength, and all of them |
| MergeLab.MergeRequestKeepsOrder | voice-changer-better-main/client/demo/src/components/demo/905_MergeLabDialog.tsx:155-157 | the files keep the elements' order and every positive occurrence |
| MergeLab.NothingMergedBeforeWeighting | voice-changer-better-main/client/demo/src/components/demo/905_MergeLabDialog.tsx:109-111 | merging straight after seeding sends no files |
| MergeLab.WeightedSlotIsMerged | voice-changer-better-main/client/demo/src/components/demo/905_MergeLabDialog.tsx:143-157 | after a weight change the slot's element is sent exactly when the weight is positive |
| ConvertArea.FitsInputInIntegers | voice-changer-better-main/client/demo/src/components/demo/components2/102-2_ConvertArea.tsx:82 | `x < maxInputLength / 128` holds exactly when `x * 128 < maxInputLength` |
| ConvertArea.ChunkSizeOptions | voice-changer-better-main/client/demo/src/components/demo/components2/102-2_ConvertArea.tsx:74-84 | the given list, or the fixed list 8..16384; with a limit, exactly the candidates below it, each as often as in the candidates, in their order |
| ConvertArea.FittingCandidates | voice-changer-better-main/client/demo/src/components/demo/components2/102-2_ConvertArea.tsx:80-84 | filtering by the limit keeps the candidates' order, keeps every occurrence of a candidate below the limit and drops every other |
| ConvertArea.GpuEntries | voice-changer-better-main/client/demo/src/components/demo/components2/102-2_ConvertArea.tsx:86-91 | the server's GPU list unchanged followed by one CPU entry (id -1, "cpu", 0) |
| ConvertArea.GpuEntryIds | voice-changer-better-main/client/demo/src/components/demo/components2/102-2_ConvertArea.tsx:86-91 | the selector offers exactly the server's GPU ids and -1 |
| ConvertArea.DmlButtonStyles | voice-changer-better-main/client/demo/src/components/demo/components2/102-2_ConvertArea.tsx:96-100 | five styles; a button is active exactly when its GPU id is the current one |
| ConvertArea.OneDmlButtonActive | voice-changer-better-main/client/demo/src/components/demo/components2/102-2_ConvertArea.tsx:96-100 | exactly one button is active for a gpu of -1..3, none otherwise |
| ConvertArea.GpuControlFor | voice-changer-better-main/client/demo/src/components/demo/components2/102-2_ConvertArea.tsx:102-197 | buttons on the DirectML edition, nothing on the web edition, else a selector over the GPU entries |
| ConvertArea.GpuSelected | voice-changer-better-main/client/demo/src/components/demo/components2/102-2_ConvertArea.tsx:110-158 | only `gpu` changes; for a button id, exactly one button is active afterwards |
| ConvertArea.ExtraConvertSizes | voice-changer-better-main/client/demo/src/components/demo/components2/102-2_ConvertArea.tsx:213 | six sizes from 4096, each double the previous |
| ConvertArea.ExtraConvertSizeSelected | voice-changer-better-main/client/demo/src/components/demo/components2/102-2_ConvertArea.tsx:208-209 | only `extraConvertSize` changes |
| ConvertArea.ChunkSizeSelected | voice-changer-better-main/client/demo/src/components/demo/components2/102-2_ConvertArea.tsx:232-235 | `inputChunkNum` and `serverReadChunkSize` both become the chosen size; nothing else changes |
| CharacterArea.Selected | voice-changer-better-main/client/demo/src/components/demo/components2/101_CharacterArea.tsx:131-143 | the web model slot on the web edition; else none for no index, the first Beatrice-JVS slot in the list for that name (none without one), none for any other name, the slot at a numeric index inside the list |
| CharacterArea.StartClicked | voice-changer-better-main/client/demo/src/components/demo/components2/101_CharacterArea.tsx:171-191 | converting; client audio started with client audio, `serverAudioStated` 1 with server audio; nothing else changes |
| CharacterArea.StopClicked | voice-changer-better-main/client/demo/src/components/demo/components2/101_CharacterArea.tsx:192-200 | not converting; client audio stopped, or `serverAudioStated` 0; nothing else changes |
| CharacterArea.StopUndoesStart | voice-changer-better-main/client/demo/src/components/demo/components2/101_CharacterArea.tsx:171-200 | stopping after starting from an idle state restores that state |
| CharacterArea.PassThroughClicked | voice-changer-better-main/client/demo/src/components/demo/components2/101_CharacterArea.tsx:201-212 | on turns off; off with skip turns on and hides the dialog; off without skip only shows the dialog |
| CharacterArea.StartStopStyles | voice-changer-better-main/client/demo/src/components/demo/components2/101_CharacterArea.tsx:213-214 | start active exactly while converting, stop active exactly while not |
| CharacterArea.PassThroughStyle | voice-changer-better-main/client/demo/src/components/demo/components2/101_CharacterArea.tsx:215 | active exactly while pass-through is on |
| CharacterArea.CurrentInputGain | voice-changer-better-main/client/demo/src/components/demo/components2/101_CharacterArea.tsx:217 | the input slider shows the client input gain with client audio, the server input gain with server audio |
| CharacterArea.CurrentOutputGain | voice-changer-better-main/client/demo/src/components/demo/components2/101_CharacterArea.tsx:227 | the output slider shows the client output gain with client audio, the server output gain with server audio |
| CharacterArea.InputGainChanged | voice-changer-better-main/client/demo/src/components/demo/components2/101_CharacterArea.tsx:217-225 | writes the client input gain with client audio, the server input gain otherwise, and nothing else |
| CharacterArea.OutputGainChanged | voice-changer-better-main/client/demo/src/components/demo/components2/101_CharacterArea.tsx:227-235 | writes the client output gain with client audio, the server output gain otherwise, and nothing else |
| CharacterArea.GainRoundTrip | voice-changer-better-main/client/demo/src/components/demo/components2/101_CharacterArea.tsx:217-235 | a slider shows the value just set; the other slider does not move |
| CharacterArea.StartAreaFor | voice-changer-better-main/client/demo/src/components/demo/components2/101_CharacterArea.tsx:237-278 | controls outside the web edition or when ready (pass-through button only outside the web edition); load progress for none/loading, warm-up for warmup, an error otherwise |
| CharacterArea.OnnxExportOffered | voice-changer-better-main/client/demo/src/components/demo/components2/101_CharacterArea.tsx:333-369 | offered exactly outside the web edition for a selected RVC slot whose model file ends in "pth" |
| CharacterArea.OnnxExportClicked | voice-changer-better-main/client/demo/src/components/demo/components2/101_CharacterArea.tsx:344-348 | refused exactly while converting |
| CharacterArea.OnStartClicked | voice-changer-better-main/client/demo/src/components/demo/components2/101_CharacterArea.tsx:171-191 | the session moves by `StartClicked`; the start button becomes the active one |
| CharacterArea.OnStopClicked | voice-changer-better-main/client/demo/src/components/demo/components2/101_CharacterArea.tsx:192-200 | the session moves by `StopClicked`; the stop button becomes the active one |
| CharacterArea.OnPassThroughClicked | voice-changer-better-main/client/demo/src/components/demo/components2/101_CharacterArea.tsx:201-212 | the session moves by `PassThroughClicked` |
| PassThroughDialog.ConfirmOk | voice-changer-better-main/client/demo/src/components/demo/909_EnablePassThroughDialog.tsx:42-45 | pass-through on, every other server field unchanged, dialog hidden, nothing else changes |
| PassThroughDialog.ConfirmCancel | voice-changer-better-main/client/demo/src/components/demo/909_EnablePassThroughDialog.tsx:50-53 | dialog hidden; the server setting and everything else unchanged |
| PassThroughDialog.PassThroughOnlyByConsent | voice-changer-better-main/client/demo/src/components/demo/909_EnablePassThroughDialog.tsx:42-53 | pass-through turns on only by OK or by a click with the confirmation skipped |
| PassThroughDialog.StepTouchesOnlyPassThrough | voice-changer-better-main/client/demo/src/components/demo/909_EnablePassThroughDialog.tsx:42-53 | the button and both dialog buttons change only `passThrough` and the dialog flag |
| PassThroughDialog.StepKeepsDialogConsistent | voice-changer-better-main/client/demo/src/components/demo/909_EnablePassThroughDialog.tsx:42-53 | the dialog is shown only while pass-through is off, and every event keeps this |
| PassThroughDialog.RunKeepsDialogConsistent | voice-changer-better-main/client/demo/src/components/demo/909_EnablePassThroughDialog.tsx:42-53 | any sequence of events keeps the dialog shown only while pass-through is off |
| PassThroughDialog.RunOnlyOnByConsent | voice-changer-better-main/client/demo/src/components/demo/909_EnablePassThroughDialog.tsx:43 | if the confirmation is never skipped, pass-through ends on only if OK was pressed |
| PassThroughDialog.ButtonsHideDialog | voice-changer-better-main/client/demo/src/components/demo/909_EnablePassThroughDialog.tsx:44-52 | whatever events came before, a run ending with OK or Cancel leaves the dialog hidden |
| PassThroughDialog.CancelUndoesOpening | voice-changer-better-main/client/demo/src/components/demo/909_EnablePassThroughDialog.tsx:50-53 | cancelling a dialog the button opened restores the state before the click |
| PassThroughDialog.OkMatchesSkippedConfirmation | voice-changer-better-main/client/demo/src/components/demo/909_EnablePassThroughDialog.tsx:42-45 | confirming has the same effect as clicking with the confirmation skipped |
| PassThroughDialog.OnOk | voice-changer-better-main/client/demo/src/components/demo/909_EnablePassThroughDialog.tsx:42-45 | the session moves by `ConfirmOk` |
| PassThroughDialog.OnCancel | voice-changer-better-main/client/demo/src/components/demo/909_EnablePassThroughDialog.tsx:50-53 | the session moves by `ConfirmCancel` |
| SpeakerArea.Selected | voice-changer-better-main/client/demo/src/components/demo/components2/101-3_SpeakerArea.tsx:32-41 | a selected slot needs an index and comes from the slot list |
| SpeakerArea.SameSelectionAsCharacterArea | voice-changer-better-main/client/demo/src/components/demo/components2/101-3_SpeakerArea.tsx:32-41 | selects the same slot as the character area does outside the web edition |
| SpeakerArea.SrcSelectorShown | voice-changer-better-main/client/demo/src/components/demo/components2/101-3_SpeakerArea.tsx:43-50 | shown exactly for a selected MMVCv13 or MMVCv15 slot |
| SpeakerArea.DstSelectorShown | voice-changer-better-main/client/demo/src/components/demo/components2/101-3_SpeakerArea.tsx:86-92 | shown exactly for a selected slot other than Beatrice-JVS |
| SpeakerArea.VoiceTitleShown | voice-changer-better-main/client/demo/src/components/demo/components2/101-3_SpeakerArea.tsx:109 | exactly for DDSP-SVC, so-vits-svc-40 and RVC, never for an MMVC type |
| SpeakerArea.DstLabelShown | voice-changer-better-main/client/demo/src/components/demo/components2/101-3_SpeakerArea.tsx:112 | exactly for the MMVC types, and then no title |
| SpeakerArea.BothSelectorsAreMmvc | voice-changer-better-main/client/demo/src/components/demo/components2/101-3_SpeakerArea.tsx:48-112 | when both selectors show, the destination row is labelled "dst" and has no title |
| SpeakerArea.SpeakerName | voice-changer-better-main/client/demo/src/components/demo/components2/101-3_SpeakerArea.tsx:52 | a name exactly when some speaker has the id, and then one such speaker's name |
| SpeakerArea.SpeakerOptions | voice-changer-better-main/client/demo/src/components/demo/components2/101-3_SpeakerArea.tsx:51-58 | one option per speaker key, in order, whose value is the printed key |
| SpeakerArea.SpeakerOptionsMeaning | voice-changer-better-main/client/demo/src/components/demo/components2/101-3_SpeakerArea.tsx:94-101 | an option's value reads back as its speaker's id, and its text is "name[key]" |
| SpeakerArea.NameOfDistinctId | voice-changer-better-main/client/demo/src/components/demo/components2/101-3_SpeakerArea.tsx:52 | with distinct keys, the name looked up by a speaker's key is that speaker's name |
| SpeakerArea.SrcIdChosen | voice-changer-better-main/client/demo/src/components/demo/components2/101-3_SpeakerArea.tsx:60-62 | only `srcId` changes |
| SpeakerArea.DstIdChosen | voice-changer-better-main/client/demo/src/components/demo/components2/101-3_SpeakerArea.tsx:103-105 | only `dstId` changes |
| SpeakerArea.OptionChoiceSendsId | voice-changer-better-main/client/demo/src/components/demo/components2/101-3_SpeakerArea.tsx:73-74 | choosing an option sets `srcId` (or `dstId`) to that speaker's id |
| QualityArea.DetectorOptionFor | voice-changer-better-main/client/demo/src/components/demo/components2/102-1_QualityArea.tsx:65-77 | value is the detector; disabled exactly on DirectML for a detector that is not recommended, and then labelled with "(N/A)" |
| QualityArea.F0DetOptions | voice-changer-better-main/client/demo/src/components/demo/components2/102-1_QualityArea.tsx:61-88 | same length and order as the detectors; on DirectML enabled exactly for crepe_tiny and rmvpe_onnx, others "(N/A)"; elsewhere all enabled with their own names |
| QualityArea.PickableDetectors | voice-changer-better-main/client/demo/src/components/demo/components2/102-1_QualityArea.tsx:62-86 | the enabled values are the recommended detectors in order on DirectML, and all detectors elsewhere |
| QualityArea.PickableOnDirectMl | voice-changer-better-main/client/demo/src/components/demo/components2/102-1_QualityArea.tsx:62-78 | on DirectML the enabled values are the recommended detectors, in order |
| QualityArea.PickableElsewhere | voice-changer-better-main/client/demo/src/components/demo/components2/102-1_QualityArea.tsx:79-86 | on other editions the enabled values are all detectors, in order |
| QualityArea.OptionTextShowsValue | voice-changer-better-main/client/demo/src/components/demo/components2/102-1_QualityArea.tsx:65-77 | an option's text starts with its value and equals it exactly when enabled |
| QualityArea.QualityRows | voice-changer-better-main/client/demo/src/components/demo/components2/102-1_QualityArea.tsx:57-110 | nothing without every provider piece; the F0 and threshold rows exactly outside the web edition |
| QualityArea.NoiseCheckboxesDisabled | voice-changer-better-main/client/demo/src/components/demo/components2/102-1_QualityArea.tsx:146-176 | disabled exactly when `enableServerAudio != 0` |
| QualityArea.EchoCancelChanged | voice-changer-better-main/client/demo/src/components/demo/components2/102-1_QualityArea.tsx:148-150 | only `echoCancel` changes |
| QualityArea.NoiseSuppressionChanged | voice-changer-better-main/client/demo/src/components/demo/components2/102-1_QualityArea.tsx:163-165 | only `noiseSuppression` changes |
| QualityArea.NoiseSuppression2Changed | voice-changer-better-main/client/demo/src/components/demo/components2/102-1_QualityArea.tsx:178-180 | only `noiseSuppression2` changes |
| QualityArea.CheckboxesIndependent | voice-changer-better-main/client/demo/src/components/demo/components2/102-1_QualityArea.tsx:146-180 | the three checkboxes write disjoint fields, so their order does not matter |
| QualityArea.F0DetectorChosen | voice-changer-better-main/client/demo/src/components/demo/components2/102-1_QualityArea.tsx:100-101 | only `f0Detector` changes |
| TextInputDialog.Close | voice-changer-better-main/client/demo/src/components/demo/911_TextInputDialog.tsx:43-61 | field cleared, resolver cleared, dialog hidden; a pending resolver is resolved once with the value; nothing else changes |
| TextInputDialog.OkPressed | voice-changer-better-main/client/demo/src/components/demo/911_TextInputDialog.tsx:43-52 | a pending resolver is resolved with the typed text; without one nothing is resolved; field, resolver and dialog cleared |
| TextInputDialog.CancelPressed | voice-changer-better-main/client/demo/src/components/demo/911_TextInputDialog.tsx:53-61 | a pending resolver is resolved with ""; without one nothing is resolved; field, resolver and dialog cleared |
| TextInputDialog.CloseKeepsResolversResolvedOnce | voice-changer-better-main/client/demo/src/components/demo/911_TextInputDialog.tsx:47-50 | no resolver is resolved twice, and the pending one has not been resolved; both buttons keep this |
| TextInputDialog.SecondPressResolvesNothing | voice-changer-better-main/client/demo/src/components/demo/911_TextInputDialog.tsx:47-60 | a second press without a new prompt changes nothing |
| TextInputDialog.PressesResolveAtMostOnce | voice-changer-better-main/client/demo/src/components/demo/911_TextInputDialog.tsx:43-61 | any run of presses acts like its first press and adds at most one resolution |
| TextInputDialog.AfterPressAllIdle | voice-changer-better-main/client/demo/src/components/demo/911_TextInputDialog.tsx:43-61 | once the dialog is idle, presses change nothing |
| TextInputDialog.OnOk | voice-changer-better-main/client/demo/src/components/demo/911_TextInputDialog.tsx:43-52 | the session moves by `OkPressed` and keeps each resolver resolved at most once |
| TextInputDialog.OnCancel | voice-changer-better-main/client/demo/src/components/demo/911_TextInputDialog.tsx:53-61 | the session moves by `CancelPressed` and keeps each resolver resolved at most once |

## Left out

- Rendering (JSX, layout, CSS class names other than the active/standby choices) and the message texts each component registers.
- Browser storage and reload: the saved language is the field `savedLanguage`; `localStorage`, `setTimeout` and `window.location.reload` are not modelled.
- `console.warn` on a duplicate registration is not modelled (the list is unchanged, which is modelled).
- CharacterArea.StartClicked: the wait for `initializedRef` (a polling loop with 500 ms sleeps) before the client audio starts is collapsed into the start itself; `start()` and `stop()` are the flag `clientAudioRunning`.
- Every awaited server call (`updateServerSettings`, `setVoiceChangerClientSetting`, `setWorkletNodeSetting`, `mergeModel`, `getOnnx`, `updateModelDefault`) is a record replacement or a returned request; their asynchrony and failures are not modelled.
- The ONNX download (anchor element, waiting dialog) and the `alert` text are not modelled; only whether the export is refused.
- `trancateBuffer()` after a chunk-size or extra-size change is an audio-engine call and is not modelled.
- Gains, the silent threshold and the `toFixed` millisecond and gigabyte labels are floating-point displays; gains are `real` with no slider range or step.
- `newSlotChangeKey` treats an undefined slot list as `""`; the model has no undefined list, and `useMemo` dependency staleness is not modelled.
- Speaker keys are non-negative integers; the model does not cover non-numeric or negative keys, and JavaScript's ascending enumeration of integer keys is taken as the order of the speaker sequence.
- SpeakerArea.SpeakerOptionsMeaning: requires distinct speaker ids, which an object's keys always are.
- The caller that installs a text-input resolver and shows the dialog is not part of this model; `TextInputDialog.OpenPrompt` stands in for it.
- Recording and audio-device assignment (`102-4_RecorderArea.tsx`), the information dialogs (`907`, `908`), the components marked unused (`906`, `102-5`, `001_HeaderArea.tsx`, `903` other than one message, `912`) and the build configuration are not part of this model.
