/**
 * The quality area: the F0-detector option list (restricted on the DirectML edition), which
 * rows appear, when the noise checkboxes are disabled, and the single-field updates.
 */
module QualityArea {
  import opened Text
  import opened Seqs
  import opened Settings
  import ConvertArea

  /** The detectors the DirectML edition can run. */
  const RECOMMENDED: seq<string> := ["crepe_tiny", "rmvpe_onnx"]

  const NOT_AVAILABLE: string := "(N/A)"

  predicate IsRecommended(x: string) {
    x in RECOMMENDED
  }

  datatype DetectorOption = DetectorOption(value: string, text: string, enabled: bool)

  function DetectorOptionFor(directMl: bool, x: string): (o: DetectorOption)
    ensures o.value == x
    ensures o.enabled <==> !directMl || IsRecommended(x)
    ensures o.text == if o.enabled then x else x + NOT_AVAILABLE
  {
    if directMl && !IsRecommended(x) then DetectorOption(x, x + NOT_AVAILABLE, false)
    else DetectorOption(x, x, true)
  }

  /** `generateF0DetOptions`: one option per detector, in order. */
  function F0DetOptions(edition: string, detectors: seq<string>): (opts: seq<DetectorOption>)
    ensures |opts| == |detectors|
    ensures forall i :: 0 <= i < |opts| ==> opts[i].value == detectors[i]
    ensures Contains(edition, ConvertArea.DIRECTML_EDITION) ==>
              forall i :: 0 <= i < |opts| ==>
                (opts[i].enabled <==> IsRecommended(detectors[i]))
                && opts[i].text == (if IsRecommended(detectors[i]) then detectors[i] else detectors[i] + NOT_AVAILABLE)
    ensures !Contains(edition, ConvertArea.DIRECTML_EDITION) ==>
              forall i :: 0 <= i < |opts| ==> opts[i].enabled && opts[i].text == detectors[i]
    decreases |detectors|
  {
    if detectors == [] then []
    else [DetectorOptionFor(Contains(edition, ConvertArea.DIRECTML_EDITION), detectors[0])]
         + F0DetOptions(edition, detectors[1..])
  }

  /** The values of the options a user can pick, in order. */
  function EnabledValues(opts: seq<DetectorOption>): seq<string> {
    if opts == [] then []
    else (if opts[0].enabled then [opts[0].value] else []) + EnabledValues(opts[1..])
  }

  /** On the DirectML edition the pickable detectors are exactly the recommended ones, in order; elsewhere all of them. */
  lemma PickableDetectors(edition: string, detectors: seq<string>)
    ensures Contains(edition, ConvertArea.DIRECTML_EDITION) ==>
              EnabledValues(F0DetOptions(edition, detectors)) == Filter(detectors, IsRecommended)
    ensures !Contains(edition, ConvertArea.DIRECTML_EDITION) ==>
              EnabledValues(F0DetOptions(edition, detectors)) == detectors
  {
    if Contains(edition, ConvertArea.DIRECTML_EDITION) {
      PickableOnDirectMl(edition, detectors);
    } else {
      PickableElsewhere(edition, detectors);
    }
  }

  lemma {:induction false} PickableOnDirectMl(edition: string, detectors: seq<string>)
    requires Contains(edition, ConvertArea.DIRECTML_EDITION)
    ensures EnabledValues(F0DetOptions(edition, detectors)) == Filter(detectors, IsRecommended)
    decreases |detectors|
  {
    if detectors != [] {
      PickableOnDirectMl(edition, detectors[1..]);
      var first := DetectorOptionFor(true, detectors[0]);
      var rest := F0DetOptions(edition, detectors[1..]);
      var opts := F0DetOptions(edition, detectors);
      assert opts == [first] + rest;
      assert opts[0] == first && opts[1..] == rest;
      assert EnabledValues(opts) == (if first.enabled then [detectors[0]] else []) + EnabledValues(rest);
    }
  }

  lemma {:induction false} PickableElsewhere(edition: string, detectors: seq<string>)
    requires !Contains(edition, ConvertArea.DIRECTML_EDITION)
    ensures EnabledValues(F0DetOptions(edition, detectors)) == detectors
    decreases |detectors|
  {
    if detectors != [] {
      PickableElsewhere(edition, detectors[1..]);
      var rest := F0DetOptions(edition, detectors[1..]);
      var opts := F0DetOptions(edition, detectors);
      var first := DetectorOptionFor(false, detectors[0]);
      assert opts == [first] + rest;
      assert opts[0] == first && first.enabled && opts[1..] == rest;
      assert EnabledValues(opts) == [detectors[0]] + EnabledValues(rest);
      assert detectors == [detectors[0]] + detectors[1..];
    }
  }

  /** Every option's text is its value, with "(N/A)" appended exactly when it is disabled. */
  lemma OptionTextShowsValue(edition: string, detectors: seq<string>, i: nat)
    requires i < |detectors|
    ensures var o := F0DetOptions(edition, detectors)[i];
            StartsWith(o.text, o.value) && (o.text == o.value <==> o.enabled)
  {
    var o := F0DetOptions(edition, detectors)[i];
    assert o.text[..|o.value|] == o.value;
  }

  datatype QualityView = Nothing | Rows(f0Row: bool, thresholdRow: bool)

  /** Nothing renders until every provider piece is there; the web edition drops the F0 and threshold rows. */
  function QualityRows(providersReady: bool, webEdition: bool): (v: QualityView)
    ensures v.Nothing? <==> !providersReady
    ensures v.Rows? ==> (v.f0Row <==> !webEdition) && (v.thresholdRow <==> !webEdition)
  {
    if !providersReady then Nothing else Rows(!webEdition, !webEdition)
  }

  /** The echo-cancel and noise-suppression checkboxes only work with client audio. */
  function NoiseCheckboxesDisabled(server: ServerSetting): (disabled: bool)
    ensures disabled <==> server.enableServerAudio != 0
  {
    server.enableServerAudio != 0
  }

  function EchoCancelChanged(client: ClientSetting, checked: bool): (r: ClientSetting)
    ensures r.echoCancel == checked
    ensures r.(echoCancel := client.echoCancel) == client
  {
    client.(echoCancel := checked)
  }

  function NoiseSuppressionChanged(client: ClientSetting, checked: bool): (r: ClientSetting)
    ensures r.noiseSuppression == checked
    ensures r.(noiseSuppression := client.noiseSuppression) == client
  {
    client.(noiseSuppression := checked)
  }

  function NoiseSuppression2Changed(client: ClientSetting, checked: bool): (r: ClientSetting)
    ensures r.noiseSuppression2 == checked
    ensures r.(noiseSuppression2 := client.noiseSuppression2) == client
  {
    client.(noiseSuppression2 := checked)
  }

  /** The three checkboxes write disjoint fields, so the order of clicks does not matter. */
  lemma CheckboxesIndependent(client: ClientSetting, a: bool, b: bool, c: bool)
    ensures NoiseSuppression2Changed(NoiseSuppressionChanged(EchoCancelChanged(client, a), b), c)
         == EchoCancelChanged(NoiseSuppressionChanged(NoiseSuppression2Changed(client, c), b), a)
  {
  }

  /** Picking a detector replaces `f0Detector` and nothing else. */
  function F0DetectorChosen(server: ServerSetting, value: string): (r: ServerSetting)
    ensures r.f0Detector == value
    ensures r.(f0Detector := server.f0Detector) == server
  {
    server.(f0Detector := value)
  }
}
