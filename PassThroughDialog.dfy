/**
 * The pass-through confirmation dialog, and the three-event machine it forms with the
 * character area's pass-through button.
 */
module PassThroughDialog {
  import opened Settings
  import opened AppSession
  import CharacterArea

  /** OK: pass-through goes on, nothing else in the server setting changes, the dialog hides. */
  function ConfirmOk(st: GuiState): (r: GuiState)
    ensures r.server.passThrough && !r.showEnablePassThroughDialog
    ensures r.server == st.server.(passThrough := true)
    ensures r == st.(server := r.server, showEnablePassThroughDialog := false)
  {
    st.(server := st.server.(passThrough := true), showEnablePassThroughDialog := false)
  }

  /** Cancel: the dialog hides and the server setting is not written. */
  function ConfirmCancel(st: GuiState): (r: GuiState)
    ensures !r.showEnablePassThroughDialog
    ensures r.server == st.server
    ensures r == st.(showEnablePassThroughDialog := false)
  {
    st.(showEnablePassThroughDialog := false)
  }

  datatype PassThroughEvent = ClickPassThrough | Ok | Cancel

  function Step(st: GuiState, e: PassThroughEvent): GuiState {
    match e
    case ClickPassThrough => CharacterArea.PassThroughClicked(st)
    case Ok => ConfirmOk(st)
    case Cancel => ConfirmCancel(st)
  }

  function Run(st: GuiState, events: seq<PassThroughEvent>): GuiState
    decreases |events|
  {
    if events == [] then st else Run(Step(st, events[0]), events[1..])
  }

  /** Pass-through turns on only by a click with the confirmation skipped, or by OK. */
  lemma PassThroughOnlyByConsent(st: GuiState, e: PassThroughEvent)
    requires !st.server.passThrough && Step(st, e).server.passThrough
    ensures e == Ok || (e == ClickPassThrough && st.client.passThroughConfirmationSkip)
  {
  }

  /** Neither dialog button, nor the button in the character area, touches anything but the pass-through state. */
  lemma StepTouchesOnlyPassThrough(st: GuiState, e: PassThroughEvent)
    ensures Step(st, e).server == st.server.(passThrough := Step(st, e).server.passThrough)
    ensures Step(st, e).client == st.client
    ensures Step(st, e) == st.(server := Step(st, e).server,
                               showEnablePassThroughDialog := Step(st, e).showEnablePassThroughDialog)
  {
    match e
    case ClickPassThrough =>
    case Ok =>
    case Cancel =>
  }

  /** The dialog is only ever shown while pass-through is off. */
  ghost predicate DialogConsistent(st: GuiState) {
    st.showEnablePassThroughDialog ==> !st.server.passThrough
  }

  lemma StepKeepsDialogConsistent(st: GuiState, e: PassThroughEvent)
    requires DialogConsistent(st)
    ensures DialogConsistent(Step(st, e))
  {
  }

  lemma {:induction false} RunKeepsDialogConsistent(st: GuiState, events: seq<PassThroughEvent>)
    requires DialogConsistent(st)
    ensures DialogConsistent(Run(st, events))
    decreases |events|
  {
    if events != [] {
      StepKeepsDialogConsistent(st, events[0]);
      RunKeepsDialogConsistent(Step(st, events[0]), events[1..]);
    }
  }

  /**
   * Over any sequence of events, if pass-through starts off, ends on, and the confirmation is
   * never skipped, then OK was pressed at some point.
   */
  lemma {:induction false} RunOnlyOnByConsent(st: GuiState, events: seq<PassThroughEvent>)
    requires !st.server.passThrough && !st.client.passThroughConfirmationSkip
    requires Run(st, events).server.passThrough
    ensures Ok in events
    decreases |events|
  {
    if events == [] {
    } else if events[0] == Ok {
    } else {
      StepTouchesOnlyPassThrough(st, events[0]);
      var next := Step(st, events[0]);
      assert !next.server.passThrough by {
        if events[0] == ClickPassThrough {
          assert next == st.(showEnablePassThroughDialog := true);
        }
      }
      RunOnlyOnByConsent(next, events[1..]);
      assert events == [events[0]] + events[1..];
    }
  }

  /** Whatever happened before, a session whose last event is one of the dialog's buttons ends with the dialog hidden. */
  lemma {:induction false} ButtonsHideDialog(st: GuiState, events: seq<PassThroughEvent>, e: PassThroughEvent)
    requires e != ClickPassThrough
    ensures !Run(st, events + [e]).showEnablePassThroughDialog
    decreases |events|
  {
    if events == [] {
      assert events + [e] == [e];
      assert Run(st, [e]) == Run(Step(st, e), []);
    } else {
      assert (events + [e])[0] == events[0] && (events + [e])[1..] == events[1..] + [e];
      ButtonsHideDialog(Step(st, events[0]), events[1..], e);
    }
  }

  /** Cancelling a dialog opened by the button puts everything back as it was. */
  lemma CancelUndoesOpening(st: GuiState)
    requires !st.server.passThrough && !st.client.passThroughConfirmationSkip
    requires !st.showEnablePassThroughDialog
    ensures ConfirmCancel(CharacterArea.PassThroughClicked(st)) == st
  {
  }

  /** Confirming a dialog opened by the button has the same effect as a click with the confirmation skipped. */
  lemma OkMatchesSkippedConfirmation(st: GuiState)
    requires !st.server.passThrough && !st.client.passThroughConfirmationSkip
    ensures ConfirmOk(CharacterArea.PassThroughClicked(st))
            == CharacterArea.PassThroughClicked(st.(client := st.client.(passThroughConfirmationSkip := true)))
               .(client := st.client)
  {
  }

  method OnOk(s: Session)
    modifies s
    ensures s.State() == ConfirmOk(old(s.State()))
  {
    s.server := s.server.(passThrough := true);
    s.showEnablePassThroughDialog := false;
  }

  method OnCancel(s: Session)
    modifies s
    ensures s.State() == ConfirmCancel(old(s.State()))
  {
    s.showEnablePassThroughDialog := false;
  }
}
