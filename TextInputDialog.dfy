/**
 * The text-input dialog's resolver handshake: OK resolves the pending promise with the typed
 * text, Cancel with the empty string; both clear the field and the resolver and hide the dialog.
 */
module TextInputDialog {
  import opened Wrappers
  import opened AppSession

  /** Both buttons: resolve the pending resolver (if any) with `value`, then clear and hide. */
  function Close(st: GuiState, value: string): (r: GuiState)
    ensures !r.showTextInput && r.inputText == "" && r.textInputResolve.None?
    ensures st.textInputResolve.Some? ==>
              r.resolutions == st.resolutions + [Resolution(st.textInputResolve.value, value)]
    ensures st.textInputResolve.None? ==> r.resolutions == st.resolutions
    ensures r == st.(showTextInput := false, inputText := "", textInputResolve := None, resolutions := r.resolutions)
  {
    var resolutions := if st.textInputResolve.Some? then st.resolutions + [Resolution(st.textInputResolve.value, value)]
                       else st.resolutions;
    st.(inputText := "", textInputResolve := None, resolutions := resolutions, showTextInput := false)
  }

  /** OK resolves with what was typed into the field. */
  function OkPressed(st: GuiState): (r: GuiState)
    ensures st.textInputResolve.Some? ==>
              r.resolutions == st.resolutions + [Resolution(st.textInputResolve.value, st.inputText)]
    ensures st.textInputResolve.None? ==> r.resolutions == st.resolutions
    ensures !r.showTextInput && r.inputText == "" && r.textInputResolve.None?
  {
    Close(st, st.inputText)
  }

  /** Cancel resolves with the empty string. */
  function CancelPressed(st: GuiState): (r: GuiState)
    ensures st.textInputResolve.Some? ==>
              r.resolutions == st.resolutions + [Resolution(st.textInputResolve.value, "")]
    ensures st.textInputResolve.None? ==> r.resolutions == st.resolutions
    ensures !r.showTextInput && r.inputText == "" && r.textInputResolve.None?
  {
    Close(st, "")
  }

  /** Closing never resolves a resolver a second time. */
  lemma CloseKeepsResolversResolvedOnce(st: GuiState, value: string)
    requires ResolversResolvedOnce(st)
    ensures ResolversResolvedOnce(Close(st, value))
  {
    var r := Close(st, value);
    if st.textInputResolve.Some? {
      forall i, j | 0 <= i < j < |r.resolutions|
        ensures r.resolutions[i].resolver != r.resolutions[j].resolver
      {
        if j == |st.resolutions| {
          assert r.resolutions[i] == st.resolutions[i];
        } else {
          assert r.resolutions[i] == st.resolutions[i] && r.resolutions[j] == st.resolutions[j];
        }
      }
    }
  }

  /** A second press, with no new prompt in between, resolves nothing and changes nothing. */
  lemma SecondPressResolvesNothing(st: GuiState, value: string, again: string)
    ensures Close(Close(st, value), again) == Close(st, value)
  {
  }

  datatype Press = OkButton | CancelButton

  function Pressed(st: GuiState, p: Press): GuiState {
    match p
    case OkButton => OkPressed(st)
    case CancelButton => CancelPressed(st)
  }

  function PressAll(st: GuiState, presses: seq<Press>): GuiState
    decreases |presses|
  {
    if presses == [] then st else PressAll(Pressed(st, presses[0]), presses[1..])
  }

  /** However many times the buttons are pressed, at most one resolution is added in total. */
  lemma {:induction false} PressesResolveAtMostOnce(st: GuiState, presses: seq<Press>)
    ensures presses == [] ==> PressAll(st, presses) == st
    ensures presses != [] ==> PressAll(st, presses) == Pressed(st, presses[0])
    ensures |PressAll(st, presses).resolutions| <= |st.resolutions| + 1
    decreases |presses|
  {
    if presses != [] {
      var next := Pressed(st, presses[0]);
      AfterPressAllIdle(next, presses[1..]);
    }
  }

  /** Once no resolver is pending and the field and dialog are cleared, presses change nothing. */
  lemma {:induction false} AfterPressAllIdle(st: GuiState, presses: seq<Press>)
    requires st.textInputResolve.None? && st.inputText == "" && !st.showTextInput
    ensures PressAll(st, presses) == st
    decreases |presses|
  {
    if presses != [] {
      assert Pressed(st, presses[0]) == st;
      AfterPressAllIdle(st, presses[1..]);
    }
  }

  method OnOk(s: Session)
    requires ResolversResolvedOnce(s.State())
    modifies s
    ensures s.State() == OkPressed(old(s.State()))
    ensures ResolversResolvedOnce(s.State())
  {
    CloseKeepsResolversResolvedOnce(s.State(), s.inputText);
    var text := s.inputText;
    s.inputText := "";
    if s.textInputResolve.Some? {
      s.resolutions := s.resolutions + [Resolution(s.textInputResolve.value, text)];
      s.textInputResolve := None;
    }
    s.showTextInput := false;
  }

  method OnCancel(s: Session)
    requires ResolversResolvedOnce(s.State())
    modifies s
    ensures s.State() == CancelPressed(old(s.State()))
    ensures ResolversResolvedOnce(s.State())
  {
    CloseKeepsResolversResolvedOnce(s.State(), "");
    s.inputText := "";
    if s.textInputResolve.Some? {
      s.resolutions := s.resolutions + [Resolution(s.textInputResolve.value, "")];
      s.textInputResolve := None;
    }
    s.showTextInput := false;
  }

  /**
   * Stand-in for the caller that opens the dialog (not part of this model): it installs the
   * `resolve` of a new promise and shows the dialog.
   */
  method OpenPrompt(s: Session) returns (resolver: Resolver)
    requires ResolversResolvedOnce(s.State())
    modifies s
    ensures fresh(resolver)
    ensures s.State() == old(s.State()).(textInputResolve := Some(resolver), showTextInput := true)
    ensures ResolversResolvedOnce(s.State())
  {
    resolver := new Resolver();
    s.textInputResolve := Some(resolver);
    s.showTextInput := true;
  }
}
