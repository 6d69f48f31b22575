/**
 * The shared state the components' handlers write: the server setting, the client and
 * worklet settings, and the GUI flags. Server calls (`updateServerSettings`) are modelled as
 * replacing the server record; `start()` and `stop()` as switching the client audio on and off.
 */
module AppSession {
  import opened Wrappers
  import opened Settings

  /** The `resolve` function of one pending text-input promise. */
  class Resolver {
    constructor ()
    {
    }
  }

  /** One call `resolver.resolve(value)`. */
  datatype Resolution = Resolution(resolver: Resolver, value: string)

  datatype GuiState = GuiState(
    server: ServerSetting,
    client: ClientSetting,
    worklet: WorkletNodeSetting,
    isConverting: bool,
    clientAudioRunning: bool,
    showEnablePassThroughDialog: bool,
    showTextInput: bool,
    /** The value of the dialog's text field. */
    inputText: string,
    textInputResolve: Option<Resolver>,
    /** Every resolve call made so far, in order. */
    resolutions: seq<Resolution>)

  /** No resolver has been resolved twice, and the pending one has not been resolved yet. */
  ghost predicate ResolversResolvedOnce(st: GuiState) {
    && (forall i, j :: 0 <= i < j < |st.resolutions| ==> st.resolutions[i].resolver != st.resolutions[j].resolver)
    && (st.textInputResolve.Some? ==> forall i :: 0 <= i < |st.resolutions| ==> st.resolutions[i].resolver != st.textInputResolve.value)
  }

  class Session {
    var server: ServerSetting
    var client: ClientSetting
    var worklet: WorkletNodeSetting
    var isConverting: bool
    var clientAudioRunning: bool
    var showEnablePassThroughDialog: bool
    var showTextInput: bool
    var inputText: string
    var textInputResolve: Option<Resolver>
    var resolutions: seq<Resolution>

    function State(): GuiState
      reads this
    {
      GuiState(server, client, worklet, isConverting, clientAudioRunning, showEnablePassThroughDialog,
               showTextInput, inputText, textInputResolve, resolutions)
    }

    constructor (server: ServerSetting, client: ClientSetting, worklet: WorkletNodeSetting)
      ensures State() == GuiState(server, client, worklet, false, false, false, false, "", None, [])
      ensures ResolversResolvedOnce(State())
    {
      this.server := server;
      this.client := client;
      this.worklet := worklet;
      isConverting, clientAudioRunning := false, false;
      showEnablePassThroughDialog, showTextInput := false, false;
      inputText, textInputResolve, resolutions := "", None, [];
    }
  }
}
