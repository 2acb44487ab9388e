/**
 * The two halves together: what a route's reply looks like once the page has
 * parsed it, and what the console then shows.
 */
module System {
  import opened Optional
  import opened Text
  import Backend
  import opened Frontend

  /**
   * The JSON body a route answers with, as the page parses it. A crash is
   * Flask's HTML error page, which response.json() rejects with `parseError`.
   * The page reads an empty output or error as absent.
   */
  function ToJson(r: Backend.Reply, parseError: string): (j: JsonReply)
    ensures Route(j) == match r
      case Output(o) => if o == "" then Silent else Succeeded(o)
      case Error(e) => if e == "" then Silent else Failed(e)
      case Crash => Failed(parseError)
  {
    match r
    case Output(o) => Body(Some(o), None)
    case Error(e) => Body(None, Some(e))
    case Crash => Thrown(parseError)
  }

  /**
   * A reboot whose adb run prints nothing (a successful `adb reboot` is silent)
   * leaves the console as it was: the page logs neither success nor error.
   */
  lemma SilentReboot(adb: Backend.Adb, device: string, mode: string, parseError: string)
    requires device != "" && mode in Backend.RebootModes
    requires Backend.RunAdb(adb, Backend.RebootCommand(device, mode)) == ""
    ensures Reported(Route(ToJson(Backend.Reboot(adb, Some(device), mode).reply, parseError)),
                     "Rebooting to " + mode + ": ") == []
  {
  }

  /** A reboot the backend refuses is logged in red with the backend's own message. */
  lemma RejectedRebootIsLogged(adb: Backend.Adb, device: string, mode: string, parseError: string)
    requires device != "" && mode !in Backend.RebootModes
    ensures Reported(Route(ToJson(Backend.Reboot(adb, Some(device), mode).reply, parseError)),
                     "Rebooting to " + mode + ": ") ==
            [Entry("ERROR: Invalid reboot mode: " + mode, Red)]
  {
    var x := Backend.Reboot(adb, Some(device), mode);
    var message := "Invalid reboot mode: " + mode;
    assert x.reply == Backend.Error(message);
    assert message[0] == 'I';
    assert Route(ToJson(x.reply, parseError)) == Failed(message);
    assert "ERROR: " + message == "ERROR: Invalid reboot mode: " + mode;
  }

  /**
   * A client that omits `adb_keys_path` crashes the route, and the page's
   * reply handling reads the resulting error page as a parse failure. The page
   * itself never sends such a request: PushAdbKeys always posts a non-empty
   * trimmed path.
   */
  lemma MissingKeysPathIsAParseError(adb: Backend.Adb, resolve: string -> string,
                                     isFile: string -> bool, device: string, parseError: string)
    requires device != ""
    ensures Reported(Route(ToJson(Backend.PushKeys(adb, resolve, isFile, Some(device), None).reply,
                                  parseError)), "ADB Keys pushed successfully:\n") ==
            [Entry("ERROR: " + parseError, Red)]
  {
  }

  /**
   * One device listed, picked, and rebooted to recovery: the dropdown shows
   * "R58M111 (device)", the reboot posts the serial, and the output is logged
   * after the refresh message.
   */
  method RecoveryScenario() returns (options: seq<Choice>, sent: seq<Request>, log: seq<Entry>)
    ensures options == [Choice("R58M111", "R58M111 (device)")]
    ensures sent == [Get("/devices"), Post("/reboot/recovery", [("device", "R58M111")])]
    ensures log == [Entry("Devices refreshed successfully.", Blue),
                    Entry("Rebooting to recovery: rebooting...", Blue)]
  {
    var page := new Page();
    page.RefreshDevices(DeviceList([Backend.Device("R58M111", "device")]));
    assert "R58M111" + " (" + "device" + ")" == "R58M111 (device)";
    page.device := page.options[0].value;
    page.rebootOption := "recovery";
    var reply := Body(Some("rebooting..."), None);
    assert Route(reply) == Succeeded("rebooting...");
    assert "Rebooting to " + "recovery" + ": " + "rebooting..." == "Rebooting to recovery: rebooting...";
    assert "/reboot/" + "recovery" == "/reboot/recovery";
    page.RebootClicked(reply);
    options, sent, log := page.options, page.sent, page.log;
  }
}
