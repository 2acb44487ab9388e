/**
 * The browser controller (javascript/main.js). The page is one object: the
 * console log, the device dropdown's options and value, the reboot-mode
 * dropdown, the keys-path field, the property dialog, the log-file panel,
 * the version list, and the requests the page has sent.
 *
 * Each click handler is a method taking the reply its request would get
 * (what `await fetch(...)` and `await response.json()` yield, or the
 * exception they throw); a handler that sends nothing ignores it.
 */
module Frontend {
  import opened Optional
  import opened Text
  import Backend

  datatype Colour = Red | Blue | Black

  /** One paragraph of the console: its text and its colour. */
  datatype Entry = Entry(text: string, colour: Colour)

  /** One option of the device dropdown: its value and its visible caption. */
  datatype Choice = Choice(value: string, caption: string)

  /** A request the page sends: the path and, for a POST, the JSON body's fields in order. */
  datatype Request = Get(path: string) | Post(path: string, body: seq<(string, string)>)

  /** The outcome of a POST action: an exception, or the parsed body's `output` and `error` fields. */
  datatype JsonReply = Thrown(message: string) | Body(output: Option<string>, error: Option<string>)

  /**
   * The outcome of GET /devices: an exception from fetch or JSON parsing, a
   * parsed body without a `devices` array (reading its length throws), or the list.
   */
  datatype DevicesReply =
    | DevicesThrown(message: string)
    | NoDeviceList(message: string)
    | DeviceList(devices: seq<Backend.Device>)

  /** The outcome of GET /logs, read as plain text. */
  datatype LogReply = LogThrown(message: string) | LogText(body: string)

  /** The outcome of GET /version; `flaskUpToDate` is the truthiness of is_flask_up_to_date. */
  datatype VersionReply =
    | VersionThrown
    | VersionBody(appVersion: Option<string>, gitSha: Option<string>,
                  currentFlaskVersion: Option<string>, flaskUpToDate: bool,
                  latestFlaskVersion: Option<string>, adbProtocolVersion: Option<string>,
                  magiskVersion: Option<string>)

  const NoDeviceSelected := "ERROR: No device selected."
  const NoRebootOption := "ERROR: No reboot option selected."
  const NoKeysPath := "ERROR: No ADB keys path provided."
  const NoDevicesLabel := "-- No Devices Found --"
  const VersionFailure := "Failed to fetch version information."
  const VersionLabels := ["App Version: v", "Git SHA: ", "Flask Version: v",
                          "ADB Protocol Version: ", "Magisk Version: "]

  /** The colour logToConsole gives an entry of the given type. */
  function ColourOf(kind: string): (c: Colour)
    ensures c == Red <==> kind == "error"
    ensures c == Blue <==> kind == "info"
  {
    if kind == "error" then Red else if kind == "info" then Blue else Black
  }

  /** JavaScript truthiness of an optional string field. */
  predicate Truthy(field: Option<string>) {
    field.Some? && field.value != ""
  }

  /** A JSON field interpolated into a template literal: an absent one reads "undefined". */
  function Show(field: Option<string>): string {
    match field
    case Some(s) => s
    case None => "undefined"
  }

  /** How an action reads its reply: `output` first, then `error`, else nothing. */
  datatype Verdict = Succeeded(output: string) | Failed(message: string) | Silent

  function Route(reply: JsonReply): (v: Verdict)
    ensures v.Succeeded? <==> reply.Body? && Truthy(reply.output)
    ensures v.Silent? <==> reply.Body? && !Truthy(reply.output) && !Truthy(reply.error)
    ensures v.Succeeded? ==> v.output == reply.output.value
    ensures v.Failed? && reply.Body? ==> v.message == reply.error.value
    ensures v.Failed? && reply.Thrown? ==> v.message == reply.message
  {
    match reply
    case Thrown(m) => Failed(m)
    case Body(out, err) =>
      if Truthy(out) then Succeeded(out.value)
      else if Truthy(err) then Failed(err.value)
      else Silent
  }

  /** The entries an action logs for a verdict, given the text that precedes a successful output. */
  function Reported(v: Verdict, successPrefix: string): (r: seq<Entry>)
    ensures |r| <= 1
    ensures r == [] <==> v.Silent?
    ensures r != [] ==> (r[0].colour == Red <==> v.Failed?)
    ensures v.Succeeded? ==> r == [Entry(successPrefix + v.output, Blue)]
    ensures v.Failed? ==> r == [Entry("ERROR: " + v.message, Red)]
  {
    match v
    case Succeeded(o) => [Entry(successPrefix + o, Blue)]
    case Failed(m) => [Entry("ERROR: " + m, Red)]
    case Silent => []
  }

  function DeviceLabel(d: Backend.Device): string {
    d.serial + " (" + d.state + ")"
  }

  function FlaskStatus(v: VersionReply): string
    requires v.VersionBody?
  {
    if v.flaskUpToDate then "Up-to-date" else "Update Available: " + Show(v.latestFlaskVersion)
  }

  /** The five items of the version list, in their fixed order. */
  function VersionLines(v: VersionReply): (r: seq<string>)
    requires v.VersionBody?
    ensures |r| == |VersionLabels| == 5
    ensures forall i :: 0 <= i < 5 ==> VersionLabels[i] <= r[i]
  {
    [VersionLabels[0] + Show(v.appVersion),
     VersionLabels[1] + Show(v.gitSha),
     VersionLabels[2] + Show(v.currentFlaskVersion) + " (" + FlaskStatus(v) + ")",
     VersionLabels[3] + Show(v.adbProtocolVersion),
     VersionLabels[4] + Show(v.magiskVersion)]
  }

  /** The status reads "Up-to-date" exactly when the backend says so, and names the latest version otherwise. */
  lemma FlaskStatusIff(v: VersionReply)
    requires v.VersionBody?
    ensures FlaskStatus(v) == "Up-to-date" <==> v.flaskUpToDate
    ensures !v.flaskUpToDate ==> "Update Available: " <= FlaskStatus(v)
  {
    if !v.flaskUpToDate {
      var s := FlaskStatus(v);
      assert s[..18] == "Update Available: ";
      assert |s| >= 18 && s[0] == 'U' && s[1] == 'p' && s[2] == 'd';
    }
  }

  class Page {
    var log: seq<Entry>            // the console's paragraphs, oldest first
    var options: seq<Choice>       // the device dropdown's options
    var device: string             // the device dropdown's value
    var rebootOption: string       // the reboot-mode dropdown's value
    var keysPathInput: string      // the keys-path field's raw text
    var propText: string           // the property dialog's text
    var propOpen: bool             // whether the property dialog is shown
    var logFileText: string        // the log-file panel's text
    var versionItems: seq<string>  // the version list's items
    var sent: seq<Request>         // every request sent, in order

    constructor ()
      ensures log == [] && options == [] && sent == []
      ensures device == "" && rebootOption == "" && keysPathInput == ""
      ensures propText == "" && !propOpen && logFileText == "" && versionItems == []
    {
      log, options, sent := [], [], [];
      device, rebootOption, keysPathInput := "", "", "";
      propText, propOpen, logFileText, versionItems := "", false, "", [];
    }

    /** logToConsole: appends one entry at the end and changes nothing else. */
    method Log(message: string, kind: string)
      modifies this`log
      ensures log == old(log) + [Entry(message, ColourOf(kind))]
    {
      log := log + [Entry(message, ColourOf(kind))];
    }

    /** The tail every POST action shares: log the output, else the error, else nothing. */
    method Report(v: Verdict, successPrefix: string)
      modifies this`log
      ensures log == old(log) + Reported(v, successPrefix)
    {
      match v
      case Succeeded(o) => Log(successPrefix + o, "info");
      case Failed(m) => Log("ERROR: " + m, "error");
      case Silent =>
    }

    /** refreshDevices: re-fills the dropdown from the reply; a failed fetch leaves it alone. */
    method RefreshDevices(reply: DevicesReply)
      modifies this`log, this`options, this`sent
      ensures sent == old(sent) + [Get("/devices")]
      ensures reply.DevicesThrown? ==>
        options == old(options) &&
        log == old(log) + [Entry("Failed to refresh devices: " + reply.message, Red)]
      ensures reply.NoDeviceList? ==>
        options == [] &&
        log == old(log) + [Entry("Failed to refresh devices: " + reply.message, Red)]
      ensures reply.DeviceList? && reply.devices != [] ==>
        |options| == |reply.devices| &&
        (forall i :: 0 <= i < |options| ==>
           options[i] == Choice(reply.devices[i].serial, DeviceLabel(reply.devices[i]))) &&
        log == old(log) + [Entry("Devices refreshed successfully.", Blue)]
      ensures reply.DeviceList? && reply.devices == [] ==>
        options == [Choice("", NoDevicesLabel)] &&
        log == old(log) + [Entry("No devices found.", Red)]
    {
      sent := sent + [Get("/devices")];
      match reply
      case DevicesThrown(m) =>
        Log("Failed to refresh devices: " + m, "error");
      case NoDeviceList(m) =>
        options := [];
        Log("Failed to refresh devices: " + m, "error");
      case DeviceList(ds) =>
        options := [];
        if |ds| > 0 {
          var i := 0;
          while i < |ds|
            invariant 0 <= i <= |ds|
            invariant log == old(log) && sent == old(sent) + [Get("/devices")]
            invariant |options| == i
            invariant forall k :: 0 <= k < i ==> options[k] == Choice(ds[k].serial, DeviceLabel(ds[k]))
          {
            options := options + [Choice(ds[i].serial, DeviceLabel(ds[i]))];
            i := i + 1;
          }
          Log("Devices refreshed successfully.", "info");
        } else {
          options := [Choice("", NoDevicesLabel)];
          Log("No devices found.", "error");
        }
    }

    /** The reboot button: without a mode nothing else is checked and nothing is sent. */
    method RebootClicked(reply: JsonReply)
      modifies this`log, this`sent
      ensures rebootOption == "" ==>
        log == old(log) + [Entry(NoRebootOption, Red)] && sent == old(sent)
      ensures rebootOption != "" && device == "" ==>
        log == old(log) + [Entry(NoDeviceSelected, Red)] && sent == old(sent)
      ensures rebootOption != "" && device != "" ==>
        sent == old(sent) + [Post("/reboot/" + rebootOption, [("device", device)])] &&
        log == old(log) + Reported(Route(reply), "Rebooting to " + rebootOption + ": ")
    {
      if rebootOption == "" {
        Log(NoRebootOption, "error");
        return;
      }
      Reboot(rebootOption, reply);
    }

    /** reboot: needs a selected device; posts it to /reboot/<mode> and logs the verdict. */
    method Reboot(mode: string, reply: JsonReply)
      modifies this`log, this`sent
      ensures device == "" ==> log == old(log) + [Entry(NoDeviceSelected, Red)] && sent == old(sent)
      ensures device != "" ==>
        sent == old(sent) + [Post("/reboot/" + mode, [("device", device)])] &&
        log == old(log) + Reported(Route(reply), "Rebooting to " + mode + ": ")
    {
      if device == "" {
        Log(NoDeviceSelected, "error");
        return;
      }
      sent := sent + [Post("/reboot/" + mode, [("device", device)])];
      Report(Route(reply), "Rebooting to " + mode + ": ");
    }

    /** The getprop button: on output, the dialog shows it and opens. */
    method GetPropClicked(reply: JsonReply)
      modifies this`log, this`sent, this`propText, this`propOpen
      ensures device == "" ==>
        log == old(log) + [Entry(NoDeviceSelected, Red)] && sent == old(sent) &&
        propText == old(propText) && propOpen == old(propOpen)
      ensures device != "" ==> sent == old(sent) + [Post("/getprop", [("device", device)])]
      ensures device != "" ==>
        match Route(reply)
        case Succeeded(o) =>
          propText == o && propOpen &&
          log == old(log) + [Entry("Device properties fetched successfully.", Blue)]
        case Failed(m) =>
          propText == old(propText) && propOpen == old(propOpen) &&
          log == old(log) + [Entry("ERROR: " + m, Red)]
        case Silent =>
          propText == old(propText) && propOpen == old(propOpen) && log == old(log)
    {
      if device == "" {
        Log(NoDeviceSelected, "error");
        return;
      }
      sent := sent + [Post("/getprop", [("device", device)])];
      match Route(reply)
      case Succeeded(o) =>
        propText := o;
        propOpen := true;
        Log("Device properties fetched successfully.", "info");
      case Failed(m) =>
        Log("ERROR: " + m, "error");
      case Silent =>
    }

    /** The dialog's close button. */
    method ClosePropDialog()
      modifies this`propOpen
      ensures !propOpen
    {
      propOpen := false;
    }

    /** pushAdbKeys: device first, then the trimmed path; the request carries the trimmed path. */
    method PushAdbKeys(reply: JsonReply)
      modifies this`log, this`sent
      ensures device == "" ==> log == old(log) + [Entry(NoDeviceSelected, Red)] && sent == old(sent)
      ensures device != "" && JsTrim(keysPathInput) == "" ==>
        log == old(log) + [Entry(NoKeysPath, Red)] && sent == old(sent)
      ensures device != "" && JsTrim(keysPathInput) != "" ==>
        sent == old(sent) + [Post("/check_userdata_and_push_keys",
                                  [("device", device), ("adb_keys_path", JsTrim(keysPathInput))])] &&
        log == old(log) + Reported(Route(reply), "ADB Keys pushed successfully:\n")
    {
      var path := JsTrim(keysPathInput);
      if device == "" {
        Log(NoDeviceSelected, "error");
        return;
      }
      if path == "" {
        Log(NoKeysPath, "error");
        return;
      }
      sent := sent + [Post("/check_userdata_and_push_keys", [("device", device), ("adb_keys_path", path)])];
      Report(Route(reply), "ADB Keys pushed successfully:\n");
    }

    /** installMagisk: needs a selected device; posts it and logs the verdict. */
    method InstallMagisk(reply: JsonReply)
      modifies this`log, this`sent
      ensures device == "" ==> log == old(log) + [Entry(NoDeviceSelected, Red)] && sent == old(sent)
      ensures device != "" ==>
        sent == old(sent) + [Post("/install_magisk", [("device", device)])] &&
        log == old(log) + Reported(Route(reply), "Magisk installed successfully:\n")
    {
      if device == "" {
        Log(NoDeviceSelected, "error");
        return;
      }
      sent := sent + [Post("/install_magisk", [("device", device)])];
      Report(Route(reply), "Magisk installed successfully:\n");
    }

    /** The clear-console button: the console is emptied, then says so. */
    method ClearConsole()
      modifies this`log
      ensures log == [Entry("Console cleared.", Blue)]
    {
      log := [];
      Log("Console cleared.", "info");
    }

    /** The clear-log button: empties the log-file panel. */
    method ClearLogFile()
      modifies this`log, this`logFileText
      ensures logFileText == ""
      ensures log == old(log) + [Entry("Log file cleared.", Blue)]
    {
      logFileText := "";
      Log("Log file cleared.", "info");
    }

    /** The fetch-log button: the panel shows whatever text GET /logs returned. */
    method FetchLogFile(reply: LogReply)
      modifies this`log, this`logFileText, this`sent
      ensures sent == old(sent) + [Get("/logs")]
      ensures reply.LogText? ==>
        logFileText == reply.body && log == old(log) + [Entry("Log file fetched successfully.", Blue)]
      ensures reply.LogThrown? ==>
        logFileText == old(logFileText) &&
        log == old(log) + [Entry("ERROR: Could not fetch logs. " + reply.message, Red)]
    {
      sent := sent + [Get("/logs")];
      match reply
      case LogText(body) =>
        logFileText := body;
        Log("Log file fetched successfully.", "info");
      case LogThrown(m) =>
        Log("ERROR: Could not fetch logs. " + m, "error");
    }

    /** initializeVersionList: five items on success, one failure item otherwise. */
    method InitializeVersionList(reply: VersionReply)
      modifies this`versionItems, this`sent
      ensures sent == old(sent) + [Get("/version")]
      ensures reply.VersionBody? ==> versionItems == VersionLines(reply)
      ensures reply.VersionThrown? ==> versionItems == [VersionFailure]
    {
      sent := sent + [Get("/version")];
      match reply
      case VersionThrown =>
        versionItems := [VersionFailure];
      case VersionBody(_, _, _, _, _, _, _) =>
        var lines := VersionLines(reply);
        versionItems := [];
        for i := 0 to |lines|
          invariant versionItems == lines[..i]
          invariant sent == old(sent) + [Get("/version")]
        {
          versionItems := versionItems + [lines[i]];
        }
    }
  }
}
