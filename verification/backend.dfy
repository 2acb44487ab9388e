/**
 * The request logic of the Flask backend (app.py): the `adb devices` parser
 * and the four device routes that validate their JSON fields and build an
 * adb command line.
 *
 * The adb process is an oracle `Adb` from an argument vector to what the
 * process reported; a route is modelled as a function from the request
 * fields (and the oracle) to an `Exchange`: the argument vectors it ran,
 * in order, and the JSON reply it sends back.
 */
module Backend {
  import opened Optional
  import opened Text

  /** The adb executable name (the non-Windows branch of app.py:11). */
  const AdbCommand := "adb"

  const NotFoundMessage := "ADB command not found. Please ensure adb is installed and available in PATH."

  /** What subprocess.run reports for one adb invocation. */
  datatype Process =
    | Completed(stdout: string)   // exit status 0
    | Failed(stderr: string)      // CalledProcessError
    | NotFound                    // FileNotFoundError: no adb on PATH

  /** The adb process, seen from the backend: argument vector to outcome. */
  type Adb = seq<string> -> Process

  datatype Device = Device(serial: string, state: string)

  /** The JSON body of a route's reply; `Crash` is an unhandled exception (an HTTP 500 page). */
  datatype Reply = Output(output: string) | Error(error: string) | Crash

  /** The adb argument vectors a request ran, in order, and its reply. */
  datatype Exchange = Exchange(issued: seq<seq<string>>, reply: Reply)

  // ---------------------------------------------------------------------------
  // run_adb_command
  // ---------------------------------------------------------------------------

  /** The argument vector for a command string: the executable, then the command split on whitespace. */
  function Argv(command: string): (argv: seq<string>)
    ensures |argv| >= 1 && argv[0] == AdbCommand
    ensures AreWords(argv[1..])
  {
    var argv := [AdbCommand] + Words(command);
    assert argv[1..] == Words(command);
    argv
  }

  /** A command built by joining words with single spaces reaches adb as exactly those words. */
  lemma ArgvOfWords(ws: seq<string>)
    requires AreWords(ws)
    ensures Argv(Unwords(ws)) == [AdbCommand] + ws
  {
    WordsUnwords(ws);
  }

  /** The text run_adb_command returns for a process outcome. */
  function Captured(p: Process): (r: string)
    ensures !p.NotFound? ==> Strip(r) == r
    ensures p.Completed? ==> r == Strip(p.stdout)
    ensures p.Failed? ==> r == Strip(p.stderr)
    ensures p.NotFound? ==> r == NotFoundMessage
  {
    match p
    case Completed(out) => TrimIdempotent(out, IsPySpace); Strip(out)
    case Failed(err) => TrimIdempotent(err, IsPySpace); Strip(err)
    case NotFound => NotFoundMessage
  }

  /** run_adb_command: run the tokenised command, return its stripped output or error text. */
  function RunAdb(adb: Adb, command: string): string {
    Captured(adb(Argv(command)))
  }

  // ---------------------------------------------------------------------------
  // GET /devices
  // ---------------------------------------------------------------------------

  const DeviceStates := {"device", "recovery"}

  /** The device a line of `adb devices` output announces, if any. */
  function DeviceOf(line: string): Option<Device> {
    var parts := SplitOn(line, '\t');
    if |parts| == 2 && parts[1] in DeviceStates then Some(Device(parts[0], parts[1])) else None
  }

  /** The devices announced by a sequence of lines, in line order. */
  function Accepted(lines: seq<string>): seq<Device>
    decreases |lines|
  {
    if lines == [] then []
    else
      (match DeviceOf(lines[0]) case Some(d) => [d] case None => []) + Accepted(lines[1..])
  }

  /** The device list get_devices returns for the text of `adb devices`: the first line is skipped. */
  function ParseDevices(output: string): seq<Device> {
    var lines := SplitLines(output);
    if lines == [] then [] else Accepted(lines[1..])
  }

  /** Every device the parser returns could be listed again: the converse of ParseDevicesOfListing. */
  lemma ParseDevicesListable(output: string)
    ensures forall i :: 0 <= i < |ParseDevices(output)| ==> Listable(ParseDevices(output)[i])
  {
    var lines := SplitLines(output);
    if lines != [] {
      AcceptedListable(lines[1..]);
    }
  }

  /** Break-free lines only ever announce devices that could be listed again. */
  lemma {:induction false} AcceptedListable(lines: seq<string>)
    requires forall j :: 0 <= j < |lines| ==> NoneOf(lines[j], IsLineBreak)
    ensures forall i :: 0 <= i < |Accepted(lines)| ==> Listable(Accepted(lines)[i])
    decreases |lines|
  {
    if lines != [] {
      AcceptedListable(lines[1..]);
      match DeviceOf(lines[0])
      case Some(d) =>
        var line := lines[0];
        DeviceOfSome(line, d);
        assert forall k :: 0 <= k < |d.serial| ==> d.serial[k] == line[k];
      case None =>
    }
  }

  /** get_devices: runs `adb devices` once and collects the announced devices line by line. */
  method GetDevices(adb: Adb) returns (issued: seq<seq<string>>, devices: seq<Device>)
    ensures issued == [[AdbCommand, "devices"]]
    ensures devices == ParseDevices(Captured(adb([AdbCommand, "devices"])))
  {
    DevicesArgv();
    var output := RunAdb(adb, "devices");
    issued := [Argv("devices")];
    var lines := SplitLines(output);
    lines := if lines == [] then [] else lines[1..];
    devices := [];
    var i := 0;
    while i < |lines|
      invariant 0 <= i <= |lines|
      invariant devices == Accepted(lines[..i])
    {
      var parts := SplitOn(lines[i], '\t');
      if |parts| == 2 {
        var serial, state := parts[0], parts[1];
        if state in DeviceStates {
          devices := devices + [Device(serial, state)];
        }
      }
      AcceptedNext(lines, i);
      i := i + 1;
    }
    assert lines[..i] == lines;
  }

  /** The devices of the first i + 1 lines: those of the first i, then the one line i announces. */
  lemma AcceptedNext(lines: seq<string>, i: nat)
    requires i < |lines|
    ensures Accepted(lines[..i + 1]) == Accepted(lines[..i]) +
      (match DeviceOf(lines[i]) case Some(d) => [d] case None => [])
  {
    AcceptedConcat(lines[..i], [lines[i]]);
    assert lines[..i + 1] == lines[..i] + [lines[i]];
    assert [lines[i]][1..] == [];
  }

  lemma DevicesArgv()
    ensures Argv("devices") == [AdbCommand, "devices"]
  {
    DevicesWord();
  }

  /**
   * A line announces a device exactly when it is the device's serial and
   * state joined by one tab, the serial holds no tab, and the state is
   * `device` or `recovery`.
   */
  lemma DeviceOfIff(line: string, d: Device)
    ensures DeviceOf(line) == Some(d) <==>
      line == d.serial + "\t" + d.state && '\t' !in d.serial && d.state in DeviceStates
  {
    if DeviceOf(line) == Some(d) {
      DeviceOfSome(line, d);
    }
    if line == d.serial + "\t" + d.state && '\t' !in d.serial && d.state in DeviceStates {
      DeviceOfLine(d);
    }
  }

  lemma DeviceOfSome(line: string, d: Device)
    requires DeviceOf(line) == Some(d)
    ensures line == d.serial + "\t" + d.state && '\t' !in d.serial && d.state in DeviceStates
  {
    var parts := SplitOn(line, '\t');
    assert parts == [d.serial, d.state];
    JoinPair(d.serial, d.state, '\t');
  }

  lemma DeviceOfLine(d: Device)
    requires '\t' !in d.serial && d.state in DeviceStates
    ensures DeviceOf(d.serial + "\t" + d.state) == Some(d)
  {
    assert '\t' !in d.state;
    JoinPair(d.serial, d.state, '\t');
    SplitOnJoin([d.serial, d.state], '\t');
  }

  /** Lines are read independently and in order: the devices of a concatenation are concatenated. */
  lemma {:induction false} AcceptedConcat(a: seq<string>, b: seq<string>)
    ensures Accepted(a + b) == Accepted(a) + Accepted(b)
    decreases |a|
  {
    if a != [] {
      assert (a + b)[0] == a[0];
      assert (a + b)[1..] == a[1..] + b;
      AcceptedConcat(a[1..], b);
    } else {
      assert a + b == b;
    }
  }

  /** Every listed device comes from some line announcing it, and every announcing line is listed. */
  lemma {:induction false} AcceptedMembers(lines: seq<string>, d: Device)
    ensures d in Accepted(lines) <==> exists i :: 0 <= i < |lines| && DeviceOf(lines[i]) == Some(d)
    decreases |lines|
  {
    if lines != [] {
      AcceptedMembers(lines[1..], d);
      if exists i :: 0 <= i < |lines| && DeviceOf(lines[i]) == Some(d) {
        var i :| 0 <= i < |lines| && DeviceOf(lines[i]) == Some(d);
        if i > 0 {
          assert DeviceOf(lines[1..][i - 1]) == Some(d);
        }
      }
      if d in Accepted(lines) && DeviceOf(lines[0]) != Some(d) {
        var i :| 0 <= i < |lines[1..]| && DeviceOf(lines[1..][i]) == Some(d);
        assert DeviceOf(lines[i + 1]) == Some(d);
      }
    }
  }

  /** No line announces more than one device. */
  lemma {:induction false} AcceptedLength(lines: seq<string>)
    ensures |Accepted(lines)| <= |lines|
    decreases |lines|
  {
    if lines != [] {
      AcceptedLength(lines[1..]);
    }
  }

  /** The device list is never longer than the output's lines minus the skipped first one. */
  lemma ParseDevicesLength(output: string)
    ensures SplitLines(output) == [] ==> ParseDevices(output) == []
    ensures SplitLines(output) != [] ==> |ParseDevices(output)| <= |SplitLines(output)| - 1
  {
    var lines := SplitLines(output);
    if lines != [] {
      AcceptedLength(lines[1..]);
    }
  }

  /** The first line never becomes a device, whatever it holds: only the lines after it count. */
  lemma ParseDevicesSkipsHeader(header: string, rest: string)
    requires NoneOf(header, IsLineBreak)
    ensures ParseDevices(header + "\n" + rest) == Accepted(SplitLines(rest))
  {
    SplitLinesCons(header, rest);
    assert ([header] + SplitLines(rest))[1..] == SplitLines(rest);
  }

  /** A device adb can list on one line of its own: no tab or line break in its serial. */
  predicate Listable(d: Device) {
    '\t' !in d.serial && NoneOf(d.serial, IsLineBreak) && d.state in DeviceStates
  }

  /** The lines `adb devices` prints after its header, one per device. */
  function Listing(devices: seq<Device>): seq<string> {
    seq(|devices|, i requires 0 <= i < |devices| => devices[i].serial + "\t" + devices[i].state)
  }

  lemma StatesHaveNoBreaks(state: string)
    requires state in DeviceStates
    ensures NoneOf(state, IsLineBreak)
  {
    if state == "device" {
      assert NoneOf("device", IsLineBreak);
    } else {
      assert NoneOf("recovery", IsLineBreak);
    }
  }

  lemma ListedLineBreakFree(d: Device)
    requires Listable(d)
    ensures NoneOf(d.serial + "\t" + d.state, IsLineBreak)
  {
    StatesHaveNoBreaks(d.state);
    var line := d.serial + "\t" + d.state;
    forall k | 0 <= k < |line|
      ensures !IsLineBreak(line[k])
    {
      if k > |d.serial| {
        assert line[k] == d.state[k - |d.serial| - 1];
      }
    }
  }

  lemma {:induction false} AcceptedListing(devices: seq<Device>)
    requires forall i :: 0 <= i < |devices| ==> Listable(devices[i])
    ensures Accepted(Listing(devices)) == devices
    decreases |devices|
  {
    if devices != [] {
      var lines := Listing(devices);
      var d := devices[0];
      assert lines[0] == d.serial + "\t" + d.state;
      DeviceOfLine(d);
      assert lines[1..] == Listing(devices[1..]);
      AcceptedListing(devices[1..]);
      assert Accepted(lines) == [d] + Accepted(lines[1..]);
      assert devices == [d] + devices[1..];
    }
  }

  lemma ListingLines(devices: seq<Device>)
    requires forall i :: 0 <= i < |devices| ==> Listable(devices[i])
    ensures forall i :: 0 <= i < |devices| ==> NoneOf(Listing(devices)[i], IsLineBreak)
    ensures devices != [] ==> Listing(devices)[|devices| - 1] != []
  {
    var lines := Listing(devices);
    forall i | 0 <= i < |lines|
      ensures NoneOf(lines[i], IsLineBreak)
    {
      ListedLineBreakFree(devices[i]);
    }
  }

  /**
   * Round trip: a listing of listable devices under any one-line header
   * parses back to exactly those devices, in order.
   */
  lemma ParseDevicesOfListing(header: string, devices: seq<Device>)
    requires NoneOf(header, IsLineBreak)
    requires forall i :: 0 <= i < |devices| ==> Listable(devices[i])
    ensures ParseDevices(header + "\n" + JoinWith(Listing(devices), '\n')) == devices
  {
    var lines := Listing(devices);
    ListingLines(devices);
    SplitLinesJoin(lines);
    var body := JoinWith(lines, '\n');
    ParseDevicesSkipsHeader(header, body);
    assert ParseDevices(header + "\n" + body) == Accepted(lines);
    AcceptedListing(devices);
  }

  // ---------------------------------------------------------------------------
  // Request fields
  // ---------------------------------------------------------------------------

  /** Python truthiness of a string field read with data.get(...): present and non-empty. */
  predicate Present(field: Option<string>) {
    field.Some? && field.value != ""
  }

  // ---------------------------------------------------------------------------
  // POST /reboot/<mode>
  // ---------------------------------------------------------------------------

  const RebootModes := {"recovery", "bootloader", "fastboot", "normal"}

  /** The command string of reboot_device: ` {mode}` is appended unless the mode is `normal`. */
  function RebootCommand(device: string, mode: string): string {
    var command := Unwords(["-s", device, "reboot"]);
    if mode != "normal" then command + " " + mode else command
  }

  /** reboot_device: device first, then mode; a valid request runs one `reboot` command. */
  function Reboot(adb: Adb, device: Option<string>, mode: string): (x: Exchange)
    ensures !Present(device) ==> x == Exchange([], Error("Device is required to reboot"))
    ensures Present(device) && mode !in RebootModes ==>
      x == Exchange([], Error("Invalid reboot mode: " + mode))
    ensures Present(device) && mode in RebootModes ==>
      var argv := [AdbCommand, "-s"] + Words(device.value) + ["reboot"] +
                  (if mode == "normal" then [] else [mode]);
      x == Exchange([argv], Output(Captured(adb(argv))))
  {
    if !Present(device) then
      Exchange([], Error("Device is required to reboot"))
    else if mode !in RebootModes then
      Exchange([], Error("Invalid reboot mode: " + mode))
    else
      var command := RebootCommand(device.value, mode);
      RebootArgv(device.value, mode);
      Exchange([Argv(command)], Output(RunAdb(adb, command)))
  }

  // The fixed words of the command lines are single arguments. Each word has a
  // lemma of its own, rather than WordsOfToken at the call sites or one lemma
  // over all of them: the solver evaluates a literal's characters one by one,
  // and proofs that hold several such literals together outgrow the resource
  // limit, while one literal per proof stays small.

  lemma DashS()
    ensures Words("-s") == ["-s"]
  {
    WordsOfToken("-s");
  }

  lemma RebootWord()
    ensures Words("reboot") == ["reboot"]
  {
    WordsOfToken("reboot");
  }

  lemma DevicesWord()
    ensures Words("devices") == ["devices"]
  {
    WordsOfToken("devices");
  }

  lemma ShellWord()
    ensures Words("shell") == ["shell"]
  {
    WordsOfToken("shell");
  }

  lemma GetpropWord()
    ensures Words("getprop") == ["getprop"]
  {
    WordsOfToken("getprop");
  }

  lemma MountWord()
    ensures Words("mount") == ["mount"]
  {
    WordsOfToken("mount");
  }

  lemma PushWord()
    ensures Words("push") == ["push"]
  {
    WordsOfToken("push");
  }

  lemma TargetWord()
    ensures Words(KeysTarget) == [KeysTarget]
  {
    WordsOfToken(KeysTarget);
  }

  /** Each reboot mode is a single argument. */
  lemma ModeIsWord(mode: string)
    requires mode in RebootModes
    ensures Words(mode) == [mode]
  {
    if mode == "recovery" {
      WordsOfToken("recovery");
    } else if mode == "bootloader" {
      WordsOfToken("bootloader");
    } else if mode == "fastboot" {
      WordsOfToken("fastboot");
    } else {
      WordsOfToken("normal");
    }
  }

  lemma RebootArgv(device: string, mode: string)
    requires mode in RebootModes
    ensures Argv(RebootCommand(device, mode)) ==
      [AdbCommand, "-s"] + Words(device) + ["reboot"] + (if mode == "normal" then [] else [mode])
  {
    var base := Unwords(["-s", device, "reboot"]);
    RebootBase(device);
    if mode != "normal" {
      ModeIsWord(mode);
      WordsSpaceJoin(base, mode);
    }
  }

  lemma RebootBase(device: string)
    ensures Words(Unwords(["-s", device, "reboot"])) == ["-s"] + Words(device) + ["reboot"]
  {
    WordsUnwordsEach(["-s", device, "reboot"]);
    WordsOfThree("-s", device, "reboot");
    DashS();
    RebootWord();
  }

  lemma WordsOfThree(a: string, b: string, c: string)
    ensures WordsOfEach([a, b, c]) == Words(a) + Words(b) + Words(c)
  {
    assert [c][1..] == [];
    assert WordsOfEach([c]) == Words(c);
    assert [b, c][1..] == [c];
    assert WordsOfEach([b, c]) == Words(b) + Words(c);
    assert [a, b, c][1..] == [b, c];
  }

  // ---------------------------------------------------------------------------
  // POST /getprop
  // ---------------------------------------------------------------------------

  /** get_device_properties: without a device nothing runs; otherwise `shell getprop` runs. */
  function GetProp(adb: Adb, device: Option<string>): (x: Exchange)
    ensures !Present(device) ==> x == Exchange([], Error("Device is required to fetch properties"))
    ensures Present(device) ==>
      var argv := [AdbCommand, "-s"] + Words(device.value) + ["shell", "getprop"];
      x == Exchange([argv], Output(Captured(adb(argv))))
  {
    if !Present(device) then
      Exchange([], Error("Device is required to fetch properties"))
    else
      var command := Unwords(["-s", device.value, "shell", "getprop"]);
      ShellArgv(device.value, "getprop");
      Exchange([Argv(command)], Output(RunAdb(adb, command)))
  }

  lemma ShellArgv(device: string, tool: string)
    requires tool == "getprop" || tool == "mount"
    ensures Argv(Unwords(["-s", device, "shell", tool])) ==
      [AdbCommand, "-s"] + Words(device) + ["shell", tool]
  {
    DashS();
    ShellWord();
    if tool == "getprop" { GetpropWord(); } else { MountWord(); }
    ArgvOfFour("-s", device, "shell", tool);
  }

  /** Four space-joined parts, all but the second single words, reach adb part by part. */
  lemma ArgvOfFour(a: string, b: string, c: string, d: string)
    requires Words(a) == [a] && Words(c) == [c] && Words(d) == [d]
    ensures Argv(Unwords([a, b, c, d])) == [AdbCommand, a] + Words(b) + [c, d]
  {
    WordsUnwordsEach([a, b, c, d]);
    assert WordsOfEach([d]) == Words(d) + WordsOfEach([]);
    assert WordsOfEach([c, d]) == Words(c) + WordsOfEach([d]);
    assert WordsOfEach([b, c, d]) == Words(b) + WordsOfEach([c, d]);
  }

  // ---------------------------------------------------------------------------
  // POST /execute
  // ---------------------------------------------------------------------------

  /** execute_command: both fields are required; the command is split into separate arguments. */
  function Execute(adb: Adb, device: Option<string>, command: Option<string>): (x: Exchange)
    ensures !Present(device) || !Present(command) ==>
      x == Exchange([], Error("Device and command are required"))
    ensures Present(device) && Present(command) ==>
      var argv := [AdbCommand, "-s"] + Words(device.value) + Words(command.value);
      x == Exchange([argv], Output(Captured(adb(argv))))
  {
    if !Present(device) || !Present(command) then
      Exchange([], Error("Device and command are required"))
    else
      var full := Unwords(["-s", device.value, command.value]);
      ExecuteArgv(device.value, command.value);
      Exchange([Argv(full)], Output(RunAdb(adb, full)))
  }

  lemma ExecuteArgv(device: string, command: string)
    ensures Argv(Unwords(["-s", device, command])) == [AdbCommand, "-s"] + Words(device) + Words(command)
  {
    DashS();
    WordsUnwordsEach(["-s", device, command]);
    assert WordsOfEach([command]) == Words(command) + WordsOfEach([]);
    assert WordsOfEach([device, command]) == Words(device) + WordsOfEach([command]);
  }

  // ---------------------------------------------------------------------------
  // POST /check_userdata_and_push_keys
  // ---------------------------------------------------------------------------

  const KeysTarget := "/data/misc/adb/adb_keys"

  function MountArgv(device: string): seq<string> {
    [AdbCommand, "-s"] + Words(device) + ["shell", "mount"]
  }

  function PushArgv(device: string, path: string): seq<string> {
    [AdbCommand, "-s"] + Words(device) + ["push"] + Words(path) + [KeysTarget]
  }

  /**
   * check_userdata_and_push_keys. `resolve` stands for expanduser followed by
   * normpath, `isFile` for os.path.isfile. The device is checked first; a
   * missing path field raises (strip() on None); the file must exist; the
   * mount table is read and must mention /data before the push runs.
   */
  function PushKeys(adb: Adb, resolve: string -> string, isFile: string -> bool,
                    device: Option<string>, keysPath: Option<string>): (x: Exchange)
    ensures !Present(device) ==> x == Exchange([], Error("Device is required."))
    ensures Present(device) && keysPath.None? ==> x == Exchange([], Crash)
    ensures Present(device) && keysPath.Some? && !isFile(resolve(Strip(keysPath.value))) ==>
      x == Exchange([], Error("File '" + resolve(Strip(keysPath.value)) + "' not found or invalid."))
    ensures Present(device) && keysPath.Some? && isFile(resolve(Strip(keysPath.value))) ==>
      var mount := MountArgv(device.value);
      var push := PushArgv(device.value, resolve(Strip(keysPath.value)));
      if Contains(Captured(adb(mount)), "/data") then
        x == Exchange([mount, push], Output(Captured(adb(push))))
      else
        x == Exchange([mount], Error("Userdata is not mounted in recovery mode."))
  {
    if !Present(device) then
      Exchange([], Error("Device is required."))
    else if keysPath.None? then
      Exchange([], Crash)
    else
      var path := resolve(Strip(keysPath.value));
      if !isFile(path) then
        Exchange([], Error("File '" + path + "' not found or invalid."))
      else
        var mountCommand := Unwords(["-s", device.value, "shell", "mount"]);
        ShellArgv(device.value, "mount");
        var mountOutput := RunAdb(adb, mountCommand);
        if !Contains(mountOutput, "/data") then
          Exchange([Argv(mountCommand)], Error("Userdata is not mounted in recovery mode."))
        else
          var pushCommand := Unwords(["-s", device.value, "push", path, KeysTarget]);
          PushCommandArgv(device.value, path);
          Exchange([Argv(mountCommand), Argv(pushCommand)], Output(RunAdb(adb, pushCommand)))
  }

  lemma PushCommandArgv(device: string, path: string)
    ensures Argv(Unwords(["-s", device, "push", path, KeysTarget])) == PushArgv(device, path)
  {
    DashS();
    PushWord();
    TargetWord();
    ArgvOfFive("-s", device, "push", path, KeysTarget);
  }

  /** Five space-joined parts, the first, third and fifth single words, reach adb part by part. */
  lemma ArgvOfFive(a: string, b: string, c: string, d: string, e: string)
    requires Words(a) == [a] && Words(c) == [c] && Words(e) == [e]
    ensures Argv(Unwords([a, b, c, d, e])) == [AdbCommand, a] + Words(b) + [c] + Words(d) + [e]
  {
    WordsUnwordsEach([a, b, c, d, e]);
    WordsOfFive(a, b, c, d, e);
  }

  lemma WordsOfFive(a: string, b: string, c: string, d: string, e: string)
    ensures WordsOfEach([a, b, c, d, e]) == Words(a) + Words(b) + Words(c) + Words(d) + Words(e)
  {
    assert [e][1..] == [];
    assert WordsOfEach([e]) == Words(e);
    assert [d, e][1..] == [e];
    assert WordsOfEach([d, e]) == Words(d) + Words(e);
    assert [c, d, e][1..] == [d, e];
    assert WordsOfEach([c, d, e]) == Words(c) + Words(d) + Words(e);
    assert [b, c, d, e][1..] == [c, d, e];
    assert WordsOfEach([b, c, d, e]) == Words(b) + Words(c) + Words(d) + Words(e);
    assert [a, b, c, d, e][1..] == [b, c, d, e];
  }

  /** When device and path are single words, the push runs `adb -s <device> push <path> <target>`. */
  lemma PushArgvOfWords(device: string, path: string)
    requires device != [] && NoneOf(device, IsPySpace)
    requires path != [] && NoneOf(path, IsPySpace)
    ensures PushArgv(device, path) == [AdbCommand, "-s", device, "push", path, KeysTarget]
  {
    WordsOfToken(device);
    WordsOfToken(path);
  }

  /** A keys path with a space in it reaches adb as two arguments, so adb sees one argument too many. */
  lemma PushArgvSplitsSpacedPath(device: string, left: string, right: string)
    requires device != [] && NoneOf(device, IsPySpace)
    requires left != [] && NoneOf(left, IsPySpace)
    requires right != [] && NoneOf(right, IsPySpace)
    ensures PushArgv(device, left + " " + right) ==
      [AdbCommand, "-s", device, "push", left, right, KeysTarget]
  {
    WordsOfToken(device);
    WordsSpaceJoin(left, right);
    WordsOfToken(left);
    WordsOfToken(right);
  }

  /** The push runs only after a mount table mentioning /data was read, and never without the mount check. */
  lemma PushNeedsMountedData(adb: Adb, resolve: string -> string, isFile: string -> bool,
                             device: Option<string>, keysPath: Option<string>)
    ensures var x := PushKeys(adb, resolve, isFile, device, keysPath);
      |x.issued| <= 2 &&
      (|x.issued| >= 1 ==> x.issued[0] == MountArgv(device.value)) &&
      (|x.issued| == 2 <==> x.reply.Output?) &&
      (|x.issued| == 2 ==> Contains(Captured(adb(x.issued[0])), "/data"))
  {
  }
}
