# adb web tool, modelled in Dafny

The adb web tool is a small Flask server with a browser page in front of it. The
server runs `adb` on behalf of the page and answers in JSON:

- it lists attached devices (`GET /devices`);
- it reboots a device into a mode (`POST /reboot/<mode>`);
- it reads a device's properties (`POST /getprop`);
- it runs an arbitrary adb command (`POST /execute`);
- it pushes an `adb_keys` file once userdata is mounted (`POST /check_userdata_and_push_keys`).

The page keeps a colour-coded console log, a device dropdown, a reboot-mode
dropdown, a keys-path field, a property dialog, a log-file panel and a
version list. Its click handlers validate locally, send one request, and log
what comes back.

This project models both halves and proves what each promises.

- `optional.dfy` (`Optional`): an optional JSON field.
- `text.dfy` (`Text`): the string operations both halves depend on, with their
  exact library semantics.
  - Python's `str.strip()`, `str.split()` with and without a separator,
    `str.splitlines()` and `sub in s`.
  - JavaScript's `String.prototype.trim()`.
  - The whitespace and line-break sets are spelled out code point by code point.
- `backend.dfy` (`Backend`): `app.py`.
  - `run_adb_command` is `Captured(adb(Argv(command)))`. `adb` is an oracle from an
    argument vector to a process outcome: completed with stdout, failed with
    stderr, or executable not found.
  - Each route is a function from its request fields to an `Exchange`: the
    argument vectors it ran, in order, and its JSON reply (`Output`, `Error`, or
    `Crash` for an uncaught exception).
  - `get_devices` is a method whose loop mirrors the source's line loop. It is
    proved equal to the parser function `ParseDevices`.
- `frontend.dfy` (`Frontend`): `javascript/main.js`.
  - The page is a class, `Page`, whose fields are the DOM state the handlers
    change, plus the list of requests sent.
  - Every handler is a method taking the reply its request would get.
  - `logToConsole` is `Page.Log`.
- `system.dfy` (`System`): how a backend reply reads once the page has parsed it. It
  also holds a worked example: one device listed, picked and rebooted to
  recovery.

Where the code's behaviour is easy to misread, the model follows the code:

- **Clear console.** It leaves one entry, "Console cleared.", not an empty log
  (javascript/main.js:295-298).
- **Device-list failures.** The dropdown is cleared before the reply's `devices`
  field is read. So a reply that parses but lacks the field empties the dropdown
  before the failure is logged (javascript/main.js:63-66). Only a failed fetch
  or a failed parse leaves the list untouched.
- **Empty output.** An `output` that is the empty string is not logged as output.
  The handler falls through to `error`, and when that is empty too, nothing is
  logged (javascript/main.js:130-134).
  - `adb reboot` prints nothing on success, so a successful reboot adds no
    console entry at all (`System.SilentReboot`).
- **Device states.** Devices in states other than `device` and `recovery`, such as
  `offline` or `unauthorized`, are dropped by the server (app.py:60).
- **Missing keys path.** A push request without `adb_keys_path` makes the server
  call `strip()` on `None`. Flask then answers with an HTML error page, which the
  page fails to parse as JSON. This is the `Crash` reply (app.py:78).
- **Routes not in app.py.** The page calls `/install_magisk` and `/version`, but
  neither route is in `app.py`. The page side of both is modelled with an
  abstract reply; the server side does not exist to model.

## Model

| member | source | states |
|---|---|---|
| Text.TrimStart | app.py:35 | the result is a suffix of the input; every removed character is one the predicate drops; the first remaining one is not |
| Text.TrimEnd | app.py:35 | the result is a prefix of the input; every removed character is one the predicate drops; the last remaining one is not |
| Text.Strip | app.py:35 | definition of Python's `strip()` as trimming Python whitespace at both ends; characterised by `Text.TrimStart`, `Text.TrimEnd`, `Text.TrimIdempotent` and `Text.TrimEmptyIff` |
| Text.JsTrim | javascript/main.js:207 | definition of JavaScript's `trim()` as trimming JavaScript whitespace at both ends; characterised by `Text.TrimStart`, `Text.TrimEnd`, `Text.TrimIdempotent` and `Text.TrimEmptyIff` |
| Text.TrimIdempotent | app.py:34-38 | stripping a stripped string changes nothing |
| Text.TrimEmptyIff | javascript/main.js:207-214 | a string trims to empty exactly when every character in it is whitespace, so a whitespace-only keys path counts as missing |
| Text.SplitOn | app.py:56 | `split(sep)` never returns an empty list; no field contains the separator; joining the fields with the separator gives the line back |
| Text.SplitOnJoin | app.py:56-58 | splitting a join of separator-free fields returns exactly those fields |
| Text.SplitOnCons | app.py:56 | a separator-free first field is split off unchanged, whatever follows it |
| Text.WordsFrom | app.py:23 | `split()` yields only non-empty, whitespace-free words |
| Text.WordsFromBreak | app.py:23 | mid-word or between words, any one whitespace character ends the current word, and splitting resumes afresh after it |
| Text.WordsBreakJoin | app.py:23 | splitting `a + [c] + b`, for any whitespace character `c` (space, tab, newline, or any other character Python's `isspace` accepts), gives the words of `a` followed by the words of `b` |
| Text.WordsSpaceJoin | app.py:140-142 | splitting `a + " " + b` gives the words of `a` followed by the words of `b`, which is what appending ` {mode}` to a command does |
| Text.WordsOfToken | app.py:23 | a non-empty word without whitespace splits to itself alone |
| Text.WordsUnwordsEach | app.py:23 | splitting an f-string of space-separated parts gives each part's words in order |
| Text.WordsUnwords | app.py:23 | words joined by spaces split back into the same words |
| Text.Unwords | app.py:140 | definition: words joined by single spaces, as the f-strings build command strings; characterised by `Text.WordsUnwords`, which splits it back to the same words |
| Text.Words | app.py:23 | definition of Python's `split()` with no argument; determined on every string by `Text.WordsBreakJoin` (any whitespace character separates), `Text.WordsOfToken` (a whitespace-free string is one word) and the empty string giving no words; `Text.WordsFrom` adds that every word is non-empty and whitespace-free |
| Text.LineEnd | app.py:55 | the index of the first line break: no break before it, and a break at it unless it is the end |
| Text.SplitLines | app.py:55 | `splitlines()` yields lines that contain no line break; determined on every string by `Text.SplitLinesBreak`, `Text.SplitLinesCrLf` and `Text.SplitLinesLast` |
| Text.SplitLinesCons | app.py:55 | a break-free first line followed by "\n" is the first line, whatever follows it |
| Text.SplitLinesBreak | app.py:55 | a break-free first line ends at any one line-break character (`\n`, `\r`, `\v`, `\f`, the file, group and record separators `\x1c` to `\x1e`, `U+0085`, `U+2028`, `U+2029`), with `\r` on its own only when no `\n` follows; the rest splits on its own |
| Text.SplitLinesCrLf | app.py:55 | `\r\n` ends a break-free first line as one terminator, not two |
| Text.SplitLinesLast | app.py:55 | a non-empty text without a line break is exactly one line |
| Text.SplitLinesJoin | app.py:55 | break-free lines joined by "\n" split back into the same lines when the last one is non-empty |
| Text.Contains | app.py:87 | definition of Python's `sub in s`, read left to right; characterised by `Text.ContainsIff` |
| Text.ContainsIff | app.py:87 | `sub in s` holds exactly when `sub` occurs at some position of `s` |
| Backend.Captured | app.py:21-41 | completed runs give stripped stdout; failed runs give stripped stderr; a missing executable gives the fixed message; captured output is already stripped |
| Backend.Argv | app.py:23 | the argument vector starts with the executable, and every later argument is a non-empty, whitespace-free word; that these are the command's own words is `Backend.ArgvOfWords` |
| Backend.ArgvOfWords | app.py:23 | a command made of words joined by single spaces reaches adb as the executable followed by exactly those words, in order |
| Backend.ArgvOfFour | app.py:23 | four space-joined parts whose first, third and fourth are single words reach adb as those words around the words of the second part |
| Backend.ArgvOfFive | app.py:23 | five space-joined parts whose first, third and fifth are single words reach adb as those words interleaved with the words of the second and fourth parts |
| Backend.RunAdb | app.py:21-41 | definition: `run_adb_command` is `Captured` of the oracle's outcome on `Argv(command)`; characterised by `Backend.Captured` and `Backend.Argv` |
| Backend.DevicesArgv | app.py:52 | the device listing runs exactly `adb devices` |
| Backend.GetDevices | app.py:49-64 | runs `adb devices` once; the loop over the lines after the first collects exactly `ParseDevices` of the captured output |
| Backend.DeviceOf | app.py:56-61 | definition: the device a line announces, if any; characterised in both directions by `Backend.DeviceOfIff` |
| Backend.Accepted | app.py:55-61 | definition: the devices of the lines, in line order; characterised by `Backend.AcceptedConcat`, `Backend.AcceptedMembers` and `Backend.AcceptedLength` |
| Backend.ParseDevices | app.py:55-61 | definition: the devices announced by the lines after the first; characterised by `Backend.ParseDevicesListable`, `Backend.ParseDevicesSkipsHeader` and `Backend.ParseDevicesOfListing` |
| Backend.ParseDevicesListable | app.py:55-61 | every device the parser returns is listable again: no tab or line break in its serial, and a state of `device` or `recovery`; the converse of `Backend.ParseDevicesOfListing` |
| Backend.AcceptedListable | app.py:55-61 | devices taken from break-free lines are all listable |
| Backend.AcceptedNext | app.py:55-61 | one more line appends that line's device, if any, to the devices so far |
| Backend.DeviceOfIff | app.py:56-61 | a line yields device (serial, state) exactly when it is serial, tab, state, with no tab in the serial and a state of `device` or `recovery` |
| Backend.AcceptedConcat | app.py:55-61 | lines are judged independently and in order: the devices of a concatenation are the concatenation of the devices |
| Backend.AcceptedMembers | app.py:55-61 | a device is listed exactly when some line announces it |
| Backend.AcceptedLength | app.py:55-61 | never more devices than lines |
| Backend.ParseDevicesLength | app.py:55 | no output lines gives no devices; otherwise at most one device per line after the first |
| Backend.ParseDevicesSkipsHeader | app.py:55 | the first line never becomes a device, whatever it holds |
| Backend.ParseDevicesOfListing | app.py:55-61 | a header line followed by `serial\tstate` lines for listable devices parses back to exactly those devices, in order |
| Backend.Present | app.py:128 | definition of Python truthiness of a request field read with `data.get`: present and non-empty, as the `not device` and `not command` guards test it; used by `Backend.Reboot`, `Backend.GetProp`, `Backend.Execute` and `Backend.PushKeys` |
| Backend.Reboot | app.py:123-146 | missing or empty device is refused first, then an invalid mode, with their exact messages and no command run; otherwise exactly one adb run, `-s <device> reboot`, with the mode appended unless it is `normal`, and its captured output is the reply |
| Backend.RebootCommand | app.py:140-142 | definition: `-s {device} reboot`, with ` {mode}` appended unless the mode is `normal`; characterised by `Backend.RebootArgv` |
| Backend.RebootArgv | app.py:139-142 | the reboot command string tokenises to `adb -s <device words> reboot [mode]` |
| Backend.GetProp | app.py:149-163 | missing device is refused with no command run; otherwise exactly one run of `adb -s <device> shell getprop`, whose output is the reply |
| Backend.ShellArgv | app.py:160 | the `shell getprop` and `shell mount` command strings tokenise to `adb -s <device words> shell <tool>` |
| Backend.Execute | app.py:105-120 | refused unless both device and command are non-empty; otherwise exactly one run of `adb -s <device words> <command words>` |
| Backend.ExecuteArgv | app.py:117 | `-s {device} {command}` tokenises to the device's words followed by the command's words |
| Backend.PushKeys | app.py:67-93 | missing device is refused first; a missing path crashes; a non-file is refused with the resolved path in the message; otherwise `shell mount` runs, and only when its output contains `/data` does the push run, its output being the reply |
| Backend.PushCommandArgv | app.py:91-92 | the push command string tokenises to `adb -s <device words> push <path words> /data/misc/adb/adb_keys` |
| Backend.PushArgvOfWords | app.py:91 | with a single-word device and path, the push runs exactly `adb -s <device> push <path> /data/misc/adb/adb_keys` |
| Backend.PushArgvSplitsSpacedPath | app.py:91-92 | a keys path containing a space reaches adb as two arguments |
| Backend.PushNeedsMountedData | app.py:86-93 | at most two commands run, the first being `shell mount`; the push runs exactly when the reply is output, and only after a mount output containing `/data` |
| Frontend.ColourOf | javascript/main.js:22-28 | red exactly for "error", blue exactly for "info", black otherwise |
| Frontend.Truthy | javascript/main.js:130-132 | definition of JavaScript truthiness of a JSON string field: present and non-empty; used by `Frontend.Route` |
| Frontend.Show | javascript/main.js:338-342 | definition: a JSON field placed in a template literal reads as its text, or as "undefined" when absent; used by `Frontend.VersionLines` and `Frontend.FlaskStatus` |
| Frontend.Route | javascript/main.js:130-136 | a truthy output is success; otherwise a truthy error is failure; a thrown exception is failure with its message; otherwise nothing |
| Frontend.Reported | javascript/main.js:130-136 | at most one entry; none exactly when the reply is read as nothing; red exactly on failure; the texts are the success prefix plus output, or "ERROR: " plus the message |
| Frontend.VersionLines | javascript/main.js:337-343 | exactly five items, each beginning with its fixed label, in fixed order |
| Frontend.FlaskStatus | javascript/main.js:331-333 | definition of the Flask status text; characterised by `Frontend.FlaskStatusIff` |
| Frontend.FlaskStatusIff | javascript/main.js:331-333 | the status is "Up-to-date" exactly when the backend says so, and otherwise begins "Update Available: " |
| Frontend.Page.Log | javascript/main.js:17-32 | appends exactly one entry with the message and its type's colour, and leaves the earlier entries unchanged |
| Frontend.Page.Report | javascript/main.js:130-136 | appends exactly the entries `Reported` gives for the verdict |
| Frontend.DeviceLabel | javascript/main.js:70 | definition: the option caption `serial (state)`; used by `Frontend.Page.RefreshDevices` |
| Frontend.Page.RefreshDevices | javascript/main.js:58-84 | sends `GET /devices`; on a list, one option per device in order (value the serial, caption "serial (state)") and an info entry; on an empty list, the single sentinel option and an error entry; on a thrown fetch, the dropdown is unchanged and one error entry is logged; on a body without the list, the dropdown is empty and one error entry is logged |
| Frontend.Page.RebootClicked | javascript/main.js:97-106 | with no mode selected, one error entry and no request, before the device is looked at; otherwise as `Reboot` with the selected mode |
| Frontend.Page.Reboot | javascript/main.js:113-138 | with no device, one error entry and no request; otherwise posts the device to `/reboot/<mode>` and logs the reply's verdict with the prefix "Rebooting to <mode>: " |
| Frontend.Page.GetPropClicked | javascript/main.js:153-180 | with no device, one error entry, no request, dialog untouched; otherwise posts to `/getprop`; on output the dialog shows it, opens, and an info entry is logged; on error one error entry is logged and the dialog is untouched |
| Frontend.Page.ClosePropDialog | javascript/main.js:182-184 | the dialog is closed |
| Frontend.Page.PushAdbKeys | javascript/main.js:205-236 | checks the device first, then the trimmed path, each failure logging one error entry and sending nothing; the request carries the trimmed path |
| Frontend.Page.InstallMagisk | javascript/main.js:256-281 | with no device, one error entry and no request; otherwise posts to `/install_magisk` and logs the verdict |
| Frontend.Page.ClearConsole | javascript/main.js:295-298 | the console holds exactly one entry, "Console cleared." in blue |
| Frontend.Page.ClearLogFile | javascript/main.js:300-303 | the log-file panel is empty and one info entry is logged |
| Frontend.Page.FetchLogFile | javascript/main.js:305-314 | sends `GET /logs`; the panel shows the text returned and an info entry is logged, or on an exception the panel is unchanged and one error entry is logged |
| Frontend.Page.InitializeVersionList | javascript/main.js:324-357 | sends `GET /version`; the list becomes exactly the five formatted items, or on an exception the single failure item |
| System.ToJson | app.py:146 | a non-empty output reads as success with that output; a non-empty error reads as failure with that message; empty ones read as nothing; a crash reads as the page's parse failure |
| System.SilentReboot | app.py:139-146 | a valid reboot whose adb run prints nothing adds no console entry |
| System.RejectedRebootIsLogged | app.py:133-137 | a reboot to an unknown mode is logged in red as "ERROR: Invalid reboot mode: <mode>" |
| System.MissingKeysPathIsAParseError | app.py:78 | when a client omits `adb_keys_path`, the route crashes and the page's reply handling logs the JSON parse error in red; the page itself never sends such a request, since `PushAdbKeys` always posts a non-empty trimmed path |
| System.RecoveryScenario | javascript/main.js:63-131 | listing R58M111, picking it and rebooting to recovery gives the dropdown "R58M111 (device)", sends `GET /devices` then `POST /reboot/recovery` with the serial, and logs "Rebooting to recovery: rebooting..." in blue |

## Left out

- HTTP: Flask routing, status codes, `fetch` and `Content-Type` headers are not
  modelled. Request bodies are optional string fields. Replies are the abstract
  `JsonReply`, `DevicesReply`, `LogReply` and `VersionReply` values.
- JSON values that are not strings (numbers, `true`, nested objects in `device`
  or `command`) are not modelled. `is_flask_up_to_date` is reduced to its
  truthiness.
- Bodies that are not JSON at all (`request.json` failing) are not modelled.
- Process execution: `subprocess.run` is the `adb` oracle. It is a function, so
  the same argument vector always gets the same outcome within one request.
  Timing, partial output and signals are not modelled.
- Exceptions that `run_adb_command` does not catch are not modelled. It catches
  only `CalledProcessError` and `FileNotFoundError` (app.py:36-41). A
  `PermissionError` or other `OSError` when adb is launched, or a
  `UnicodeDecodeError` on output that does not decode under `text=True`,
  escapes, and the route answers with an HTML 500 page. `Process` has no
  outcome for these, so the model's routes always reply `Output` or `Error`
  once adb has run. `Crash` covers only the missing keys path.
- The executable name is fixed to `adb`. The Windows `adb.exe` choice (app.py:11)
  depends on the host platform.
- `os.path.expanduser` followed by `ntpath.normpath` is the parameter `resolve`.
  `os.path.isfile` is the parameter `isFile`. Only `expanduser` (the home
  directory) and `isfile` depend on the host. `ntpath.normpath` applies Windows
  path rules on every host and turns `/` into `\`. So on a POSIX host a path
  such as `/home/u/adbkey.pub` is checked as `\home\u\adbkey.pub`, which is
  not a file there, and the route refuses it (app.py:79-84). `resolve` hides
  this host-independent normalisation; the model takes it as given rather than
  spelling it out.
- The `logging` calls and the log file they write are side effects only.
- `GET /logs` (app.py:95-102) reads a host file; the page side, `FetchLogFile`, is
  modelled with the returned text as input. `GET /` renders a template.
- DOM rendering: the option markup, auto-scroll (javascript/main.js:31) and the
  dialog's own behaviour are reduced to fields. The dialog is an open flag plus
  its text.
- `console.error` in the version-list failure path goes to the browser's
  developer console, not the page; it is not modelled.
- Concurrent handlers and the `DOMContentLoaded` wiring are not modelled. Each
  handler is one atomic step from its reply; interleavings of two in-flight
  requests are not covered.
- What the dropdown's selected value becomes after a refresh is the custom
  element's business. The model keeps `device` as a field that only the user
  sets.
- `/install_magisk` and `/version` have no server side in `app.py`, so only the
  page side is modelled.
