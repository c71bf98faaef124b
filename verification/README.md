# zktime-sync-app in Dafny

A functional model of the logic of zktime-sync-app, a small desktop tool. It pulls
attendance records from ZKTeco fingerprint terminals and POSTs each one to a payroll endpoint.
The device, the HTTP endpoint and the files are not modelled as code. They are reduced to the
answers they give: a per-device `Script` says whether each device call returns or raises, which serial and
records it yields, and what status each POST gets back. A sync pass is then a pure function
from the device list and the scripts to a trace of events: log lines, connection attempts,
device calls and POSTs. Its properties are stated over that trace.

Modules, one per concern of the program:

- `Wrappers`: `Option`.
- `PyText`: the Python text operations the program relies on. These are `str.strip()`,
  `str(n)` for integers, and `int(s)` for dialog answers. `int(s)` covers the blanks it
  skips around the number, a sign and `_` digit grouping. Those blanks are not the ones
  `strip()` drops: `int()` refuses the ASCII separators U+001C to U+001F, which `strip()`
  removes.
- `Timestamps`: `datetime` values, `isoformat()`, `fromisoformat()` and
  `strftime("%Y-%m-%d %H:%M:%S")`, defined on the text, so that the round trip the
  last-sync store depends on is proved rather than assumed.
- `Devices`: an entry of `config["devices"]`, whose "ip" is always present and whose
  "port", "password" and "sn" may be absent (`None`), the `.get` defaults 4370 and 0, and the dialog parsing both GUIs share when they add an entry.
- `Trace`: events, POST payloads, the per-record POST loop and the projections `Posts` and
  `Connects` of a trace.
- `ZkSync1`: `fetch_logs_and_sync` of zk_sync1.py. Each device is handled in one
  try/except/finally, so a failure skips the rest of that device only. The connection is
  released whenever `connect()` returned, and the pass always reaches its completion line.
- `ZkSync`: `fetch_logs_and_sync` of zk_sync.py, the variant both GUIs import. A connect,
  disable or read failure skips the device with no release call. The port is always 4370.
  `enable_device`/`disconnect` are outside any try, so their exception ends the pass, as does
  a device without a "password" key. The run records whether the pass completed.
- `SyncDup`: the `SyncDUP` last-sync store, a map from `str(sn)` to `isoformat()` text. The file may
  also hold JSON that is not an object, which loads but makes every later read and save raise.
- `App`: app.py without its widgets. It covers the interval tables, add/edit/remove of
  devices, the `sync_thread_running` flag, and the re-arming auto-sync job. Tk's event loop
  is reduced to a sequence of actions.
- `App2`: app_2.py without its widgets. It covers add/remove, the `run_sync` guard, and the
  one-shot auto-sync that `sync_btn_pressed` switches off.

Behaviours of the code that the model keeps, although a reader might expect otherwise:

- In zk_sync1.py `enable_device` and `disconnect` share one try, so a raising
  `enable_device` skips `disconnect`. `disconnect` is attempted only when `connect()` and
  `enable_device` both returned.
- In zk_sync.py a failed `get_attendance` leaves the device disabled and the connection
  open. A failed `disable_device` leaves the connection open.
- In zk_sync.py a device entry without "password" raises `KeyError` out of the pass.
- In app.py an IP made only of blanks passes the `if not ip` test and is stored as `""`.
  `edit_device` accepts an empty IP. A cancelled IP dialog in `edit_device` fails only
  after both numbers parsed, and the list is then left as it was.
- A positive saved interval that is not in the table schedules a job at start-up while the
  combobox shows "Off".

## Model

| member | source | states |
|---|---|---|
| PyText.Strip | app.py:134 | the result is the slice of the input left after dropping its leading and trailing whitespace: everything before and after it is whitespace, its ends are not, and it is empty only for an all-blank input |
| PyText.Trim | app.py:129-134 | for either set of blanks, the result is the slice of the input left after dropping the leading and trailing blanks, with no blank at either end |
| PyText.StripIdempotent | app_2.py:107 | stripping a stripped IP changes nothing |
| PyText.NatStringValue | sync_dup.py:27 | the decimal digits `str(n)` writes for a natural n have value n |
| PyText.ParseDecimalString | app.py:146-150 | `int(str(n)) == n` for every integer n, negative ones included |
| PyText.ParseIntNeedsDigit | app.py:128-133 | `int(s)` succeeds only on a text holding a digit; anything else is the ValueError path |
| PyText.ParseInt | app.py:129-133 | `int(s)`, characterised in both directions by PyText.IntAccepts and PyText.IntForm, with the ValueError as None |
| PyText.IntAccepts | app.py:129-133 | any blanks `int()` skips, an optional `+` or `-`, digits with single underscores between digits, and blanks again are accepted, with the digits' value and the sign applied |
| PyText.IntForm | app.py:129-133 | every text `int()` accepts is such blanks, sign, grouped digits and blanks, and its value is the one they denote |
| PyText.TrimPadded | app.py:129-134 | blanks around a text whose ends are not blank are exactly what a trim removes |
| PyText.TrimSplit | app.py:129-134 | a text is its trim with only blanks before and after it |
| PyText.SignedBody | app.py:129-133 | after the blanks, a sign followed by grouped digits reads as the digits' value with the sign applied |
| PyText.SignedSplit | app.py:129-133 | after the blanks, an accepted text is an optional sign followed by grouped digits |
| PyText.SignedChars | app.py:129-133 | a text `int()` accepts once trimmed holds only digits, `_` and a sign |
| PyText.IntRefusesSeparators | app.py:129-133 | `int(s)` fails on any text holding one of U+001C to U+001F, wherever it stands |
| PyText.SeparatorSplitsStripFromInt | app.py:129-134 | U+001C followed by "5": `strip()` removes the separator and gives "5", while `int()` raises |
| Timestamps.FromIsoFormat | sync_dup.py:30 | a successful `fromisoformat` yields a valid calendar datetime |
| Timestamps.PadValue | zk_sync1.py:43 | a zero-padded field reads back as the number it pads |
| Timestamps.IsoRoundTrip | sync_dup.py:30-36 | `fromisoformat(dt.isoformat()) == dt` for every valid dt, to the microsecond |
| Timestamps.IsoFormatInjective | sync_dup.py:36 | two valid datetimes have the same isoformat text exactly when they are equal |
| Timestamps.StrftimeDropsMicros | zk_sync1.py:43 | the `%Y-%m-%d %H:%M:%S` text reads back as the time truncated to the second, and times equal up to the second format alike |
| Timestamps.StrftimeShape | zk_sync1.py:43 | the `%Y-%m-%d %H:%M:%S` text is 19 characters: digits, with `-`, `-`, a space, `:` and `:` at positions 4, 7, 10, 13 and 16 |
| Timestamps.Strftime | zk_sync.py:34 | `strftime("%Y-%m-%d %H:%M:%S")`; its shape is stated by Timestamps.StrftimeShape and its reading back by Timestamps.StrftimeDropsMicros |
| Timestamps.IsoFormat | sync_dup.py:36 | `isoformat()` is 19 characters, or 26 with non-zero microseconds, with `-`, `-`, `T`, `:` and `:` at positions 4, 7, 10, 13 and 16 |
| Devices.PortOf | zk_sync1.py:25 | a missing "port" key means 4370, a present one is used as is |
| Devices.PasswordOf | zk_sync1.py:24 | a missing "password" key means 0, a present one is used as is |
| Devices.IntOr | app.py:129-130 | a cancelled or empty answer gives the default; any other answer gives exactly what `int()` gives for it, the ValueError included |
| Devices.IntOrPrefilled | app.py:146-150 | accepting a dialog pre-filled with `str(n)` gives back n |
| Devices.Append | app.py:123-134 | the list grows by one exactly when the IP is non-empty and both numbers parse; the old entries are kept and the new entry, last, holds the stripped IP, the parsed or default port and password, and the given serial |
| Devices.RemoveAt | app.py:163-164 | `del devices[i]` succeeds exactly for an index in range; the entries before i stay, those after shift down by one, and exactly the entry at i is gone from the multiset |
| Trace.PayloadFields | zk_sync1.py:41-47 | the body carries the record's user_id and status, the device IP and the given serial, and a timestamp of the form `YYYY-MM-DD HH:MM:SS` that parses back to the record's time truncated to the second |
| Trace.MakePayload | zk_sync.py:32-37 | the POST body of one record; its fields are stated by Trace.PayloadFields |
| Trace.Outcome | zk_sync.py:39-46 | the log line after one POST; the three cases are told apart by Trace.OutcomeClassifies |
| Trace.PostEach | zk_sync.py:31-46 | the record loop emits two events per record; their order and kinds are stated by Trace.PostEachShape and Trace.PostEachKinds |
| Trace.ReleaseAfterPosts | zk_sync1.py:40-68 | in a trace whose body holds no release call followed by a release holding no POST, every POST precedes every `enable_device` |
| Trace.OutcomeClassifies | zk_sync1.py:49-56 | status 200 gives the success line, any other status the API-error line with that code, an exception the failure line |
| Trace.PostEachShape | zk_sync1.py:40-56 | the record loop emits, for record k, its POST at position 2k and its outcome line at 2k+1, whatever the earlier answers were |
| Trace.PostEachKinds | zk_sync1.py:40-56 | the record loop emits only POSTs and outcome lines, never a device call or the start/end line |
| Trace.PostEachPosts | zk_sync1.py:40-50 | exactly one POST per fetched record, in fetched order, nothing filtered, and no connection attempt |
| ZkSync1.TargetOf | zk_sync1.py:23-30 | `ZK(...)` is given the entry's IP and its port and password, or 4370 and 0 where the keys are missing |
| ZkSync1.AfterSerialFacts | zk_sync1.py:34-47 | after the serial is read, the device's records are POSTed with that serial as device_sn, and none when the serial or the records raise |
| ZkSync1.AfterConnectFacts | zk_sync1.py:31-47 | after `connect()` the POSTs are the expected ones, none when disable, serial or read raises, and no further connection is attempted |
| ZkSync1.AttemptQuiet | zk_sync1.py:28-59 | the try block of a device makes no release call and logs neither the start nor the completion line |
| ZkSync1.AttemptFacts | zk_sync1.py:28-59 | the try block makes exactly one connection attempt, to the device's target, and the expected POSTs |
| ZkSync1.ReleaseFacts | zk_sync1.py:61-68 | the finally block makes no POST and no connection attempt and logs no start or completion line |
| ZkSync1.ReleaseCounts | zk_sync1.py:61-68 | `enable_device` is called once exactly when `connect()` returned, and `disconnect` once exactly when `enable_device` returned too |
| ZkSync1.SyncDeviceAttempts | zk_sync1.py:22-68 | one device: one attempt with the configured or default port and password, one POST per fetched record when every read succeeded and none otherwise |
| ZkSync1.SyncDeviceReleases | zk_sync1.py:27-68 | one device: release is attempted exactly when connected, on success and every failure path, and only after every POST of that device |
| ZkSync1.DeviceLoopSplit | zk_sync1.py:22-68 | failure isolation: device i's events are what it produces alone, between those of the earlier and later devices, whatever they answered |
| ZkSync1.DeviceLoopConnects | zk_sync1.py:22-31 | every device is attempted, in list order, whatever any device answered |
| ZkSync1.DeviceLoopQuiet | zk_sync1.py:22-68 | no device iteration logs the completion line |
| ZkSync1.DeviceLoopPosts | zk_sync1.py:22-56 | the loop POSTs each device's expected bodies, device after device |
| ZkSync1.PassShape | zk_sync1.py:20-70 | the pass starts with the start line and ends with the completion line, logged exactly once, whatever any device or release raised |
| ZkSync1.PassConnects | zk_sync1.py:20-70 | every device of the list is attempted, in order, with its configured or default port and password |
| ZkSync1.PassPosts | zk_sync1.py:20-70 | the pass POSTs every reachable device's records, device after device and in fetched order |
| ZkSync1.FetchLogsAndSync | zk_sync1.py:20-70 | the pass of zk_sync1.py; its properties are stated by ZkSync1.PassShape, ZkSync1.PassConnects and ZkSync1.PassPosts |
| ZkSync.ReleaseFacts | zk_sync.py:48-49 | the release makes no POST and no connection; `enable_device` is called once and `disconnect` only if that returned |
| ZkSync.ReadAndPostCalls | zk_sync.py:24-46 | after a successful read, one POST per record in fetched order, without device_sn, and no connection attempt |
| ZkSync.ReadAndPostQuiet | zk_sync.py:24-46 | the read and the POST loop make no release call and do not log the completion line |
| ZkSync.SkippedFacts | zk_sync.py:15-29 | a connect, disable or read failure skips the device with no POST, no connection beyond the attempt, and no `enable_device` or `disconnect`; its last event is the read-failure line when connect and disable had succeeded, the connection-failure line otherwise |
| ZkSync.AfterConnectCalls | zk_sync.py:18-49 | after `connect()` the POSTs are the records' bodies when connect, disable and read succeeded, and none otherwise |
| ZkSync.AfterConnectReleases | zk_sync.py:18-49 | release calls happen exactly when the records were read; the device completes unless `enable_device` or `disconnect` raised after its POSTs |
| ZkSync.ReachedReleases | zk_sync.py:24-49 | once the records were read, `enable_device` is called once, `disconnect` once if that returned, and no completion line is logged |
| ZkSync.SyncDeviceCalls | zk_sync.py:11-49 | one device: it completes exactly when it does not make the pass raise, it is attempted on port 4370 with its password, and its POSTs are the expected ones |
| ZkSync.SyncDeviceReleases | zk_sync.py:11-49 | one device: `enable_device` exactly when its POST loop was reached and only after every POST, `disconnect` only if that returned, and no completion line |
| ZkSync.ReleaseOrder | zk_sync.py:31-48 | after the password was read, every POST of the device comes before its `enable_device` |
| ZkSync.ReleasedAfter | zk_sync.py:48-49 | a body without release calls followed by the release holds one `enable_device`, a `disconnect` exactly when that returned, and no completion line |
| ZkSync.SequenceCompletes | zk_sync.py:11-51 | the loop runs to its end exactly when every iteration does |
| ZkSync.SequenceTrace | zk_sync.py:11-49 | the loop's trace is the traces of the iterations up to the first that raises, in order |
| ZkSync.LoopConnects | zk_sync.py:11-18 | the loop attempts the devices in list order, up to the first that makes the pass raise |
| ZkSync.PassConnects | zk_sync.py:9-51 | the pass attempts the devices in list order, each with its IP and password, up to the first that makes the pass raise, and none after it |
| ZkSync.PassPort | zk_sync.py:17 | every connection attempt uses port 4370, whatever the entry says |
| ZkSync.LoopPosts | zk_sync.py:11-46 | the loop POSTs the reached devices' records, device after device |
| ZkSync.PassPosts | zk_sync.py:9-51 | the pass POSTs the records of the devices it reaches, in order; skipped devices and devices after a raising one contribute nothing |
| ZkSync.PassFacts | zk_sync.py:9-51 | the pass starts with the start line; it completes exactly when no device makes it raise, and logs the completion line exactly then, as its last event |
| ZkSync.FetchLogsAndSync | zk_sync.py:5-51 | the pass of zk_sync.py; its properties are stated by ZkSync.PassFacts, ZkSync.PassConnects and ZkSync.PassPosts |
| SyncDup.Key | sync_dup.py:27 | `str(sn)`: text is its own key, an integer's key parses back to it, None's key is "None" |
| SyncDup.Load | sync_dup.py:14-24 | loading fails only when the missing file cannot be created; a created or unreadable file gives the empty object, and a readable one whatever JSON value it holds, object or not |
| SyncDup.Get | sync_dup.py:26-33 | reading raises exactly when the loaded value is not an object, and otherwise reads the object |
| SyncDup.Save | sync_dup.py:35-36 | saving raises exactly when the loaded value is not an object, and otherwise updates the object |
| SyncDup.NonObjectLoadsThenRaises | sync_dup.py:21-36 | a file holding JSON that is not an object loads, then every read and every save raises |
| SyncDup.LoadSaveGet | sync_dup.py:21-36 | for a file holding an object, a save followed by a read gives back the saved time |
| SyncDup.GetLastSync | sync_dup.py:26-33 | a value comes back exactly when the key is present, its value is a string, and that string parses as an isoformat datetime |
| SyncDup.SaveLastSync | sync_dup.py:35-36 | the store gains the key `str(sn)` holding non-empty text, and every other entry is unchanged |
| SyncDup.SaveThenGet | sync_dup.py:26-36 | after saving dt for sn, reading sn gives dt, whatever was stored before |
| SyncDup.SaveFrame | sync_dup.py:36 | saving for one serial leaves what every serial with another key reads unchanged |
| SyncDup.SameKeyShares | sync_dup.py:27-36 | serials with the same `str` form read the same entry and save to the same entry |
| SyncDup.NumberMeetsText | sync_dup.py:27 | the integer n and the text `str(n)` are the same key |
| SyncDup.SaveOverwrites | sync_dup.py:35-36 | of two saves for one serial only the second remains, whether it moves the time forward or back |
| SyncDup.UnparseableIsNone | sync_dup.py:28-32 | an empty or unparseable stored string reads as None rather than raising |
| SyncDup.FreshStoreIsEmpty | sync_dup.py:19-24 | after a load that created the file or failed to read it, reading any serial succeeds and finds no last sync |
| App.SecondsToLabel | app.py:107-109 | the label is always a combobox choice; a tabulated interval gets the label that maps back to it, any other one "Off" |
| App.LabelToSeconds | app.py:111-113 | the interval is always tabulated; a known label gets the interval that maps back to it, any other one 0 |
| App.ComboboxLabelsTabulated | app.py:71 | the combobox offers exactly the labels of the table |
| App.IntervalRoundTrips | app.py:107-113 | the two lookups undo each other on the seven intervals and on the seven labels |
| App.OnlyOffIsZero | app.py:111-113 | a label means 0 seconds exactly when it is "Off" or unknown |
| App.AddDevice | app.py:122-136 | an empty or cancelled IP or a non-numeric number leaves the list as it was; otherwise exactly one entry is appended with the stripped IP, 4370 and 0 as defaults, and no "sn" key |
| App.EditDevice | app.py:138-156 | only the selected entry changes: its ip, port and password are overwritten and its serial kept; no selection, a non-numeric number or a cancelled IP changes nothing |
| App.RemoveDevice | app.py:158-166 | exactly the selected index is removed and the others keep their order; no selection changes nothing |
| App.AddThenRemove | app.py:122-166 | removing the entry just added gives back the list as it was |
| App.EditPrefilledKeeps | app.py:144-154 | accepting the pre-filled edit dialogs keeps the entry, only filling in missing port and password |
| App.Schedule | app.py:209-214 | scheduling installs a job with a fresh id and the given interval and changes nothing else |
| App.Init | app.py:38-100 | at start-up the loaded list is kept, no sync runs, the combobox shows the saved interval's label, and a job is pending exactly for a positive saved interval |
| App.InitHiddenJob | app.py:75-100 | a positive saved interval outside the table runs a job while the combobox shows "Off" |
| App.RunSync | app.py:169-179 | an empty list or a running sync starts nothing and changes nothing; otherwise the flag goes up, the button and close box go off and one thread starts |
| App.FinishSync | app.py:189-192 | the flag is cleared and the button and close box come back; nothing else changes |
| App.SetAutoSync | app.py:198-207 | the chosen interval is saved; any pending job is cancelled and a new one, with a fresh id, is scheduled exactly for a positive interval |
| App.StepConsistent | app.py:169-214 | every event keeps one thread alive exactly while the flag is up, with button and close box off exactly then |
| App.AtMostOneSync | app.py:169-214 | from start-up, whatever the events, at most one sync thread is ever alive |
| App.NoSecondSync | app.py:173-175 | while a sync runs, neither a click nor a job firing starts another thread |
| App.Step | app.py:169-214 | one event of the app.py loop; what it keeps is stated by App.StepConsistent |
| App2.AddDevice | app_2.py:91-109 | the app.py checks, and every appended entry carries `"sn": "Unknown"` |
| App2.AddedEntryShape | app_2.py:107 | an added entry has the placeholder serial and a stripped IP |
| App2.RemoveDevice | app_2.py:111-114 | exactly the given index is removed and the others keep their order |
| App2.AddThenRemove | app_2.py:91-114 | removing the entry just added gives back the list as it was |
| App2.Init | app_2.py:37-64 | at start-up the loaded list is kept, nothing is pressed, no sync runs and the one-hour job is pending |
| App2.RunSync | app_2.py:117-134 | an empty list changes nothing; otherwise the flag goes up, the pending job is cancelled, the button and close box go off and one thread starts |
| App2.FinishSync | app_2.py:152-155 | the button and close box come back and the pressed flag stays raised |
| App2.AutoSync | app_2.py:164-167 | the job is never pending afterwards; once the button was used, or with an empty list, it changes nothing else; otherwise it starts one sync thread, raises the flag and turns the button and close box off |
| App2.StepConsistent | app_2.py:117-167 | every event keeps the flags consistent, and a raised pressed flag stays raised with no further auto start |
| App2.RunInvariant | app_2.py:117-167 | from start-up, at most one thread is alive, the job starts at most one sync, and once pressed it starts none |
| App2.PressedSilencesAuto | app_2.py:123-167 | after `run_sync` starts a sync, the job starts nothing |
| App2.EmptyListSpendsAuto | app_2.py:164-167 | with an empty list the job spends itself without syncing and never fires again |
| App2.Step | app_2.py:91-167 | one event of the app_2.py loop; what it keeps is stated by App2.StepConsistent |

## Left out

- Widgets, dialogs, message boxes and the Treeview or label rendering of the list are not modelled. Dialog answers are parameters, and `None` stands for a cancelled dialog.
- Threads and `root.after` timers are reduced to actions of an event loop: a click, a job firing, a thread ending, a combobox choice and a list change. Real interleavings and timings are not modelled.
- ZkSync.PassConnects, ZkSync.PassPosts, ZkSync1.PassConnects and ZkSync1.PassPosts hold only for a device list left unchanged during the pass. Both GUIs pass the live `config["devices"]` list to the pass (app.py:183, app_2.py:140). The add, edit and remove handlers change that list in place while a sync runs (app.py:134, 154, 164; app_2.py:107, 112). Only the sync button is disabled (app.py:177, app_2.py:128). Removing the device being synced from [A, B, C] makes the loop skip B.
- The ZK protocol and `requests.post` are foreign calls. Each device's answers are given by a `Script`, and each POST's answer by the `Response` paired with its record.
- Reading and writing config.json and last_sync.json, path resolution and `print` are I/O. The stores are in-memory values, and `Load` takes what opening the file found.
- Log lines are tags, not their emoji text, and some drop values the text shows: the connecting line drops the port (zk_sync1.py:29), the fetched-count line the IP (zk_sync1.py:38), the API-error and API-failure lines the user id (zk_sync1.py:54, 56), and the failure lines the exception text. `log_fn` is assumed not to raise.
- An entry without an "ip" key is not modelled: zk_sync1.py reads it with `dev.get("ip")` and would connect to `None`, while zk_sync.py's `dev["ip"]` raises `KeyError` out of the pass. Every modelled entry has an IP.
- The window being destroyed when a sync thread's pass raises is not modelled. The model records only whether the zk_sync.py pass completed.
- App.RunSync: app.py and app_2.py show an error box or a log line on refusal, and the model only reports the refusal.
- `int()` of non-ASCII Unicode digits is not modelled. Only the ASCII digits, whitespace, sign and `_` grouping are accepted.
- `fromisoformat` timezone offsets and the wider grammar of Python 3.11 are not modelled. The parser takes the date, and optionally a separator, the clock and a 3- or 6-digit fraction.
- Timestamps.Strftime: `%Y` is written with four digits, as `isoformat()` writes it. A C library that writes years below 1000 without zero padding, as glibc does, is not modelled.
- SyncDup.SaveLastSync: a failing write after the in-memory update is not modelled. Neither is the file contents after a save.
- SyncDup.Stored: JSON values other than strings are reduced to their truthiness. They all read as None, either through `if ts` or through the `TypeError` that `fromisoformat` raises.
- Trace.Payloads: its own contract gives only the length. The payload of each record is stated by `Trace.PayloadFields` and `Trace.PostEachShape`.
