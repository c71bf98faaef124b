/**
 * The non-widget logic of app.py: the auto-sync interval tables, the
 * device list commands and the flags that keep at most one sync running.
 * Dialog answers arrive as parameters (None for a cancelled dialog); the
 * Tk event loop is reduced to a sequence of actions.
 */
module App {
  import opened Wrappers
  import opened PyText
  import opened Devices

  /** The choices the interval combobox offers, in display order. */
  const Intervals: seq<string> := ["Off", "1h", "4h", "6h", "8h", "12h", "24h"]

  /** The table `seconds_to_label` looks values up in. */
  const SecondsLabels: map<int, string> :=
    map[0 := "Off", 3600 := "1h", 14400 := "4h", 21600 := "6h", 28800 := "8h", 43200 := "12h", 86400 := "24h"]

  /** The table `label_to_seconds` looks labels up in. */
  const LabelSeconds: map<string, int> :=
    map["Off" := 0, "1h" := 3600, "4h" := 14400, "6h" := 21600, "8h" := 28800, "12h" := 43200, "24h" := 86400]

  /** `seconds_to_label(sec)`: an interval the table does not know shows as "Off". */
  function SecondsToLabel(sec: int): (r: string)
    ensures r in Intervals
    ensures sec !in SecondsLabels ==> r == "Off"
    ensures sec in SecondsLabels ==> r in LabelSeconds && LabelSeconds[r] == sec
  {
    if sec in SecondsLabels then SecondsLabels[sec] else "Off"
  }

  /** `label_to_seconds(name)`: an unknown name means auto-sync off. */
  function LabelToSeconds(name: string): (r: int)
    ensures name !in LabelSeconds ==> r == 0
    ensures r in SecondsLabels
    ensures name in LabelSeconds ==> r in SecondsLabels && SecondsLabels[r] == name
  {
    if name in LabelSeconds then LabelSeconds[name] else 0
  }

  /** The combobox offers exactly the labels of the table. */
  lemma ComboboxLabelsTabulated()
    ensures forall l :: l in Intervals <==> l in LabelSeconds
  {
    assert LabelSeconds.Keys == {"Off", "1h", "4h", "6h", "8h", "12h", "24h"};
  }

  /** The two lookups undo each other on the seven tabulated intervals and the seven labels. */
  lemma IntervalRoundTrips(s: int, l: string)
    ensures s in SecondsLabels ==> LabelToSeconds(SecondsToLabel(s)) == s
    ensures l in LabelSeconds ==> SecondsToLabel(LabelToSeconds(l)) == l
  {
  }

  /** "Off" is the only label meaning no auto-sync; any other answer of 0 comes from an unknown label. */
  lemma OnlyOffIsZero(l: string)
    ensures LabelToSeconds(l) == 0 <==> l == "Off" || l !in LabelSeconds
  {
  }

  /** `add_device()`: the new entry has no "sn" key. */
  function AddDevice(devices: seq<DeviceEntry>, ip: Option<string>, port: Option<string>,
                     password: Option<string>): (r: Change)
    ensures (ip.None? || ip == Some("")) ==> r == Kept(NoIp)
    ensures r.Changed? <==>
      ip.Some? && ip.value != "" && IntOr(port, DefaultPort).Some? && IntOr(password, DefaultPassword).Some?
    ensures r.Changed? ==>
      && |r.devices| == |devices| + 1
      && r.devices[..|devices|] == devices
      && r.devices[|devices|].ip == Strip(ip.value)
      && r.devices[|devices|].port == IntOr(port, DefaultPort)
      && r.devices[|devices|].password == IntOr(password, DefaultPassword)
      && r.devices[|devices|].sn.None?
  {
    Append(devices, ip, port, password, None)
  }

  /**
   * `edit_device()`. `selected` is the selected row (None: no selection);
   * the three answers come from dialogs pre-filled with the entry's
   * values. The numbers are parsed before the IP is stripped, so a
   * cancelled IP dialog only fails once both numbers parsed. Only
   * "ip", "port" and "password" of the selected entry change.
   */
  function EditDevice(devices: seq<DeviceEntry>, selected: Option<nat>, ip: Option<string>,
                      port: Option<string>, password: Option<string>): (r: Change)
    ensures selected.None? ==> r == Kept(NoSelection)
    ensures r.Changed? <==>
      && selected.Some? && selected.value < |devices|
      && IntOr(port, DefaultPort).Some? && IntOr(password, DefaultPassword).Some?
      && ip.Some?
    ensures r == Kept(IpCancelled) ==>
      IntOr(port, DefaultPort).Some? && IntOr(password, DefaultPassword).Some?
    ensures r.Changed? ==>
      var i := selected.value;
      && |r.devices| == |devices|
      && (forall j :: 0 <= j < |devices| && j != i ==> r.devices[j] == devices[j])
      && r.devices[i].ip == Strip(ip.value)
      && r.devices[i].port == IntOr(port, DefaultPort)
      && r.devices[i].password == IntOr(password, DefaultPassword)
      && r.devices[i].sn == devices[i].sn
  {
    match selected
    case None => Kept(NoSelection)
    case Some(i) =>
      if i >= |devices| then Kept(NoSuchIndex)
      else match (IntOr(port, DefaultPort), IntOr(password, DefaultPassword))
        case (Some(p), Some(w)) =>
          if ip.None? then Kept(IpCancelled)
          else Changed(devices[i := devices[i].(ip := Strip(ip.value), port := Some(p), password := Some(w))])
        case _ => Kept(NotNumbers)
  }

  /** `remove_device()`: deletes the selected row's entry. */
  function RemoveDevice(devices: seq<DeviceEntry>, selected: Option<nat>): (r: Change)
    ensures r.Changed? <==> selected.Some? && selected.value < |devices|
    ensures selected.None? ==> r == Kept(NoSelection)
    ensures r.Changed? ==>
      && |r.devices| == |devices| - 1
      && r.devices == devices[..selected.value] + devices[selected.value + 1..]
  {
    match selected
    case None => Kept(NoSelection)
    case Some(i) =>
      match RemoveAt(devices, i)
      case None => Kept(NoSuchIndex)
      case Some(rest) =>
        assert rest == devices[..i] + devices[i + 1..];
        Changed(rest)
  }

  /** Removing the entry just added gives back the list as it was. */
  lemma AddThenRemove(devices: seq<DeviceEntry>, ip: Option<string>, port: Option<string>,
                      password: Option<string>)
    requires AddDevice(devices, ip, port, password).Changed?
    ensures RemoveDevice(AddDevice(devices, ip, port, password).devices, Some(|devices|))
         == Changed(devices)
  {
    var added := AddDevice(devices, ip, port, password).devices;
    assert added[..|devices|] == devices;
  }

  /**
   * Accepting the edit dialogs as pre-filled (the entry's own IP, its
   * `str(port)` and `str(password)`) changes nothing when the stored IP has
   * no surrounding blanks, and fills in the defaults for missing keys.
   */
  lemma EditPrefilledKeeps(devices: seq<DeviceEntry>, i: nat)
    requires i < |devices|
    requires Strip(devices[i].ip) == devices[i].ip
    ensures var d := devices[i];
      EditDevice(devices, Some(i), Some(d.ip), Some(DecimalString(PortOf(d))), Some(DecimalString(PasswordOf(d))))
      == Changed(devices[i := d.(port := Some(PortOf(d)), password := Some(PasswordOf(d)))])
  {
    IntOrPrefilled(PortOf(devices[i]), DefaultPort);
    IntOrPrefilled(PasswordOf(devices[i]), DefaultPassword);
  }

  /** A pending `root.after` job: its id and the interval it re-arms with. */
  datatype Job = Job(id: nat, seconds: int)

  /**
   * The window's state apart from the widgets: the device list, the saved
   * interval, the combobox's name, the pending auto-sync job, the
   * `sync_thread_running` flag, whether the SYNC button and the close box
   * are live, how many sync threads are alive, and the next job id.
   */
  datatype Gui = Gui(devices: seq<DeviceEntry>, interval: int, shown: string, autoJob: Option<Job>,
                     running: bool, buttonEnabled: bool, closable: bool, live: nat, nextId: nat)

  /** How `run_sync()` ended. */
  datatype Outcome = NoDevices | AlreadyRunning | Started

  /** The flags agree and a pending job has a positive interval and an id already handed out. */
  predicate Consistent(g: Gui) {
    && g.live == (if g.running then 1 else 0)
    && g.buttonEnabled == !g.running
    && g.closable == !g.running
    && (g.autoJob.Some? ==> g.autoJob.value.seconds > 0 && g.autoJob.value.id < g.nextId)
  }

  /** `root.after(interval * 1000, job)` for `schedule_auto_sync(interval)`. */
  function Schedule(g: Gui, seconds: int): (r: Gui)
    ensures r.autoJob == Some(Job(g.nextId, seconds)) && r.nextId == g.nextId + 1
    ensures r == g.(autoJob := r.autoJob, nextId := r.nextId)
  {
    g.(autoJob := Some(Job(g.nextId, seconds)), nextId := g.nextId + 1)
  }

  /**
   * `ZKApp.__init__` for a loaded config: the combobox shows the saved
   * interval's name, and a job is scheduled for any positive saved
   * interval, tabulated or not.
   */
  function Init(devices: seq<DeviceEntry>, saved: int): (g: Gui)
    ensures Consistent(g)
    ensures !g.running && g.live == 0 && g.devices == devices
    ensures g.shown == SecondsToLabel(saved) && g.interval == saved
    ensures g.autoJob.Some? <==> saved > 0
    ensures g.autoJob.Some? ==> g.autoJob.value.seconds == saved
  {
    var g := Gui(devices, saved, SecondsToLabel(saved), None, false, true, true, 0, 0);
    if saved > 0 then Schedule(g, saved) else g
  }

  /** A positive saved interval the table does not know runs a job while the combobox shows "Off". */
  lemma InitHiddenJob(devices: seq<DeviceEntry>, saved: int)
    requires saved > 0 && saved !in SecondsLabels
    ensures Init(devices, saved).shown == "Off" && Init(devices, saved).autoJob.Some?
  {
  }

  /**
   * `run_sync()`: refuses with an empty list, refuses while a sync runs,
   * and otherwise raises the flag, disables the button and the close box,
   * and starts one thread.
   */
  function RunSync(g: Gui): (r: (Gui, Outcome))
    ensures r.1 == NoDevices <==> g.devices == []
    ensures r.1 == AlreadyRunning <==> g.devices != [] && g.running
    ensures r.1 != Started ==> r.0 == g
    ensures r.1 == Started ==>
      && r.0 == g.(running := true, buttonEnabled := false, closable := false, live := g.live + 1)
  {
    if g.devices == [] then (g, NoDevices)
    else if g.running then (g, AlreadyRunning)
    else (g.(running := true, buttonEnabled := false, closable := false, live := g.live + 1), Started)
  }

  /** `finish_sync()`: clears the flag and re-enables the button and the close box. */
  function FinishSync(g: Gui): (r: Gui)
    ensures !r.running && r.buttonEnabled && r.closable
    ensures r.(running := g.running, buttonEnabled := g.buttonEnabled, closable := g.closable) == g
  {
    g.(running := false, buttonEnabled := true, closable := true)
  }

  /**
   * `set_auto_sync()` for the name the combobox now shows: the interval is
   * saved, any pending job is cancelled, and a new one is scheduled only
   * for a positive interval.
   */
  function SetAutoSync(g: Gui, name: string): (r: Gui)
    ensures r.interval == LabelToSeconds(name) && r.shown == name
    ensures r.autoJob.Some? <==> LabelToSeconds(name) > 0
    ensures r.autoJob.Some? ==> r.autoJob.value.seconds == LabelToSeconds(name)
    ensures r.autoJob.Some? ==> r.autoJob.value.id == g.nextId
    ensures Consistent(g) && g.autoJob.Some? && r.autoJob.Some? ==> r.autoJob.value.id != g.autoJob.value.id
    ensures r.devices == g.devices && r.running == g.running && r.live == g.live
  {
    var seconds := LabelToSeconds(name);
    var cancelled := g.(interval := seconds, shown := name, autoJob := None);
    if seconds > 0 then Schedule(cancelled, seconds) else cancelled
  }

  /** What can happen next in the event loop. */
  datatype Action =
    | PressSync                       // a click on SYNC NOW; a disabled button ignores it
    | JobFires                        // the pending auto-sync job runs
    | ThreadEnds                      // a sync thread finishes and `finish_sync` runs
    | Choose(name: string)           // a combobox selection
    | ListChanged(c: Change)          // the outcome of an add, edit or remove

  /** One event. The job re-arms itself after calling `run_sync`. */
  function Step(g: Gui, a: Action): Gui
  {
    match a
    case PressSync => if g.buttonEnabled then RunSync(g).0 else g
    case JobFires =>
      (match g.autoJob
       case None => g
       case Some(j) => Schedule(RunSync(g).0, j.seconds))
    case ThreadEnds => if g.live > 0 then FinishSync(g.(live := g.live - 1)) else g
    case Choose(name) => SetAutoSync(g, name)
    case ListChanged(c) => if c.Changed? then g.(devices := c.devices) else g
  }

  /** Every event keeps the flags consistent. */
  lemma StepConsistent(g: Gui, a: Action)
    requires Consistent(g)
    ensures Consistent(Step(g, a))
    ensures Step(g, a).live <= 1
  {
  }

  function Steps(g: Gui, actions: seq<Action>): Gui
    decreases |actions|
  {
    if actions == [] then g else Steps(Step(g, actions[0]), actions[1..])
  }

  /**
   * From start-up, whatever the clicks, job firings, combobox choices and
   * list edits, at most one sync thread is ever alive and it is alive
   * exactly while the flag is up.
   */
  lemma {:induction false} AtMostOneSync(g: Gui, actions: seq<Action>)
    requires Consistent(g)
    ensures Consistent(Steps(g, actions))
    ensures Steps(g, actions).live <= 1
    decreases |actions|
  {
    if actions != [] {
      StepConsistent(g, actions[0]);
      AtMostOneSync(Step(g, actions[0]), actions[1..]);
    }
  }

  /** While a sync runs, neither a click nor a job firing starts another thread. */
  lemma NoSecondSync(g: Gui)
    requires Consistent(g) && g.running
    ensures Step(g, PressSync).live == g.live
    ensures Step(g, JobFires).live == g.live
  {
  }
}
