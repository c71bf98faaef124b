/**
 * The non-widget logic of app_2.py, the older window: adding and removing
 * devices, the guard of `run_sync`, and the one-shot auto-sync an hour
 * after start-up that a manual sync switches off for good.
 */
module App2 {
  import opened Wrappers
  import opened PyText
  import opened Devices

  /** The serial an added entry carries until a sync learns the real one. */
  const UnknownSerial: string := "Unknown"

  /** `add_device()`: same checks as app.py, and the entry is stamped `"sn": "Unknown"`. */
  function AddDevice(devices: seq<DeviceEntry>, ip: Option<string>, port: Option<string>,
                     password: Option<string>): (r: Change)
    ensures (ip.None? || ip == Some("")) ==> r == Kept(NoIp)
    ensures r.Changed? <==>
      ip.Some? && ip.value != "" && IntOr(port, DefaultPort).Some? && IntOr(password, DefaultPassword).Some?
    ensures r.Changed? ==>
      && |r.devices| == |devices| + 1
      && r.devices[..|devices|] == devices
      && r.devices[|devices|]
         == DeviceEntry(Strip(ip.value), IntOr(port, DefaultPort), IntOr(password, DefaultPassword),
                        Some(UnknownSerial))
  {
    Append(devices, ip, port, password, Some(UnknownSerial))
  }

  /** Every entry this window adds has a stripped IP and the placeholder serial. */
  lemma AddedEntryShape(devices: seq<DeviceEntry>, ip: Option<string>, port: Option<string>,
                        password: Option<string>)
    requires AddDevice(devices, ip, port, password).Changed?
    ensures var d := AddDevice(devices, ip, port, password).devices[|devices|];
      d.sn == Some(UnknownSerial) && Strip(d.ip) == d.ip
  {
    StripIdempotent(ip.value);
  }

  /** `remove_device(index)`: the row's Remove button deletes exactly that entry. */
  function RemoveDevice(devices: seq<DeviceEntry>, index: nat): (r: Change)
    ensures r.Changed? <==> index < |devices|
    ensures r.Kept? ==> r.why == NoSuchIndex
    ensures r.Changed? ==>
      && |r.devices| == |devices| - 1
      && (forall j :: 0 <= j < index ==> r.devices[j] == devices[j])
      && (forall j :: index <= j < |r.devices| ==> r.devices[j] == devices[j + 1])
  {
    match RemoveAt(devices, index)
    case None => Kept(NoSuchIndex)
    case Some(rest) => Changed(rest)
  }

  /** Removing the entry just added gives back the list as it was. */
  lemma AddThenRemove(devices: seq<DeviceEntry>, ip: Option<string>, port: Option<string>,
                      password: Option<string>)
    requires AddDevice(devices, ip, port, password).Changed?
    ensures RemoveDevice(AddDevice(devices, ip, port, password).devices, |devices|) == Changed(devices)
  {
    var added := AddDevice(devices, ip, port, password).devices;
    var r := RemoveDevice(added, |devices|);
    assert r.devices == devices;
  }

  /**
   * The window's state apart from the widgets: the device list, the
   * `sync_btn_pressed` flag, whether the one-hour auto-sync job is still
   * pending, whether the SYNC button and the close box are live, how many
   * sync threads are alive, and how many syncs the auto-sync job started.
   */
  datatype Gui = Gui(devices: seq<DeviceEntry>, pressed: bool, autoPending: bool,
                     buttonEnabled: bool, closable: bool, live: nat, autoStarts: nat)

  /** `ZKApp.__init__`: nothing pressed, the auto-sync job armed for an hour later. */
  function Init(devices: seq<DeviceEntry>): (g: Gui)
    ensures Consistent(g) && g.autoPending && !g.pressed && g.live == 0
    ensures g.devices == devices
  {
    Gui(devices, false, true, true, true, 0, 0)
  }

  /**
   * `run_sync()`: with an empty list nothing happens; otherwise the flag is
   * raised, the pending auto-sync job is cancelled, the button and the
   * close box are disabled and one thread starts.
   */
  function RunSync(g: Gui): (r: Gui)
    ensures g.devices == [] ==> r == g
    ensures g.devices != [] ==>
      && r.pressed && !r.autoPending && !r.buttonEnabled && !r.closable
      && r.live == g.live + 1
      && r.devices == g.devices && r.autoStarts == g.autoStarts
  {
    if g.devices == [] then g
    else g.(pressed := true, autoPending := false, buttonEnabled := false, closable := false, live := g.live + 1)
  }

  /** `finish_sync()`: the button and the close box come back; the flag stays raised. */
  function FinishSync(g: Gui): (r: Gui)
    ensures r.buttonEnabled && r.closable
    ensures r.(buttonEnabled := g.buttonEnabled, closable := g.closable) == g
  {
    g.(buttonEnabled := true, closable := true)
  }

  /** `auto_sync()` as the job fires: it runs a sync only if the button was never used. */
  function AutoSync(g: Gui): (r: Gui)
    ensures g.pressed || g.devices == [] ==> r == g.(autoPending := false)
    ensures !g.pressed && g.devices != [] ==>
      && r.autoStarts == g.autoStarts + 1 && r.live == g.live + 1
      && r.pressed && !r.buttonEnabled && !r.closable && r.devices == g.devices
    ensures !r.autoPending
  {
    var fired := g.(autoPending := false);
    if g.pressed then fired
    else
      var r := RunSync(fired);
      if g.devices == [] then r else r.(autoStarts := r.autoStarts + 1)
  }

  /** The flags agree: a thread is alive exactly while the button is off, only after the flag went up. */
  predicate Consistent(g: Gui) {
    && g.live == (if g.buttonEnabled then 0 else 1)
    && g.closable == g.buttonEnabled
    && (g.pressed ==> !g.autoPending)
    && (!g.pressed ==> g.live == 0 && g.autoStarts == 0)
    && (g.autoPending ==> g.autoStarts == 0)
    && g.autoStarts <= 1
  }

  /** What can happen next in the event loop. */
  datatype Action =
    | PressSync                                   // a click on SYNC NOW; a disabled button ignores it
    | AutoJobFires                                // the one-hour job runs, if still pending
    | ThreadEnds                                  // a sync thread finishes and `finish_sync` runs
    | Add(ip: Option<string>, port: Option<string>, password: Option<string>)
    | Remove(index: nat)

  function Step(g: Gui, a: Action): Gui
  {
    match a
    case PressSync => if g.buttonEnabled then RunSync(g) else g
    case AutoJobFires => if g.autoPending then AutoSync(g) else g
    case ThreadEnds => if g.live > 0 then FinishSync(g.(live := g.live - 1)) else g
    case Add(ip, port, password) =>
      (match AddDevice(g.devices, ip, port, password)
       case Changed(ds) => g.(devices := ds)
       case Kept(_) => g)
    case Remove(index) =>
      (match RemoveDevice(g.devices, index)
       case Changed(ds) => g.(devices := ds)
       case Kept(_) => g)
  }

  /** Every event keeps the flags consistent. */
  lemma StepConsistent(g: Gui, a: Action)
    requires Consistent(g)
    ensures Consistent(Step(g, a))
    ensures g.pressed ==> Step(g, a).pressed && Step(g, a).autoStarts == g.autoStarts
  {
  }

  function Steps(g: Gui, actions: seq<Action>): Gui
    decreases |actions|
  {
    if actions == [] then g else Steps(Step(g, actions[0]), actions[1..])
  }

  /**
   * From start-up, whatever happens: at most one sync thread is alive,
   * the auto-sync job starts at most one sync, and once the button has
   * been used the flag stays raised, so the job never starts one after.
   */
  lemma {:induction false} RunInvariant(g: Gui, actions: seq<Action>)
    requires Consistent(g)
    ensures var h := Steps(g, actions);
      && Consistent(h) && h.live <= 1 && h.autoStarts <= 1
      && (g.pressed ==> h.pressed && h.autoStarts == g.autoStarts)
    decreases |actions|
  {
    if actions != [] {
      StepConsistent(g, actions[0]);
      RunInvariant(Step(g, actions[0]), actions[1..]);
    }
  }

  /** After `run_sync` has started a sync, the auto-sync job starts nothing, now or later. */
  lemma PressedSilencesAuto(g: Gui)
    requires Consistent(g) && g.devices != []
    ensures var h := RunSync(g);
      h.pressed && AutoSync(h).live == h.live && AutoSync(h).autoStarts == h.autoStarts
  {
  }

  /** With an empty list the job spends itself without syncing, and never fires again. */
  lemma EmptyListSpendsAuto(g: Gui)
    requires Consistent(g) && g.autoPending && g.devices == []
    ensures Step(g, AutoJobFires) == g.(autoPending := false)
    ensures Step(Step(g, AutoJobFires), AutoJobFires) == g.(autoPending := false)
  {
  }
}
