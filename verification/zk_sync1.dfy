/**
 * The sync pass of zk_sync1.py: every device is handled inside one
 * try/except/finally, so a failure anywhere skips the rest of that device,
 * the connection is released whenever one was obtained, and the pass always
 * goes on to the next device.
 */
module ZkSync1 {
  import opened Wrappers
  import opened Devices
  import opened Trace

  /** `ZK(ip, port=dev.get("port", 4370), password=dev.get("password", 0))` */
  function TargetOf(d: DeviceEntry): (t: Target)
    ensures t.ip == d.ip
    ensures t.port == (if d.port.Some? then d.port.value else 4370)
    ensures t.password == (if d.password.Some? then d.password.value else 0)
  {
    Target(d.ip, PortOf(d), PasswordOf(d))
  }

  /** The try block of one device, up to the first exception it raises. */
  function Attempt(d: DeviceEntry, s: Script): seq<Event>
  {
    [Log(Connecting(d.ip)), Connect(TargetOf(d))] + AfterConnect(d.ip, s)
  }

  /** The try block once `connect()` was called: `disable_device`, then the serial. */
  function AfterConnect(ip: string, s: Script): seq<Event>
  {
    if !s.connects then [Log(DeviceFailed(ip))]
    else if !s.disables then [Disable, Log(DeviceFailed(ip))]
    else [Disable, ReadSerial] + AfterSerial(ip, s)
  }

  /** The try block once `get_serialnumber()` was called: the records, then the POST loop. */
  function AfterSerial(ip: string, s: Script): seq<Event>
  {
    match s.serial
    case None => [Log(DeviceFailed(ip))]
    case Some(sn) =>
      match s.logs
      case None => [Log(SerialIs(sn)), ReadLogs, Log(DeviceFailed(ip))]
      case Some(fs) => [Log(SerialIs(sn)), ReadLogs, Log(LogsFetched(|fs|))] + PostEach(ip, Some(sn), fs)
  }

  /**
   * The finally block: runs only when `connect()` returned a connection;
   * `enable_device`, `disconnect` and the log line share one try whose
   * exceptions are dropped, so a raising `enable_device` skips `disconnect`.
   */
  function Release(ip: string, s: Script): seq<Event>
  {
    if !s.connects then []
    else [Enable] + if !s.enables then []
      else [Disconnect] + if s.disconnects then [Log(Disconnected(ip))] else []
  }

  /** One iteration of the device loop. */
  function SyncDevice(d: DeviceEntry, s: Script): seq<Event>
  {
    Attempt(d, s) + Release(d.ip, s)
  }

  /** The device loop's iterations; `scripts[i]` is how `devices[i]` answers. */
  function DeviceTraces(devices: seq<DeviceEntry>, scripts: seq<Script>): (ts: seq<seq<Event>>)
    requires |devices| == |scripts|
    ensures |ts| == |devices|
  {
    seq(|devices|, i requires 0 <= i < |devices| => SyncDevice(devices[i], scripts[i]))
  }

  /** `fetch_logs_and_sync(api_url, devices, log_fn)` of zk_sync1.py. */
  function FetchLogsAndSync(devices: seq<DeviceEntry>, scripts: seq<Script>): seq<Event>
    requires |devices| == |scripts|
  {
    [Log(Starting)] + Flatten(DeviceTraces(devices, scripts)) + [Log(Complete)]
  }

  /** The device answered every call up to and including `get_attendance`. */
  predicate ReachesPosts(s: Script) {
    s.connects && s.disables && s.serial.Some? && s.logs.Some?
  }

  /** The bodies a device's records are POSTed with, in fetched order; none if a read failed. */
  function ExpectedPosts(ip: string, s: Script): seq<Payload>
  {
    if ReachesPosts(s) then
      Payloads(ip, s.serial, s.logs.value)
    else []
  }

  /** The bodies of all devices' POSTs, device after device. */
  function ExpectedPassPosts(devices: seq<DeviceEntry>, scripts: seq<Script>): seq<Payload>
    requires |devices| == |scripts|
  {
    Flatten(ExpectedPerDevice(devices, scripts))
  }

  function ExpectedPerDevice(devices: seq<DeviceEntry>, scripts: seq<Script>): (ps: seq<seq<Payload>>)
    requires |devices| == |scripts|
    ensures |ps| == |devices|
    ensures forall i :: 0 <= i < |devices| ==> ps[i] == ExpectedPosts(devices[i].ip, scripts[i])
  {
    seq(|devices|, i requires 0 <= i < |devices| => ExpectedPosts(devices[i].ip, scripts[i]))
  }

  /** No release call and no pass-level log line: what the try block of a device never emits. */
  predicate Unreleased(t: seq<Event>) {
    forall e :: e in t ==> e != Enable && e != Disconnect && e != Log(Starting) && e != Log(Complete)
  }

  lemma UnreleasedJoin(a: seq<Event>, b: seq<Event>, t: seq<Event>)
    requires t == a + b && Unreleased(a) && Unreleased(b)
    ensures Unreleased(t)
  {
    forall e | e in t
      ensures e != Enable && e != Disconnect && e != Log(Starting) && e != Log(Complete)
    {
      InEither(a, b, t, e);
    }
  }

  lemma AfterSerialFacts(ip: string, s: Script)
    ensures s.connects && s.disables ==> Posts(AfterSerial(ip, s)) == ExpectedPosts(ip, s)
    ensures Connects(AfterSerial(ip, s)) == []
  {
    var t := AfterSerial(ip, s);
    if s.serial.Some? && s.logs.Some? {
      var sn := s.serial.value;
      var fs := s.logs.value;
      var pre := [Log(SerialIs(sn)), ReadLogs, Log(LogsFetched(|fs|))];
      var loop := PostEach(ip, Some(sn), fs);
      PostEachPosts(ip, Some(sn), fs);
      PostsNone(pre);
      ConnectsNone(pre);
      Joined(pre, loop, t);
    } else {
      PostsNone(t);
      ConnectsNone(t);
    }
  }

  lemma AfterSerialQuiet(ip: string, s: Script)
    ensures Unreleased(AfterSerial(ip, s))
  {
    if s.serial.Some? && s.logs.Some? {
      var sn := s.serial.value;
      var fs := s.logs.value;
      var pre := [Log(SerialIs(sn)), ReadLogs, Log(LogsFetched(|fs|))];
      PostEachKinds(ip, Some(sn), fs);
      UnreleasedJoin(pre, PostEach(ip, Some(sn), fs), AfterSerial(ip, s));
    }
  }

  lemma AfterConnectFacts(ip: string, s: Script)
    ensures Posts(AfterConnect(ip, s)) == ExpectedPosts(ip, s)
    ensures Connects(AfterConnect(ip, s)) == []
  {
    var t := AfterConnect(ip, s);
    if s.connects && s.disables {
      var pre := [Disable, ReadSerial];
      AfterSerialFacts(ip, s);
      PostsNone(pre);
      ConnectsNone(pre);
      Joined(pre, AfterSerial(ip, s), t);
    } else {
      PostsNone(t);
      ConnectsNone(t);
    }
  }

  lemma AfterConnectQuiet(ip: string, s: Script)
    ensures Unreleased(AfterConnect(ip, s))
  {
    if s.connects && s.disables {
      AfterSerialQuiet(ip, s);
      UnreleasedJoin([Disable, ReadSerial], AfterSerial(ip, s), AfterConnect(ip, s));
    }
  }

  /** The try block: one connection attempt and the expected POSTs. */
  lemma AttemptFacts(d: DeviceEntry, s: Script)
    ensures Posts(Attempt(d, s)) == ExpectedPosts(d.ip, s)
    ensures Connects(Attempt(d, s)) == [TargetOf(d)]
  {
    var head := [Log(Connecting(d.ip)), Connect(TargetOf(d))];
    AfterConnectFacts(d.ip, s);
    HeadFacts(d.ip, TargetOf(d));
    Joined(head, AfterConnect(d.ip, s), Attempt(d, s));
  }

  /** The try block makes no release call. */
  lemma AttemptQuiet(d: DeviceEntry, s: Script)
    ensures Unreleased(Attempt(d, s))
  {
    AfterConnectQuiet(d.ip, s);
    UnreleasedJoin([Log(Connecting(d.ip)), Connect(TargetOf(d))], AfterConnect(d.ip, s), Attempt(d, s));
  }

  lemma ReleaseFacts(ip: string, s: Script)
    ensures var r := Release(ip, s);
      && Posts(r) == [] && Connects(r) == []
      && (forall e :: e in r ==> !e.Post?)
      && Log(Starting) !in r && Log(Complete) !in r
  {
    var r := Release(ip, s);
    ReleaseQuiet(ip, s);
    PostsNone(r);
    ConnectsNone(r);
  }

  lemma ReleaseQuiet(ip: string, s: Script)
    ensures forall e :: e in Release(ip, s) ==> e == Enable || e == Disconnect || e == Log(Disconnected(ip))
    ensures s.connects ==> Release(ip, s)[0] == Enable
  {
  }

  lemma ReleaseCounts(ip: string, s: Script)
    ensures multiset(Release(ip, s))[Enable] == (if s.connects then 1 else 0)
    ensures multiset(Release(ip, s))[Disconnect] == (if s.connects && s.enables then 1 else 0)
  {
    var r := Release(ip, s);
    if s.connects {
      var rest := if !s.enables then [] else [Disconnect] + if s.disconnects then [Log(Disconnected(ip))] else [];
      assert r == [Enable] + rest;
      assert multiset(r) == multiset{Enable} + multiset(rest);
      if s.enables {
        var tail := if s.disconnects then [Log(Disconnected(ip))] else [];
        assert rest == [Disconnect] + tail;
        assert multiset(rest) == multiset{Disconnect} + multiset(tail);
        assert multiset(tail)[Enable] == 0 && multiset(tail)[Disconnect] == 0;
      }
    }
  }

  /**
   * One device: one connection attempt, with the configured or default port
   * and password, and exactly one POST per fetched record, in order, when
   * every read succeeded and none otherwise.
   */
  lemma SyncDeviceAttempts(d: DeviceEntry, s: Script)
    ensures var t := SyncDevice(d, s);
      && t[0] == Log(Connecting(d.ip))
      && Connects(t) == [TargetOf(d)]
      && Posts(t) == ExpectedPosts(d.ip, s)
      && Log(Starting) !in t && Log(Complete) !in t
  {
    var a := Attempt(d, s);
    var r := Release(d.ip, s);
    AttemptFacts(d, s);
    AttemptQuiet(d, s);
    ReleaseFacts(d.ip, s);
    Joined(a, r, SyncDevice(d, s));
    InEither(a, r, SyncDevice(d, s), Log(Starting));
    InEither(a, r, SyncDevice(d, s), Log(Complete));
  }

  /**
   * One device: `enable_device` is attempted exactly when `connect()`
   * returned, whichever later call failed, and only after every POST;
   * `disconnect` exactly when, in addition, `enable_device` returned.
   */
  lemma SyncDeviceReleases(d: DeviceEntry, s: Script)
    ensures var t := SyncDevice(d, s);
      && multiset(t)[Enable] == (if s.connects then 1 else 0)
      && multiset(t)[Disconnect] == (if s.connects && s.enables then 1 else 0)
      && PostsBefore(t, Enable)
  {
    var a := Attempt(d, s);
    var r := Release(d.ip, s);
    AttemptQuiet(d, s);
    ReleaseFacts(d.ip, s);
    ReleaseCounts(d.ip, s);
    ReleaseAfterPosts(a, r, SyncDevice(d, s));
  }

  /**
   * Failure isolation: in the device loop, device i's events are exactly
   * what it would produce alone, placed after those of the devices before it
   * and before those after it, whatever the other devices answered.
   */
  lemma DeviceLoopSplit(devices: seq<DeviceEntry>, scripts: seq<Script>, i: nat)
    requires |devices| == |scripts| && i < |devices|
    ensures Flatten(DeviceTraces(devices, scripts))
         == Flatten(DeviceTraces(devices[..i], scripts[..i]))
            + SyncDevice(devices[i], scripts[i])
            + Flatten(DeviceTraces(devices[i + 1..], scripts[i + 1..]))
  {
    var ts := DeviceTraces(devices, scripts);
    FlattenSplit(ts, i);
    assert ts[..i] == DeviceTraces(devices[..i], scripts[..i]);
    assert ts[i + 1..] == DeviceTraces(devices[i + 1..], scripts[i + 1..]);
  }

  /** The connection targets of the devices, in list order. */
  function TargetsOf(devices: seq<DeviceEntry>): (ts: seq<Target>)
    ensures |ts| == |devices| && forall i :: 0 <= i < |devices| ==> ts[i] == TargetOf(devices[i])
  {
    seq(|devices|, i requires 0 <= i < |devices| => TargetOf(devices[i]))
  }

  /** Every device is attempted, in list order, whatever any device answered. */
  lemma DeviceLoopConnects(devices: seq<DeviceEntry>, scripts: seq<Script>)
    requires |devices| == |scripts|
    ensures Connects(Flatten(DeviceTraces(devices, scripts))) == TargetsOf(devices)
  {
    var ts := DeviceTraces(devices, scripts);
    forall i | 0 <= i < |ts|
      ensures Connects(ts[i]) == [TargetsOf(devices)[i]]
    {
      SyncDeviceAttempts(devices[i], scripts[i]);
    }
    ConnectsFlatten(ts, TargetsOf(devices));
  }

  /** No device logs the completion line. */
  lemma DeviceLoopQuiet(devices: seq<DeviceEntry>, scripts: seq<Script>)
    requires |devices| == |scripts|
    ensures Log(Complete) !in Flatten(DeviceTraces(devices, scripts))
  {
    var ts := DeviceTraces(devices, scripts);
    forall i | 0 <= i < |ts|
      ensures Log(Complete) !in ts[i]
    {
      SyncDeviceAttempts(devices[i], scripts[i]);
    }
    FlattenMember(ts, Log(Complete));
  }

  /** The POSTs of the loop are each device's expected POSTs, device after device. */
  lemma DeviceLoopPosts(devices: seq<DeviceEntry>, scripts: seq<Script>)
    requires |devices| == |scripts|
    ensures Posts(Flatten(DeviceTraces(devices, scripts))) == ExpectedPassPosts(devices, scripts)
  {
    var ts := DeviceTraces(devices, scripts);
    PostsFlatten(ts);
    forall i | 0 <= i < |ts|
      ensures Posts(ts[i]) == ExpectedPosts(devices[i].ip, scripts[i])
    {
      SyncDeviceAttempts(devices[i], scripts[i]);
    }
    assert PostsOf(ts) == ExpectedPerDevice(devices, scripts);
  }

  /** The pass opens with the start line and ends with the completion line, logged exactly once. */
  lemma PassShape(devices: seq<DeviceEntry>, scripts: seq<Script>)
    requires |devices| == |scripts|
    ensures var t := FetchLogsAndSync(devices, scripts);
      && t[0] == Log(Starting)
      && t[|t| - 1] == Log(Complete)
      && multiset(t)[Log(Complete)] == 1
  {
    var body := Flatten(DeviceTraces(devices, scripts));
    DeviceLoopQuiet(devices, scripts);
    assert multiset(body)[Log(Complete)] == 0;
    assert multiset([Log(Starting)] + body + [Log(Complete)])
        == multiset([Log(Starting)]) + multiset(body) + multiset([Log(Complete)]);
  }

  /**
   * Every device is attempted, in list order, with its configured or
   * default port and password: a failing device never stops the loop, and
   * exceptions while releasing are dropped.
   */
  lemma PassConnects(devices: seq<DeviceEntry>, scripts: seq<Script>)
    requires |devices| == |scripts|
    ensures Connects(FetchLogsAndSync(devices, scripts)) == TargetsOf(devices)
  {
    var body := Flatten(DeviceTraces(devices, scripts));
    DeviceLoopConnects(devices, scripts);
    ConnectsAppend([Log(Starting)], body);
    ConnectsAppend([Log(Starting)] + body, [Log(Complete)]);
  }

  /** The pass POSTs every device's records, device after device and in fetched order. */
  lemma PassPosts(devices: seq<DeviceEntry>, scripts: seq<Script>)
    requires |devices| == |scripts|
    ensures Posts(FetchLogsAndSync(devices, scripts)) == ExpectedPassPosts(devices, scripts)
  {
    var body := Flatten(DeviceTraces(devices, scripts));
    DeviceLoopPosts(devices, scripts);
    PostsAppend([Log(Starting)], body);
    PostsAppend([Log(Starting)] + body, [Log(Complete)]);
  }
}
