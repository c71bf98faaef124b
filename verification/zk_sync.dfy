/**
 * The sync pass of zk_sync.py, the one both GUIs call. Connecting and
 * reading the records have separate try blocks that skip the device, the
 * port is always 4370, and `enable_device`/`disconnect` run outside any try,
 * so an exception from either ends the whole pass.
 */
module ZkSync {
  import opened Wrappers
  import opened Devices
  import opened Trace

  /** Which device calls a pass made, and whether it ran to its end (false: an exception escaped). */
  datatype Run = Run(trace: seq<Event>, completed: bool)

  /** The port every device is contacted on, whatever its entry says. */
  const FixedPort: int := 4370

  /** `enable_device()` then `disconnect()`, with nothing to catch what they raise. */
  function Release(s: Script): seq<Event>
  {
    [Enable] + if s.enables then [Disconnect] else []
  }

  /** One device once `dev["password"]` was read: announce, then try to connect. */
  function AfterLookup(ip: string, password: int, s: Script): Run
  {
    var tail := AfterConnect(ip, s);
    Run([Log(Connecting(ip)), Connect(Target(ip, FixedPort, password))] + tail.trace, tail.completed)
  }

  /** What follows the `connect()` call: disable, read the records, POST them, release. */
  function AfterConnect(ip: string, s: Script): Run
  {
    if !s.connects then Run([Log(DeviceFailed(ip))], true)
    else if !s.disables then Run([Disable, Log(DeviceFailed(ip))], true)
    else match s.logs
      case None => Run([Disable, ReadLogs, Log(ReadFailed(ip))], true)
      case Some(fs) => Run(ReadAndPost(ip, fs) + Release(s), s.enables && s.disconnects)
  }

  /** A successful `get_attendance()` and the POST loop over its records. */
  function ReadAndPost(ip: string, fs: seq<Fetched>): seq<Event>
  {
    [Disable, ReadLogs, Log(LogsFetched(|fs|))] + PostEach(ip, None, fs)
  }

  /** One iteration of the device loop; a missing "password" key raises KeyError before anything else. */
  function SyncDevice(d: DeviceEntry, s: Script): Run
  {
    match d.password
    case None => Run([], false)
    case Some(p) => AfterLookup(d.ip, p, s)
  }

  /** The loop's iterations, each as if run alone. */
  function DeviceRuns(devices: seq<DeviceEntry>, scripts: seq<Script>): (rs: seq<Run>)
    requires |devices| == |scripts|
    ensures |rs| == |devices|
  {
    seq(|devices|, i requires 0 <= i < |devices| => SyncDevice(devices[i], scripts[i]))
  }

  /** Iterations run one after the other until one does not complete. */
  function Sequence(rs: seq<Run>): Run
  {
    if rs == [] then Run([], true)
    else if !rs[0].completed then rs[0]
    else
      var rest := Sequence(rs[1..]);
      Run(rs[0].trace + rest.trace, rest.completed)
  }

  /** `fetch_logs_and_sync(api_url, devices, log_fn)` of zk_sync.py. */
  function FetchLogsAndSync(devices: seq<DeviceEntry>, scripts: seq<Script>): Run
    requires |devices| == |scripts|
  {
    var loop := Sequence(DeviceRuns(devices, scripts));
    Run([Log(Starting)] + loop.trace + (if loop.completed then [Log(Complete)] else []), loop.completed)
  }

  /** The device makes the pass raise: no password key, or a failing release after its POSTs. */
  predicate Escapes(d: DeviceEntry, s: Script) {
    d.password.None? || (s.connects && s.disables && s.logs.Some? && !(s.enables && s.disconnects))
  }

  /** The device got as far as the POST loop. */
  predicate ReachesPosts(d: DeviceEntry, s: Script) {
    d.password.Some? && s.connects && s.disables && s.logs.Some?
  }

  /** The bodies the records are POSTed with once connected, in fetched order and without "device_sn". */
  function PostsFor(ip: string, s: Script): seq<Payload>
  {
    if s.connects && s.disables && s.logs.Some? then
      Payloads(ip, None, s.logs.value)
    else []
  }

  /** The bodies a device's records are POSTed with; none if the pass raises before its connection. */
  function ExpectedPosts(d: DeviceEntry, s: Script): seq<Payload>
  {
    if d.password.Some? then PostsFor(d.ip, s) else []
  }

  /** The release calls: `enable_device` always, `disconnect` only if that returned. */
  lemma ReleaseFacts(s: Script)
    ensures Posts(Release(s)) == [] && Connects(Release(s)) == []
    ensures Log(Complete) !in Release(s)
    ensures multiset(Release(s))[Enable] == 1
    ensures multiset(Release(s))[Disconnect] == (if s.enables then 1 else 0)
  {
    var r := Release(s);
    if s.enables {
      assert r == [Enable, Disconnect];
      assert multiset(r) == multiset{Enable, Disconnect};
    } else {
      assert r == [Enable];
    }
    PostsNone(r);
    ConnectsNone(r);
  }

  /** The read and the POST loop: one POST per record and no connection attempt. */
  lemma ReadAndPostCalls(ip: string, fs: seq<Fetched>)
    ensures Posts(ReadAndPost(ip, fs)) == Payloads(ip, None, fs)
    ensures Connects(ReadAndPost(ip, fs)) == []
  {
    var pre := [Disable, ReadLogs, Log(LogsFetched(|fs|))];
    PostEachPosts(ip, None, fs);
    PostsNone(pre);
    ConnectsNone(pre);
    Joined(pre, PostEach(ip, None, fs), ReadAndPost(ip, fs));
  }

  /** The read and the POST loop call no release and do not log the completion line. */
  lemma ReadAndPostQuiet(ip: string, fs: seq<Fetched>)
    ensures Enable !in ReadAndPost(ip, fs) && Disconnect !in ReadAndPost(ip, fs)
    ensures Log(Complete) !in ReadAndPost(ip, fs)
  {
    var pre := [Disable, ReadLogs, Log(LogsFetched(|fs|))];
    var loop := PostEach(ip, None, fs);
    var t := ReadAndPost(ip, fs);
    PostEachKinds(ip, None, fs);
    InEither(pre, loop, t, Enable);
    InEither(pre, loop, t, Disconnect);
    InEither(pre, loop, t, Log(Complete));
  }

  /**
   * A connect, disable or read failure: no POST and no release call; the
   * device's last event is the failure line, the read-specific one exactly
   * when the connection and `disable_device` had succeeded.
   */
  lemma SkippedFacts(ip: string, s: Script)
    requires !(s.connects && s.disables && s.logs.Some?)
    ensures var t := AfterConnect(ip, s).trace;
      && Posts(t) == [] && Connects(t) == []
      && Enable !in t && Disconnect !in t && Log(Complete) !in t
      && t != [] && t[|t| - 1] == Log(if s.connects && s.disables then ReadFailed(ip) else DeviceFailed(ip))
  {
    var t := AfterConnect(ip, s).trace;
    PostsNone(t);
    ConnectsNone(t);
  }

  lemma AfterConnectCalls(ip: string, s: Script)
    ensures Connects(AfterConnect(ip, s).trace) == []
    ensures Posts(AfterConnect(ip, s).trace) == PostsFor(ip, s)
  {
    var t := AfterConnect(ip, s).trace;
    if s.connects && s.disables && s.logs.Some? {
      ReadAndPostCalls(ip, s.logs.value);
      ReleaseFacts(s);
      Joined(ReadAndPost(ip, s.logs.value), Release(s), t);
    } else {
      SkippedFacts(ip, s);
    }
  }

  lemma AfterConnectReleases(ip: string, s: Script)
    ensures var r := AfterConnect(ip, s);
      && Log(Complete) !in r.trace
      && r.completed == !(s.connects && s.disables && s.logs.Some? && !(s.enables && s.disconnects))
      && multiset(r.trace)[Enable] == (if s.connects && s.disables && s.logs.Some? then 1 else 0)
      && multiset(r.trace)[Disconnect]
         == (if s.connects && s.disables && s.logs.Some? && s.enables then 1 else 0)
  {
    if s.connects && s.disables && s.logs.Some? {
      ReachedReleases(ip, s);
    } else {
      SkippedFacts(ip, s);
    }
  }

  lemma ReachedReleases(ip: string, s: Script)
    requires s.connects && s.disables && s.logs.Some?
    ensures var t := AfterConnect(ip, s).trace;
      && Log(Complete) !in t
      && multiset(t)[Enable] == 1
      && multiset(t)[Disconnect] == (if s.enables then 1 else 0)
  {
    var body := ReadAndPost(ip, s.logs.value);
    ReadAndPostQuiet(ip, s.logs.value);
    ReleasedAfter(body, s, AfterConnect(ip, s).trace);
  }

  /** Whatever a quiet body was, following it with the release adds exactly the release calls. */
  lemma ReleasedAfter(body: seq<Event>, s: Script, t: seq<Event>)
    requires t == body + Release(s)
    requires Enable !in body && Disconnect !in body && Log(Complete) !in body
    ensures Log(Complete) !in t
    ensures multiset(t)[Enable] == 1
    ensures multiset(t)[Disconnect] == (if s.enables then 1 else 0)
  {
    NotCounted(body, Enable);
    NotCounted(body, Disconnect);
    ReleaseFacts(s);
    Counted(body, Release(s), t, Enable);
    Counted(body, Release(s), t, Disconnect);
    InEither(body, Release(s), t, Log(Complete));
  }

  /**
   * One device: the device is contacted on port 4370 with its configured
   * password; a connect or disable failure, or a failure to read the
   * records, skips it with no POST; otherwise every fetched record is
   * POSTed once, in order. The iteration completes exactly when the device
   * does not make the pass raise.
   */
  lemma SyncDeviceCalls(d: DeviceEntry, s: Script)
    ensures var r := SyncDevice(d, s);
      && r.completed == !Escapes(d, s)
      && Connects(r.trace) == Attempted(d)
      && Posts(r.trace) == ExpectedPosts(d, s)
  {
    if d.password.Some? {
      var tg := Target(d.ip, FixedPort, d.password.value);
      var tail := AfterConnect(d.ip, s);
      AfterConnectCalls(d.ip, s);
      AfterConnectReleases(d.ip, s);
      HeadFacts(d.ip, tg);
      Joined([Log(Connecting(d.ip)), Connect(tg)], tail.trace, SyncDevice(d, s).trace);
    }
  }

  /**
   * One device: `enable_device` is called exactly when the POST loop was
   * reached, after it, and `disconnect` only if that returned; a skipped
   * device is never released. No device logs the completion line.
   */
  lemma SyncDeviceReleases(d: DeviceEntry, s: Script)
    ensures var t := SyncDevice(d, s).trace;
      && multiset(t)[Enable] == (if ReachesPosts(d, s) then 1 else 0)
      && multiset(t)[Disconnect] == (if ReachesPosts(d, s) && s.enables then 1 else 0)
      && Log(Complete) !in t
      && PostsBefore(t, Enable)
  {
    if d.password.Some? {
      var tg := Target(d.ip, FixedPort, d.password.value);
      var head := [Log(Connecting(d.ip)), Connect(tg)];
      var tail := AfterConnect(d.ip, s).trace;
      var t := SyncDevice(d, s).trace;
      ReleaseOrder(d.ip, d.password.value, s);
      AfterConnectReleases(d.ip, s);
      HeadFacts(d.ip, tg);
      NotCounted(head, Enable);
      NotCounted(head, Disconnect);
      Counted(head, tail, t, Enable);
      Counted(head, tail, t, Disconnect);
      InEither(head, tail, t, Log(Complete));
    }
  }

  /** `enable_device` follows every POST of the device. */
  lemma ReleaseOrder(ip: string, password: int, s: Script)
    ensures PostsBefore(AfterLookup(ip, password, s).trace, Enable)
  {
    var tg := Target(ip, FixedPort, password);
    var head := [Log(Connecting(ip)), Connect(tg)];
    var t := AfterLookup(ip, password, s).trace;
    HeadFacts(ip, tg);
    if s.connects && s.disables && s.logs.Some? {
      var body := ReadAndPost(ip, s.logs.value);
      ReadAndPostQuiet(ip, s.logs.value);
      OrderedRelease(head, body, s, t);
    } else {
      SkippedFacts(ip, s);
      InEither(head, AfterConnect(ip, s).trace, t, Enable);
    }
  }

  /** A head and a body without release calls, then the release: every POST comes first. */
  lemma OrderedRelease(head: seq<Event>, body: seq<Event>, s: Script, t: seq<Event>)
    requires t == head + (body + Release(s))
    requires Enable !in head && Disconnect !in head && Enable !in body && Disconnect !in body
    ensures PostsBefore(t, Enable)
  {
    InEither(head, body, head + body, Enable);
    InEither(head, body, head + body, Disconnect);
    assert t == (head + body) + Release(s);
    ReleaseAfterPosts(head + body, Release(s), t);
  }

  /** A sequence of iterations completes exactly when every iteration does. */
  lemma {:induction false} SequenceCompletes(rs: seq<Run>)
    ensures Sequence(rs).completed <==> forall i :: 0 <= i < |rs| ==> rs[i].completed
  {
    if rs != [] && rs[0].completed {
      SequenceCompletes(rs[1..]);
      assert forall i :: 1 <= i < |rs| ==> rs[i] == rs[1..][i - 1];
    }
  }

  /** How many iterations run: up to and including the first that does not complete. */
  function Stop(rs: seq<Run>): (n: nat)
    ensures n <= |rs|
    ensures forall i :: 0 <= i < n - 1 ==> rs[i].completed
    ensures n < |rs| ==> n > 0 && !rs[n - 1].completed
    ensures n == |rs| && n > 0 && rs[n - 1].completed ==> forall i :: 0 <= i < n ==> rs[i].completed
  {
    if rs == [] then 0
    else if !rs[0].completed then 1
    else 1 + Stop(rs[1..])
  }

  /** The traces of the first n iterations. */
  function TracesOf(rs: seq<Run>, n: nat): (ts: seq<seq<Event>>)
    requires n <= |rs|
    ensures |ts| == n && forall i :: 0 <= i < n ==> ts[i] == rs[i].trace
  {
    seq(n, i requires 0 <= i < n => rs[i].trace)
  }

  /** The sequence's trace is the traces of the iterations that ran, in order. */
  lemma {:induction false} SequenceTrace(rs: seq<Run>)
    ensures Sequence(rs).trace == Flatten(TracesOf(rs, Stop(rs)))
  {
    var ts := TracesOf(rs, Stop(rs));
    if rs != [] {
      if !rs[0].completed {
        assert ts == [rs[0].trace];
        assert Flatten(ts) == rs[0].trace + Flatten(ts[1..]);
      } else {
        SequenceTrace(rs[1..]);
        assert ts[1..] == TracesOf(rs[1..], Stop(rs[1..]));
        assert Flatten(ts) == ts[0] + Flatten(ts[1..]);
      }
    }
  }

  /** The device a run reaches last: the first that makes the pass raise, or the last device. */
  function Reached(devices: seq<DeviceEntry>, scripts: seq<Script>): (n: nat)
    requires |devices| == |scripts|
    ensures n <= |devices|
    ensures forall i :: 0 <= i < n - 1 ==> !Escapes(devices[i], scripts[i])
    ensures n < |devices| ==> n > 0 && Escapes(devices[n - 1], scripts[n - 1])
  {
    if devices == [] then 0
    else if Escapes(devices[0], scripts[0]) then 1
    else 1 + Reached(devices[1..], scripts[1..])
  }

  /** The connection attempt a device sees once its iteration starts. */
  function Attempted(d: DeviceEntry): seq<Target>
  {
    if d.password.Some? then [Target(d.ip, FixedPort, d.password.value)] else []
  }

  /** The connection attempts of the first n devices, device by device. */
  function AttemptedUpTo(devices: seq<DeviceEntry>, n: nat): (cs: seq<seq<Target>>)
    requires n <= |devices|
    ensures |cs| == n && forall i :: 0 <= i < n ==> cs[i] == Attempted(devices[i])
  {
    seq(n, i requires 0 <= i < n => Attempted(devices[i]))
  }

  lemma {:induction false} ReachedIsStop(devices: seq<DeviceEntry>, scripts: seq<Script>)
    requires |devices| == |scripts|
    ensures Reached(devices, scripts) == Stop(DeviceRuns(devices, scripts))
  {
    var rs := DeviceRuns(devices, scripts);
    if devices != [] {
      SyncDeviceCalls(devices[0], scripts[0]);
      ReachedIsStop(devices[1..], scripts[1..]);
      assert rs[1..] == DeviceRuns(devices[1..], scripts[1..]);
    }
  }

  lemma LoopConnects(devices: seq<DeviceEntry>, scripts: seq<Script>)
    requires |devices| == |scripts|
    ensures Connects(Sequence(DeviceRuns(devices, scripts)).trace)
         == Flatten(AttemptedUpTo(devices, Reached(devices, scripts)))
  {
    var rs := DeviceRuns(devices, scripts);
    var ts := TracesOf(rs, Stop(rs));
    ReachedIsStop(devices, scripts);
    SequenceTrace(rs);
    ConnectsFlattenAll(ts);
    forall i | 0 <= i < |ts|
      ensures Connects(ts[i]) == Attempted(devices[i])
    {
      SyncDeviceCalls(devices[i], scripts[i]);
    }
    assert ConnectsOf(ts) == AttemptedUpTo(devices, Stop(rs));
  }

  /**
   * The devices are attempted in list order, each on port 4370 with its own
   * address and password, up to the first device that makes the pass raise;
   * no device after it is attempted.
   */
  lemma PassConnects(devices: seq<DeviceEntry>, scripts: seq<Script>)
    requires |devices| == |scripts|
    ensures Connects(FetchLogsAndSync(devices, scripts).trace)
         == Flatten(AttemptedUpTo(devices, Reached(devices, scripts)))
  {
    var loop := Sequence(DeviceRuns(devices, scripts));
    var tail := if loop.completed then [Log(Complete)] else [];
    LoopConnects(devices, scripts);
    ConnectsAppend([Log(Starting)], loop.trace);
    ConnectsAppend([Log(Starting)] + loop.trace, tail);
  }

  /** Every connection attempt of the pass uses port 4370, whatever the device entry says. */
  lemma PassPort(devices: seq<DeviceEntry>, scripts: seq<Script>)
    requires |devices| == |scripts|
    ensures forall tg :: tg in Connects(FetchLogsAndSync(devices, scripts).trace) ==> tg.port == FixedPort
  {
    var cs := AttemptedUpTo(devices, Reached(devices, scripts));
    PassConnects(devices, scripts);
    forall tg: Target | tg in Flatten(cs)
      ensures tg.port == FixedPort
    {
      FlattenContains(cs, tg);
      var i :| 0 <= i < |cs| && tg in cs[i];
      assert tg in Attempted(devices[i]);
    }
  }

  /** The POST bodies of the first n devices, device by device. */
  function ExpectedUpTo(devices: seq<DeviceEntry>, scripts: seq<Script>, n: nat): (ps: seq<seq<Payload>>)
    requires |devices| == |scripts| && n <= |devices|
    ensures |ps| == n && forall i :: 0 <= i < n ==> ps[i] == ExpectedPosts(devices[i], scripts[i])
  {
    seq(n, i requires 0 <= i < n => ExpectedPosts(devices[i], scripts[i]))
  }

  lemma LoopPosts(devices: seq<DeviceEntry>, scripts: seq<Script>)
    requires |devices| == |scripts|
    ensures Posts(Sequence(DeviceRuns(devices, scripts)).trace)
         == Flatten(ExpectedUpTo(devices, scripts, Reached(devices, scripts)))
  {
    var rs := DeviceRuns(devices, scripts);
    var ts := TracesOf(rs, Stop(rs));
    ReachedIsStop(devices, scripts);
    SequenceTrace(rs);
    PostsFlatten(ts);
    forall i | 0 <= i < |ts|
      ensures Posts(ts[i]) == ExpectedPosts(devices[i], scripts[i])
    {
      SyncDeviceCalls(devices[i], scripts[i]);
    }
    assert PostsOf(ts) == ExpectedUpTo(devices, scripts, Stop(rs));
  }

  /**
   * The pass POSTs the records of the devices it reaches, device after
   * device and in fetched order within a device; a device skipped by a
   * connect or read failure contributes nothing, and no device after the
   * one that makes the pass raise is read.
   */
  lemma PassPosts(devices: seq<DeviceEntry>, scripts: seq<Script>)
    requires |devices| == |scripts|
    ensures Posts(FetchLogsAndSync(devices, scripts).trace)
         == Flatten(ExpectedUpTo(devices, scripts, Reached(devices, scripts)))
  {
    var loop := Sequence(DeviceRuns(devices, scripts));
    var tail := if loop.completed then [Log(Complete)] else [];
    LoopPosts(devices, scripts);
    PostsAppend([Log(Starting)], loop.trace);
    PostsAppend([Log(Starting)] + loop.trace, tail);
    PostsNone([Log(Starting)]);
    PostsNone(tail);
  }

  /**
   * The pass starts with the start line; it runs to its end exactly when no
   * device makes it raise, and logs its completion line exactly then, last.
   */
  lemma PassFacts(devices: seq<DeviceEntry>, scripts: seq<Script>)
    requires |devices| == |scripts|
    ensures var r := FetchLogsAndSync(devices, scripts);
      && r.trace[0] == Log(Starting)
      && (r.completed <==> forall i :: 0 <= i < |devices| ==> !Escapes(devices[i], scripts[i]))
      && (Log(Complete) in r.trace <==> r.completed)
      && (r.completed ==> r.trace[|r.trace| - 1] == Log(Complete))
  {
    var rs := DeviceRuns(devices, scripts);
    SequenceCompletes(rs);
    forall i | 0 <= i < |rs|
      ensures rs[i].completed == !Escapes(devices[i], scripts[i])
      ensures Log(Complete) !in rs[i].trace
    {
      SyncDeviceCalls(devices[i], scripts[i]);
      SyncDeviceReleases(devices[i], scripts[i]);
    }
    SequenceTrace(rs);
    FlattenMember(TracesOf(rs, Stop(rs)), Log(Complete));
  }
}
