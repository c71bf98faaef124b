/**
 * What a sync pass does, written as a trace of events: calls into the
 * device, POSTs to the endpoint and log lines. The device and the endpoint
 * are reduced to a script of the answers they give.
 */
module Trace {
  import opened Wrappers
  import opened Timestamps

  /** One attendance record as `get_attendance()` returns it. */
  datatype AttLog = AttLog(userId: int, time: Instant, status: int)

  /** What one `requests.post` call gave back: a status code, or an exception. */
  datatype Response = Status(code: int) | Raised

  /** A fetched record paired with the endpoint's answer to its POST. */
  datatype Fetched = Fetched(log: AttLog, response: Response)

  /** The JSON body of one POST; `deviceSn` is None when the key is absent. */
  datatype Payload = Payload(userId: int, timestamp: string, status: int,
                             device: string, deviceSn: Option<string>)

  /** Address, port and password handed to `ZK(...)`. */
  datatype Target = Target(ip: string, port: int, password: int)

  /** The log lines, as tags; some values the text shows are dropped. */
  datatype Msg =
    | Starting
    | Connecting(ip: string)
    | SerialIs(sn: string)
    | LogsFetched(count: nat)
    | Synced(user: int)
    | ApiError(code: int)
    | ApiFailed
    | DeviceFailed(ip: string)
    | ReadFailed(ip: string)
    | Disconnected(ip: string)
    | Complete

  /** One observable step of a pass; device calls are recorded when attempted. */
  datatype Event =
    | Log(msg: Msg)
    | Connect(target: Target)
    | Disable
    | ReadSerial
    | ReadLogs
    | Post(payload: Payload)
    | Enable
    | Disconnect

  /**
   * The answers one device gives during a pass: whether `connect`,
   * `disable_device`, `enable_device` and `disconnect` return or raise, the
   * serial number (None: raises) and the records (None: raises).
   */
  datatype Script = Script(connects: bool, disables: bool, serial: Option<string>,
                           logs: Option<seq<Fetched>>, enables: bool, disconnects: bool)

  /** The POST body for record `l` fetched from `ip`. */
  function MakePayload(ip: string, sn: Option<string>, l: AttLog): Payload
  {
    Payload(l.userId, Strftime(l.time), l.status, ip, sn)
  }

  /**
   * The body carries the record's user, status and time, the device address
   * and, when given, the serial; its timestamp reads back as the record's
   * time truncated to the second, written as `YYYY-MM-DD HH:MM:SS`.
   */
  lemma PayloadFields(ip: string, sn: Option<string>, l: AttLog)
    ensures var p := MakePayload(ip, sn, l);
      && p.userId == l.userId && p.status == l.status
      && p.device == ip && p.deviceSn == sn
      && FromIsoFormat(p.timestamp) == Some(l.time.(micro := 0))
      && SecondsText(p.timestamp)
  {
    StrftimeDropsMicros(l.time);
    StrftimeShape(l.time);
  }

  /** The log line that follows a POST: 200 is success, any other code an API error. */
  function Outcome(f: Fetched): Msg
  {
    match f.response
    case Raised => ApiFailed
    case Status(c) => if c == 200 then Synced(f.log.userId) else ApiError(c)
  }

  /** The three outcomes of a POST are told apart exactly by the response. */
  lemma OutcomeClassifies(f: Fetched)
    ensures Outcome(f) == Synced(f.log.userId) <==> f.response == Status(200)
    ensures Outcome(f).ApiError? <==> f.response.Status? && f.response.code != 200
    ensures Outcome(f) == ApiFailed <==> f.response == Raised
    ensures Outcome(f).ApiError? ==> Outcome(f).code == f.response.code
  {
  }

  /** The bodies of the records' POSTs, one per record and in fetched order. */
  function Payloads(ip: string, sn: Option<string>, fs: seq<Fetched>): (ps: seq<Payload>)
    ensures |ps| == |fs|
  {
    seq(|fs|, k requires 0 <= k < |fs| => MakePayload(ip, sn, fs[k].log))
  }

  /** The loop over the fetched records: one POST and one log line each. */
  function PostEach(ip: string, sn: Option<string>, fs: seq<Fetched>): (r: seq<Event>)
    ensures |r| == 2 * |fs|
  {
    if fs == [] then []
    else [Post(MakePayload(ip, sn, fs[0].log)), Log(Outcome(fs[0]))] + PostEach(ip, sn, fs[1..])
  }

  /** The payloads of the POSTs in a trace, in order. */
  function Posts(t: seq<Event>): seq<Payload>
  {
    if t == [] then []
    else (if t[0].Post? then [t[0].payload] else []) + Posts(t[1..])
  }

  /** The targets of the connection attempts in a trace, in order. */
  function Connects(t: seq<Event>): seq<Target>
  {
    if t == [] then []
    else (if t[0].Connect? then [t[0].target] else []) + Connects(t[1..])
  }

  lemma {:induction false} PostsAppend(a: seq<Event>, b: seq<Event>)
    ensures Posts(a + b) == Posts(a) + Posts(b)
  {
    if a == [] {
      assert a + b == b;
    } else {
      var ab := a + b;
      var head := if a[0].Post? then [a[0].payload] else [];
      assert ab[0] == a[0] && ab[1..] == a[1..] + b;
      assert Posts(ab) == head + Posts(a[1..] + b);
      PostsAppend(a[1..], b);
      assert Posts(a) == head + Posts(a[1..]);
    }
  }

  lemma {:induction false} ConnectsAppend(a: seq<Event>, b: seq<Event>)
    ensures Connects(a + b) == Connects(a) + Connects(b)
  {
    if a == [] {
      assert a + b == b;
    } else {
      var ab := a + b;
      var head := if a[0].Connect? then [a[0].target] else [];
      assert ab[0] == a[0] && ab[1..] == a[1..] + b;
      assert Connects(ab) == head + Connects(a[1..] + b);
      ConnectsAppend(a[1..], b);
      assert Connects(a) == head + Connects(a[1..]);
    }
  }

  /** What a trace made of two parts holds: each part's POSTs, attempts and events. */
  lemma Joined(a: seq<Event>, b: seq<Event>, t: seq<Event>)
    requires t == a + b
    ensures Posts(t) == Posts(a) + Posts(b)
    ensures Connects(t) == Connects(a) + Connects(b)
  {
    PostsAppend(a, b);
    ConnectsAppend(a, b);
  }

  /** How often a trace made of two parts holds e: the sum over the parts. */
  lemma Counted(a: seq<Event>, b: seq<Event>, t: seq<Event>, e: Event)
    requires t == a + b
    ensures multiset(t)[e] == multiset(a)[e] + multiset(b)[e]
  {
    assert multiset(a + b) == multiset(a) + multiset(b);
  }

  /** An event of a trace made of two parts is an event of one of them. */
  lemma InEither(a: seq<Event>, b: seq<Event>, t: seq<Event>, e: Event)
    requires t == a + b
    ensures e in t <==> e in a || e in b
  {
  }

  /** Every POST in t comes before every occurrence of e. */
  predicate PostsBefore(t: seq<Event>, e: Event) {
    forall i, j :: 0 <= i < |t| && 0 <= j < |t| && t[i].Post? && t[j] == e ==> i < j
  }

  /** In t = a + r, if a holds no release call and r no POST, every POST comes before every Enable. */
  lemma ReleaseAfterPosts(a: seq<Event>, r: seq<Event>, t: seq<Event>)
    requires t == a + r
    requires forall e :: e in a ==> e != Enable && e != Disconnect
    requires forall e :: e in r ==> !e.Post?
    ensures multiset(t)[Enable] == multiset(r)[Enable]
    ensures multiset(t)[Disconnect] == multiset(r)[Disconnect]
    ensures PostsBefore(t, Enable)
  {
    assert multiset(a + r) == multiset(a) + multiset(r);
    assert Enable !in a && Disconnect !in a;
  }

  /** An event a trace does not hold is counted zero times. */
  lemma NotCounted(t: seq<Event>, e: Event)
    requires e !in t
    ensures multiset(t)[e] == 0
  {
  }

  /** A trace of log lines and device calls that holds no POST. */
  lemma {:induction false} PostsNone(t: seq<Event>)
    requires forall e :: e in t ==> !e.Post?
    ensures Posts(t) == []
  {
    if t != [] {
      assert forall e :: e in t[1..] ==> e in t;
      PostsNone(t[1..]);
    }
  }

  /** The first two events of a device: the log line and the connection attempt. */
  lemma HeadFacts(ip: string, tg: Target)
    ensures var head := [Log(Connecting(ip)), Connect(tg)];
      && Posts(head) == [] && Connects(head) == [tg]
      && Enable !in head && Disconnect !in head && Log(Complete) !in head
  {
    var head := [Log(Connecting(ip)), Connect(tg)];
    PostsNone(head);
    assert Connects([Connect(tg)]) == [tg] by {
      assert [Connect(tg)][1..] == [];
    }
    assert head[1..] == [Connect(tg)];
  }

  /** A trace that holds no connection attempt. */
  lemma {:induction false} ConnectsNone(t: seq<Event>)
    requires forall e :: e in t ==> !e.Connect?
    ensures Connects(t) == []
  {
    if t != [] {
      assert forall e :: e in t[1..] ==> e in t;
      ConnectsNone(t[1..]);
    }
  }

  /**
   * Record k gives exactly the events at positions 2k and 2k+1: its POST,
   * then the line classifying the answer; whatever the answer, the loop goes
   * on with record k+1.
   */
  lemma {:induction false} PostEachShape(ip: string, sn: Option<string>, fs: seq<Fetched>)
    ensures var t := PostEach(ip, sn, fs);
      && |t| == 2 * |fs|
      && (forall k :: 0 <= k < |fs| ==> t[2 * k] == Post(MakePayload(ip, sn, fs[k].log)))
      && (forall k :: 0 <= k < |fs| ==> t[2 * k + 1] == Log(Outcome(fs[k])))
  {
    if fs != [] {
      var t := PostEach(ip, sn, fs);
      var rest := PostEach(ip, sn, fs[1..]);
      PostEachShape(ip, sn, fs[1..]);
      assert t[2..] == rest;
      forall k | 1 <= k < |fs|
        ensures t[2 * k] == Post(MakePayload(ip, sn, fs[k].log))
        ensures t[2 * k + 1] == Log(Outcome(fs[k]))
      {
        assert fs[1..][k - 1] == fs[k];
        assert t[2 * k] == rest[2 * (k - 1)];
        assert t[2 * k + 1] == rest[2 * (k - 1) + 1];
      }
    }
  }

  /** An event the record loop can produce: a POST or a line classifying its answer. */
  predicate LoopEvent(e: Event) {
    e.Post? || (e.Log? && (e.msg.Synced? || e.msg.ApiError? || e.msg.ApiFailed?))
  }

  /** The loop holds only POSTs and their outcome lines: no device call, no start or end line. */
  lemma {:induction false} PostEachKinds(ip: string, sn: Option<string>, fs: seq<Fetched>)
    ensures forall e :: e in PostEach(ip, sn, fs) ==> LoopEvent(e)
    ensures var t := PostEach(ip, sn, fs);
      && Enable !in t && Disconnect !in t && Log(Starting) !in t && Log(Complete) !in t
  {
    if fs != [] {
      var head := [Post(MakePayload(ip, sn, fs[0].log)), Log(Outcome(fs[0]))];
      PostEachKinds(ip, sn, fs[1..]);
      assert PostEach(ip, sn, fs) == head + PostEach(ip, sn, fs[1..]);
      assert forall e :: e in head ==> LoopEvent(e);
    }
  }

  /** Exactly one POST per fetched record, in fetched order, with nothing filtered. */
  lemma PostEachPosts(ip: string, sn: Option<string>, fs: seq<Fetched>)
    ensures Posts(PostEach(ip, sn, fs))
         == Payloads(ip, sn, fs)
    ensures Connects(PostEach(ip, sn, fs)) == []
  {
    PostEachPostsRec(ip, sn, fs);
    PostEachKinds(ip, sn, fs);
    ConnectsNone(PostEach(ip, sn, fs));
  }

  lemma {:induction false} PostEachPostsRec(ip: string, sn: Option<string>, fs: seq<Fetched>)
    ensures Posts(PostEach(ip, sn, fs))
         == Payloads(ip, sn, fs)
  {
    if fs != [] {
      var head := [Post(MakePayload(ip, sn, fs[0].log)), Log(Outcome(fs[0]))];
      PostsAppend(head, PostEach(ip, sn, fs[1..]));
      PostEachPostsRec(ip, sn, fs[1..]);
      assert Posts(head) == [MakePayload(ip, sn, fs[0].log)];
    }
  }

  /** The traces of a loop's iterations, one after the other. */
  function Flatten<T>(ts: seq<seq<T>>): seq<T>
  {
    if ts == [] then [] else ts[0] + Flatten(ts[1..])
  }

  /** Splitting the loop at iteration i: what came before, iteration i, what comes after. */
  lemma {:induction false} FlattenSplit<T>(ts: seq<seq<T>>, i: nat)
    requires i < |ts|
    ensures Flatten(ts) == Flatten(ts[..i]) + ts[i] + Flatten(ts[i + 1..])
  {
    if i == 0 {
      assert ts[..0] == [];
    } else {
      FlattenSplit(ts[1..], i - 1);
      assert ts[1..][..i - 1] == ts[..i][1..];
      assert ts[1..][i - 1] == ts[i];
      assert ts[1..][i..] == ts[i + 1..];
    }
  }

  /** An element of the flattened loop comes from some iteration. */
  lemma {:induction false} FlattenMember<T>(ts: seq<seq<T>>, e: T)
    requires forall i :: 0 <= i < |ts| ==> e !in ts[i]
    ensures e !in Flatten(ts)
  {
    if ts != [] {
      FlattenMember(ts[1..], e);
    }
  }

  /** The POSTs of each iteration of a loop. */
  function PostsOf(ts: seq<seq<Event>>): (ps: seq<seq<Payload>>)
    ensures |ps| == |ts| && forall i :: 0 <= i < |ts| ==> ps[i] == Posts(ts[i])
  {
    seq(|ts|, i requires 0 <= i < |ts| => Posts(ts[i]))
  }

  /** The connection attempts of each iteration of a loop. */
  function ConnectsOf(ts: seq<seq<Event>>): (cs: seq<seq<Target>>)
    ensures |cs| == |ts| && forall i :: 0 <= i < |ts| ==> cs[i] == Connects(ts[i])
  {
    seq(|ts|, i requires 0 <= i < |ts| => Connects(ts[i]))
  }

  /** The POSTs of a loop are those of its iterations, in order. */
  lemma {:induction false} PostsFlatten(ts: seq<seq<Event>>)
    ensures Posts(Flatten(ts)) == Flatten(PostsOf(ts))
  {
    if ts != [] {
      PostsAppend(ts[0], Flatten(ts[1..]));
      PostsFlatten(ts[1..]);
      assert PostsOf(ts)[1..] == PostsOf(ts[1..]);
    }
  }

  /** A loop whose iteration i makes exactly one connection attempt, to `targets[i]`. */
  lemma {:induction false} ConnectsFlatten(ts: seq<seq<Event>>, targets: seq<Target>)
    requires |ts| == |targets|
    requires forall i :: 0 <= i < |ts| ==> Connects(ts[i]) == [targets[i]]
    ensures Connects(Flatten(ts)) == targets
  {
    if ts != [] {
      ConnectsAppend(ts[0], Flatten(ts[1..]));
      ConnectsFlatten(ts[1..], targets[1..]);
    }
  }

  /** The connection attempts of a loop are those of its iterations, in order. */
  lemma {:induction false} ConnectsFlattenAll(ts: seq<seq<Event>>)
    ensures Connects(Flatten(ts)) == Flatten(ConnectsOf(ts))
  {
    if ts != [] {
      ConnectsAppend(ts[0], Flatten(ts[1..]));
      ConnectsFlattenAll(ts[1..]);
      assert ConnectsOf(ts)[1..] == ConnectsOf(ts[1..]);
    }
  }

  /** Whatever is in the flattened loop was in one of its iterations. */
  lemma {:induction false} FlattenContains<T>(ts: seq<seq<T>>, e: T)
    requires e in Flatten(ts)
    ensures exists i :: 0 <= i < |ts| && e in ts[i]
  {
    if e !in ts[0] {
      FlattenContains(ts[1..], e);
      var i :| 0 <= i < |ts[1..]| && e in ts[1..][i];
      assert e in ts[i + 1];
    }
  }
}
