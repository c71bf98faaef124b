/**
 * The device list kept in `config["devices"]`, and the dialog parsing the
 * two GUIs share when they add or edit an entry.
 */
module Devices {
  import opened Wrappers
  import opened PyText

  /** The port used when an entry or a dialog gives none. */
  const DefaultPort: int := 4370

  /** The password used when an entry or a dialog gives none. */
  const DefaultPassword: int := 0

  /** One entry of the list: the keys the program reads or writes; None is an absent key. */
  datatype DeviceEntry = DeviceEntry(ip: string, port: Option<int>, password: Option<int>, sn: Option<string>)

  /** `dev.get("port", 4370)` */
  function PortOf(d: DeviceEntry): (p: int)
    ensures d.port.None? ==> p == DefaultPort
    ensures d.port.Some? ==> p == d.port.value
  {
    d.port.GetOr(DefaultPort)
  }

  /** `dev.get("password", 0)` */
  function PasswordOf(d: DeviceEntry): (p: int)
    ensures d.password.None? ==> p == DefaultPassword
    ensures d.password.Some? ==> p == d.password.value
  {
    d.password.GetOr(DefaultPassword)
  }

  /**
   * `int(answer or default)` for what a dialog returned (None when it was
   * cancelled); None stands for the ValueError.
   */
  function IntOr(answer: Option<string>, default: int): (r: Option<int>)
    ensures (answer.None? || answer == Some("")) ==> r == Some(default)
    ensures answer.Some? && answer.value != "" ==> r == ParseInt(answer.value)
  {
    match answer
    case None => Some(default)
    case Some(a) => if a == "" then Some(default) else ParseInt(a)
  }

  /** Accepting a dialog pre-filled with `str(n)` gives back n. */
  lemma IntOrPrefilled(n: int, default: int)
    ensures IntOr(Some(DecimalString(n)), default) == Some(n)
  {
    ParseDecimalString(n);
  }

  /** Why an edit of the list left it as it was. */
  datatype Why = NoIp | NotNumbers | NoSelection | NoSuchIndex | IpCancelled

  /** The list after a GUI command, or the reason the command changed nothing. */
  datatype Change = Changed(devices: seq<DeviceEntry>) | Kept(why: Why)

  /**
   * The shared body of both `add_device` handlers: an empty or cancelled IP
   * is refused first, then the port and the password are read as integers;
   * the new entry goes at the end. `sn` is the serial key the entry gets.
   */
  function Append(devices: seq<DeviceEntry>, ip: Option<string>, port: Option<string>,
                  password: Option<string>, sn: Option<string>): (r: Change)
    ensures r.Changed? <==>
      ip.Some? && ip.value != "" && IntOr(port, DefaultPort).Some? && IntOr(password, DefaultPassword).Some?
    ensures (ip.None? || ip == Some("")) ==> r == Kept(NoIp)
    ensures r.Kept? && ip.Some? && ip.value != "" ==> r.why == NotNumbers
    ensures r.Changed? ==>
      && |r.devices| == |devices| + 1
      && r.devices[..|devices|] == devices
      && r.devices[|devices|]
         == DeviceEntry(Strip(ip.value), IntOr(port, DefaultPort), IntOr(password, DefaultPassword), sn)
  {
    if ip.None? || ip.value == "" then Kept(NoIp)
    else match (IntOr(port, DefaultPort), IntOr(password, DefaultPassword))
      case (Some(p), Some(w)) => Changed(devices + [DeviceEntry(Strip(ip.value), Some(p), Some(w), sn)])
      case _ => Kept(NotNumbers)
  }

  /** `del devices[i]`; None stands for the IndexError. */
  function RemoveAt(devices: seq<DeviceEntry>, i: nat): (r: Option<seq<DeviceEntry>>)
    ensures r.Some? <==> i < |devices|
    ensures r.Some? ==>
      && |r.value| == |devices| - 1
      && (forall j :: 0 <= j < i ==> r.value[j] == devices[j])
      && (forall j :: i <= j < |r.value| ==> r.value[j] == devices[j + 1])
      && multiset(r.value) + multiset{devices[i]} == multiset(devices)
  {
    if i < |devices| then
      assert devices == devices[..i] + [devices[i]] + devices[i + 1..];
      Some(devices[..i] + devices[i + 1..])
    else None
  }
}
