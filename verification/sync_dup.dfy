/**
 * The last-sync store of sync_dup.py: a JSON object that maps `str(sn)` of a
 * device serial to the `isoformat()` text of the last sync time, or whatever
 * other JSON value the file held. The file is reduced to what reading it
 * yields; writing it back is left to the caller.
 */
module SyncDup {
  import opened Wrappers
  import opened PyText
  import opened Timestamps

  /** A serial as a caller may pass it: text read from a device, an integer, or Python's None. */
  datatype Serial = Text(text: string) | Number(n: int) | NoSerial

  /** `str(sn)`, the key an entry is stored under. */
  function Key(sn: Serial): (k: string)
    ensures sn.Text? ==> k == sn.text
    ensures sn.Number? ==> ParseInt(k) == Some(sn.n)
    ensures sn.NoSerial? ==> k == "None"
  {
    match sn
    case Text(s) => s
    case Number(n) => ParseDecimalString(n); DecimalString(n)
    case NoSerial => "None"
  }

  /** A value of the JSON object: the program only ever writes strings. */
  datatype Stored = Str(s: string) | NonString(truthy: bool)

  type Store = map<string, Stored>

  /** What opening the file found. */
  datatype StoreFile =
    | Missing(creatable: bool)          // no file yet; whether writing `{}` to it succeeds
    | Unreadable                        // reading or decoding raised
    | Holds(data: Store)                // a JSON object
    | HoldsOther                        // valid JSON that is not an object: a list, text, a number, null

  /** `self.data` after loading: the object the methods expect, or some other JSON value. */
  datatype Data = Object(store: Store) | NotObject

  /**
   * `SyncDUP(filename)`: a missing file is first created holding `{}`; any
   * failure to read or decode it leaves the store empty; whatever JSON value
   * decodes is kept, object or not. None stands for the constructor
   * raising, which only a failed creation does.
   */
  function Load(f: StoreFile): (r: Option<Data>)
    ensures r.None? <==> f == Missing(false)
    ensures r.Some? && (f.Missing? || f.Unreadable?) ==> r.value == Object(map[])
    ensures f.Holds? ==> r == Some(Object(f.data))
    ensures f.HoldsOther? ==> r == Some(NotObject)
  {
    match f
    case Missing(creatable) => if creatable then Some(Object(map[])) else None
    case Unreadable => Some(Object(map[]))
    case Holds(data) => Some(Object(data))
    case HoldsOther => Some(NotObject)
  }

  /**
   * `get_last_sync(sn)` on whatever was loaded: `self.data.get` raises
   * AttributeError outside the try when the value is not an object (None);
   * otherwise it reads the object as `GetLastSync` says.
   */
  function Get(d: Data, sn: Serial): (r: Option<Option<DateTime>>)
    ensures r.None? <==> d.NotObject?
    ensures d.Object? ==> r == Some(GetLastSync(d.store, sn))
  {
    match d
    case NotObject => None
    case Object(st) => Some(GetLastSync(st, sn))
  }

  /**
   * `save_last_sync(sn, dt)` on whatever was loaded: item assignment raises
   * TypeError when the value is not an object (None); otherwise the object
   * is updated as `SaveLastSync` says.
   */
  function Save(d: Data, sn: Serial, dt: Instant): (r: Option<Store>)
    ensures r.None? <==> d.NotObject?
    ensures d.Object? ==> r == Some(SaveLastSync(d.store, sn, dt))
  {
    match d
    case NotObject => None
    case Object(st) => Some(SaveLastSync(st, sn, dt))
  }

  /**
   * `get_last_sync(sn)`: a missing key or a falsy value gives None, and so
   * does any value `fromisoformat` rejects, non-strings included, since
   * the bare `except` catches the TypeError too.
   */
  function GetLastSync(st: Store, sn: Serial): (r: Option<DateTime>)
    ensures r.Some? ==> Valid(r.value)
    ensures r.Some? <==>
      Key(sn) in st && st[Key(sn)].Str? && FromIsoFormat(st[Key(sn)].s).Some?
    ensures r.Some? ==> r == FromIsoFormat(st[Key(sn)].s)
  {
    var k := Key(sn);
    if k !in st then None
    else match st[k]
      case NonString(_) => None
      case Str(s) => if s == "" then None else FromIsoFormat(s)
  }

  /** `save_last_sync(sn, dt)`: the entry for `str(sn)` is set to `dt.isoformat()`, unconditionally. */
  function SaveLastSync(st: Store, sn: Serial, dt: Instant): (r: Store)
    ensures r.Keys == st.Keys + {Key(sn)}
    ensures r[Key(sn)].Str? && r[Key(sn)].s != ""
    ensures forall k :: k in st && k != Key(sn) ==> r[k] == st[k]
  {
    st[Key(sn) := Str(IsoFormat(dt))]
  }

  /**
   * After saving dt for a serial, reading that serial gives dt back, to the
   * microsecond, whatever was stored before.
   */
  lemma SaveThenGet(st: Store, sn: Serial, dt: Instant)
    ensures GetLastSync(SaveLastSync(st, sn, dt), sn) == Some(dt)
  {
    IsoRoundTrip(dt);
  }

  /** Saving for one serial leaves what every serial with another key reads unchanged. */
  lemma SaveFrame(st: Store, sn: Serial, other: Serial, dt: Instant)
    requires Key(other) != Key(sn)
    ensures GetLastSync(SaveLastSync(st, sn, dt), other) == GetLastSync(st, other)
  {
  }

  /**
   * Serials with the same `str` form are one entry: they read the same
   * value and a save for either is the same save. The integer 123 and
   * the text "123" are such a pair.
   */
  lemma SameKeyShares(st: Store, a: Serial, b: Serial, dt: Instant)
    requires Key(a) == Key(b)
    ensures GetLastSync(st, a) == GetLastSync(st, b)
    ensures SaveLastSync(st, a, dt) == SaveLastSync(st, b, dt)
  {
  }

  lemma NumberMeetsText(n: int)
    ensures Key(Number(n)) == Key(Text(DecimalString(n)))
  {
  }

  /**
   * A save overwrites whatever was there: of two saves for one serial only
   * the second leaves a trace, whether it moves the time forward or
   * backward, and reading gives the second time.
   */
  lemma SaveOverwrites(st: Store, sn: Serial, first: Instant, second: Instant)
    ensures SaveLastSync(SaveLastSync(st, sn, first), sn, second) == SaveLastSync(st, sn, second)
  {
    var k := Key(sn);
    var a := Str(IsoFormat(first));
    var b := Str(IsoFormat(second));
    UpdateTwice(st, k, a, b);
  }

  lemma UpdateTwice(m: Store, k: string, a: Stored, b: Stored)
    ensures m[k := a][k := b] == m[k := b]
  {
  }

  /** An entry holding text that is empty or not an isoformat timestamp reads as None, not an error. */
  lemma UnparseableIsNone(st: Store, sn: Serial)
    requires Key(sn) in st && st[Key(sn)].Str?
    requires st[Key(sn)].s == "" || FromIsoFormat(st[Key(sn)].s).None?
    ensures GetLastSync(st, sn) == None
  {
  }

  /** After a load that failed to read the file, or that created it, no serial has a last sync. */
  lemma FreshStoreIsEmpty(f: StoreFile, sn: Serial)
    requires (f.Missing? || f.Unreadable?) && Load(f).Some?
    ensures Get(Load(f).value, sn) == Some(None)
  {
  }

  /**
   * A file holding JSON that is not an object loads without complaint, and
   * then every read and every save for any serial raises.
   */
  lemma NonObjectLoadsThenRaises(sn: Serial, dt: Instant)
    ensures Load(HoldsOther).Some?
    ensures Get(Load(HoldsOther).value, sn).None?
    ensures Save(Load(HoldsOther).value, sn, dt).None?
  {
  }

  /** A store loaded from an object reads back, after a save, what was saved. */
  lemma LoadSaveGet(data: Store, sn: Serial, dt: Instant)
    ensures var saved := Save(Load(Holds(data)).value, sn, dt);
      && saved.Some? && Get(Object(saved.value), sn) == Some(Some(dt))
  {
    SaveThenGet(data, sn, dt);
  }
}
