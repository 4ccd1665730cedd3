/**
  The device configuration editor (web/app/components/config/ConfigView.tsx):
  the six editable fields, the local copy derived from the device record
  with defaults, and the diff that saving writes back. Values follow
  JavaScript's: `undefined`, `null`, numbers (integers here), `NaN` and
  strings, compared with `===`.
*/
module ConfigView {
  import opened Wrappers
  import opened Strings

  datatype JsValue = Undefined | Null | Num(n: int) | NaN | Str(s: string)

  /** `a === b`: same type and value, and NaN equals nothing. */
  predicate StrictEq(a: JsValue, b: JsValue) {
    match (a, b)
    case (Undefined, Undefined) => true
    case (Null, Null) => true
    case (Num(x), Num(y)) => x == y
    case (Str(x), Str(y)) => x == y
    case _ => false
  }

  /** `v ?? d` takes the default exactly for these. */
  predicate Nullish(v: JsValue) {
    v == Undefined || v == Null
  }

  predicate Falsy(v: JsValue) {
    v == Undefined || v == Null || v == NaN || v == Num(0) || v == Str("")
  }

  /**
    `Number(v)`. A string is trimmed; empty is 0, an optionally signed run
    of decimal digits is its value, anything else is NaN.
  */
  function ToNumber(v: JsValue): (r: JsValue)
    ensures r.Num? || r == NaN
  {
    match v
    case Undefined => NaN
    case Null => Num(0)
    case Num(n) => Num(n)
    case NaN => NaN
    case Str(s) => ParseNumber(Trim(s))
  }

  function ParseNumber(t: string): (r: JsValue)
    ensures r.Num? || r == NaN
  {
    if t == [] then Num(0)
    else if (t[0] == '-' || t[0] == '+') && |t| > 1 && AllDigits(t[1..]) then
      (if t[0] == '-' then Num(-(DigitsValue(t[1..]) as int)) else Num(DigitsValue(t[1..])))
    else if AllDigits(t) then Num(DigitsValue(t))
    else NaN
  }

  lemma NumeralTrimmed(n: int)
    ensures Trim(IntToString(n)) == IntToString(n)
  {
    var t := IntToString(n);
    var d := NatToString(if n < 0 then -n else n);
    assert IsDigit(d[|d| - 1]);
    assert t[|t| - 1] == d[|d| - 1];
    if n >= 0 {
      assert IsDigit(t[0]);
    }
    TrimOfTrimmed(t);
  }

  /** `Number` reads back the decimal notation of any integer. */
  lemma NumberOfNumeral(n: int)
    ensures ToNumber(Str(IntToString(n))) == Num(n)
  {
    NumeralTrimmed(n);
    ParseNumeral(n);
  }

  lemma ParseNumeral(n: int)
    ensures ParseNumber(IntToString(n)) == Num(n)
  {
    var t := IntToString(n);
    if n < 0 {
      var d := NatToString(-n);
      NatToStringRoundTrip(-n);
      assert t[0] == '-' && t[1..] == d;
    } else {
      NatToStringRoundTrip(n);
      assert IsDigit(t[0]);
    }
  }

  datatype ConfigKey = PollingRate | SleepPollingRate | IdleTimeout | HeartbeatInterval | MaxOutputChars | StartupFile

  datatype FieldType = NumberField | TextField

  /** `CONFIG_FIELDS`, in display order. */
  const CONFIG_FIELDS: seq<ConfigKey> :=
    [PollingRate, SleepPollingRate, IdleTimeout, HeartbeatInterval, MaxOutputChars, StartupFile]

  function TypeOf(k: ConfigKey): FieldType {
    if k == StartupFile then TextField else NumberField
  }

  /** The defaults `getConfigFromDevice` substitutes. */
  function Default(k: ConfigKey): JsValue {
    match k
    case PollingRate => Num(30)
    case SleepPollingRate => Num(60)
    case IdleTimeout => Num(60)
    case HeartbeatInterval => Num(60)
    case MaxOutputChars => Num(50000)
    case StartupFile => Str("")
  }

  /** A device record or a partial config: a missing key reads as `undefined`. */
  type Record = map<ConfigKey, JsValue>

  function Get(r: Record, k: ConfigKey): JsValue {
    if k in r then r[k] else Undefined
  }

  /** `getConfigFromDevice`. */
  function FromDevice(device: Record): (r: Record) {
    map k: ConfigKey | k in CONFIG_FIELDS :: if Nullish(Get(device, k)) then Default(k) else Get(device, k)
  }

  lemma AllKeysListed(k: ConfigKey)
    ensures k in CONFIG_FIELDS
  {
    match k
    case PollingRate =>
    case SleepPollingRate => assert CONFIG_FIELDS[1] == k;
    case IdleTimeout => assert CONFIG_FIELDS[2] == k;
    case HeartbeatInterval => assert CONFIG_FIELDS[3] == k;
    case MaxOutputChars => assert CONFIG_FIELDS[4] == k;
    case StartupFile => assert CONFIG_FIELDS[5] == k;
  }

  /**
    Every field gets a value: the device's unless it is null or undefined,
    the default otherwise; the result is never nullish.
  */
  lemma FromDeviceSpec(device: Record, k: ConfigKey)
    ensures k in FromDevice(device)
    ensures !Nullish(Get(device, k)) ==> FromDevice(device)[k] == device[k]
    ensures Nullish(Get(device, k)) ==> FromDevice(device)[k] == Default(k)
    ensures !Nullish(FromDevice(device)[k])
  {
    AllKeysListed(k);
  }

  /** Whether the save loop writes this field: defined and `!==` the device's value. */
  predicate Differs(value: JsValue, original: JsValue) {
    value != Undefined && !StrictEq(value, original)
  }

  /** What is written: `Number(value)` for numbers, `value || null` for text. */
  function Written(k: ConfigKey, value: JsValue): (r: JsValue)
    ensures TypeOf(k) == NumberField ==> r.Num? || r == NaN
    ensures TypeOf(k) == TextField ==> (Falsy(value) ==> r == Null) && (!Falsy(value) ==> r == value)
  {
    if TypeOf(k) == NumberField then ToNumber(value)
    else if Falsy(value) then Null else value
  }

  /** The `updates` object built by the loop over `fields`. */
  function UpdatesOf(fields: seq<ConfigKey>, local: Record, device: Record): Record
    decreases |fields|
  {
    if fields == [] then map[]
    else
      var k := fields[|fields| - 1];
      var u := UpdatesOf(fields[..|fields| - 1], local, device);
      if Differs(Get(local, k), Get(device, k)) then u[k := Written(k, Get(local, k))] else u
  }

  function Updates(local: Record, device: Record): Record {
    UpdatesOf(CONFIG_FIELDS, local, device)
  }

  /** The loop writes exactly the listed fields that differ, each converted by its type. */
  lemma {:induction false} UpdatesOfSpec(fields: seq<ConfigKey>, local: Record, device: Record, k: ConfigKey)
    ensures k in UpdatesOf(fields, local, device) <==> k in fields && Differs(Get(local, k), Get(device, k))
    ensures k in UpdatesOf(fields, local, device) ==> UpdatesOf(fields, local, device)[k] == Written(k, Get(local, k))
    decreases |fields|
  {
    if fields != [] {
      var n := |fields| - 1;
      UpdatesOfSpec(fields[..n], local, device, k);
      assert fields == fields[..n] + [fields[n]];
    }
  }

  lemma UpdatesSpec(local: Record, device: Record, k: ConfigKey)
    ensures k in Updates(local, device) <==> Differs(Get(local, k), Get(device, k))
    ensures k in Updates(local, device) ==> Updates(local, device)[k] == Written(k, Get(local, k))
  {
    UpdatesOfSpec(CONFIG_FIELDS, local, device, k);
    AllKeysListed(k);
  }

  /** `ConfigFieldCard`'s `hasChanged`. */
  predicate HasChanged(value: JsValue, original: JsValue) {
    !StrictEq(value, original) && value != Undefined
  }

  /** A field card is marked changed exactly when saving would write that field. */
  lemma HasChangedIffWritten(local: Record, device: Record, k: ConfigKey)
    ensures HasChanged(Get(local, k), Get(device, k)) <==> k in Updates(local, device)
  {
    UpdatesSpec(local, device, k);
  }

  /**
    Saving right after loading writes a field exactly when the device lacks
    it (or holds NaN, which is never `===` itself): numbers as their
    default, and the startup file as null.
  */
  lemma SaveAfterLoad(device: Record, k: ConfigKey)
    ensures var u := Updates(FromDevice(device), device);
      (k in u <==> Nullish(Get(device, k)) || Get(device, k) == NaN) &&
      (k in u && Nullish(Get(device, k)) && TypeOf(k) == NumberField ==> u[k] == Default(k)) &&
      (k in u && k == StartupFile ==> u[k] == Null)
  {
    FromDeviceSpec(device, k);
    UpdatesSpec(FromDevice(device), device, k);
  }

  /** A device record with no missing, null or NaN field: saving after load writes nothing. */
  lemma SaveAfterLoadComplete(device: Record)
    requires forall k :: !Nullish(Get(device, k)) && Get(device, k) != NaN
    ensures Updates(FromDevice(device), device) == map[]
  {
    var u := Updates(FromDevice(device), device);
    forall k | k in u ensures false {
      SaveAfterLoad(device, k);
    }
  }

  /** The component's state cells; `saving` is true only while a write is awaited. */
  datatype ViewState = ViewState(local: Record, hasChanges: bool, initialized: bool)

  const InitialView := ViewState(map[], false, false)

  const SAVE_ERROR := "Failed to save configuration. Please try again."

  /** The first effect: load the device record unless the form is already initialized. */
  function OnDevice(s: ViewState, device: Option<Record>): ViewState {
    if device.Some? && !s.initialized then ViewState(FromDevice(device.value), false, true) else s
  }

  /** The second effect: a different device id re-arms the first. */
  function OnDeviceIdChange(s: ViewState): ViewState {
    s.(initialized := false)
  }

  /** `handleChange`. */
  function OnChange(s: ViewState, k: ConfigKey, value: JsValue): ViewState {
    s.(local := s.local[k := value], hasChanges := true)
  }

  /** `handleReset`. */
  function OnReset(s: ViewState, device: Option<Record>): ViewState {
    if device.None? then s else s.(local := FromDevice(device.value), hasChanges := false)
  }

  /**
    `handleSave`, given whether the write is rejected: the new state, the
    update written (if any) and the toast raised (if any).
  */
  function OnSave(s: ViewState, device: Option<Record>, writeFails: bool): (ViewState, Option<Record>, Option<string>) {
    if device.None? then (s, None, None)
    else
      var updates := Updates(s.local, device.value);
      if updates == map[] then (s.(hasChanges := false), None, None)
      else if writeFails then (s, Some(updates), Some(SAVE_ERROR))
      else (s.(hasChanges := false), Some(updates), None)
  }

  /** `handleChange` alters only its own field and marks the form changed. */
  lemma ChangeSpec(s: ViewState, k: ConfigKey, value: JsValue, other: ConfigKey)
    ensures var t := OnChange(s, k, value);
      Get(t.local, k) == value && t.hasChanges && t.initialized == s.initialized &&
      (other != k ==> Get(t.local, other) == Get(s.local, other))
  {
  }

  /** `handleReset` restores the device's values and clears the changed flag; a change then a reset is a reset. */
  lemma ResetSpec(s: ViewState, device: Record, k: ConfigKey, value: JsValue)
    ensures var t := OnReset(s, Some(device));
      t.local == FromDevice(device) && !t.hasChanges && t.initialized == s.initialized
    ensures OnReset(OnChange(s, k, value), Some(device)) == OnReset(s, Some(device))
    ensures OnReset(s, None) == s
  {
  }

  /**
    Without a device nothing happens. With no difference nothing is
    written and the form is clean. Otherwise the diff is written; a
    rejected write keeps the changes and raises the error toast.
  */
  lemma SaveSpec(s: ViewState, device: Record, writeFails: bool)
    ensures OnSave(s, None, writeFails) == (s, None, None)
    ensures var (t, write, toast) := OnSave(s, Some(device), writeFails);
      t.local == s.local && t.initialized == s.initialized &&
      (write.Some? <==> Updates(s.local, device) != map[]) &&
      (write.Some? ==> write.value == Updates(s.local, device)) &&
      (toast.Some? <==> write.Some? && writeFails) &&
      (toast.Some? ==> toast.value == SAVE_ERROR && t.hasChanges == s.hasChanges) &&
      (toast.None? ==> !t.hasChanges)
  {
  }

  /**
    The first effect on its own loads the device once, until something
    clears `initialized`; later device records then leave the form alone.
  */
  lemma LoadOnce(s: ViewState, device: Record, other: Record)
    ensures var t := OnDevice(s, Some(device));
      t.initialized && (!s.initialized ==> t.local == FromDevice(device) && !t.hasChanges)
    ensures var t := OnDevice(s, Some(device));
      OnDevice(t, Some(other)) == t
    ensures OnDevice(s, None) == s
  {
  }

  /**
    Mounting as written: on the first render both effects run, in order,
    on the same state, so the second effect's reset of `initialized` comes
    after the first effect's load and wins.
  */
  function MountAsWritten(device: Option<Record>): ViewState {
    OnDeviceIdChange(OnDevice(InitialView, device))
  }

  /**
    As written, the form is not loaded once: after mounting with a device,
    an edit is discarded by the next device record that arrives (any
    rewrite of the device document, such as the agent's heartbeat).
  */
  lemma MountAsWrittenDiscardsEdits(device: Record, next: Record, k: ConfigKey, value: JsValue)
    ensures var t := OnDevice(OnChange(MountAsWritten(Some(device)), k, value), Some(next));
      t.local == FromDevice(next) && !t.hasChanges
  {
  }

  /**
    Mounting with the reset kept to actual changes of the device id: on the
    first render only the loading effect takes effect.
  */
  function Mount(device: Option<Record>): ViewState {
    OnDevice(InitialView, device)
  }

  /** Switching the shown device id after mounting: the reset, then the load of the new device's record. */
  function SwitchDevice(s: ViewState, device: Option<Record>): ViewState {
    OnDevice(OnDeviceIdChange(s), device)
  }

  /**
    With the corrected mount the form is loaded once per device id: edits
    survive every later record of the same device, and switching the id
    loads the new device's record into a clean form.
  */
  lemma MountLoadsOnce(device: Record, next: Record, k: ConfigKey, value: JsValue)
    ensures var m := Mount(Some(device));
      m.local == FromDevice(device) && !m.hasChanges && m.initialized
    ensures var t := OnChange(Mount(Some(device)), k, value);
      OnDevice(t, Some(next)) == t && t.local == FromDevice(device)[k := value] && t.hasChanges
    ensures var t := SwitchDevice(OnChange(Mount(Some(device)), k, value), Some(next));
      t.local == FromDevice(next) && !t.hasChanges && t.initialized
  {
  }

  /**
    Saving a freshly loaded form is stable: the device record with the
    writes applied loads back to the same form, except for a text field
    that held NaN (written as null, it reloads as the empty string).
  */
  lemma SavedValuesReload(device: Record, k: ConfigKey)
    requires TypeOf(k) == NumberField || Get(device, k) != NaN
    ensures var u := Updates(FromDevice(device), device);
      var stored := device + u;
      Get(FromDevice(stored), k) == Get(FromDevice(device), k)
  {
    var u := Updates(FromDevice(device), device);
    SaveAfterLoad(device, k);
    UpdatesSpec(FromDevice(device), device, k);
    FromDeviceSpec(device, k);
    FromDeviceSpec(device + u, k);
    assert Get(device + u, k) == if k in u then u[k] else Get(device, k);
  }

  class ConfigEditor {
    var local: Record
    var hasChanges: bool
    var initialized: bool
    var saving: bool

    function State(): ViewState
      reads this
    {
      ViewState(local, hasChanges, initialized)
    }

    constructor()
      ensures State() == InitialView && !saving
    {
      local := map[];
      hasChanges := false;
      initialized := false;
      saving := false;
    }

    method DeviceEffect(device: Option<Record>)
      modifies this
      ensures State() == OnDevice(old(State()), device) && saving == old(saving)
    {
      if device.Some? && !initialized {
        local := FromDevice(device.value);
        initialized := true;
        hasChanges := false;
      }
    }

    method DeviceIdEffect()
      modifies this
      ensures State() == OnDeviceIdChange(old(State())) && saving == old(saving)
    {
      initialized := false;
    }

    method HandleChange(k: ConfigKey, value: JsValue)
      modifies this
      ensures State() == OnChange(old(State()), k, value) && saving == old(saving)
    {
      local := local[k := value];
      hasChanges := true;
    }

    method HandleReset(device: Option<Record>)
      modifies this
      ensures State() == OnReset(old(State()), device) && saving == old(saving)
    {
      if device.None? {
        return;
      }
      local := FromDevice(device.value);
      hasChanges := false;
    }

    /** `handleSave`; `saving` is set for the write and cleared at the end. */
    method HandleSave(device: Option<Record>, writeFails: bool) returns (write: Option<Record>, toast: Option<string>)
      modifies this
      ensures (State(), write, toast) == OnSave(old(State()), device, writeFails)
      ensures device.Some? ==> !saving
      ensures device.None? ==> saving == old(saving)
    {
      write, toast := None, None;
      if device.None? {
        return;
      }
      saving := true;
      var updates := ComputeUpdates(local, device.value);
      if updates != map[] {
        write := Some(updates);
      }
      if write.Some? && writeFails {
        toast := Some(SAVE_ERROR);
      } else {
        hasChanges := false;
      }
      saving := false;
    }
  }

  /** The `for (const field of CONFIG_FIELDS)` loop of `handleSave`. */
  method ComputeUpdates(local: Record, device: Record) returns (updates: Record)
    ensures updates == Updates(local, device)
  {
    updates := map[];
    for i := 0 to |CONFIG_FIELDS|
      invariant updates == UpdatesOf(CONFIG_FIELDS[..i], local, device)
    {
      var k := CONFIG_FIELDS[i];
      var value := Get(local, k);
      if value != Undefined && !StrictEq(value, Get(device, k)) {
        if TypeOf(k) == NumberField {
          updates := updates[k := ToNumber(value)];
        } else {
          updates := updates[k := if Falsy(value) then Null else value];
        }
      }
      assert CONFIG_FIELDS[..i + 1][..i] == CONFIG_FIELDS[..i];
    }
    assert CONFIG_FIELDS[..|CONFIG_FIELDS|] == CONFIG_FIELDS;
  }
}
