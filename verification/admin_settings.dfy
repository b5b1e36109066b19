/**
 * The admin settings page: the fourteen settings, how `loadSettings` reads
 * each from storage, the toggles, the number and store pickers, and the
 * save and reset that write and remove the storage keys. The confirmation
 * dialogs go through the shared `showModal`, which resolves with the user's
 * answer and never rejects.
 */
module AdminSettings {
  import opened Wrappers
  import opened JsValue
  import opened Text
  import opened Modal

  /** How `loadSettings` turns a stored value into a setting. */
  datatype Rule =
    | UnlessFalse              // `getStorageSync(key) !== false`
    | OnlyTrue                 // `getStorageSync(key) === true`
    | OrDefault(default: Value) // `getStorageSync(key) || default`

  /** One setting: where it lives in the page's data, its storage key and its rule. */
  datatype Setting = Setting(category: string, field: string, key: string, rule: Rule)

  /** The fourteen settings, in the order `saveSettings` writes them. */
  const Table: seq<Setting> := [
    Setting("notifications", "bookingReminder", "setting_bookingReminder", UnlessFalse),
    Setting("notifications", "classReminder", "setting_classReminder", UnlessFalse),
    Setting("notifications", "cancelReminder", "setting_cancelReminder", UnlessFalse),
    Setting("notifications", "systemUpdate", "setting_systemUpdate", UnlessFalse),
    Setting("courses", "advanceBookingDays", "setting_advanceBookingDays", OrDefault(Num(7))),
    Setting("courses", "cancelDeadline", "setting_cancelDeadline", OrDefault(Num(2))),
    Setting("courses", "maxDailyClasses", "setting_maxDailyClasses", OrDefault(Num(5))),
    Setting("courses", "autoCancel", "setting_autoCancel", UnlessFalse),
    Setting("stores", "defaultStore", "setting_defaultStore", OrDefault(Str("南山店"))),
    Setting("stores", "allowCrossStore", "setting_allowCrossStore", UnlessFalse),
    Setting("stores", "storeSwitchLimit", "setting_storeSwitchLimit", OrDefault(Num(3))),
    Setting("system", "dataRetention", "setting_dataRetention", OrDefault(Num(90))),
    Setting("system", "maintenanceMode", "setting_maintenanceMode", OnlyTrue),
    Setting("system", "debugMode", "setting_debugMode", OnlyTrue)]

  /** No two settings share a storage key. */
  lemma KeysDistinct()
    ensures forall i, j :: 0 <= i < j < |Table| ==> Table[i].key != Table[j].key
  {
  }

  /** The page's initial data, field by field in the order of the table. */
  const Defaults: seq<Value> := [
    Bool(true), Bool(true), Bool(true), Bool(true),
    Num(7), Num(2), Num(5), Bool(true),
    Str("南山店"), Bool(true), Num(3),
    Num(90), Bool(false), Bool(false)]

  /** The settings as the page holds them: one value per entry of the table. */
  predicate Shaped(v: seq<Value>) {
    |v| == |Table|
  }

  // ---------------------------------------------------------------------
  // Loading.

  /** One setting read from its stored value. */
  function Read(stored: Value, rule: Rule): (r: Value)
    ensures rule.UnlessFalse? || rule.OnlyTrue? ==> r.Bool?
    ensures rule.OrDefault? ==> Truthy(r) || r == rule.default
    ensures rule.OrDefault? && Truthy(stored) ==> r == stored
    ensures rule.OrDefault? && !Truthy(stored) ==> r == rule.default
  {
    match rule
    case UnlessFalse => Bool(stored != Bool(false))
    case OnlyTrue => Bool(stored == Bool(true))
    case OrDefault(d) => Or(stored, d)
  }

  /** `loadSettings`: every setting read from its key. */
  function LoadSettings(st: Storage): (v: seq<Value>)
    ensures Shaped(v)
  {
    seq(|Table|, i requires 0 <= i < |Table| => Read(Load(st, Table[i].key), Table[i].rule))
  }

  /**
   * A flag is on unless `false` is stored, or only when `true` is; a stored
   * number or store name that is falsy, zero included, gives the default.
   */
  lemma ReadRules(stored: Value, rule: Rule)
    ensures rule == UnlessFalse ==> (Read(stored, rule) == Bool(false) <==> stored == Bool(false))
    ensures rule == OnlyTrue ==> (Read(stored, rule) == Bool(true) <==> stored == Bool(true))
    ensures rule.OrDefault? && Truthy(stored) ==> Read(stored, rule) == stored
    ensures rule.OrDefault? && !Truthy(stored) ==> Read(stored, rule) == rule.default
    ensures rule.OrDefault? && stored == Num(0) ==> Read(stored, rule) == rule.default
  {
  }

  /** With none of the keys stored, loading gives exactly the page's initial data. */
  lemma NothingStoredGivesDefaults(st: Storage)
    requires forall i :: 0 <= i < |Table| ==> Table[i].key !in st
    ensures LoadSettings(st) == Defaults
  {
    var v := LoadSettings(st);
    forall i | 0 <= i < |Table|
      ensures v[i] == Defaults[i]
    {
      assert Load(st, Table[i].key) == Str("");
    }
  }

  // ---------------------------------------------------------------------
  // Saving and resetting.

  /** The first `n` settings written, in the table's order. */
  function Write(st: Storage, v: seq<Value>, n: nat): (r: Storage)
    requires Shaped(v) && n <= |Table|
    decreases n
  {
    if n == 0 then st else Write(st, v, n - 1)[Table[n - 1].key := v[n - 1]]
  }

  /** `saveSettings`: all fourteen keys written. */
  function Save(st: Storage, v: seq<Value>): (r: Storage)
    requires Shaped(v)
  {
    Write(st, v, |Table|)
  }

  /** After writing the first `n` settings, each of their keys holds its value and every other key is untouched. */
  lemma {:induction false} WriteHolds(st: Storage, v: seq<Value>, n: nat)
    requires Shaped(v) && n <= |Table|
    ensures forall i :: 0 <= i < n ==> Table[i].key in Write(st, v, n) && Write(st, v, n)[Table[i].key] == v[i]
    ensures forall k :: (forall i :: 0 <= i < n ==> Table[i].key != k) ==> Load(Write(st, v, n), k) == Load(st, k)
    decreases n
  {
    if n > 0 {
      WriteHolds(st, v, n - 1);
      var w := Write(st, v, n);
      assert w == Write(st, v, n - 1)[Table[n - 1].key := v[n - 1]];
      forall i | 0 <= i < n
        ensures Table[i].key in w && w[Table[i].key] == v[i]
      {
        if i < n - 1 {
          KeyDiffers(i, n - 1);
        }
      }
      forall k | forall i :: 0 <= i < n ==> Table[i].key != k
        ensures Load(w, k) == Load(st, k)
      {
        assert Table[n - 1].key != k;
      }
    }
  }

  lemma KeyDiffers(i: nat, j: nat)
    requires i < j < |Table|
    ensures Table[i].key != Table[j].key
  {
    KeysDistinct();
  }

  /** The values a save keeps: flags that are booleans, and numbers and store names that are truthy. */
  predicate Storable(v: seq<Value>)
    requires Shaped(v)
  {
    forall i :: 0 <= i < |Table| ==> if Table[i].rule.OrDefault? then Truthy(v[i]) else v[i].Bool?
  }

  /** Saving then loading gives back every setting that is storable; any other storage key is left alone. */
  lemma SaveLoadRoundTrip(st: Storage, v: seq<Value>)
    requires Shaped(v) && Storable(v)
    ensures LoadSettings(Save(st, v)) == v
  {
    WriteHolds(st, v, |Table|);
    var w := LoadSettings(Save(st, v));
    forall i | 0 <= i < |Table|
      ensures w[i] == v[i]
    {
      assert Load(Save(st, v), Table[i].key) == v[i];
    }
  }

  /** A number or store name saved falsy, such as zero or `NaN`, loads back as its default. */
  lemma FalsySavedLoadsDefault(st: Storage, v: seq<Value>, i: nat)
    requires Shaped(v) && i < |Table| && Table[i].rule.OrDefault? && !Truthy(v[i])
    ensures LoadSettings(Save(st, v))[i] == Table[i].rule.default
  {
    WriteHolds(st, v, |Table|);
    assert Load(Save(st, v), Table[i].key) == v[i];
  }

  /** The storage keys of the settings. */
  function Keys(): (ks: set<string>)
  {
    set i | 0 <= i < |Table| :: Table[i].key
  }

  /** The removals of `resetSettings`: the fourteen keys and nothing else. */
  function Reset(st: Storage): (r: Storage)
  {
    st - Keys()
  }

  /** A reset followed by the reload shows the page's initial data, and keeps every other key. */
  lemma ResetGivesDefaults(st: Storage)
    ensures LoadSettings(Reset(st)) == Defaults
    ensures forall k :: k in st && k !in Keys() ==> k in Reset(st) && Reset(st)[k] == st[k]
  {
    forall i | 0 <= i < |Table|
      ensures Table[i].key !in Reset(st)
    {
      assert Table[i].key in Keys();
    }
    NothingStoredGivesDefaults(Reset(st));
  }

  /** The page's initial data is storable, so saving it and loading gives it back. */
  lemma DefaultsRoundTrip(st: Storage)
    ensures Shaped(Defaults) && Storable(Defaults)
    ensures LoadSettings(Save(st, Defaults)) == Defaults
  {
    SaveLoadRoundTrip(st, Defaults);
  }

  // ---------------------------------------------------------------------
  // The toggles.

  /** `toggleNotification`, `toggleCourseSetting`, `toggleStoreSetting` and the plain branch of `toggleSystemSetting`: `!value`. */
  function Toggle(v: seq<Value>, i: nat): (w: seq<Value>)
    requires Shaped(v) && i < |Table|
    ensures Shaped(w)
  {
    v[i := Bool(!Truthy(v[i]))]
  }

  /** A toggle negates one setting and leaves the others; twice on a flag is no change; a storable page stays storable. */
  lemma ToggleOne(v: seq<Value>, i: nat)
    requires Shaped(v) && i < |Table|
    ensures Toggle(v, i)[i] == Bool(!Truthy(v[i]))
    ensures forall j :: 0 <= j < |Table| && j != i ==> Toggle(v, i)[j] == v[j]
    ensures v[i].Bool? ==> Toggle(Toggle(v, i), i) == v
    ensures Storable(v) && !Table[i].rule.OrDefault? ==> Storable(Toggle(v, i))
  {
  }

  /** Switching maintenance mode on is the one toggle that asks first. */
  predicate NeedsConfirm(v: seq<Value>, i: nat)
    requires Shaped(v) && i < |Table|
  {
    Table[i].field == "maintenanceMode" && !Truthy(v[i])
  }

  /**
   * `toggleSystemSetting` as written: the toggle sits in a `.then` that
   * ignores the answer, and the `.catch` meant for a cancel is never
   * reached, so the answer does not matter.
   */
  function ToggleSystemAsWritten(v: seq<Value>, i: nat, confirmed: bool): (w: seq<Value>)
    requires Shaped(v) && i < |Table|
  {
    if NeedsConfirm(v, i) then
      match ShowModal(confirmed)
      case Resolved(_) => Toggle(v, i)
      case Rejected => v
    else Toggle(v, i)
  }

  /** The maintenance mode index. */
  const Maintenance: nat := 12

  /** Cancelling the confirmation still switches maintenance mode on. */
  lemma CancelStillEntersMaintenance(v: seq<Value>)
    requires Shaped(v) && !Truthy(v[Maintenance])
    ensures ToggleSystemAsWritten(v, Maintenance, false)[Maintenance] == Bool(true)
  {
  }

  /** `toggleSystemSetting` reading the answer: switching maintenance on needs a yes; everything else toggles at once. */
  function ToggleSystem(v: seq<Value>, i: nat, confirmed: bool): (w: seq<Value>)
    requires Shaped(v) && i < |Table|
  {
    if NeedsConfirm(v, i) then
      match ShowModal(confirmed)
      case Resolved(answer) => if Truthy(answer) then Toggle(v, i) else v
      case Rejected => v
    else Toggle(v, i)
  }

  /** Maintenance mode goes on exactly with a yes; switching it off, or any other system flag, asks nothing. */
  lemma MaintenanceNeedsYes(v: seq<Value>, i: nat, confirmed: bool)
    requires Shaped(v) && i < |Table|
    ensures NeedsConfirm(v, i) ==> (ToggleSystem(v, i, confirmed)[i] == Bool(true) <==> confirmed)
    ensures NeedsConfirm(v, i) && !confirmed ==> ToggleSystem(v, i, confirmed) == v
    ensures !NeedsConfirm(v, i) ==> ToggleSystem(v, i, confirmed) == Toggle(v, i)
    ensures confirmed ==> ToggleSystem(v, i, confirmed) == ToggleSystemAsWritten(v, i, confirmed)
  {
  }

  // ---------------------------------------------------------------------
  // The pickers.

  /** `parseInt(value)` as a value: a number, or `NaN`. */
  function ParsedValue(input: string): (r: Value)
    ensures ParseInt(input).Some? ==> r == Num(ParseInt(input).value)
    ensures ParseInt(input).None? ==> r == NaN
  {
    match ParseInt(input)
    case Some(n) => Num(n)
    case None => NaN
  }

  /**
   * `changeNumberSetting`: a number below `min` or above `max` is refused
   * with a message naming the range; anything else, `NaN` included since
   * both comparisons with it are false, is set.
   */
  function ChangeNumber(v: seq<Value>, i: nat, min: int, max: int, input: string): (r: Result<seq<Value>, string>)
    requires Shaped(v) && i < |Table|
  {
    var value := ParsedValue(input);
    if value.Num? && (value.n < min || value.n > max) then
      Err("请输入" + IntToString(min) + "-" + IntToString(max) + "之间的数值")
    else Ok(v[i := value])
  }

  /** A number in the range is set; one outside is refused with nothing changed; text that is not a number is set as `NaN`. */
  lemma ChangeNumberRange(v: seq<Value>, i: nat, min: int, max: int, input: string)
    requires Shaped(v) && i < |Table|
    ensures ParseInt(input).Some? ==>
      (ChangeNumber(v, i, min, max, input).Ok? <==> min <= ParseInt(input).value <= max)
    ensures ParseInt(input).None? ==> ChangeNumber(v, i, min, max, input) == Ok(v[i := NaN])
    ensures ChangeNumber(v, i, min, max, input).Ok? ==>
      ChangeNumber(v, i, min, max, input).value[i] == ParsedValue(input)
      && forall j :: 0 <= j < |Table| && j != i ==> ChangeNumber(v, i, min, max, input).value[j] == v[j]
  {
    var value := ParsedValue(input);
    var r := ChangeNumber(v, i, min, max, input);
    if value.Num? && (value.n < min || value.n > max) {
      assert r.Err?;
    } else {
      assert r == Ok(v[i := value]);
    }
  }

  /** Text that is not a number passes the range check and, once saved, loads back as the default. */
  lemma NaNSavedLoadsDefault(st: Storage, v: seq<Value>, i: nat, min: int, max: int, input: string)
    requires Shaped(v) && i < |Table| && Table[i].rule.OrDefault?
    requires ParseInt(input).None?
    ensures ChangeNumber(v, i, min, max, input).Ok?
    ensures LoadSettings(Save(st, ChangeNumber(v, i, min, max, input).value))[i] == Table[i].rule.default
  {
    NaNIsSet(v, i, min, max, input);
    FalsySavedLoadsDefault(st, v[i := NaN], i);
  }

  lemma NaNIsSet(v: seq<Value>, i: nat, min: int, max: int, input: string)
    requires Shaped(v) && i < |Table|
    requires ParseInt(input).None?
    ensures ChangeNumber(v, i, min, max, input) == Ok(v[i := NaN])
  {
    assert ParsedValue(input) == NaN;
  }

  const StoreNames: seq<string> := ["南山店", "福田店", "宝安店"]

  /** The default store's index. */
  const DefaultStore: nat := 8

  /** The picker's value read as an index into the stores: the store there, `undefined` outside the list. */
  function PickedStore(input: string): (r: Value)
  {
    match ParseInt(input)
    case Some(k) => if 0 <= k < |StoreNames| then Str(StoreNames[k]) else Undefined
    case None => Undefined
  }

  /** `changeDefaultStore`: the default store set to the picked one. */
  function ChangeDefaultStore(v: seq<Value>, input: string): (w: seq<Value>)
    requires Shaped(v)
  {
    v[DefaultStore := PickedStore(input)]
  }

  /** The `k`-th entry of the picker is the `k`-th store; an index past the list is `undefined`. */
  lemma PickedStoreIndex(k: nat)
    ensures k < |StoreNames| ==> PickedStore(NatToString(k)) == Str(StoreNames[k])
    ensures k >= |StoreNames| ==> PickedStore(NatToString(k)) == Undefined
  {
    ParseIntRoundTrip(k);
  }

  /** A picked store is saved and comes back; an index outside the list comes back as the first store. */
  lemma DefaultStoreRoundTrip(st: Storage, v: seq<Value>, k: nat)
    requires Shaped(v)
    ensures k < |StoreNames| ==> ChangeDefaultStore(v, NatToString(k))[DefaultStore] == Str(StoreNames[k])
    ensures k >= |StoreNames| ==>
      LoadSettings(Save(st, ChangeDefaultStore(v, NatToString(k))))[DefaultStore] == Str("南山店")
  {
    PickedStoreIndex(k);
    if k >= |StoreNames| {
      UndefinedStoreLoadsFirst(st, ChangeDefaultStore(v, NatToString(k)));
    }
  }

  /** A default store saved as `undefined` is read back as the first store. */
  lemma UndefinedStoreLoadsFirst(st: Storage, w: seq<Value>)
    requires Shaped(w) && w[DefaultStore] == Undefined
    ensures LoadSettings(Save(st, w))[DefaultStore] == Str("南山店")
  {
    FalsySavedLoadsDefault(st, w, DefaultStore);
  }

  // ---------------------------------------------------------------------
  // Resetting behind the confirmation.

  /** `resetSettings` as written: the removal runs in a `.then` that ignores the answer. */
  function ResetAsWritten(st: Storage, confirmed: bool): (r: Storage)
  {
    match ShowModal(confirmed)
    case Resolved(_) => Reset(st)
    case Rejected => st
  }

  /** Cancelling the reset still removes every setting. */
  lemma CancelStillResets(st: Storage)
    ensures ResetAsWritten(st, false) == Reset(st)
    ensures LoadSettings(ResetAsWritten(st, false)) == Defaults
  {
    ResetGivesDefaults(st);
  }

  /** `resetSettings` reading the answer: only a yes removes the settings. */
  function ResetConfirmed(st: Storage, confirmed: bool): (r: Storage)
  {
    match ShowModal(confirmed)
    case Resolved(answer) => if Truthy(answer) then Reset(st) else st
    case Rejected => st
  }

  lemma ResetOnlyOnYes(st: Storage, confirmed: bool)
    ensures !confirmed ==> ResetConfirmed(st, confirmed) == st
    ensures confirmed ==> LoadSettings(ResetConfirmed(st, confirmed)) == Defaults
  {
    ResetGivesDefaults(st);
  }
}
