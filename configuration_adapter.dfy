/** The configuration adapter: a typed key-value registry over the NVS
    namespace "app_cfg". A fixed table gives every configuration id its
    NVS key, its type, its default and an optional validator; `get` falls
    back to the default for a key never written, `set` validates before it
    stores, and the "raw"/"readable" pair converts numbers to and from
    text for the web front end. */
module ConfigurationAdapter {
  import opened EspTypes
  import CFormat

  // ---------------------------------------------------------------------
  // The table

  datatype DataType = DataStr | DataU8 | DataU32

  /** A table default: a string (possibly NULL) or a number. */
  datatype DefaultVal = NullStr | DefaultStr(s: string) | DefaultNum(n: nat)

  /** The validator a table entry names (NULL is `NoCheck`). */
  datatype Validator = NoCheck | CheckBaudrate | CheckParity | CheckTxDelay | CheckAuth

  datatype ConfigDef = ConfigDef(name: string, typ: DataType, defaultVal: DefaultVal, validate: Validator)

  /** What NVS holds under a key. */
  datatype Value = Text(s: string) | Num(n: nat)

  /** The argument of `set`: a string, or (for numeric entries) a 32-bit
      number passed in place of the pointer. */
  datatype Param = StrParam(s: string) | NumParam(w: nat)

  const ApSsidDefault: string := "Modbus Switch"
  const ApPassDefault: string := "password"
  const ApMaxConnDefault: nat := 3

  /** `WIFI_AUTH_OPEN` and `WIFI_AUTH_MAX` of the SDK's `wifi_auth_mode_t`. */
  const WifiAuthOpen: nat := 0
  const WifiAuthMax: nat := 8

  // The configuration ids (`enum cfg_data_idt`).
  const CfgWifiSsid: int := 0
  const CfgWifiPass: int := 1
  const CfgWifiStaMaxRetry: int := 2
  const CfgWifiSsidAp: int := 3
  const CfgWifiPassAp: int := 4
  const CfgWifiAuthAp: int := 5
  const CfgWifiMaxConnAp: int := 6
  const CfgWifiMode: int := 7
  const CfgUartBaud: int := 8
  const CfgUartParity: int := 9
  const CfgUartTxDelay: int := 10
  const CfgSw1: int := 11
  const CfgSw2: int := 12
  const CfgSw3: int := 13
  const CfgIdtMax: int := 14

  const ConfigDefs: seq<ConfigDef> := [
    ConfigDef("wifi_sta_ssid", DataStr, NullStr, NoCheck),
    ConfigDef("wifi_sta_pass", DataStr, NullStr, NoCheck),
    ConfigDef("wifi_sta_retry", DataU8, DefaultNum(5), NoCheck),
    ConfigDef("wifi_ap_ssid", DataStr, NullStr, NoCheck),
    ConfigDef("wifi_ap_pass", DataStr, DefaultStr(ApPassDefault), NoCheck),
    ConfigDef("wifi_ap_auth", DataU8, DefaultNum(4), CheckAuth),
    ConfigDef("wifi_ap_conn", DataU8, DefaultNum(ApMaxConnDefault), NoCheck),
    ConfigDef("wifi_mode", DataU8, DefaultNum(1), NoCheck),
    ConfigDef("uart_baud_rate", DataU32, DefaultNum(9600), CheckBaudrate),
    ConfigDef("uart_parity", DataU8, DefaultNum(0), CheckParity),
    ConfigDef("uart_tx_delay", DataU32, DefaultNum(1), CheckTxDelay),
    ConfigDef("switch1", DataU8, DefaultNum(0), NoCheck),
    ConfigDef("switch2", DataU8, DefaultNum(0), NoCheck),
    ConfigDef("switch3", DataU8, DefaultNum(0), NoCheck)
  ]

  /** `cfg_adp_is_valid_id` */
  predicate IsValidId(id: int) { 0 <= id < CfgIdtMax }

  function NameOf(id: int): string
    requires IsValidId(id)
  {
    ConfigDefs[id].name
  }

  /** No two table entries share an NVS key. */
  lemma NamesDistinct(i: int, j: int)
    requires IsValidId(i) && IsValidId(j) && i != j
    ensures NameOf(i) != NameOf(j)
  {
  }

  // ---------------------------------------------------------------------
  // Name <-> id

  /** The loop of `cfg_adp_id_from_name` from position `i` on. */
  function SearchFrom(name: string, i: int): (id: int)
    requires 0 <= i <= CfgIdtMax
    ensures i <= id <= CfgIdtMax
    ensures id < CfgIdtMax ==> NameOf(id) == name
    ensures forall j :: i <= j < id ==> NameOf(j) != name
    decreases CfgIdtMax - i
  {
    if i == CfgIdtMax then CfgIdtMax
    else if ConfigDefs[i].name == name then i
    else SearchFrom(name, i + 1)
  }

  /** `cfg_adp_id_from_name`: the first id whose key is `name`, or
      `CFG_IDT_MAX` when there is none. */
  function IdFromName(name: string): (id: int)
    ensures 0 <= id <= CfgIdtMax
    ensures id < CfgIdtMax ==> NameOf(id) == name
    ensures id == CfgIdtMax <==> forall j :: IsValidId(j) ==> NameOf(j) != name
  {
    SearchFrom(name, 0)
  }

  /** `cfg_adp_name_from_id`: NULL exactly for an invalid id. */
  function NameFromId(id: int): (r: Option<string>)
    ensures r.None? <==> !IsValidId(id)
    ensures r.Some? ==> r.value == ConfigDefs[id].name
  {
    if IsValidId(id) then Some(ConfigDefs[id].name) else None
  }

  /** Looking an id's name back up gives the id. */
  lemma IdFromNameOfName(id: int)
    requires IsValidId(id)
    ensures NameFromId(id).Some? && IdFromName(NameFromId(id).value) == id
  {
    var found := IdFromName(NameOf(id));
    if found != id {
      NamesDistinct(found, id);
    }
  }

  // ---------------------------------------------------------------------
  // Validators

  /** `cfg_adp_check_set_baudrate` */
  function CheckSetBaudrate(baudrate: nat): (r: EspErr)
    ensures r == Ok || r == InvalidArg
    ensures r == Ok <==> 1200 <= baudrate <= 921600
  {
    if baudrate >= 1200 && baudrate <= 921600 then Ok else InvalidArg
  }

  /** `cfg_adp_check_set_parity` */
  function CheckSetParity(parity: nat): (r: EspErr)
    ensures r == Ok || r == InvalidArg
    ensures r == Ok <==> parity < 3
  {
    if parity < 3 then Ok else InvalidArg
  }

  /** `cfg_adp_check_set_tx_delay` */
  function CheckSetTxDelay(txDelay: nat): (r: EspErr)
    ensures r == Ok || r == InvalidArg
    ensures r == Ok <==> txDelay <= 1024
  {
    if txDelay <= 1024 then Ok else InvalidArg
  }

  /** `cfg_adp_check_ap_auth` */
  function CheckApAuth(auth: nat): (r: EspErr)
    ensures r == Ok || r == InvalidArg
    ensures r == Ok <==> auth < WifiAuthMax
  {
    if auth < WifiAuthMax then Ok else InvalidArg
  }

  /** Runs the validator a table entry names on a number. */
  function RunValidator(v: Validator, n: nat): (r: EspErr)
    ensures r == Ok || r == InvalidArg
    ensures v == NoCheck ==> r == Ok
  {
    match v
    case NoCheck => Ok
    case CheckBaudrate => CheckSetBaudrate(n)
    case CheckParity => CheckSetParity(n)
    case CheckTxDelay => CheckSetTxDelay(n)
    case CheckAuth => CheckApAuth(n)
  }

  // ---------------------------------------------------------------------
  // What the store may hold

  predicate WellTyped(t: DataType, v: Value)
  {
    match t
    case DataStr => v.Text?
    case DataU8 => v.Num? && v.n < 256
    case DataU32 => v.Num? && IsU32(v.n)
  }

  /** A value `set` could have stored under `id`'s key. */
  predicate Acceptable(id: int, v: Value)
    requires IsValidId(id)
  {
    WellTyped(ConfigDefs[id].typ, v) && (v.Num? ==> RunValidator(ConfigDefs[id].validate, v.n) == Ok)
  }

  /** Every table key present in the store holds an acceptable value. */
  ghost predicate ValidStore(m: map<string, Value>)
  {
    forall id :: IsValidId(id) && ConfigDefs[id].name in m ==> Acceptable(id, m[ConfigDefs[id].name])
  }

  /** What `get` yields for a key never written: the u8/u32 default, the
      default string, or the empty string for a NULL default. */
  function DefaultValue(id: int): (v: Value)
    requires IsValidId(id)
    ensures WellTyped(ConfigDefs[id].typ, v)
  {
    match ConfigDefs[id].defaultVal
    case NullStr => Text("")
    case DefaultStr(s) => Text(s)
    case DefaultNum(n) => Num(n)
  }

  /** Every default is of its entry's type and passes its validator. */
  lemma DefaultAcceptable(id: int)
    requires IsValidId(id)
    ensures Acceptable(id, DefaultValue(id))
  {
  }

  /** The value `get` reads for `id`. */
  function Lookup(m: map<string, Value>, id: int): (v: Value)
    requires IsValidId(id)
    ensures v in m.Values || v == DefaultValue(id)
    ensures NameOf(id) !in m ==> v == DefaultValue(id)
    ensures NameOf(id) in m ==> v == m[NameOf(id)]
  {
    if NameOf(id) in m then m[NameOf(id)] else DefaultValue(id)
  }

  lemma LookupAcceptable(m: map<string, Value>, id: int)
    requires ValidStore(m) && IsValidId(id)
    ensures Acceptable(id, Lookup(m, id))
  {
    if NameOf(id) !in m {
      DefaultAcceptable(id);
    }
  }

  /** A switch entry reads as a byte, and as 0 (off, TOGGLING, no hold)
      when never written. */
  lemma SwitchLookup(m: map<string, Value>, id: int)
    requires ValidStore(m) && CfgSw1 <= id <= CfgSw3
    ensures Lookup(m, id).Num? && Lookup(m, id).n < 256
    ensures NameOf(id) !in m ==> Lookup(m, id) == Num(0)
  {
    LookupAcceptable(m, id);
    if id == CfgSw1 {
    } else if id == CfgSw2 {
    } else {
      assert id == CfgSw3;
    }
  }

  /** Writing one entry's key changes what `get` reads for that entry only. */
  lemma LookupAfterStore(m: map<string, Value>, id: int, v: Value, other: int)
    requires IsValidId(id) && IsValidId(other)
    ensures Lookup(m[NameOf(id) := v], other) == if other == id then v else Lookup(m, other)
  {
    if other != id {
      NamesDistinct(id, other);
    }
  }

  // ---------------------------------------------------------------------
  // set

  /** The argument is of the kind the entry's type calls for. */
  predicate Fits(t: DataType, p: Param)
  {
    match t
    case DataStr => p.StrParam?
    case _ => p.NumParam? && IsU32(p.w)
  }

  /** What `set` stores: a U8 entry keeps the low 8 bits of the argument. */
  function Stored(id: int, p: Param): (v: Value)
    requires IsValidId(id) && Fits(ConfigDefs[id].typ, p)
    ensures WellTyped(ConfigDefs[id].typ, v)
  {
    match ConfigDefs[id].typ
    case DataStr => Text(p.s)
    case DataU8 => Num(p.w % 256)
    case DataU32 => Num(p.w)
  }

  /** The validator's verdict on what `set` would store. */
  function Check(id: int, p: Param): (r: EspErr)
    requires IsValidId(id) && Fits(ConfigDefs[id].typ, p)
    ensures r == Ok <==> Acceptable(id, Stored(id, p))
  {
    var v := Stored(id, p);
    if v.Num? then RunValidator(ConfigDefs[id].validate, v.n) else Ok
  }

  // ---------------------------------------------------------------------
  // raw / readable

  /** The argument `set_from_raw` hands to `set`: the text itself for a
      string entry, `atoi` of it stored in a `uint32_t` for a number. */
  function RawParam(id: int, raw: string): (p: Param)
    requires IsValidId(id)
    ensures Fits(ConfigDefs[id].typ, p)
  {
    if ConfigDefs[id].typ == DataStr then StrParam(raw) else NumParam(CFormat.ToU32(CFormat.Atoi(raw)))
  }

  /** The text `get_to_readable` produces for a value of entry `id`: the
      string itself, or `"%d"` of the number read into a `uint32_t`. */
  function Readable(id: int, v: Value): (r: string)
    requires IsValidId(id) && WellTyped(ConfigDefs[id].typ, v)
    ensures v.Text? ==> r == v.s
    ensures v.Num? ==> CFormat.ToU32(CFormat.Atoi(r)) == v.n
  {
    if v.Text? then v.s
    else
      CFormat.U32ThroughText(v.n);
      CFormat.FormatInt(CFormat.AsInt32(v.n))
  }

  lemma LowByteOfByte(n: nat)
    requires n < 256
    ensures n % 256 == n
  {
  }

  /** Feeding the readable text of any acceptable value back through
      `set_from_raw` passes validation and stores that same value. */
  lemma ReadableRoundTrip(id: int, v: Value)
    requires IsValidId(id) && Acceptable(id, v)
    ensures var p := RawParam(id, Readable(id, v)); Check(id, p) == Ok && Stored(id, p) == v
  {
    var t := ConfigDefs[id].typ;
    if v.Num? {
      CFormat.U32ThroughText(v.n);
      assert RawParam(id, Readable(id, v)) == NumParam(v.n);
      if t == DataU8 {
        assert v.n < 256;
        LowByteOfByte(v.n);
      }
      assert Stored(id, NumParam(v.n)) == v;
    } else {
      assert RawParam(id, Readable(id, v)) == StrParam(v.s);
    }
  }

  // ---------------------------------------------------------------------
  // The store

  /** The NVS namespace as a map from key to value. */
  class ConfigStore {
    var nvs: map<string, Value>

    ghost predicate Valid()
      reads this
    {
      ValidStore(nvs)
    }

    /** A store opened over what flash already holds. */
    constructor (persisted: map<string, Value>)
      requires ValidStore(persisted)
      ensures Valid() && nvs == persisted
    {
      nvs := persisted;
    }

    /** `cfg_adp_get_by_id`: the stored value, or the table default when
        the key was never written. */
    method Get(id: int) returns (r: Result<Value>)
      requires Valid()
      ensures !IsValidId(id) ==> r == Failure(NotSupported)
      ensures IsValidId(id) && NameOf(id) in nvs ==> r == Success(nvs[NameOf(id)])
      ensures IsValidId(id) && NameOf(id) !in nvs ==> r == Success(DefaultValue(id))
      ensures r.Success? ==> Acceptable(id, r.value)
    {
      if !IsValidId(id) {
        return Failure(NotSupported);
      }
      var name := ConfigDefs[id].name;
      if name in nvs {
        r := Success(nvs[name]);
      } else {
        r := Success(DefaultValue(id));
      }
      LookupAcceptable(nvs, id);
    }

    /** `cfg_adp_set_by_id`: runs the entry's validator on the value to be
        stored and, when it accepts and NVS succeeds, stores and commits it.
        `nvsOk` says whether NVS open, write and commit succeed. */
    method Set(id: int, p: Param, nvsOk: bool) returns (err: EspErr)
      requires Valid()
      requires IsValidId(id) ==> Fits(ConfigDefs[id].typ, p)
      modifies this
      ensures Valid()
      ensures !IsValidId(id) ==> err == NotSupported
      ensures IsValidId(id) && !nvsOk ==> err == NvsFailure
      ensures IsValidId(id) && nvsOk ==> err == Check(id, p)
      ensures err == Ok ==> IsValidId(id) && nvs == old(nvs)[NameOf(id) := Stored(id, p)]
      ensures err != Ok ==> nvs == old(nvs)
    {
      if !IsValidId(id) {
        return NotSupported;
      }
      if !nvsOk {
        return NvsFailure;
      }
      err := Check(id, p);
      if err == Ok {
        nvs := nvs[ConfigDefs[id].name := Stored(id, p)];
      }
    }

    /** `cfg_adp_set_by_id_from_raw`: a string entry stores the text, a
        numeric entry stores `atoi` of it. */
    method SetFromRaw(id: int, raw: string, nvsOk: bool) returns (err: EspErr)
      requires Valid()
      modifies this
      ensures Valid()
      ensures !IsValidId(id) ==> err == NotSupported && nvs == old(nvs)
      ensures IsValidId(id) && !nvsOk ==> err == NvsFailure
      ensures IsValidId(id) && nvsOk ==> err == Check(id, RawParam(id, raw))
      ensures err == Ok ==> IsValidId(id) && nvs == old(nvs)[NameOf(id) := Stored(id, RawParam(id, raw))]
      ensures err != Ok ==> nvs == old(nvs)
    {
      if !IsValidId(id) {
        return NotSupported;
      }
      err := Set(id, RawParam(id, raw), nvsOk);
    }

    /** `cfg_adp_get_by_id_to_readable`: the value as text. */
    method GetToReadable(id: int) returns (r: Result<string>)
      requires Valid()
      ensures !IsValidId(id) ==> r == Failure(NotSupported)
      ensures IsValidId(id) ==> r.Success?
      ensures IsValidId(id) && Lookup(nvs, id).Text? ==> r.value == Lookup(nvs, id).s
      ensures IsValidId(id) && Lookup(nvs, id).Num? ==> CFormat.ToU32(CFormat.Atoi(r.value)) == Lookup(nvs, id).n
      ensures IsValidId(id) ==> r == Success(Readable(id, Lookup(nvs, id)))
    {
      var got := Get(id);
      if got.Failure? {
        return Failure(got.err);
      }
      r := Success(Readable(id, got.value));
      if got.value.Num? {
        CFormat.U32ThroughText(got.value.n);
      }
    }
  }

  /** Reading an entry as text and writing that text back leaves what
      `get` returns for every entry unchanged. */
  lemma ReadableWriteBackUnchanged(m: map<string, Value>, id: int, other: int)
    requires ValidStore(m) && IsValidId(id) && IsValidId(other)
    ensures var p := RawParam(id, Readable(id, Lookup(m, id)));
            Check(id, p) == Ok && Lookup(m[NameOf(id) := Stored(id, p)], other) == Lookup(m, other)
  {
    LookupAcceptable(m, id);
    ReadableRoundTrip(id, Lookup(m, id));
    LookupAfterStore(m, id, Stored(id, RawParam(id, Readable(id, Lookup(m, id)))), other);
  }
}
