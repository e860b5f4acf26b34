# modbus_switch core, modelled in Dafny

modbus_switch is ESP8266 firmware. It drives three relay outputs. A Modbus
master changes them through coil writes, and a web page configures the
device. This project models the three pieces of the firmware that hold its
logic and proves properties about them:

- **the switch adapter** (`main/adapters/switch_adapter.c`). It keeps a table
  of three switch contexts, each with a GPIO pin and a one-byte
  configuration/status word. `Switches` is a class over two arrays: the
  words, and the levels last driven onto the pins. A ghost trace records
  every `gpio_set_level` call. The invariant is that every pin carries the
  status bit of its word. The word is the C union `switch_conf_t`, and all
  of its members start at bit 0. The accessors read it exactly that way, so
  a switch's type bit *is* its status bit (`UnionAliasing`).
- **the configuration adapter** (`main/adapters/configuration_adapter.c`). It
  is a typed registry of 14 NVS entries, each with a name, a type, a default
  and an optional validator. NVS is a `map` held in the `ConfigStore` class.
  The store invariant is that every key present holds a value of the
  entry's type that its validator accepts. `get` falls back to the table
  default. `set` validates, then stores and commits. `set_from_raw` parses
  with `atoi`, and `get_to_readable` renders with `"%d"`. The C conversions
  are modelled in `CFormat`: `atoi` as the C library's `strtol`, and `"%d"`
  of a `uint32_t` as its 32-bit signed reading.
- **the Wi-Fi handler** (`main/wifi_handler.c`):
  - One wake-up of `wifi_user_task` is the pure function `Step` over the
    state `s_wifi_cfg`, with the four phases DISC, RECONN, CONN and
    CONN_REQ in that order. `Handler.UserTaskStep` is the imperative loop
    body and is proved equal to `Step`.
  - The connect-request hand-off is modelled (`StaConnect`, `CfgSta`).
  - So are the soft-AP configuration load and its normalisation, the SSID
    built from the MAC address, the `wifi_init_sta` fallback to the soft AP,
    the choice between station and soft AP in `wifi_hdl_start_service`,
    and the argument check of `wifi_hdl_query_ip_info`.
  - The driver is the environment. The mode it reports, the two settings
    read during a wake-up and the MAC are parameters. Every `esp_wifi_*`
    call is returned as an `Action`.

`esp_types.dfy` holds the shared `esp_err_t` values and fixed-width types.
`c_format.dfy` holds `atoi`, `"%d"` and `"%02X"`, with their round trips.

Facts of the code that the model keeps as they are:

- `switch_adapter_hold_switch` pulses synchronously. It toggles the switch,
  waits `sw_hold_duration` seconds in the calling task, and toggles back.
- `switch_conf_t` is a union. Its members `sw_type`, `sw_hold_duration` and
  `sw_status` all start at bit 0, so they overlay one another. In
  particular a switch that is ON reads as type LIMIT, and `chg_sta` then
  ignores every request to switch it off (`Switches.ChgSta`).
- The round trip through `get_to_readable` and `set_from_raw` holds for every
  32-bit value, not only below 2^31. `"%d"` prints the signed reading, and
  `atoi` reads it back to the same bits.
- `wifi_cfg_sta` empties the request buffers only when an SSID is pending.
  `wifi_hdl_sta_connect` with an empty SSID clears only the SSID buffer.

Two assumptions the model makes:

- `get_to_readable` reads a U8 entry into a zeroed `uint32_t`
  (`main/adapters/configuration_adapter.c:191`, `:199`). That variable holds
  the byte's value only on a little-endian target, such as the ESP8266; the
  model takes the value.
- `ConfigStore`'s constructor assumes the flash was only ever written
  through `set`, so every present key holds an acceptable value. Facts
  such as `ApLoadCfg`'s auth mode being below `WIFI_AUTH_MAX` depend on it.

## Model

| member | source | states |
|---|---|---|
| SwitchAdapter.StatusOf | main/adapters/switch_adapter.h:32-37 | `sw_status` is bit 0 of the word: the word is twice its upper seven bits plus the status |
| SwitchAdapter.TypeOf | main/adapters/switch_adapter.h:32-37 | `sw_type` overlays `sw_status`: the type bit is the status bit |
| SwitchAdapter.HoldOf | main/adapters/switch_adapter.h:32-37 | `sw_hold_duration` is the low six bits, below 64, and its lowest bit is the status bit |
| SwitchAdapter.WithStatus | main/adapters/switch_adapter.h:32-37 | assigning `sw_status` sets bit 0 to the new status and keeps the other seven bits |
| SwitchAdapter.Flipped | main/adapters/switch_adapter.c:73 | `sw_status ^= 1` inverts the status bit and keeps the other seven bits |
| SwitchAdapter.UnionAliasing | main/adapters/switch_adapter.h:32-37 | the union layout makes type LIMIT the same as status ON, and gives a LIMIT switch an odd, hence nonzero, hold duration |
| SwitchAdapter.SameHighBitsAndStatus | main/adapters/switch_adapter.h:32-37 | a word is determined by its status bit together with its other seven bits |
| SwitchAdapter.WithStatusIdempotent | main/adapters/switch_adapter.c:45-62 | writing the same status twice gives the word that writing it once gives |
| SwitchAdapter.WithOwnStatus | main/adapters/switch_adapter.c:38-40 | writing a word's own status back leaves the word unchanged, which is what `init` does |
| SwitchAdapter.FlippedTwice | main/adapters/switch_adapter.c:85-92 | two toggles restore the word |
| SwitchAdapter.SetStatusIdempotent | main/adapters/switch_adapter.c:45-62 | two `set_status` calls with the same status leave the table as one call does |
| SwitchAdapter.Persisted | main/adapters/switch_adapter.c:35-37 | the word loaded for switch n is the byte `get` reads from entry `CFG_SW_n` |
| SwitchAdapter.PersistedDefault | main/adapters/configuration_adapter.c:24-26 | a switch entry that was never written loads as 0: OFF, TOGGLING, no hold |
| SwitchAdapter.Switches.constructor | main/adapters/switch_adapter.c:13-17 | the static table starts with every word 0, and the pin invariant holds |
| SwitchAdapter.Switches.SetStatus | main/adapters/switch_adapter.c:45-62 | an index of 3 or more is NOT_SUPPORTED and changes nothing; otherwise the pin is driven to the status, the status bit is written, the rest of the word is kept, and the pin invariant is restored |
| SwitchAdapter.Switches.Toggle | main/adapters/switch_adapter.c:64-83 | inverts the status bit and drives the pin to the new value; the invariant is kept; an index of 3 or more is NOT_SUPPORTED |
| SwitchAdapter.Switches.HoldSwitch | main/adapters/switch_adapter.c:85-92 | drives the pin to the inverse level and back, and leaves the word and the level as they were |
| SwitchAdapter.Switches.ChgSta | main/adapters/switch_adapter.c:94-113 | a TOGGLING switch latches the request; a LIMIT switch with nonzero hold pulses on a true request and otherwise changes nothing; the result is the status bit after the call; a switch that is ON stays ON whatever the request; an invalid index gives false and no change |
| SwitchAdapter.Switches.GetStatus | main/adapters/switch_adapter.c:115-122 | returns the status bit, which equals the pin level; an invalid index is NOT_SUPPORTED |
| SwitchAdapter.Switches.LoadWord | main/adapters/switch_adapter.c:35-37 | reads the byte of entry `CFG_SW_n` |
| SwitchAdapter.Switches.LoadWords | main/adapters/switch_adapter.c:35-37 | the three words become the persisted bytes |
| SwitchAdapter.Switches.DriveLoadedStatus | main/adapters/switch_adapter.c:38-40 | every pin is driven to its word's status, in order SW1, SW2, SW3, and the words are unchanged |
| SwitchAdapter.Switches.Init | main/adapters/switch_adapter.c:18-42 | the words are the persisted bytes, every pin carries its word's status, and exactly three GPIO writes are made |
| ConfigurationAdapter.NamesDistinct | main/adapters/configuration_adapter.c:10-28 | no two table entries share an NVS key |
| ConfigurationAdapter.IdFromName | main/adapters/configuration_adapter.c:30-38 | returns the id whose key is the name, or `CFG_IDT_MAX` exactly when no key matches |
| ConfigurationAdapter.NameFromId | main/adapters/configuration_adapter.c:40-42 | returns NULL exactly for an invalid id, otherwise the entry's key |
| ConfigurationAdapter.IdFromNameOfName | main/adapters/configuration_adapter.c:30-42 | looking up the name of a valid id gives back that id |
| ConfigurationAdapter.CheckSetBaudrate | main/adapters/configuration_adapter.c:209-217 | OK exactly for 1200..921600, otherwise INVALID_ARG |
| ConfigurationAdapter.CheckSetParity | main/adapters/configuration_adapter.c:219-227 | OK exactly for parity below 3, otherwise INVALID_ARG |
| ConfigurationAdapter.CheckSetTxDelay | main/adapters/configuration_adapter.c:229-237 | OK exactly for delays up to 1024, otherwise INVALID_ARG |
| ConfigurationAdapter.CheckApAuth | main/adapters/configuration_adapter.c:239-241 | OK exactly below `WIFI_AUTH_MAX`, otherwise INVALID_ARG |
| ConfigurationAdapter.RunValidator | main/adapters/configuration_adapter.c:119-137 | a validator answers only OK or INVALID_ARG, and an entry without one always accepts |
| ConfigurationAdapter.DefaultValue | main/adapters/configuration_adapter.c:58-93 | the default `get` yields for an absent key has the entry's type |
| ConfigurationAdapter.Lookup | main/adapters/configuration_adapter.c:58-93 | `get` yields the value stored under the entry's key when the key is present, and the entry's default otherwise |
| ConfigurationAdapter.DefaultAcceptable | main/adapters/configuration_adapter.c:10-28 | every table default has its entry's type and passes its entry's validator |
| ConfigurationAdapter.LookupAcceptable | main/adapters/configuration_adapter.c:44-104 | in a valid store, what `get` reads for any valid id is acceptable for that entry |
| ConfigurationAdapter.SwitchLookup | main/adapters/configuration_adapter.c:24-26 | a switch entry reads as a byte, and as 0 when it was never written |
| ConfigurationAdapter.LookupAfterStore | main/adapters/configuration_adapter.c:106-158 | writing one entry changes what `get` reads for that entry only |
| ConfigurationAdapter.Check | main/adapters/configuration_adapter.c:118-136 | the validator's verdict is OK exactly when the value to be stored is acceptable for the entry |
| ConfigurationAdapter.Stored | main/adapters/configuration_adapter.c:126-136 | a U8 entry keeps the low byte of the argument; the stored value has the entry's type |
| ConfigurationAdapter.RawParam | main/adapters/configuration_adapter.c:160-183 | a string entry passes the text on; a numeric entry passes `atoi` of it stored in a `uint32_t` |
| ConfigurationAdapter.Readable | main/adapters/configuration_adapter.c:193-201 | a string reads as itself; a number's text, parsed with `atoi` into a `uint32_t`, gives back the number |
| ConfigurationAdapter.ReadableRoundTrip | main/adapters/configuration_adapter.c:160-207 | the readable text of any acceptable value, fed back through `set_from_raw`, passes validation and stores the same value |
| ConfigurationAdapter.ReadableWriteBackUnchanged | main/adapters/configuration_adapter.c:160-207 | reading an entry as text and writing the text back leaves what `get` returns for every entry unchanged |
| ConfigurationAdapter.ConfigStore.constructor | main/adapters/configuration_adapter.c:54-56 | opens the namespace over persisted contents that satisfy the store invariant |
| ConfigurationAdapter.ConfigStore.Get | main/adapters/configuration_adapter.c:44-104 | an invalid id is NOT_SUPPORTED; otherwise the stored value, or the table default when the key is absent; the result is always acceptable |
| ConfigurationAdapter.ConfigStore.Set | main/adapters/configuration_adapter.c:106-158 | an invalid id is NOT_SUPPORTED; an NVS failure is reported; otherwise the validator's verdict; only OK writes, and it writes exactly that key; the store invariant is kept |
| ConfigurationAdapter.ConfigStore.SetFromRaw | main/adapters/configuration_adapter.c:160-183 | `set` of the parsed argument, with the same error cases and the same single-key write |
| ConfigurationAdapter.ConfigStore.GetToReadable | main/adapters/configuration_adapter.c:185-207 | an invalid id is NOT_SUPPORTED; otherwise exactly the readable text of what `get` reads: a string as itself, a number as `"%d"` text that parses back with `atoi` to the stored value |
| CFormat.FormatInt | main/adapters/configuration_adapter.c:200 | `"%d"` text starts with a minus sign exactly for a negative value and is otherwise all digits |
| CFormat.Atoi | main/adapters/configuration_adapter.c:174 | `atoi` yields an `int`, and 0 for text that is empty after the white space |
| CFormat.ToU32 | main/adapters/configuration_adapter.c:174 | storing an `int` in a `uint32_t` gives the 32-bit value congruent to it modulo 2^32, the value itself when it fits |
| CFormat.Decimal | main/adapters/configuration_adapter.c:200 | `"%d"` digits: nonempty, all decimal, no leading zero |
| CFormat.DecimalRoundTrip | main/adapters/configuration_adapter.c:200 | reading the decimal digits of n gives n |
| CFormat.AsInt32 | main/adapters/configuration_adapter.c:200 | `"%d"` reads a `uint32_t` as the `int32` with the same bits, congruent to it modulo 2^32 |
| CFormat.SkipSpaces | main/adapters/configuration_adapter.c:174 | `atoi` skips exactly the leading white space |
| CFormat.LeadingDigits | main/adapters/configuration_adapter.c:174 | `atoi` reads the longest run of digits |
| CFormat.Saturate | main/adapters/configuration_adapter.c:174 | an out-of-range result saturates to the `int` range |
| CFormat.AtoiFormatInt | main/adapters/configuration_adapter.c:174-200 | `atoi` reads back any `int` that `"%d"` printed |
| CFormat.U32ThroughText | main/adapters/configuration_adapter.c:174-200 | a `uint32_t` printed with `"%d"` and parsed with `atoi` into a `uint32_t` comes back unchanged, for every value |
| CFormat.Hex2 | main/wifi_handler.c:161-167 | `"%02X"` of a byte is two upper-case hex digits that denote the byte |
| CFormat.HexString | main/wifi_handler.c:161-167 | six bytes print as twelve upper-case hex digits |
| CFormat.HexRoundTrip | main/wifi_handler.c:161-167 | reading back the hex text of some bytes gives the bytes |
| WifiHandler.DiscPhase | main/wifi_handler.c:373-382 | the DISC phase changes at most the connection status, and arms the reconnect timer exactly when DISC is set, STA is preferred and the station is scanning |
| WifiHandler.ReconnPhase | main/wifi_handler.c:384-408 | the RECONN phase changes at most the counter and the stop-scan flag, keeps the counter at most the larger of its old value and the maximum, and never arms the reconnect timer |
| WifiHandler.ConnPhase | main/wifi_handler.c:410-416 | the CONN phase changes at most the counter and the status, and never arms the reconnect timer |
| WifiHandler.ConnReqPhase | main/wifi_handler.c:418-426 | the CONN_REQ phase changes at most the status and the request buffers, and never arms the reconnect timer |
| WifiHandler.Step | main/wifi_handler.c:362-427 | a wake-up without CONN_REQ leaves the request buffers alone, and one without RECONN the stop-scan flag |
| WifiHandler.OnDisc | main/wifi_handler.c:373-382 | the status becomes DISC; the reconnect timer is armed exactly when STA is preferred and the station is scanning |
| WifiHandler.OnReconn | main/wifi_handler.c:384-408 | clears the stop-scan flag and, when it was set, restarts the counter from 0; the counter then grows by one unless it is at the maximum; the calls are exactly a connect while scanning followed, in STA mode at the maximum, by turning the backup AP on |
| WifiHandler.OnConn | main/wifi_handler.c:410-416 | the status becomes CONNECTED and the retry counter 0, nothing else changes, and the only call is `wifi_check_sta` |
| WifiHandler.ConsumeRequest | main/wifi_handler.c:329-349 | with an SSID pending, the configuration carries the request and both buffers end empty; with none, the configuration is empty and the state unchanged |
| WifiHandler.OnConnReq | main/wifi_handler.c:418-426 | the status ends CONNECTING; an attempt already under way is left alone; otherwise the request is consumed and set, then disconnect and connect are issued |
| WifiHandler.ReconnOnlyWakeUp | main/wifi_handler.c:362-427 | a wake-up carrying only RECONN does exactly what the RECONN handler does |
| WifiHandler.RetriesBeforeAp | main/wifi_handler.c:384-408 | in STA mode with the stop-scan flag clear, each of n consecutive timer expiries below the maximum raises the counter by one and issues one connect, nothing else |
| WifiHandler.BackupApAfterRetries | main/wifi_handler.c:384-408 | from a zero counter in STA mode, `maxRetry` expiries only reconnect, and the next one also turns the backup AP on, with the counter at the maximum |
| WifiHandler.StepRetryBounded | main/wifi_handler.c:355-429 | a wake-up never raises the retry counter above the larger of its old value and the configured maximum |
| WifiHandler.StepNoBits | main/wifi_handler.c:355-429 | a wake-up with no bits set changes nothing and issues nothing |
| WifiHandler.StepConnReqLast | main/wifi_handler.c:418-426 | a wake-up that carries CONN_REQ ends CONNECTING whatever else came with it |
| WifiHandler.StepConnEstablished | main/wifi_handler.c:410-416 | a wake-up with CONN and no CONN_REQ ends CONNECTED with the counter at 0, whatever DISC and RECONN did |
| WifiHandler.StepArmsTimer | main/wifi_handler.c:373-382 | the reconnect timer is armed exactly on DISC with STA preferred and the station scanning |
| WifiHandler.StepTakesRequest | main/wifi_handler.c:418-426 | a pending request is configured and its buffers emptied by a CONN_REQ wake-up that finds no attempt under way |
| WifiHandler.Handler.constructor | main/wifi_handler.c:355-361 | the zeroed state with status DISC and no bits pending |
| WifiHandler.Handler.RaiseEvents | main/wifi_handler.c:351-353 | setting event bits adds them to the pending bits and changes nothing else |
| WifiHandler.Handler.OnApAssignStaIp | main/wifi_handler.c:253-256 | raises the stop-scan flag and changes nothing else |
| WifiHandler.Handler.StaConnect | main/wifi_handler.c:90-112 | refused, with no change, while CONNECTING; otherwise stores the SSID (and the password when the SSID is nonempty), raises CONN_REQ and accepts |
| WifiHandler.Handler.CfgSta | main/wifi_handler.c:329-349 | equals `ConsumeRequest` on the handler's state |
| WifiHandler.Handler.HandleDisc | main/wifi_handler.c:373-382 | equals the DISC phase of `Step` |
| WifiHandler.Handler.HandleReconn | main/wifi_handler.c:384-408 | equals the RECONN phase of `Step` and keeps the counter below 256 |
| WifiHandler.Handler.HandleConn | main/wifi_handler.c:410-416 | equals the CONN phase of `Step` |
| WifiHandler.Handler.HandleConnReq | main/wifi_handler.c:418-426 | equals the CONN_REQ phase of `Step` |
| WifiHandler.Handler.UserTaskStep | main/wifi_handler.c:364-428 | takes and clears the pending bits, and the new state and the calls issued equal `Step` of the old state |
| WifiHandler.Bounded | main/wifi_handler.c:165 | `snprintf` into a buffer keeps a prefix shorter than the buffer, the whole text when it fits |
| WifiHandler.ApGenSsid | main/wifi_handler.c:161-167 | "Modbus Switch", a space and the twelve hex digits of the MAC: 26 characters, which fit the 32-byte buffer untruncated |
| WifiHandler.ApGenSsidInjective | main/wifi_handler.c:161-167 | the MAC can be read back from the generated SSID |
| WifiHandler.NormaliseAp | main/wifi_handler.c:177-189 | an empty SSID is replaced by the generated one; the SSID length is recorded; an empty password forces open authentication; the maximum connection count is kept, except that 0 becomes 1 |
| WifiHandler.NormaliseApIdempotent | main/wifi_handler.c:177-189 | normalising an already normalised configuration changes nothing |
| WifiHandler.TextOf | main/adapters/configuration_adapter.c:58-72 | the text `get` reads for a string entry of a valid store |
| WifiHandler.U8Of | main/adapters/configuration_adapter.c:74-82 | the byte `get` reads for a U8 entry of a valid store, below 256 |
| WifiHandler.ApConfigOf | main/wifi_handler.c:169-190 | the AP configuration a valid store yields has a nonempty SSID, at least one connection, and an auth mode below `WIFI_AUTH_MAX` |
| WifiHandler.GetText | main/wifi_handler.c:173-174 | reads a string entry: the store's text for it |
| WifiHandler.GetU8 | main/wifi_handler.c:175-176 | reads a U8 entry: the store's byte for it |
| WifiHandler.ReadEnv | main/wifi_handler.c:199-209 | STA is preferred exactly when `CFG_WIFI_MODE` is nonzero; the retry maximum is `CFG_WIFI_STA_MAX_RETRY`, below 256 |
| WifiHandler.ApLoadCfg | main/wifi_handler.c:169-190 | returns the store's AP configuration, the normalisation of its four AP entries; its auth mode is below `WIFI_AUTH_MAX` |
| WifiHandler.InitSoftAp | main/wifi_handler.c:304-313 | sets AP+STA mode, then exactly the store's AP configuration |
| WifiHandler.InitSta | main/wifi_handler.c:315-327 | with no station SSID stored it makes exactly the soft-AP calls; otherwise it sets STA mode and the stored SSID and password |
| WifiHandler.StartService | main/wifi_handler.c:26-47 | configures the station for the stored network only when STA is preferred and an SSID is stored, and brings up the soft AP with the store's configuration in every other case; then starts the driver |
| WifiHandler.QueryIpInfoCheck | main/wifi_handler.c:65-88 | INVALID_ARG exactly for an interface above 1; OK exactly when the interface's netif is found |

## Left out

- FreeRTOS mutexes, semaphores, the reconnect timer and `vTaskDelay`. Every modelled call is one atomic step. Arming the timer is the action `ArmReconnTimer`, and its expiry is `RaiseEvents` of the RECONN bit. The hold delay is a no-op.
- SwitchAdapter.Switches.ChgSta: modelled as atomic, though the source's is not. It reads the type and the hold duration without taking the switch's mutex (`main/adapters/switch_adapter.c:99-106`), and each coil write runs in a task of its own, so another write can change the word between that read and the action taken.
- SwitchAdapter.Switches.HoldSwitch: modelled as atomic, though the source's is not. It holds no mutex during the `vTaskDelay` between its two toggles (`main/adapters/switch_adapter.c:87-91`), so a concurrent `set_status` or pulse can interleave and the second toggle can then leave the switch in another state than it found.
- `HoldSwitch`: the wait of `sw_hold_duration` seconds between the two toggles is not modelled, because time is not modelled.
- `gpio_config` in `switch_adapter_init`, and the pin levels before it: the model takes every level as 0 at start.
- NVS: open, read, write and commit are one map. A failing `get` (other than a missing key) is not modelled. A failing `set` is the `nvsOk` parameter of `Set`.
- ConfigurationAdapter.ConfigStore.Get: the caller's buffer size `maxlen` is not modelled; strings are read whole. In the source a stored string longer than the buffer makes `nvs_get_str` fail, and `get` returns that error (`main/adapters/configuration_adapter.c:61`, `:69-70`). Only a default string is copied with `strncpy`, bounded by `maxlen`.
- ConfigurationAdapter.ConfigStore.GetToReadable: the `snprintf` truncation to `maxlen` is not modelled.
- `WIFI_AUTH_MAX` comes from the ESP-IDF headers, which are not part of this model. It is taken as 8.
- IP address formatting in `wifi_hdl_query_ip_info`, and the IPv6 address count. Only the argument check and the netif lookup outcome are modelled.
- `wifi_check_sta` and the `wifi_init_softap` triggered by RECONN appear inside `Step` as the actions `CheckSta` and `TurnOnSoftAp`. `InitSoftAp` models the latter on its own. The logic of `wifi_check_sta` is left out, because it depends on driver state the model does not keep: with STA preferred, in AP+STA mode and with no client on the AP, it switches to STA mode and, when the station is not associated, reloads the station configuration and reconnects.
- The `WIFI_EVENT_STA_CONNECTED` and `WIFI_EVENT_STA_DISCONNECTED` arms of `wifi_event_handler`, and `on_got_ip` and `on_got_ipv6`, only set event bits (`RaiseEvents`). The IPv4/IPv6 bits are only logged by the user task, so `Step` ignores them.
- The other arms of `wifi_event_handler` are left out, because they are driver and network-stack calls: `WIFI_EVENT_AP_STADISCONNECTED` runs `wifi_check_sta`; `WIFI_EVENT_AP_START` gives the AP the addresses FE80::1 and 10.1.10.1, restarts its DHCP server and sets the IPv4 bit; `WIFI_EVENT_STA_START` calls `esp_wifi_connect` when STA is preferred, which is how the station set up by `StartService` joins its network.
- `wifi_hdl_ap_turn_on`, `wifi_hdl_ap_turn_off` and `wifi_hdl_ap_query` are not modelled, because they act on driver state the model does not keep. `wifi_hdl_ap_turn_on` runs `wifi_init_softap` (modelled by `InitSoftAp`) and returns 1. `wifi_hdl_ap_turn_off` switches to STA mode and returns 1 only when the mode is AP+STA and the station is associated, and otherwise returns 0 with no change. `wifi_hdl_ap_query` returns INVALID_STATE outside the AP modes and otherwise copies the AP's SSID, truncated to the buffer.
- `wifi_hdl_start_service`: the event-group creation, `esp_wifi_init`, the handler registrations and the creation of the user task are start-up sequencing and are left out; its choice between station and soft AP is `StartService`.
- `wifi_hdl_sta_query_ap`, `wifi_hdl_sta_query_status` and `wifi_hdl_sta_disconnect` are direct driver calls without logic of their own.
- WifiHandler.Handler.StaConnect: requires the SSID and password to fit their 32- and 64-byte buffers, which the C signature also demands. A NULL SSID or password is modelled as the empty string.
- The Modbus TCP server, the HTTP and OTA servers and `app_main` are not part of this model.
- Logging (`ESP_LOGI`/`ESP_LOGW`), and the abort that `ESP_ERROR_CHECK` causes on a driver error.
