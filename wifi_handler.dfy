/** The Wi-Fi handler's own logic: the user task that reacts to the
    connection event bits, the hand-off of a station connect request from
    the web front end to that task, the soft-AP configuration it loads,
    and the SSID it generates from the MAC address.

    The ESP-IDF Wi-Fi driver is the environment: the current mode, the
    "STA preferred" and "max retry" settings read during a wake-up and the
    MAC address are parameters, and every `esp_wifi_*` call the handler
    makes is returned as an `Action`. */
module WifiHandler {
  import opened EspTypes
  import CFormat
  import Cfg = ConfigurationAdapter

  const WifiSsidMaxLen: nat := 32
  const WifiPassMaxLen: nat := 64

  // The event bits of the connection event group.
  const GotIpv4Bit: bv8 := 0x01
  const GotIpv6Bit: bv8 := 0x02
  const StaDiscBit: bv8 := 0x04
  const StaReconnBit: bv8 := 0x08
  const StaConnBit: bv8 := 0x10
  const ApStaLeaveBit: bv8 := 0x20
  const CfgChangedBit: bv8 := 0x40
  const StaConnReqBit: bv8 := 0x80

  predicate Has(bits: bv8, bit: bv8) { bits & bit != 0 }

  datatype ConnStatus = StaDisc | StaConnecting | StaConnected

  datatype WifiMode = ModeNull | ModeSta | ModeAp | ModeApSta

  datatype StaConfig = StaConfig(ssid: string, password: string)

  datatype ApConfig = ApConfig(ssid: string, password: string, ssidLen: nat, maxConnection: nat, authmode: nat)

  /** The calls into the Wi-Fi driver, in the order made. `TurnOnSoftAp`
      stands for `wifi_init_softap` (modelled by `InitSoftAp`),
      `CheckSta` for `wifi_check_sta`, which may switch the backup AP off
      and reconnect the station (abstracted as one action), and
      `StartWifi` for `esp_wifi_start`. */
  datatype Action =
    | Connect
    | Disconnect
    | ArmReconnTimer
    | TurnOnSoftAp
    | CheckSta
    | SetMode(mode: WifiMode)
    | SetStaConfig(sta: StaConfig)
    | SetApConfig(ap: ApConfig)
    | StartWifi

  /** What one wake-up of the user task reads from outside: the driver's
      mode and the `CFG_WIFI_MODE` and `CFG_WIFI_STA_MAX_RETRY` settings. */
  datatype Env = Env(mode: WifiMode, staPreferred: bool, maxRetry: nat)

  /** The fields of `s_wifi_cfg`. */
  datatype WifiState = WifiState(retry: nat, stopScan: bool, status: ConnStatus, ssidReq: string, passReq: string)

  // ---------------------------------------------------------------------
  // The user task, one event bit at a time

  /** The station keeps trying to connect in `mode`. */
  predicate StaScanning(mode: WifiMode, stopScan: bool)
  {
    mode == ModeSta || (mode == ModeApSta && !stopScan)
  }

  /** STA_DISC: the link is down; the reconnect timer is armed only when
      STA is preferred and the station is still scanning. */
  function OnDisc(st: WifiState, env: Env): (r: (WifiState, seq<Action>))
    ensures r.0 == st.(status := StaDisc)
    ensures r.1 == [ArmReconnTimer] || r.1 == []
    ensures ArmReconnTimer in r.1 <==> env.staPreferred && StaScanning(env.mode, st.stopScan)
  {
    (st.(status := StaDisc), if env.staPreferred && StaScanning(env.mode, st.stopScan) then [ArmReconnTimer] else [])
  }

  /** STA_RECONN: reconnect while scanning; a raised stop-scan flag resets
      the retry counter and is cleared; the counter grows only while below
      the configured maximum, and at the maximum an STA-only device turns
      its backup AP on. */
  function OnReconn(st: WifiState, env: Env): (r: (WifiState, seq<Action>))
    ensures !r.0.stopScan
    ensures r.0 == st.(retry := r.0.retry, stopScan := false)
    ensures r.0.retry <= env.maxRetry || r.0.retry == st.retry
    ensures r.0.retry <= st.retry + 1
    ensures st.stopScan ==> r.0.retry <= 1
    ensures Connect in r.1 <==> StaScanning(env.mode, st.stopScan)
    ensures TurnOnSoftAp in r.1 <==> env.mode == ModeSta && (if st.stopScan then 0 else st.retry) >= env.maxRetry
    ensures var base := if st.stopScan then 0 else st.retry;
            && r.0.retry == (if base < env.maxRetry then base + 1 else base)
            && r.1 == (if StaScanning(env.mode, st.stopScan) then [Connect] else [])
                      + (if base >= env.maxRetry && env.mode == ModeSta then [TurnOnSoftAp] else [])
  {
    var connect := if StaScanning(env.mode, st.stopScan) then [Connect] else [];
    var reset := if st.stopScan then st.(retry := 0, stopScan := false) else st;
    if reset.retry >= env.maxRetry then
      (reset, connect + if env.mode == ModeSta then [TurnOnSoftAp] else [])
    else
      (reset.(retry := reset.retry + 1), connect)
  }

  /** STA_CONN: connected; the retry counter starts over. */
  function OnConn(st: WifiState): (r: (WifiState, seq<Action>))
    ensures r.0.status == StaConnected && r.0.retry == 0
    ensures r.0 == st.(status := StaConnected, retry := 0)
    ensures r.1 == [CheckSta]
  {
    (st.(retry := 0, status := StaConnected), [CheckSta])
  }

  /** `wifi_cfg_sta`: takes the pending connect request. With an SSID
      pending, the configuration carries it and its password and both
      request buffers end empty; with none, the configuration is empty and
      the buffers are left as they are. */
  function ConsumeRequest(st: WifiState): (r: (WifiState, StaConfig))
    ensures r.0.ssidReq == ""
    ensures st.ssidReq != "" ==> r.1 == StaConfig(st.ssidReq, st.passReq) && r.0.passReq == ""
    ensures st.ssidReq == "" ==> r.1 == StaConfig("", "") && r.0 == st
    ensures r.0 == st.(ssidReq := r.0.ssidReq, passReq := r.0.passReq)
  {
    if st.ssidReq != "" then (st.(ssidReq := "", passReq := ""), StaConfig(st.ssidReq, st.passReq))
    else (st, StaConfig("", ""))
  }

  /** STA_CONN_REQ: unless a connection attempt is already under way, start
      one with the pending request. */
  function OnConnReq(st: WifiState): (r: (WifiState, seq<Action>))
    ensures r.0.status == StaConnecting
    ensures st.status == StaConnecting ==> r == (st, [])
    ensures st.status != StaConnecting ==>
      var (taken, cfg) := ConsumeRequest(st);
      r == (taken.(status := StaConnecting), [SetStaConfig(cfg), Disconnect, Connect])
  {
    if st.status != StaConnecting then
      var (taken, cfg) := ConsumeRequest(st.(status := StaConnecting));
      (taken, [SetStaConfig(cfg), Disconnect, Connect])
    else
      (st, [])
  }

  function Max(a: nat, b: nat): nat { if a < b then b else a }

  /** Each bit of one wake-up: the handler when the bit is set, nothing
      otherwise. */
  function DiscPhase(st: WifiState, bits: bv8, env: Env): (r: (WifiState, seq<Action>))
    ensures r.0 == st.(status := r.0.status)
    ensures ArmReconnTimer in r.1 <==> Has(bits, StaDiscBit) && env.staPreferred && StaScanning(env.mode, st.stopScan)
  {
    if Has(bits, StaDiscBit) then OnDisc(st, env) else (st, [])
  }

  function ReconnPhase(st: WifiState, bits: bv8, env: Env): (r: (WifiState, seq<Action>))
    ensures r.0 == st.(retry := r.0.retry, stopScan := r.0.stopScan)
    ensures r.0.retry <= Max(st.retry, env.maxRetry)
    ensures ArmReconnTimer !in r.1
  {
    if Has(bits, StaReconnBit) then OnReconn(st, env) else (st, [])
  }

  function ConnPhase(st: WifiState, bits: bv8): (r: (WifiState, seq<Action>))
    ensures r.0 == st.(retry := r.0.retry, status := r.0.status)
    ensures ArmReconnTimer !in r.1
  {
    if Has(bits, StaConnBit) then OnConn(st) else (st, [])
  }

  function ConnReqPhase(st: WifiState, bits: bv8): (r: (WifiState, seq<Action>))
    ensures r.0 == st.(status := r.0.status, ssidReq := r.0.ssidReq, passReq := r.0.passReq)
    ensures ArmReconnTimer !in r.1
  {
    if Has(bits, StaConnReqBit) then OnConnReq(st) else (st, [])
  }

  /** One wake-up of `wifi_user_task` with the bits `bits` set: DISC,
      RECONN, CONN and CONN_REQ are handled in that order, each on the
      state the previous one left. The IP bits are only logged. */
  function Step(st: WifiState, bits: bv8, env: Env): (r: (WifiState, seq<Action>))
    ensures !Has(bits, StaConnReqBit) ==> r.0.ssidReq == st.ssidReq && r.0.passReq == st.passReq
    ensures !Has(bits, StaReconnBit) ==> r.0.stopScan == st.stopScan
  {
    var p1 := DiscPhase(st, bits, env);
    var p2 := ReconnPhase(p1.0, bits, env);
    var p3 := ConnPhase(p2.0, bits);
    var p4 := ConnReqPhase(p3.0, bits);
    (p4.0, p1.1 + p2.1 + p3.1 + p4.1)
  }

  /** The retry counter is never pushed past the configured maximum: it
      ends at most at the larger of its old value and that maximum. So a
      counter within the maximum stays within it, and the `uint8_t` never
      wraps. */
  lemma StepRetryBounded(st: WifiState, bits: bv8, env: Env)
    ensures Step(st, bits, env).0.retry <= Max(st.retry, env.maxRetry)
  {
    assert DiscPhase(st, bits, env).0.retry == st.retry;
  }

  /** With no bits set a wake-up does nothing. */
  lemma StepNoBits(st: WifiState, env: Env)
    ensures Step(st, 0, env) == (st, [])
  {
    assert !Has(0, StaDiscBit) && !Has(0, StaReconnBit) && !Has(0, StaConnBit) && !Has(0, StaConnReqBit);
    var none: seq<Action> := [];
    assert none + none + none + none == none;
  }

  /** A connect request is the last thing handled: after a wake-up that
      carries CONN_REQ the status is CONNECTING, whatever else came with it. */
  lemma StepConnReqLast(st: WifiState, bits: bv8, env: Env)
    requires Has(bits, StaConnReqBit)
    ensures Step(st, bits, env).0.status == StaConnecting
  {
  }

  /** CONN is handled after DISC and RECONN: without a connect request the
      wake-up ends CONNECTED with the retry counter at 0. */
  lemma StepConnEstablished(st: WifiState, bits: bv8, env: Env)
    requires Has(bits, StaConnBit) && !Has(bits, StaConnReqBit)
    ensures Step(st, bits, env).0.status == StaConnected && Step(st, bits, env).0.retry == 0
  {
  }

  /** The reconnect timer is armed exactly on a DISC bit, when STA is
      preferred and the station is still scanning. */
  lemma StepArmsTimer(st: WifiState, bits: bv8, env: Env)
    ensures ArmReconnTimer in Step(st, bits, env).1 <==>
      Has(bits, StaDiscBit) && env.staPreferred && StaScanning(env.mode, st.stopScan)
  {
    var p1 := DiscPhase(st, bits, env);
    var p2 := ReconnPhase(p1.0, bits, env);
    var p3 := ConnPhase(p2.0, bits);
    var p4 := ConnReqPhase(p3.0, bits);
    assert Step(st, bits, env).1 == p1.1 + (p2.1 + p3.1 + p4.1);
    assert ArmReconnTimer !in p2.1 + p3.1 + p4.1;
  }

  /** A pending connect request is taken, and its buffers emptied, by a
      wake-up carrying CONN_REQ unless an attempt is still under way after
      the earlier bits. */
  lemma StepTakesRequest(st: WifiState, bits: bv8, env: Env)
    requires Has(bits, StaConnReqBit) && st.ssidReq != ""
    requires Has(bits, StaDiscBit) || Has(bits, StaConnBit) || st.status != StaConnecting
    ensures Step(st, bits, env).0.ssidReq == "" && Step(st, bits, env).0.passReq == ""
    ensures SetStaConfig(StaConfig(st.ssidReq, st.passReq)) in Step(st, bits, env).1
  {
    var p1 := DiscPhase(st, bits, env);
    var p2 := ReconnPhase(p1.0, bits, env);
    var p3 := ConnPhase(p2.0, bits);
    assert p3.0.ssidReq == st.ssidReq && p3.0.passReq == st.passReq && p3.0.status != StaConnecting;
    var p4 := OnConnReq(p3.0);
    assert p4.1[0] == SetStaConfig(StaConfig(st.ssidReq, st.passReq));
    assert Step(st, bits, env).1 == (p1.1 + p2.1 + p3.1) + p4.1;
  }

  /** `n` wake-ups in a row, each with the bits `bits`. */
  function WakeUps(st: WifiState, bits: bv8, env: Env, n: nat): (WifiState, seq<Action>)
  {
    if n == 0 then (st, [])
    else
      var p := WakeUps(st, bits, env, n - 1);
      var q := Step(p.0, bits, env);
      (q.0, p.1 + q.1)
  }

  /** A wake-up carrying only RECONN, the timer's bit, is the RECONN handler. */
  lemma ReconnOnlyWakeUp(st: WifiState, env: Env)
    ensures Step(st, StaReconnBit, env) == OnReconn(st, env)
  {
    assert !Has(StaReconnBit, StaDiscBit) && Has(StaReconnBit, StaReconnBit);
    assert !Has(StaReconnBit, StaConnBit) && !Has(StaReconnBit, StaConnReqBit);
    var acts := OnReconn(st, env).1;
    assert [] + acts + [] + [] == acts;
  }

  /** `n` reconnection attempts. */
  function Connects(n: nat): (r: seq<Action>)
    ensures |r| == n && forall i :: 0 <= i < n ==> r[i] == Connect
  {
    if n == 0 then [] else Connects(n - 1) + [Connect]
  }

  /** Retries before the backup AP: in STA mode, with no client on the AP,
      each timer expiry below the maximum reconnects and counts one retry. */
  lemma {:induction false} RetriesBeforeAp(st: WifiState, env: Env, n: nat)
    requires env.mode == ModeSta && !st.stopScan && st.retry + n <= env.maxRetry
    ensures WakeUps(st, StaReconnBit, env, n) == (st.(retry := st.retry + n), Connects(n))
  {
    if n > 0 {
      RetriesBeforeAp(st, env, n - 1);
      var p := WakeUps(st, StaReconnBit, env, n - 1);
      assert p == (st.(retry := st.retry + n - 1), Connects(n - 1));
      ReconnOnlyWakeUp(p.0, env);
      assert StaScanning(env.mode, p.0.stopScan);
      assert OnReconn(p.0, env) == (st.(retry := st.retry + n), [Connect]);
    }
  }

  /** Starting from no retries, `maxRetry` expiries only reconnect, and the
      next one, finding the counter at the maximum, also turns the backup
      AP on. */
  lemma BackupApAfterRetries(st: WifiState, env: Env)
    requires env.mode == ModeSta && !st.stopScan && st.retry == 0
    ensures WakeUps(st, StaReconnBit, env, env.maxRetry + 1)
            == (st.(retry := env.maxRetry), Connects(env.maxRetry) + [Connect, TurnOnSoftAp])
  {
    RetriesBeforeAp(st, env, env.maxRetry);
    var p := WakeUps(st, StaReconnBit, env, env.maxRetry);
    assert p == (st.(retry := env.maxRetry), Connects(env.maxRetry));
    ReconnOnlyWakeUp(p.0, env);
    assert StaScanning(env.mode, p.0.stopScan);
    assert [Connect] + [TurnOnSoftAp] == [Connect, TurnOnSoftAp];
    assert OnReconn(p.0, env) == (p.0, [Connect, TurnOnSoftAp]);
  }

  // ---------------------------------------------------------------------
  // The handler's state

  /** `s_wifi_cfg` together with the connection event group. */
  class Handler {
    var retry: nat
    var stopScan: bool
    var status: ConnStatus
    var ssidReq: string
    var passReq: string
    var events: bv8

    function State(): WifiState
      reads this
    {
      WifiState(retry, stopScan, status, ssidReq, passReq)
    }

    /** The counter fits its `uint8_t` and the request buffers fit theirs. */
    ghost predicate Valid()
      reads this
    {
      retry < 256 && |ssidReq| < WifiSsidMaxLen && |passReq| < WifiPassMaxLen
    }

    /** The zeroed static state and the start of `wifi_user_task`. */
    constructor ()
      ensures Valid()
      ensures State() == WifiState(0, false, StaDisc, "", "") && events == 0
    {
      retry, stopScan, status, ssidReq, passReq, events := 0, false, StaDisc, "", "", 0;
    }

    /** `xEventGroupSetBits` from the driver's callbacks and the reconnect
        timer. */
    method RaiseEvents(bits: bv8)
      modifies this
      ensures State() == old(State()) && events == old(events) | bits
    {
      events := events | bits;
    }

    /** `on_ap_assign_sta_ip`: a client got an address from the backup AP. */
    method OnApAssignStaIp()
      modifies this
      ensures State() == old(State()).(stopScan := true) && events == old(events)
    {
      stopScan := true;
    }

    /** `wifi_hdl_sta_connect`: refused (0) while a connection attempt is
        under way; otherwise stores the request, raises CONN_REQ and
        accepts (1). An empty SSID clears the pending SSID and leaves the
        password buffer alone. */
    method StaConnect(ssid: string, password: string) returns (accepted: bool)
      requires Valid()
      requires |ssid| < WifiSsidMaxLen && |password| < WifiPassMaxLen
      modifies this
      ensures Valid()
      ensures accepted <==> old(status) != StaConnecting
      ensures !accepted ==> State() == old(State()) && events == old(events)
      ensures accepted ==>
        && retry == old(retry) && stopScan == old(stopScan) && status == old(status)
        && ssidReq == ssid
        && passReq == (if ssid != "" then password else old(passReq))
        && events == old(events) | StaConnReqBit
    {
      if status == StaConnecting {
        return false;
      }
      if ssid != "" {
        ssidReq := ssid;
        passReq := password;
      } else {
        ssidReq := "";
      }
      events := events | StaConnReqBit;
      accepted := true;
    }

    /** `wifi_cfg_sta` */
    method CfgSta() returns (cfg: StaConfig)
      requires Valid()
      modifies this
      ensures Valid() && events == old(events)
      ensures (State(), cfg) == ConsumeRequest(old(State()))
    {
      if ssidReq != "" {
        cfg := StaConfig(ssidReq, passReq);
        ssidReq, passReq := "", "";
      } else {
        cfg := StaConfig("", "");
      }
    }

    /** The STA_DISC branch of the loop. */
    method HandleDisc(bits: bv8, env: Env) returns (acts: seq<Action>)
      requires Valid()
      modifies this
      ensures Valid() && events == old(events)
      ensures (State(), acts) == DiscPhase(old(State()), bits, env)
    {
      acts := [];
      if Has(bits, StaDiscBit) {
        status := StaDisc;
        if env.staPreferred && StaScanning(env.mode, stopScan) {
          acts := [ArmReconnTimer];
        }
      }
    }

    /** The STA_RECONN branch of the loop. */
    method HandleReconn(bits: bv8, env: Env) returns (acts: seq<Action>)
      requires Valid() && env.maxRetry < 256
      modifies this
      ensures Valid() && events == old(events)
      ensures (State(), acts) == ReconnPhase(old(State()), bits, env)
    {
      acts := [];
      if Has(bits, StaReconnBit) {
        if StaScanning(env.mode, stopScan) {
          acts := [Connect];
        }
        if stopScan {
          retry, stopScan := 0, false;
        }
        if retry >= env.maxRetry {
          if env.mode == ModeSta {
            acts := acts + [TurnOnSoftAp];
          } else {
            assert acts + [] == acts;
          }
        } else {
          retry := retry + 1;
        }
      }
    }

    /** The STA_CONN branch of the loop. */
    method HandleConn(bits: bv8) returns (acts: seq<Action>)
      requires Valid()
      modifies this
      ensures Valid() && events == old(events)
      ensures (State(), acts) == ConnPhase(old(State()), bits)
    {
      acts := [];
      if Has(bits, StaConnBit) {
        retry, status := 0, StaConnected;
        acts := [CheckSta];
      }
    }

    /** The STA_CONN_REQ branch of the loop. */
    method HandleConnReq(bits: bv8) returns (acts: seq<Action>)
      requires Valid()
      modifies this
      ensures Valid() && events == old(events)
      ensures (State(), acts) == ConnReqPhase(old(State()), bits)
    {
      acts := [];
      if Has(bits, StaConnReqBit) && status != StaConnecting {
        status := StaConnecting;
        var cfg := CfgSta();
        acts := [SetStaConfig(cfg), Disconnect, Connect];
      }
    }

    /** One pass of the `wifi_user_task` loop: take and clear the pending
        bits, then handle them in the fixed order. */
    method UserTaskStep(env: Env) returns (acts: seq<Action>)
      requires Valid() && env.maxRetry < 256
      modifies this
      ensures Valid() && events == 0
      ensures (State(), acts) == Step(old(State()), old(events), env)
    {
      var bits := events;
      events := 0;
      var a1 := HandleDisc(bits, env);
      var a2 := HandleReconn(bits, env);
      var a3 := HandleConn(bits);
      var a4 := HandleConnReq(bits);
      acts := a1 + a2 + a3 + a4;
    }
  }

  // ---------------------------------------------------------------------
  // Soft-AP configuration

  /** `snprintf` into a buffer of `cap` bytes keeps at most `cap - 1` characters. */
  function Bounded(s: string, cap: nat): (r: string)
    requires cap > 0
    ensures |r| < cap && r <= s
    ensures |s| < cap ==> r == s
  {
    if |s| < cap then s else s[..cap - 1]
  }

  /** `wifi_ap_gen_ssid`: "Modbus Switch", a space, and the six MAC bytes
      as twelve upper-case hex digits; it fits the 32-byte SSID buffer
      without truncation. */
  function ApGenSsid(mac: seq<byte>): (ssid: string)
    requires |mac| == 6
    ensures |ssid| == 26 && |ssid| < WifiSsidMaxLen
    ensures ssid == Cfg.ApSsidDefault + " " + CFormat.HexString(mac)
  {
    Bounded(Cfg.ApSsidDefault + " " + CFormat.HexString(mac), WifiSsidMaxLen)
  }

  /** The MAC address can be read back from the generated SSID, so two
      devices with different MACs advertise different SSIDs. */
  lemma ApGenSsidInjective(mac: seq<byte>)
    requires |mac| == 6
    ensures CFormat.HexPairs(ApGenSsid(mac)[14..]) == mac
  {
    assert ApGenSsid(mac)[14..] == CFormat.HexString(mac);
    CFormat.HexRoundTrip(mac);
  }

  /** The normalisation of `wifi_ap_load_cfg`: an empty SSID is replaced by
      the generated one, an empty password forces open authentication, at
      least one connection is allowed and the SSID length is recorded. */
  function NormaliseAp(ssid: string, password: string, auth: nat, maxConn: nat, mac: seq<byte>): (c: ApConfig)
    requires |mac| == 6
    ensures c.ssid == (if ssid == "" then ApGenSsid(mac) else ssid)
    ensures c.ssid != "" && c.ssidLen == |c.ssid|
    ensures c.password == password
    ensures c.authmode == (if password == "" then Cfg.WifiAuthOpen else auth)
    ensures c.maxConnection >= 1 && c.maxConnection == (if maxConn == 0 then 1 else maxConn)
  {
    var s := if ssid == "" then ApGenSsid(mac) else ssid;
    ApConfig(s, password, |s|, if maxConn == 0 then 1 else maxConn, if password == "" then Cfg.WifiAuthOpen else auth)
  }

  /** A configuration that went through the normalisation is left alone
      by a second pass. */
  lemma NormaliseApIdempotent(ssid: string, password: string, auth: nat, maxConn: nat, mac: seq<byte>)
    requires |mac| == 6
    ensures var c := NormaliseAp(ssid, password, auth, maxConn, mac);
            NormaliseAp(c.ssid, c.password, c.authmode, c.maxConnection, mac) == c
  {
  }

  /** The text `get` reads for a string entry. */
  function TextOf(m: map<string, Cfg.Value>, id: int): (t: string)
    requires Cfg.ValidStore(m) && Cfg.IsValidId(id) && Cfg.ConfigDefs[id].typ == Cfg.DataStr
    ensures Cfg.Lookup(m, id) == Cfg.Text(t)
  {
    Cfg.LookupAcceptable(m, id);
    Cfg.Lookup(m, id).s
  }

  /** The byte `get` reads for a U8 entry. */
  function U8Of(m: map<string, Cfg.Value>, id: int): (n: nat)
    requires Cfg.ValidStore(m) && Cfg.IsValidId(id) && Cfg.ConfigDefs[id].typ == Cfg.DataU8
    ensures Cfg.Lookup(m, id) == Cfg.Num(n) && n < 256
  {
    Cfg.LookupAcceptable(m, id);
    Cfg.Lookup(m, id).n
  }

  /** The soft-AP configuration a store yields: the normalisation of its
      four AP entries. The auth mode is one the validator admitted, or the
      open mode. */
  function ApConfigOf(m: map<string, Cfg.Value>, mac: seq<byte>): (c: ApConfig)
    requires Cfg.ValidStore(m) && |mac| == 6
    ensures c.ssid != "" && c.maxConnection >= 1
    ensures c.authmode < Cfg.WifiAuthMax
  {
    Cfg.LookupAcceptable(m, Cfg.CfgWifiAuthAp);
    NormaliseAp(TextOf(m, Cfg.CfgWifiSsidAp), TextOf(m, Cfg.CfgWifiPassAp),
                U8Of(m, Cfg.CfgWifiAuthAp), U8Of(m, Cfg.CfgWifiMaxConnAp), mac)
  }

  /** `cfg_adp_get_by_id` of a string entry. */
  method GetText(store: Cfg.ConfigStore, id: int) returns (s: string)
    requires store.Valid() && Cfg.IsValidId(id) && Cfg.ConfigDefs[id].typ == Cfg.DataStr
    ensures s == TextOf(store.nvs, id)
  {
    var got := store.Get(id);
    Cfg.LookupAcceptable(store.nvs, id);
    s := got.value.s;
  }

  /** `cfg_adp_get_u8_by_id` */
  method GetU8(store: Cfg.ConfigStore, id: int) returns (n: nat)
    requires store.Valid() && Cfg.IsValidId(id) && Cfg.ConfigDefs[id].typ == Cfg.DataU8
    ensures n == U8Of(store.nvs, id) && n < 256
  {
    var got := store.Get(id);
    Cfg.LookupAcceptable(store.nvs, id);
    n := got.value.n;
  }

  /** The settings a wake-up of the user task reads: `wifi_sta_preferred`
      (the `CFG_WIFI_MODE` entry, nonzero meaning STA preferred) and
      `wifi_sta_retry_before_ap` (the `CFG_WIFI_STA_MAX_RETRY` entry),
      with the mode the driver reports. */
  method ReadEnv(store: Cfg.ConfigStore, mode: WifiMode) returns (env: Env)
    requires store.Valid()
    ensures env.mode == mode && env.maxRetry < 256
    ensures env.staPreferred <==> U8Of(store.nvs, Cfg.CfgWifiMode) != 0
    ensures env.maxRetry == U8Of(store.nvs, Cfg.CfgWifiStaMaxRetry)
  {
    var pref := GetU8(store, Cfg.CfgWifiMode);
    var maxRetry := GetU8(store, Cfg.CfgWifiStaMaxRetry);
    env := Env(mode, pref != 0, maxRetry);
  }

  /** `wifi_ap_load_cfg`: the soft-AP configuration from the AP entries of
      the store, normalised. */
  method ApLoadCfg(store: Cfg.ConfigStore, mac: seq<byte>) returns (c: ApConfig)
    requires store.Valid() && |mac| == 6
    ensures c == ApConfigOf(store.nvs, mac)
    ensures c.authmode < Cfg.WifiAuthMax
  {
    var ssid := GetText(store, Cfg.CfgWifiSsidAp);
    var password := GetText(store, Cfg.CfgWifiPassAp);
    var auth := GetU8(store, Cfg.CfgWifiAuthAp);
    var maxConn := GetU8(store, Cfg.CfgWifiMaxConnAp);
    c := NormaliseAp(ssid, password, auth, maxConn, mac);
  }

  /** `wifi_init_softap`: AP+STA mode with the loaded AP configuration. */
  method InitSoftAp(store: Cfg.ConfigStore, mac: seq<byte>) returns (acts: seq<Action>)
    requires store.Valid() && |mac| == 6
    ensures acts == [SetMode(ModeApSta), SetApConfig(ApConfigOf(store.nvs, mac))]
  {
    var c := ApLoadCfg(store, mac);
    acts := [SetMode(ModeApSta), SetApConfig(c)];
  }

  /** `wifi_init_sta`: STA mode with the stored station credentials, or
      the soft AP when no station SSID is configured. */
  method InitSta(store: Cfg.ConfigStore, mac: seq<byte>) returns (acts: seq<Action>)
    requires store.Valid() && |mac| == 6
    ensures TextOf(store.nvs, Cfg.CfgWifiSsid) == "" ==>
      acts == [SetMode(ModeApSta), SetApConfig(ApConfigOf(store.nvs, mac))]
    ensures TextOf(store.nvs, Cfg.CfgWifiSsid) != "" ==>
      acts == [SetMode(ModeSta), SetStaConfig(StaConfig(TextOf(store.nvs, Cfg.CfgWifiSsid), TextOf(store.nvs, Cfg.CfgWifiPass)))]
  {
    var ssid := GetText(store, Cfg.CfgWifiSsid);
    var password := GetText(store, Cfg.CfgWifiPass);
    if ssid == "" {
      acts := InitSoftAp(store, mac);
      return;
    }
    acts := [SetMode(ModeSta), SetStaConfig(StaConfig(ssid, password))];
  }

  /** The driver set-up of `wifi_hdl_start_service`: the station set-up
      when STA is preferred, the soft AP otherwise, then `esp_wifi_start`.
      Either way the device ends up reachable: it joins the stored network
      only when STA is preferred and an SSID is stored, and brings its own
      AP up in every other case. */
  method StartService(store: Cfg.ConfigStore, mac: seq<byte>) returns (acts: seq<Action>)
    requires store.Valid() && |mac| == 6
    ensures U8Of(store.nvs, Cfg.CfgWifiMode) != 0 && TextOf(store.nvs, Cfg.CfgWifiSsid) != "" ==>
      acts == [SetMode(ModeSta), SetStaConfig(StaConfig(TextOf(store.nvs, Cfg.CfgWifiSsid), TextOf(store.nvs, Cfg.CfgWifiPass))), StartWifi]
    ensures U8Of(store.nvs, Cfg.CfgWifiMode) == 0 || TextOf(store.nvs, Cfg.CfgWifiSsid) == "" ==>
      acts == [SetMode(ModeApSta), SetApConfig(ApConfigOf(store.nvs, mac)), StartWifi]
  {
    var preferred := GetU8(store, Cfg.CfgWifiMode);
    if preferred != 0 {
      acts := InitSta(store, mac);
    } else {
      acts := InitSoftAp(store, mac);
    }
    acts := acts + [StartWifi];
  }

  /** The argument check of `wifi_hdl_query_ip_info`: only interface 0
      (STA) or 1 (AP) is accepted; the lookup of its network interface
      (`netifFound`) decides between success and failure. */
  function QueryIpInfoCheck(iface: nat, netifFound: bool): (r: EspErr)
    ensures r == InvalidArg <==> iface > 1
    ensures r == Ok <==> iface <= 1 && netifFound
    ensures r == Ok || r == InvalidArg || r == Fail
  {
    if iface > 1 then InvalidArg else if netifFound then Ok else Fail
  }
}
