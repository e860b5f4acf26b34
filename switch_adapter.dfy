/** The switch adapter: three relay outputs, each with a GPIO pin and a
    one-byte configuration/status word, driven by Modbus coil writes.

    The word is declared as a C union whose members `value`,
    `sw_hold_duration:6`, `sw_type:1` and `sw_status:1` all begin at bit 0,
    so the status, the type and the low bit of the hold duration are one
    and the same bit. The accessors below read the word that way. */
module SwitchAdapter {
  import opened EspTypes
  import Cfg = ConfigurationAdapter

  const SwitchCount: nat := 3

  /** The GPIO pins of SW1, SW2 and SW3. */
  const Pins: seq<nat> := [15, 16, 17]

  /** `enum switch_type` */
  const Toggling: bit := 0
  const Limit: bit := 1

  // ---------------------------------------------------------------------
  // Reading and writing the union

  /** The `sw_status:1` member. */
  function StatusOf(v: byte): (s: bit)
    ensures v as int == 2 * (v as int / 2) + s as int
  {
    (v as int % 2) as bit
  }

  /** The `sw_type:1` member: the same bit as the status. */
  function TypeOf(v: byte): (t: bit)
    ensures t == StatusOf(v)
  {
    (v as int % 2) as bit
  }

  /** The `sw_hold_duration:6` member: the low six bits. */
  function HoldOf(v: byte): (h: nat)
    ensures h < 64 && v as int == 64 * (v as int / 64) + h
    ensures h % 2 == StatusOf(v) as int
  {
    v as int % 64
  }

  /** Assigning the `sw_status:1` member: bit 0 becomes `s`, the other
      seven bits keep their value. */
  function WithStatus(v: byte, s: bit): (r: byte)
    ensures StatusOf(r) == s
    ensures r as int / 2 == v as int / 2
  {
    (v as int - v as int % 2 + s as int) as byte
  }

  /** `sw_status ^= 0x1`: bit 0 inverted, the others kept. */
  function Flipped(v: byte): (r: byte)
    ensures StatusOf(r) == 1 - StatusOf(v)
    ensures r as int / 2 == v as int / 2
  {
    WithStatus(v, 1 - StatusOf(v))
  }

  /** A byte is determined by its status bit and its other seven bits. */
  lemma SameHighBitsAndStatus(a: byte, b: byte)
    requires a as int / 2 == b as int / 2 && StatusOf(a) == StatusOf(b)
    ensures a == b
  {
    assert a as int == 2 * (a as int / 2) + StatusOf(a) as int;
    assert b as int == 2 * (b as int / 2) + StatusOf(b) as int;
  }

  /** Writing the same status twice is writing it once. */
  lemma WithStatusIdempotent(v: byte, s: bit)
    ensures WithStatus(WithStatus(v, s), s) == WithStatus(v, s)
  {
    SameHighBitsAndStatus(WithStatus(WithStatus(v, s), s), WithStatus(v, s));
  }

  /** Writing the status a word already has leaves the word unchanged. */
  lemma WithOwnStatus(v: byte)
    ensures WithStatus(v, StatusOf(v)) == v
  {
    SameHighBitsAndStatus(WithStatus(v, StatusOf(v)), v);
  }

  /** Two toggles restore the word. */
  lemma FlippedTwice(v: byte)
    ensures Flipped(Flipped(v)) == v
  {
    SameHighBitsAndStatus(Flipped(Flipped(v)), v);
  }

  /** The consequence of the union layout: a switch is of type LIMIT
      exactly when it is ON, and a LIMIT switch always has a nonzero
      (odd) hold duration. */
  lemma UnionAliasing(v: byte)
    ensures TypeOf(v) == Limit <==> StatusOf(v) == 1
    ensures TypeOf(v) == Limit ==> HoldOf(v) % 2 == 1 && HoldOf(v) != 0
  {
  }

  /** Two `set_status` calls with the same status leave the words as one does. */
  lemma SetStatusIdempotent(words: seq<byte>, i: nat, s: bit)
    requires i < |words|
    ensures var once := words[i := WithStatus(words[i], s)];
            once[i := WithStatus(once[i], s)] == once
  {
    WithStatusIdempotent(words[i], s);
  }

  // ---------------------------------------------------------------------
  // The persisted words

  /** The word `init` loads for switch `n` from its `CFG_SW_n` entry. */
  function Persisted(m: map<string, Cfg.Value>, n: nat): (w: byte)
    requires Cfg.ValidStore(m) && n < SwitchCount
    ensures Cfg.Lookup(m, Cfg.CfgSw1 + n) == Cfg.Num(w as nat)
  {
    Cfg.SwitchLookup(m, Cfg.CfgSw1 + n);
    Cfg.Lookup(m, Cfg.CfgSw1 + n).n as byte
  }

  /** A switch whose entry was never written starts off, TOGGLING, with
      no hold duration. */
  lemma PersistedDefault(m: map<string, Cfg.Value>, n: nat)
    requires Cfg.ValidStore(m) && n < SwitchCount
    requires Cfg.NameOf(Cfg.CfgSw1 + n) !in m
    ensures Persisted(m, n) == 0
    ensures StatusOf(Persisted(m, n)) == 0 && TypeOf(Persisted(m, n)) == Toggling && HoldOf(Persisted(m, n)) == 0
  {
    Cfg.SwitchLookup(m, Cfg.CfgSw1 + n);
  }

  // ---------------------------------------------------------------------
  // The switch contexts

  /** One call of `gpio_set_level`. */
  datatype GpioWrite = GpioWrite(pin: nat, level: bit)

  function BitOf(b: bool): bit { if b then 1 else 0 }

  /** The table `sw_context[3]`: the configuration words, the levels last
      driven onto the pins, and (ghost) every GPIO write in order. Each
      call is modelled as one atomic step, which the source does not
      guarantee for `chg_sta` and `hold_switch` (see the README). */
  class Switches {
    var conf: array<byte>
    var level: array<bit>
    ghost var trace: seq<GpioWrite>

    ghost predicate Shape()
      reads this
    {
      conf.Length == SwitchCount && level.Length == SwitchCount
    }

    /** The pin of switch `i` carries the status bit of its word. */
    ghost predicate Synced(i: nat)
      reads this, conf, level
      requires Shape() && i < SwitchCount
    {
      level[i] == StatusOf(conf[i])
    }

    /** Every pin except that of switch `k` carries the status bit of its word. */
    ghost predicate SyncedExcept(k: int)
      reads this, conf, level
      requires Shape()
    {
      (k == 0 || Synced(0)) && (k == 1 || Synced(1)) && (k == 2 || Synced(2))
    }

    /** Every pin carries the status bit of its word. */
    ghost predicate Valid()
      reads this, conf, level
    {
      Shape() && SyncedExcept(-1)
    }

    /** The static initialiser: every word is 0 (and every pin low). */
    constructor ()
      ensures Valid() && fresh(conf) && fresh(level)
      ensures conf[..] == [0, 0, 0] && level[..] == [0, 0, 0] && trace == []
    {
      conf := new byte[3] (_ => 0);
      level := new bit[3] (_ => 0);
      trace := [];
    }

    /** `switch_adapter_set_status`: drives the pin and records the status.
        It brings the pin and the word of switch `idx` in line, which
        `init` relies on: it calls it right after loading the words. */
    method SetStatus(idx: nat, status: bit) returns (err: EspErr)
      requires Shape()
      modifies this, conf, level
      ensures Shape() && conf == old(conf) && level == old(level)
      ensures old(SyncedExcept(idx)) ==> Valid()
      ensures idx >= SwitchCount ==>
        && err == NotSupported
        && conf[..] == old(conf[..]) && level[..] == old(level[..]) && trace == old(trace)
      ensures idx < SwitchCount ==>
        && err == Ok
        && level[..] == old(level[..])[idx := status]
        && conf[..] == old(conf[..])[idx := WithStatus(old(conf[idx]), status)]
        && trace == old(trace) + [GpioWrite(Pins[idx], status)]
    {
      if idx >= SwitchCount {
        return NotSupported;
      }
      level[idx] := status;
      trace := trace + [GpioWrite(Pins[idx], status)];
      conf[idx] := WithStatus(conf[idx], status);
      err := Ok;
    }

    /** `switch_adapter_sw_toggling`: inverts the status and drives the
        pin to the new value. */
    method Toggle(idx: nat) returns (err: EspErr)
      requires Valid()
      modifies this, conf, level
      ensures Valid() && conf == old(conf) && level == old(level)
      ensures idx >= SwitchCount ==>
        && err == NotSupported
        && conf[..] == old(conf[..]) && level[..] == old(level[..]) && trace == old(trace)
      ensures idx < SwitchCount ==>
        && err == Ok
        && conf[..] == old(conf[..])[idx := Flipped(old(conf[idx]))]
        && level[..] == old(level[..])[idx := 1 - old(level[idx])]
        && trace == old(trace) + [GpioWrite(Pins[idx], 1 - old(level[idx]))]
    {
      if idx >= SwitchCount {
        return NotSupported;
      }
      conf[idx] := Flipped(conf[idx]);
      level[idx] := StatusOf(conf[idx]);
      trace := trace + [GpioWrite(Pins[idx], level[idx])];
      err := Ok;
    }

    /** `switch_adapter_hold_switch`: toggle, wait the hold duration (a
        no-op here), toggle back. The pin goes to the inverse and back and
        the word ends as it started. */
    method HoldSwitch(idx: nat)
      requires Valid() && idx < SwitchCount
      modifies this, conf, level
      ensures Valid() && conf == old(conf) && level == old(level)
      ensures conf[..] == old(conf[..]) && level[..] == old(level[..])
      ensures trace == old(trace) + [GpioWrite(Pins[idx], 1 - old(level[idx])), GpioWrite(Pins[idx], old(level[idx]))]
    {
      var _ := Toggle(idx);
      var _ := Toggle(idx);
      FlippedTwice(old(conf[idx]));
      assert conf[..] == old(conf[..]);
      assert level[..] == old(level[..]);
    }

    /** `switch_adapter_chg_sta`, the coil-write entry point. A TOGGLING
        switch latches the request; a LIMIT switch with a nonzero hold
        duration pulses on a true request and ignores a false one. The
        result is the status bit after the call. */
    method ChgSta(idx: nat, request: bool) returns (r: bool)
      requires Valid()
      modifies this, conf, level
      ensures Valid() && conf == old(conf) && level == old(level)
      ensures idx >= SwitchCount ==>
        && !r
        && conf[..] == old(conf[..]) && level[..] == old(level[..]) && trace == old(trace)
      ensures idx < SwitchCount ==> r == (StatusOf(conf[idx]) == 1)
      ensures idx < SwitchCount && TypeOf(old(conf[idx])) == Toggling ==>
        && r == request
        && level[..] == old(level[..])[idx := BitOf(request)]
        && conf[..] == old(conf[..])[idx := WithStatus(old(conf[idx]), BitOf(request))]
        && trace == old(trace) + [GpioWrite(Pins[idx], BitOf(request))]
      ensures idx < SwitchCount && TypeOf(old(conf[idx])) == Limit ==>
        && conf[..] == old(conf[..]) && level[..] == old(level[..])
        && trace == (if HoldOf(old(conf[idx])) != 0 && request
                     then old(trace) + [GpioWrite(Pins[idx], 1 - old(level[idx])), GpioWrite(Pins[idx], old(level[idx]))]
                     else old(trace))
      // Because the type and the status share bit 0, a switch that is ON
      // is read as LIMIT: no coil write turns it off.
      ensures idx < SwitchCount && StatusOf(old(conf[idx])) == 1 ==>
        r && conf[..] == old(conf[..]) && level[..] == old(level[..])
    {
      if idx >= SwitchCount {
        return false;
      }
      if TypeOf(conf[idx]) == Toggling {
        var _ := SetStatus(idx, BitOf(request));
      } else if HoldOf(conf[idx]) != 0 && request {
        HoldSwitch(idx);
      }
      r := StatusOf(conf[idx]) == 1;
    }

    /** `switch_adapter_get_status`: the status bit, which is also the
        level on the pin. */
    method GetStatus(idx: nat) returns (err: EspErr, status: bit)
      requires Valid()
      ensures idx >= SwitchCount ==> err == NotSupported
      ensures idx < SwitchCount ==> err == Ok && status == StatusOf(conf[idx]) && status == level[idx]
    {
      if idx >= SwitchCount {
        return NotSupported, 0;
      }
      err, status := Ok, StatusOf(conf[idx]);
    }

    /** `cfg_adp_get_u8_by_id(CFG_SW_n, &word)` */
    static method LoadWord(store: Cfg.ConfigStore, n: nat) returns (w: byte)
      requires store.Valid() && n < SwitchCount
      ensures w == Persisted(store.nvs, n)
    {
      var got := store.Get(Cfg.CfgSw1 + n);
      Cfg.SwitchLookup(store.nvs, Cfg.CfgSw1 + n);
      w := got.value.n as byte;
    }

    /** The first half of `switch_adapter_init`: each word is loaded from
        its `CFG_SW_n` entry; the pins are not touched yet. */
    method LoadWords(store: Cfg.ConfigStore)
      requires Shape() && store.Valid()
      modifies conf
      ensures conf[..] == [Persisted(store.nvs, 0), Persisted(store.nvs, 1), Persisted(store.nvs, 2)]
    {
      var w0 := LoadWord(store, 0);
      var w1 := LoadWord(store, 1);
      var w2 := LoadWord(store, 2);
      conf[0], conf[1], conf[2] := w0, w1, w2;
    }

    /** The second half of `switch_adapter_init`: `set_status` of each
        switch with its own status bit, which drives every pin to the
        status its word holds and leaves the words as they are. */
    method DriveLoadedStatus()
      requires Shape()
      modifies this, conf, level
      ensures Valid() && conf == old(conf) && level == old(level)
      ensures conf[..] == old(conf[..])
      ensures level[..] == [StatusOf(conf[0]), StatusOf(conf[1]), StatusOf(conf[2])]
      ensures trace == old(trace) + [GpioWrite(Pins[0], level[0]), GpioWrite(Pins[1], level[1]), GpioWrite(Pins[2], level[2])]
    {
      ghost var words, t0 := conf[..], trace;
      WithOwnStatus(words[0]);
      WithOwnStatus(words[1]);
      WithOwnStatus(words[2]);
      var _ := SetStatus(0, StatusOf(conf[0]));
      ghost var t1 := trace;
      assert conf[..] == words && t1 == t0 + [GpioWrite(Pins[0], level[0])];
      var _ := SetStatus(1, StatusOf(conf[1]));
      ghost var t2 := trace;
      assert conf[..] == words && level[0] == StatusOf(words[0]) && t2 == t1 + [GpioWrite(Pins[1], level[1])];
      var _ := SetStatus(2, StatusOf(conf[2]));
      assert conf[..] == words && level[0] == StatusOf(words[0]) && level[1] == StatusOf(words[1]);
      assert trace == t2 + [GpioWrite(Pins[2], level[2])];
    }

    /** `switch_adapter_init`: loads each word from its `CFG_SW_n` entry,
        then drives each pin to the loaded status. */
    method Init(store: Cfg.ConfigStore)
      requires Valid() && store.Valid()
      modifies this, conf, level
      ensures Valid() && conf == old(conf) && level == old(level)
      ensures conf[..] == [Persisted(store.nvs, 0), Persisted(store.nvs, 1), Persisted(store.nvs, 2)]
      ensures level[..] == [StatusOf(conf[0]), StatusOf(conf[1]), StatusOf(conf[2])]
      ensures trace == old(trace) + [GpioWrite(Pins[0], level[0]), GpioWrite(Pins[1], level[1]), GpioWrite(Pins[2], level[2])]
    {
      LoadWords(store);
      DriveLoadedStatus();
    }
  }
}
