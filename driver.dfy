/** The driver's mutable objects: the per-device record, whose fields the attribute stores
    and the event classifier update in place, and the HID device that owns it. Each method
    is tied to the value-level function of module K90State that gives its effect. */
module K90Driver {
  import opened Wrappers
  import opened K90Text
  import opened K90State

  /** `struct k90_drvdata`. */
  class DrvData {
    var brightness: int
    var currentProfile: int
    var macroMode: int
    var macroRecord: int
    var metaLocked: int

    /** The record's fields as a value. */
    function Snapshot(): (s: State)
      reads this
      ensures s.brightness == brightness && s.currentProfile == currentProfile
      ensures s.macroMode == macroMode && s.macroRecord == macroRecord && s.metaLocked == metaLocked
    {
      State(brightness, currentProfile, macroMode, macroRecord, metaLocked)
    }

    /** A zero-filled record, as `kzalloc` returns it. */
    constructor ()
      ensures Snapshot() == State(0, 0, 0, 0, 0)
    {
      brightness, currentProfile, macroMode, macroRecord, metaLocked := 0, 0, 0, 0, 0;
    }

    /** Write `buf` (`count` bytes) to the brightness file; the hardware answers `hw` to the
        request, which is sent only for a valid value. */
    method StoreBrightness(buf: string, count: nat, hw: int) returns (ret: int, sent: Option<Command>)
      modifies this
      ensures StoreOutcome(ret, sent, Snapshot()) == K90State.StoreBrightness(old(Snapshot()), buf, count, hw)
    {
      var parsed := ParseInt(buf);
      if parsed.None? {
        return -EINVAL, None;
      }
      var b := parsed.value;
      if b < 0 || b > 3 {
        return -EINVAL, None;
      }
      sent := Some(Command(K90_REQUEST_BRIGHTNESS, b));
      if hw != 0 {
        return hw, sent;
      }
      brightness := b;
      ret := count;
    }

    method StoreMacroMode(buf: string, count: nat, hw: int) returns (ret: int, sent: Option<Command>)
      modifies this
      ensures StoreOutcome(ret, sent, Snapshot()) == K90State.StoreMacroMode(old(Snapshot()), buf, count, hw)
    {
      var value: nat;
      if HasPrefix(buf, "SW") {
        value := K90_MACRO_MODE_SW;
      } else if HasPrefix(buf, "HW") {
        value := K90_MACRO_MODE_HW;
      } else {
        return -EINVAL, None;
      }
      sent := Some(Command(K90_REQUEST_MACRO_MODE, value));
      if hw != 0 {
        return hw, sent;
      }
      macroMode := if value == K90_MACRO_MODE_HW then 1 else 0;
      ret := count;
    }

    method StoreMacroRecord(buf: string, count: nat, hw: int) returns (ret: int, sent: Option<Command>)
      modifies this
      ensures StoreOutcome(ret, sent, Snapshot()) == K90State.StoreMacroRecord(old(Snapshot()), buf, count, hw)
    {
      var value: nat;
      if HasPrefix(buf, "ON") {
        value := K90_MACRO_LED_ON;
      } else if HasPrefix(buf, "OFF") {
        value := K90_MACRO_LED_OFF;
      } else {
        return -EINVAL, None;
      }
      sent := Some(Command(K90_REQUEST_MACRO_MODE, value));
      if hw != 0 {
        return hw, sent;
      }
      macroRecord := if value == K90_MACRO_LED_ON then 1 else 0;
      ret := count;
    }

    method StoreCurrentProfile(buf: string, count: nat, hw: int) returns (ret: int, sent: Option<Command>)
      modifies this
      ensures StoreOutcome(ret, sent, Snapshot()) == K90State.StoreCurrentProfile(old(Snapshot()), buf, count, hw)
    {
      var parsed := ParseInt(buf);
      if parsed.None? {
        return -EINVAL, None;
      }
      var p := parsed.value;
      if p < 1 || p > 3 {
        return -EINVAL, None;
      }
      sent := Some(Command(K90_REQUEST_PROFILE, p));
      if hw != 0 {
        return hw, sent;
      }
      currentProfile := p;
      ret := count;
    }
  }

  /** A HID device the driver is bound to: one interface of the keyboard, and the record it
      holds as driver data (none on interfaces other than 0). */
  class HidDevice {
    const interfaceNumber: nat
    var drvdata: DrvData?

    /** The record the device holds, as a value; the shows of K90State read this. */
    function Record(): (r: Option<State>)
      reads this, drvdata
      ensures r.None? <==> drvdata == null
    {
      if drvdata == null then None else Some(drvdata.Snapshot())
    }

    /** A device as the HID core hands it to probe: without driver data. */
    constructor (interfaceNumber: nat)
      ensures this.interfaceNumber == interfaceNumber && drvdata == null
    {
      this.interfaceNumber := interfaceNumber;
      drvdata := null;
    }

    /** Attach-time set-up: `allocOk` says whether allocating the record succeeds, the status
        query answers `statusRet` and fills `data`, creating the attribute files answers
        `sysfsRet`. Returns the attach result and the query it sent. */
    method InitSpecialFunctions(allocOk: bool, statusRet: int, data: seq<uint8>, sysfsRet: int)
      returns (ret: int, query: Option<Command>)
      requires |data| == STATUS_LENGTH
      requires drvdata == null
      modifies this
      ensures InitOutcome(ret, query, Record())
        == K90State.InitSpecialFunctions(interfaceNumber, allocOk, statusRet, data, sysfsRet)
      ensures drvdata != null ==> fresh(drvdata)
    {
      if interfaceNumber == 0 {
        if !allocOk {
          return -ENOMEM, None;
        }
        var d := new DrvData();
        query := Some(Command(K90_REQUEST_STATUS, 0));
        if statusRet < 0 {
          d.brightness := 0;
          d.currentProfile := 1;
        } else {
          d.brightness := SignedChar(data[4]);
          d.currentProfile := SignedChar(data[7]);
        }
        drvdata := d;
        if sysfsRet != 0 {
          drvdata := null;
          return sysfsRet, query;
        }
        ret := 0;
      } else {
        drvdata := null;
        ret, query := 0, None;
      }
    }

    /** The event classifier for one changed field with `usage`: always returns 0. */
    method Event(usage: nat) returns (ret: int)
      modifies drvdata
      ensures ret == 0
      ensures Record() == OnEvent(old(Record()), usage)
    {
      ret := 0;
      if drvdata == null {
        return;
      }
      if usage == K90_USAGE_MACRO_RECORD_START {
        drvdata.macroRecord := 1;
      } else if usage == K90_USAGE_MACRO_RECORD_STOP {
        drvdata.macroRecord := 0;
      } else if K90_USAGE_PROFILE <= usage <= K90_USAGE_PROFILE_MAX {
        drvdata.currentProfile := usage - K90_USAGE_PROFILE + 1;
      } else if usage == K90_USAGE_META_OFF {
        drvdata.metaLocked := 0;
      } else if usage == K90_USAGE_META_ON {
        drvdata.metaLocked := 0;
      } else if K90_USAGE_LIGHT <= usage <= K90_USAGE_LIGHT_MAX {
        drvdata.brightness := usage - K90_USAGE_LIGHT;
      }
    }
  }
}
