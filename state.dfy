/** The per-device state of the driver as a value, with the effect of each entry point on it:
    the event classifier, the four attribute stores and shows, and attach-time set-up.
    The classes of module K90Driver update their fields exactly as these functions say. */
module K90State {
  import opened Wrappers
  import opened K90Text
  import opened K90Usage

  /** Linux error numbers the driver returns, negated, on failure. */
  const ENOMEM: int := 12
  const EINVAL: int := 22
  const ENOSYS: int := 38

  /** Special-function usages the event classifier reacts to. */
  const K90_USAGE_MACRO_RECORD_START: nat := 0xf6
  const K90_USAGE_MACRO_RECORD_STOP: nat := 0xf7
  const K90_USAGE_PROFILE: nat := 0xf1
  const K90_USAGE_PROFILE_MAX: nat := 0xf3
  const K90_USAGE_META_OFF: nat := 0xf4
  const K90_USAGE_META_ON: nat := 0xf5
  const K90_USAGE_LIGHT: nat := 0xfa
  const K90_USAGE_LIGHT_MAX: nat := 0xfd

  /** Vendor control requests and the 16-bit values the macro requests carry. */
  const K90_REQUEST_BRIGHTNESS: nat := 49
  const K90_REQUEST_MACRO_MODE: nat := 2
  const K90_REQUEST_STATUS: nat := 4
  const K90_REQUEST_PROFILE: nat := 20
  const K90_MACRO_MODE_SW: nat := 0x0030
  const K90_MACRO_MODE_HW: nat := 0x0001
  const K90_MACRO_LED_ON: nat := 0x0020
  const K90_MACRO_LED_OFF: nat := 0x0040

  /** `struct k90_drvdata`: five C `int` fields. */
  datatype State = State(brightness: int, currentProfile: int, macroMode: int, macroRecord: int, metaLocked: int)

  /** The fields of the record; all but `MetaLocked` have an attribute file. */
  datatype Field = Brightness | CurrentProfile | MacroMode | MacroRecord | MetaLocked
  type Attribute = f: Field | f != MetaLocked witness Brightness

  function Get(s: State, f: Field): int {
    match f
    case Brightness => s.brightness
    case CurrentProfile => s.currentProfile
    case MacroMode => s.macroMode
    case MacroRecord => s.macroRecord
    case MetaLocked => s.metaLocked
  }

  function With(s: State, f: Field, v: int): (t: State)
    ensures Get(t, f) == v
    ensures forall g :: g != f ==> Get(t, g) == Get(s, g)
  {
    match f
    case Brightness => s.(brightness := v)
    case CurrentProfile => s.(currentProfile := v)
    case MacroMode => s.(macroMode := v)
    case MacroRecord => s.(macroRecord := v)
    case MetaLocked => s.(metaLocked := v)
  }

  /** The ranges the fields are meant to keep: brightness 0..3, profile 1..3, flags 0 or 1.
      Attach-time set-up does not check the bytes the keyboard reports, so a record need not
      start out like this; every other entry point keeps it. */
  predicate WellFormed(s: State) {
    && 0 <= s.brightness <= 3
    && 1 <= s.currentProfile <= 3
    && 0 <= s.macroMode <= 1
    && 0 <= s.macroRecord <= 1
    && 0 <= s.metaLocked <= 1
  }

  // ---------------------------------------------------------------------------------------
  // Event classifier

  /** The usages the classifier has a case for. */
  predicate IsClassified(usage: nat) {
    K90_USAGE_PROFILE <= usage <= K90_USAGE_MACRO_RECORD_STOP
    || K90_USAGE_LIGHT <= usage <= K90_USAGE_LIGHT_MAX
  }

  /** The effect of one input event with `usage` on a present record. Both meta-lock usages
      clear `metaLocked`: the driver does so, and the model keeps it. */
  function Event(s: State, usage: nat): (t: State)
    ensures t.macroMode == s.macroMode
    ensures !IsClassified(usage) ==> t == s
    ensures WellFormed(s) ==> WellFormed(t)
  {
    if usage == K90_USAGE_MACRO_RECORD_START then s.(macroRecord := 1)
    else if usage == K90_USAGE_MACRO_RECORD_STOP then s.(macroRecord := 0)
    else if K90_USAGE_PROFILE <= usage <= K90_USAGE_PROFILE_MAX then
      s.(currentProfile := usage - K90_USAGE_PROFILE + 1)
    else if usage == K90_USAGE_META_OFF then s.(metaLocked := 0)
    else if usage == K90_USAGE_META_ON then s.(metaLocked := 0)
    else if K90_USAGE_LIGHT <= usage <= K90_USAGE_LIGHT_MAX then
      s.(brightness := usage - K90_USAGE_LIGHT)
    else s
  }

  /** The classifier on a device that may have no record: without one, nothing happens. */
  function OnEvent(rec: Option<State>, usage: nat): (r: Option<State>)
    ensures r.None? <==> rec.None?
  {
    match rec
    case None => None
    case Some(s) => Some(Event(s, usage))
  }

  /** The dispatch table of the classifier: each classified usage sets one field to the
      listed value and leaves the other four alone; any other usage changes nothing. */
  lemma EventTable(s: State, usage: nat)
    ensures usage == 0xf6 ==> Event(s, usage) == With(s, MacroRecord, 1)
    ensures usage == 0xf7 ==> Event(s, usage) == With(s, MacroRecord, 0)
    ensures 0xf1 <= usage <= 0xf3 ==>
      Event(s, usage) == With(s, CurrentProfile, usage - 0xf0) && 1 <= usage - 0xf0 <= 3
    ensures usage == 0xf4 || usage == 0xf5 ==> Event(s, usage) == With(s, MetaLocked, 0)
    ensures 0xfa <= usage <= 0xfd ==>
      Event(s, usage) == With(s, Brightness, usage - 0xfa) && 0 <= usage - 0xfa <= 3
    ensures !IsClassified(usage) ==> Event(s, usage) == s
  {
  }

  /** Every usage the classifier acts on is one the input-mapping hook suppresses, so the
      input layer never also generates a key event for it. */
  lemma EventOnlyOnSuppressedUsages(gkeyMap: seq<nat>, s: State, usage: nat)
    requires |gkeyMap| == K90_GKEY_COUNT
    requires IsClassified(usage)
    ensures InputMapping(gkeyMap, usage) == Ignore
  {
  }

  /** Delivering the same usage twice has the effect of delivering it once. */
  lemma EventIdempotent(s: State, usage: nat)
    ensures Event(Event(s, usage), usage) == Event(s, usage)
  {
  }

  /** Recording starts and stops; M2 selects profile 2; light-bright selects level 3. */
  lemma EventScenarios(s: State)
    ensures Event(s, K90_USAGE_MACRO_RECORD_START).macroRecord == 1
    ensures Event(Event(s, K90_USAGE_MACRO_RECORD_START), K90_USAGE_MACRO_RECORD_STOP).macroRecord == 0
    ensures Event(s, 0xf2).currentProfile == 2
    ensures Event(s, 0xfd).brightness == 3
  {
  }

  // ---------------------------------------------------------------------------------------
  // Attribute stores

  /** A vendor control request the driver sends: its request number and its value field. */
  datatype Command = Command(request: nat, value: nat)

  /** What a store returns, the command it sent (if any) and the record afterwards. */
  datatype StoreOutcome = StoreOutcome(ret: int, sent: Option<Command>, state: State)

  function Rejected(s: State): StoreOutcome {
    StoreOutcome(-EINVAL, None, s)
  }

  /** Sends `cmd`, to which the hardware answers `hw`: on a nonzero answer the answer is
      returned and the record is kept, on zero the record becomes `next` and `count` is
      returned. */
  function Commit(s: State, cmd: Command, hw: int, count: nat, next: State): StoreOutcome {
    if hw != 0 then StoreOutcome(hw, Some(cmd), s) else StoreOutcome(count, Some(cmd), next)
  }

  /** `strncmp(buf, prefix, |prefix|) == 0`. */
  predicate HasPrefix(buf: string, prefix: string): (b: bool)
    ensures b <==> |prefix| <= |buf| && forall i :: 0 <= i < |prefix| ==> buf[i] == prefix[i]
  {
    |prefix| <= |buf| && buf[..|prefix|] == prefix
  }

  /** Writing `buf` (`count` bytes) to the brightness file; the hardware answers `hw`. */
  function StoreBrightness(s: State, buf: string, count: nat, hw: int): (o: StoreOutcome)
    ensures o.sent.None? ==> o.ret == -EINVAL && o.state == s
    ensures o.sent.Some? ==> (o.sent.value.request == K90_REQUEST_BRIGHTNESS
      && 0 <= o.sent.value.value <= 3 && ParseInt(buf) == Some(o.sent.value.value as int))
    ensures o.state != s ==>
      hw == 0 && o.ret == count && o.state == With(s, Brightness, o.sent.value.value)
  {
    match ParseInt(buf)
    case None => Rejected(s)
    case Some(b) =>
      if b < 0 || b > 3 then Rejected(s)
      else Commit(s, Command(K90_REQUEST_BRIGHTNESS, b), hw, count, s.(brightness := b))
  }

  /** The value a macro-mode write selects: "SW" is tried first, then "HW". */
  function MacroModeValue(buf: string): Option<nat> {
    if HasPrefix(buf, "SW") then Some(K90_MACRO_MODE_SW)
    else if HasPrefix(buf, "HW") then Some(K90_MACRO_MODE_HW)
    else None
  }

  function StoreMacroMode(s: State, buf: string, count: nat, hw: int): (o: StoreOutcome)
    ensures o.sent.None? ==>
      o.ret == -EINVAL && o.state == s && !HasPrefix(buf, "SW") && !HasPrefix(buf, "HW")
    ensures o.sent.Some? ==> (o.sent.value.request == K90_REQUEST_MACRO_MODE
      && o.sent.value.value in {K90_MACRO_MODE_SW, K90_MACRO_MODE_HW})
    ensures o.state != s ==> (hw == 0 && o.ret == count
      && o.state == With(s, MacroMode, if o.sent.value.value == K90_MACRO_MODE_HW then 1 else 0))
  {
    match MacroModeValue(buf)
    case None => Rejected(s)
    case Some(v) =>
      Commit(s, Command(K90_REQUEST_MACRO_MODE, v), hw, count,
             s.(macroMode := if v == K90_MACRO_MODE_HW then 1 else 0))
  }

  /** The value a macro-record write selects: "ON" is tried first, then "OFF". */
  function MacroRecordValue(buf: string): Option<nat> {
    if HasPrefix(buf, "ON") then Some(K90_MACRO_LED_ON)
    else if HasPrefix(buf, "OFF") then Some(K90_MACRO_LED_OFF)
    else None
  }

  /** Writing the macro-record file drives the record LED with the macro-mode request. */
  function StoreMacroRecord(s: State, buf: string, count: nat, hw: int): (o: StoreOutcome)
    ensures o.sent.None? ==>
      o.ret == -EINVAL && o.state == s && !HasPrefix(buf, "ON") && !HasPrefix(buf, "OFF")
    ensures o.sent.Some? ==> (o.sent.value.request == K90_REQUEST_MACRO_MODE
      && o.sent.value.value in {K90_MACRO_LED_ON, K90_MACRO_LED_OFF})
    ensures o.state != s ==> (hw == 0 && o.ret == count
      && o.state == With(s, MacroRecord, if o.sent.value.value == K90_MACRO_LED_ON then 1 else 0))
  {
    match MacroRecordValue(buf)
    case None => Rejected(s)
    case Some(v) =>
      Commit(s, Command(K90_REQUEST_MACRO_MODE, v), hw, count,
             s.(macroRecord := if v == K90_MACRO_LED_ON then 1 else 0))
  }

  function StoreCurrentProfile(s: State, buf: string, count: nat, hw: int): (o: StoreOutcome)
    ensures o.sent.None? ==> o.ret == -EINVAL && o.state == s
    ensures o.sent.Some? ==> (o.sent.value.request == K90_REQUEST_PROFILE
      && 1 <= o.sent.value.value <= 3 && ParseInt(buf) == Some(o.sent.value.value as int))
    ensures o.state != s ==>
      hw == 0 && o.ret == count && o.state == With(s, CurrentProfile, o.sent.value.value)
  {
    match ParseInt(buf)
    case None => Rejected(s)
    case Some(p) =>
      if p < 1 || p > 3 then Rejected(s)
      else Commit(s, Command(K90_REQUEST_PROFILE, p), hw, count, s.(currentProfile := p))
  }

  /** The store of each attribute file. */
  function Store(a: Attribute, s: State, buf: string, count: nat, hw: int): StoreOutcome {
    match a
    case Brightness => StoreBrightness(s, buf, count, hw)
    case MacroMode => StoreMacroMode(s, buf, count, hw)
    case MacroRecord => StoreMacroRecord(s, buf, count, hw)
    case CurrentProfile => StoreCurrentProfile(s, buf, count, hw)
  }

  /** Brightness: accepted exactly when `buf` reads as a number in 0..3; then request 49 with
      that number is sent and, if the hardware answers 0, stored. */
  lemma StoreBrightnessContract(s: State, buf: string, count: nat, hw: int)
    ensures var o := StoreBrightness(s, buf, count, hw);
      && (o.sent.Some? <==> ParseInt(buf).Some? && 0 <= ParseInt(buf).value <= 3)
      && (o.sent.None? ==> o == StoreOutcome(-EINVAL, None, s))
      && (o.sent.Some? ==> o.sent.value == Command(49, ParseInt(buf).value))
      && (o.sent.Some? && hw != 0 ==> o.ret == hw && o.state == s)
      && (o.sent.Some? && hw == 0 ==> o.ret == count && o.state == With(s, Brightness, ParseInt(buf).value))
  {
  }

  /** Profile: accepted exactly when `buf` reads as a number in 1..3; then request 20 with
      that number is sent and, if the hardware answers 0, stored. */
  lemma StoreCurrentProfileContract(s: State, buf: string, count: nat, hw: int)
    ensures var o := StoreCurrentProfile(s, buf, count, hw);
      && (o.sent.Some? <==> ParseInt(buf).Some? && 1 <= ParseInt(buf).value <= 3)
      && (o.sent.None? ==> o == StoreOutcome(-EINVAL, None, s))
      && (o.sent.Some? ==> o.sent.value == Command(20, ParseInt(buf).value))
      && (o.sent.Some? && hw != 0 ==> o.ret == hw && o.state == s)
      && (o.sent.Some? && hw == 0 ==> o.ret == count && o.state == With(s, CurrentProfile, ParseInt(buf).value))
  {
  }

  /** Macro mode: accepted exactly when `buf` starts with "SW" or "HW"; request 2 carries
      0x0030 or 0x0001, and on success the mode becomes 1 exactly for "HW". */
  lemma StoreMacroModeContract(s: State, buf: string, count: nat, hw: int)
    ensures var o := StoreMacroMode(s, buf, count, hw);
      && (o.sent.Some? <==> HasPrefix(buf, "SW") || HasPrefix(buf, "HW"))
      && (o.sent.None? ==> o == StoreOutcome(-EINVAL, None, s))
      && (HasPrefix(buf, "SW") ==> o.sent == Some(Command(2, 0x0030)))
      && (HasPrefix(buf, "HW") ==> o.sent == Some(Command(2, 0x0001)))
      && (o.sent.Some? && hw != 0 ==> o.ret == hw && o.state == s)
      && (o.sent.Some? && hw == 0 ==>
            o.ret == count && o.state == With(s, MacroMode, if HasPrefix(buf, "HW") then 1 else 0))
  {
  }

  /** Macro record: accepted exactly when `buf` starts with "ON" or "OFF"; request 2 carries
      0x0020 or 0x0040, and on success the flag becomes 1 exactly for "ON". */
  lemma StoreMacroRecordContract(s: State, buf: string, count: nat, hw: int)
    ensures var o := StoreMacroRecord(s, buf, count, hw);
      && (o.sent.Some? <==> HasPrefix(buf, "ON") || HasPrefix(buf, "OFF"))
      && (o.sent.None? ==> o == StoreOutcome(-EINVAL, None, s))
      && (HasPrefix(buf, "ON") ==> o.sent == Some(Command(2, 0x0020)))
      && (HasPrefix(buf, "OFF") ==> o.sent == Some(Command(2, 0x0040)))
      && (o.sent.Some? && hw != 0 ==> o.ret == hw && o.state == s)
      && (o.sent.Some? && hw == 0 ==>
            o.ret == count && o.state == With(s, MacroRecord, if HasPrefix(buf, "ON") then 1 else 0))
  {
    if HasPrefix(buf, "OFF") {
      assert buf[..3][1] == 'F';
      assert !HasPrefix(buf, "ON");
    }
  }

  /** In every store the record changes only when the hardware answered 0, and then only in
      the attribute's own field; a rejected write sends nothing. */
  lemma StoreCommitsOnlyOnSuccess(a: Attribute, s: State, buf: string, count: nat, hw: int)
    ensures var o := Store(a, s, buf, count, hw);
      && (o.sent.None? ==> o.ret == -EINVAL && o.state == s)
      && (o.sent.Some? && hw != 0 ==> o.ret == hw && o.state == s)
      && (o.sent.Some? && hw == 0 ==> o.ret == count)
      && (forall f :: f != a ==> Get(o.state, f) == Get(s, f))
  {
  }

  lemma StorePreservesWellFormed(a: Attribute, s: State, buf: string, count: nat, hw: int)
    requires WellFormed(s)
    ensures WellFormed(Store(a, s, buf, count, hw).state)
  {
  }

  /** The request each attribute file sends, and that the macro-mode and macro-record files
      share one request number but never one value. */
  lemma StoreRequests(a: Attribute, s: State, buf: string, count: nat, hw: int)
    requires Store(a, s, buf, count, hw).sent.Some?
    ensures var c := Store(a, s, buf, count, hw).sent.value;
      && c.request == (match a
                       case Brightness => 49
                       case CurrentProfile => 20
                       case _ => 2)
      && (a == MacroMode ==> c.value in {0x0030, 0x0001})
      && (a == MacroRecord ==> c.value in {0x0020, 0x0040})
      && c.value < 0x1_0000
  {
  }

  // ---------------------------------------------------------------------------------------
  // Attribute shows

  /** What a show returns and the text it writes into the page buffer. */
  datatype ShowOutcome = ShowOutcome(ret: int, text: string)

  /** `snprintf` returns the length of the text it wrote (always far below a page here). */
  function Rendered(text: string): ShowOutcome {
    ShowOutcome(|text|, text)
  }

  function NoRecord(): ShowOutcome {
    ShowOutcome(-ENOSYS, "")
  }

  function ShowBrightness(rec: Option<State>): (o: ShowOutcome)
    ensures o.ret == -ENOSYS <==> rec.None?
    ensures rec.Some? ==> o.ret == |o.text| && |o.text| > 0 && o.text[|o.text| - 1] == '\n'
    ensures rec.Some? && IsInt32(rec.value.brightness) ==> ParseInt(o.text) == Some(rec.value.brightness)
  {
    match rec
    case None => NoRecord()
    case Some(s) =>
      ParseFormatLine(s.brightness);
      Rendered(FormatInt(s.brightness) + "\n")
  }

  function ShowMacroMode(rec: Option<State>): (o: ShowOutcome)
    ensures o.ret == -ENOSYS <==> rec.None?
    ensures rec.Some? ==> (o.ret == |o.text| && |o.text| > 0 && o.text[|o.text| - 1] == '\n'
      && MacroModeValue(o.text)
         == Some(if rec.value.macroMode != 0 then K90_MACRO_MODE_HW else K90_MACRO_MODE_SW))
  {
    match rec
    case None => NoRecord()
    case Some(s) => Rendered((if s.macroMode != 0 then "HW" else "SW") + "\n")
  }

  function ShowMacroRecord(rec: Option<State>): (o: ShowOutcome)
    ensures o.ret == -ENOSYS <==> rec.None?
    ensures rec.Some? ==> (o.ret == |o.text| && |o.text| > 0 && o.text[|o.text| - 1] == '\n'
      && MacroRecordValue(o.text)
         == Some(if rec.value.macroRecord != 0 then K90_MACRO_LED_ON else K90_MACRO_LED_OFF))
  {
    match rec
    case None => NoRecord()
    case Some(s) =>
      var text := (if s.macroRecord != 0 then "ON" else "OFF") + "\n";
      assert s.macroRecord == 0 ==> text[1] != "ON"[1] && text[..3] == "OFF";
      Rendered(text)
  }

  function ShowCurrentProfile(rec: Option<State>): (o: ShowOutcome)
    ensures o.ret == -ENOSYS <==> rec.None?
    ensures rec.Some? ==> o.ret == |o.text| && |o.text| > 0 && o.text[|o.text| - 1] == '\n'
    ensures rec.Some? && IsInt32(rec.value.currentProfile) ==>
      ParseInt(o.text) == Some(rec.value.currentProfile)
  {
    match rec
    case None => NoRecord()
    case Some(s) =>
      ParseFormatLine(s.currentProfile);
      Rendered(FormatInt(s.currentProfile) + "\n")
  }

  /** The show of each attribute file. */
  function Show(a: Attribute, rec: Option<State>): ShowOutcome {
    match a
    case Brightness => ShowBrightness(rec)
    case MacroMode => ShowMacroMode(rec)
    case MacroRecord => ShowMacroRecord(rec)
    case CurrentProfile => ShowCurrentProfile(rec)
  }

  /** Without a record every show fails with -ENOSYS; with one, every show succeeds with a
      newline-terminated line whose length it returns. */
  lemma ShowFailsExactlyWithoutRecord(a: Attribute, rec: Option<State>)
    ensures Show(a, rec).ret == -ENOSYS <==> rec.None?
    ensures rec.None? ==> Show(a, rec).text == ""
    ensures rec.Some? ==> var o := Show(a, rec);
      o.ret == |o.text| && o.ret >= 2 && o.text[|o.text| - 1] == '\n'
  {
    if rec.Some? {
      var o := Show(a, rec);
      assert |o.text| >= 2;
    }
  }

  /** A successful store is visible in the next show: the number reads back as the number
      written, and the token shown is the one the written text starts with. */
  lemma StoreThenShow(a: Attribute, s: State, buf: string, count: nat)
    requires Store(a, s, buf, count, 0).sent.Some?
    ensures var text := Show(a, Some(Store(a, s, buf, count, 0).state)).text;
      && (a == Brightness || a == CurrentProfile ==> ParseInt(text) == ParseInt(buf))
      && (a == MacroMode || a == MacroRecord ==> HasPrefix(buf, text[..|text| - 1]))
  {
    if a == Brightness || a == CurrentProfile {
      var v := ParseInt(buf).value;
      ParseFormat(v, true);
    } else if a == MacroMode {
      var text := Show(a, Some(Store(a, s, buf, count, 0).state)).text;
      assert text[..|text| - 1] == if HasPrefix(buf, "SW") then "SW" else "HW";
    } else {
      var text := Show(a, Some(Store(a, s, buf, count, 0).state)).text;
      assert text[..|text| - 1] == if HasPrefix(buf, "ON") then "ON" else "OFF";
    }
  }

  /** Writing back what a show rendered is accepted, sends the current value again and,
      when the hardware accepts it, leaves a well-formed record as it was. */
  lemma ShowThenStore(a: Attribute, s: State, count: nat)
    requires WellFormed(s)
    ensures var o := Store(a, s, Show(a, Some(s)).text, count, 0);
      && o.ret == count && o.sent.Some? && o.state == s
      && (a == Brightness || a == CurrentProfile ==> o.sent.value.value == Get(s, a))
  {
    match a
    case Brightness => ParseFormat(s.brightness, true);
    case CurrentProfile => ParseFormat(s.currentProfile, true);
    case MacroMode =>
      var text := Show(a, Some(s)).text;
      assert text[..2] == if s.macroMode != 0 then "HW" else "SW";
    case MacroRecord =>
      var text := Show(a, Some(s)).text;
      if s.macroRecord != 0 {
        assert text[..2] == "ON";
      } else {
        assert text[1] == 'F' && text[..3] == "OFF";
      }
  }

  // ---------------------------------------------------------------------------------------
  // Attach-time set-up

  /** A byte of the status reply. */
  newtype uint8 = x: int | 0 <= x < 0x100

  const STATUS_LENGTH: nat := 8

  /** The value of a byte stored into a (signed) C `char` and read back as an `int`. */
  function SignedChar(b: uint8): (c: int)
    ensures -0x80 <= c < 0x80
    ensures (c - b as int) % 0x100 == 0
    ensures b < 0x80 ==> c == b as int
  {
    if b < 0x80 then b as int else b as int - 0x100
  }

  /** Attach outcome: the returned code, the status query sent (if any) and the record
      that now belongs to the device (if any). */
  datatype InitOutcome = InitOutcome(ret: int, query: Option<Command>, record: Option<State>)

  /** Attach-time set-up of a device on interface `interfaceNumber`: `allocOk` says whether
      the zero-filled record could be allocated, the status query answers `statusRet` with
      the 8 bytes `data`, and creating the attribute files answers `sysfsRet`. */
  function InitSpecialFunctions(interfaceNumber: nat, allocOk: bool, statusRet: int,
                                data: seq<uint8>, sysfsRet: int): (o: InitOutcome)
    requires |data| == STATUS_LENGTH
    ensures o.record.Some? <==> interfaceNumber == 0 && allocOk && sysfsRet == 0
    ensures o.ret != 0 ==> o.record.None?
    ensures o.record.Some? ==> (o.ret == 0 && o.query == Some(Command(K90_REQUEST_STATUS, 0))
      && o.record.value.macroMode == 0 && o.record.value.macroRecord == 0
      && o.record.value.metaLocked == 0)
    ensures o.record.Some? && statusRet < 0 ==> WellFormed(o.record.value)
    ensures interfaceNumber == 0 && allocOk && sysfsRet != 0 ==>
      o == InitOutcome(sysfsRet, Some(Command(K90_REQUEST_STATUS, 0)), None)
  {
    if interfaceNumber != 0 then InitOutcome(0, None, None)
    else if !allocOk then InitOutcome(-ENOMEM, None, None)
    else
      var query := Command(K90_REQUEST_STATUS, 0);
      var s := if statusRet < 0 then State(0, 1, 0, 0, 0)
               else State(SignedChar(data[4]), SignedChar(data[7]), 0, 0, 0);
      if sysfsRet != 0 then InitOutcome(sysfsRet, Some(query), None)
      else InitOutcome(0, Some(query), Some(s))
  }

  /** A record exists only on interface 0 and only when attach succeeds; other interfaces
      attach without one and without sending anything. */
  lemma InitRecordOnlyOnInterfaceZero(interfaceNumber: nat, allocOk: bool, statusRet: int,
                                      data: seq<uint8>, sysfsRet: int)
    requires |data| == STATUS_LENGTH
    ensures var o := InitSpecialFunctions(interfaceNumber, allocOk, statusRet, data, sysfsRet);
      && (o.record.Some? <==> interfaceNumber == 0 && allocOk && sysfsRet == 0)
      && (o.record.Some? ==> o.ret == 0)
      && (o.ret != 0 ==> o.record.None?)
      && (interfaceNumber != 0 ==> o == InitOutcome(0, None, None))
      && (interfaceNumber == 0 && !allocOk ==> o == InitOutcome(-ENOMEM, None, None))
      && (interfaceNumber == 0 && allocOk ==> o.query == Some(Command(4, 0)))
      && (interfaceNumber == 0 && allocOk && sysfsRet != 0 ==> o.ret == sysfsRet)
      && (interfaceNumber == 0 && allocOk && sysfsRet == 0 ==> o.ret == 0)
  {
  }

  /** A failed status query does not fail attach: the record then holds brightness 0 and
      profile 1; otherwise bytes 4 and 7 of the reply, unchecked. The flags start at 0. */
  lemma InitContents(allocOk: bool, statusRet: int, data: seq<uint8>)
    requires |data| == STATUS_LENGTH
    requires allocOk
    ensures var o := InitSpecialFunctions(0, allocOk, statusRet, data, 0);
      && o.ret == 0 && o.record.Some?
      && (statusRet < 0 ==> o.record.value.brightness == 0 && o.record.value.currentProfile == 1)
      && (statusRet >= 0 ==>
            o.record.value.brightness == SignedChar(data[4])
            && o.record.value.currentProfile == SignedChar(data[7]))
      && o.record.value.macroMode == 0 && o.record.value.macroRecord == 0
      && o.record.value.metaLocked == 0
  {
  }

  /** The record starts well-formed when the query failed or reported in-range bytes. */
  lemma InitWellFormed(allocOk: bool, statusRet: int, data: seq<uint8>)
    requires |data| == STATUS_LENGTH
    requires allocOk
    requires statusRet < 0 || (data[4] <= 3 && 1 <= data[7] <= 3)
    ensures WellFormed(InitSpecialFunctions(0, allocOk, statusRet, data, 0).record.value)
  {
  }

  /** A byte above 0x7f in the reply gives the record a negative brightness. */
  lemma InitNegativeBrightness(data: seq<uint8>)
    requires |data| == STATUS_LENGTH
    requires data[4] >= 0x80
    ensures InitSpecialFunctions(0, true, 8, data, 0).record.value.brightness < 0
  {
  }
}
