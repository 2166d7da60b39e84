# Corsair Vengeance K90 HID driver — verified model

A Dafny model of the logic at the heart of `hid-corsair-k90.c`, the Linux HID driver for
the Corsair Vengeance K90 keyboard:

- the **usage mapper** (`k90_usage_to_gkey`, the 18-entry G-key table and the decision of
  `k90_input_mapping`: remap a G-key, suppress a special-function usage, or leave the usage
  to default handling);
- the **event classifier** (`k90_event`), which mirrors in the per-device record what the
  keyboard reports: macro recording started or stopped, profile M1..M3 selected, meta lock,
  backlight level;
- the four **attribute files** (`brightness`, `macro_mode`, `macro_record`,
  `current_profile`): each store validates its text, sends one vendor control request and
  commits the new value only when the hardware answers 0; each show renders the field or
  fails with `-ENOSYS` when the device has no record;
- **attach-time set-up** (`k90_init_special_functions`), which creates the record only on
  interface 0, fills it from bytes 4 and 7 of the 8-byte status reply, or with the defaults
  brightness 0 and profile 1 when the status query fails.

Layout:

- `wrappers.dfy` — `Option`.
- `text.dfy` (module `K90Text`) — `kstrtoint` in base 10 and the `"%d"` conversion, with the
  round trip between them.
- `usage.dfy` (module `K90Usage`) — the mapper and the input-mapping decision.
- `state.dfy` (module `K90State`) — the record as a value (`State`), the effect of every
  entry point on it as a function, and the lemmas that state what the driver promises.
- `driver.dfy` (module `K90Driver`) — the mutable objects: `DrvData` (the record; its store
  methods update its fields in place) and `HidDevice` (owns the record; set-up and the event
  classifier). Each method's postcondition equates its outcome and the new fields with the
  corresponding function of `K90State` applied to the old fields.

The hardware is not called: every answer of `usb_control_msg` is a parameter (`hw` for the
stores; `statusRet` and the reply bytes `data` for the status query), and each store returns
the command (request number and value) it would have sent, or `None` when it sends nothing.
Allocation failure and failure to create the attribute files are parameters of set-up too.

Notes on the code as modelled:

- Usages 0xd0..0xdf are G1..G16 (the comment at hid-corsair-k90.c:31), and 0xe8 and 0xe9
  are G17 and G18.
- The meta-on usage 0xf5 clears `meta_locked`, exactly like meta-off 0xf4.
- Set-up stores bytes 4 and 7 of the reply without a range check, so a record need not be
  `WellFormed` at first; every later entry point preserves `WellFormed`.

## Model

| member | source | states |
|---|---|---|
| K90Usage.UsageToGkey | hid-corsair-k90.c:30-40 | the result is at most 18; when nonzero it is the one G-key whose usage code (`GkeyUsage`: G1..G16 at 0xd0..0xdf, G17..G18 at 0xe8..0xe9) is the argument; every G-key's usage maps to that G-key, everything else to 0 |
| K90Usage.GkeyUsage | hid-corsair-k90.c:31-37 | the usage code of each G-key lies in one of the two G-key ranges |
| K90Usage.DefaultGkeyMapIsGkeyMap | hid-corsair-k90.c:42-61 | the default table has 18 16-bit entries, G12 sends F24 and G18 sends BTN_MISC+5 |
| K90Usage.GkeysAreNotSpecial | hid-corsair-k90.c:64-65 | no G-key lies in the special range 0xf0..0xff |
| K90Usage.InputMapping | hid-corsair-k90.c:388-402 | a usage is remapped exactly when some G-key reports it, and then to that G-key's table entry (index G-1, always in bounds); it is suppressed exactly when it is in 0xf0..0xff; otherwise it is left to default handling |
| K90Usage.ReturnCode | hid-corsair-k90.c:393-401 | the hook returns 1 exactly for a remap, -1 exactly for a suppressed usage, 0 exactly for default handling |
| K90Usage.RemapUsesTableEntry | hid-corsair-k90.c:394 | a remapped usage is bound to an entry of the table, which is a 16-bit code |
| K90Text.ParseInt | hid-corsair-k90.c:118-120 | `kstrtoint` base 10: an accepted string starts with a digit or a sign, and its value fits in a C `int` |
| K90Text.FormatInt | hid-corsair-k90.c:106 | `"%d"`: a minus sign exactly for negative numbers, followed by digits only |
| K90Text.ParseFormat | hid-corsair-k90.c:118 | what `"%d"` renders of an `int`, with or without a trailing newline, `kstrtoint` reads back as the same number |
| K90Text.ParseFormatLine | hid-corsair-k90.c:106 | every `int` the shows render as a line reads back as itself |
| K90Text.ParseSound | hid-corsair-k90.c:235-237 | an accepted text is an optional sign, one or more digits and an optional newline, nothing else; the digits denote the magnitude of the value, which is negative only after a minus sign |
| K90Text.ParseComplete | hid-corsair-k90.c:118-120 | every text made of an optional sign, one or more digits (leading zeros allowed) and an optional newline whose value fits in an `int` is accepted with that value |
| K90State.Event | hid-corsair-k90.c:357-383 | an event never changes macro_mode, leaves the record unchanged for every usage without a case, and keeps brightness in 0..3, the profile in 1..3 and the flags in 0..1 (the full table is `EventTable`) |
| K90State.OnEvent | hid-corsair-k90.c:352-355 | without a record the classifier produces no record, with one it keeps one |
| K90State.EventTable | hid-corsair-k90.c:357-383 | 0xf6 sets macro_record to 1 and 0xf7 to 0; 0xf1..0xf3 set current_profile to 1..3; 0xf4 and 0xf5 both set meta_locked to 0; 0xfa..0xfd set brightness to 0..3; each changes only that field; every other usage changes nothing |
| K90State.EventOnlyOnSuppressedUsages | hid-corsair-k90.c:397-400 | every usage the classifier has a case for is one the input-mapping hook suppresses |
| K90State.EventIdempotent | hid-corsair-k90.c:357-383 | delivering a usage twice has the effect of delivering it once |
| K90State.EventScenarios | hid-corsair-k90.c:358-379 | record start then stop leaves macro_record 0; M2 selects profile 2; light-bright selects brightness 3 |
| K90State.HasPrefix | hid-corsair-k90.c:155-158 | `strncmp(buf, prefix, n) == 0` holds exactly when `buf` is at least as long as the prefix and agrees with it character by character |
| K90State.StoreBrightness | hid-corsair-k90.c:109-134 | nothing sent means -EINVAL and no change; a sent request is 49 with the parsed value, in 0..3; the record changes only on hardware answer 0, then only in brightness, and count is returned (the commit-on-zero branch at 125-133 is the helper `Commit`) |
| K90State.StoreMacroMode | hid-corsair-k90.c:146-174 | nothing sent means -EINVAL, no change, and a text starting with neither "SW" nor "HW"; a sent request is 2 with 0x0030 or 0x0001; the record changes only on answer 0, then only macro_mode, to 1 exactly for 0x0001, and count is returned (the `strncmp` chain at 155-163 is the helper `MacroModeValue`, the commit-on-zero branch `Commit`) |
| K90State.StoreMacroRecord | hid-corsair-k90.c:186-214 | nothing sent means -EINVAL, no change, and a text starting with neither "ON" nor "OFF"; a sent request is 2 with 0x0020 or 0x0040; the record changes only on answer 0, then only macro_record, to 1 exactly for 0x0020, and count is returned (the `strncmp` chain at 195-203 is the helper `MacroRecordValue`, the commit-on-zero branch `Commit`) |
| K90State.StoreCurrentProfile | hid-corsair-k90.c:226-251 | nothing sent means -EINVAL and no change; a sent request is 20 with the parsed value, in 1..3; the record changes only on hardware answer 0, then only current_profile, and count is returned (the commit-on-zero branch at 242-248 is the helper `Commit`) |
| K90State.StoreBrightnessContract | hid-corsair-k90.c:109-134 | a request is sent exactly when the text parses to 0..3, otherwise -EINVAL with no change; the request is 49 with that value; a nonzero hardware answer is returned and the record kept; answer 0 stores the value and returns count |
| K90State.StoreMacroModeContract | hid-corsair-k90.c:146-174 | a request is sent exactly when the text starts with "SW" or "HW", otherwise -EINVAL with no change; request 2 carries 0x0030 for "SW" and 0x0001 for "HW"; a nonzero answer is returned and the record kept; answer 0 sets macro_mode to 1 exactly for "HW" and returns count |
| K90State.StoreMacroRecordContract | hid-corsair-k90.c:186-214 | a request is sent exactly when the text starts with "ON" or "OFF", otherwise -EINVAL with no change; request 2 carries 0x0020 for "ON" and 0x0040 for "OFF"; a nonzero answer is returned and the record kept; answer 0 sets macro_record to 1 exactly for "ON" and returns count |
| K90State.StoreCurrentProfileContract | hid-corsair-k90.c:226-251 | a request is sent exactly when the text parses to 1..3, otherwise -EINVAL with no change; the request is 20 with that value; a nonzero answer is returned and the record kept; answer 0 stores the value and returns count |
| K90State.StoreCommitsOnlyOnSuccess | hid-corsair-k90.c:125-133 | in every store: nothing sent means -EINVAL and no change; a nonzero hardware answer is returned with no change; answer 0 returns count; fields other than the attribute's own never change |
| K90State.StorePreservesWellFormed | hid-corsair-k90.c:121-123 | no store takes a field out of its range |
| K90State.StoreRequests | hid-corsair-k90.c:88-97 | brightness sends request 49, profile request 20, macro mode and macro record both request 2, with the two distinct pairs of 16-bit values |
| K90State.ShowBrightness | hid-corsair-k90.c:99-107 | -ENOSYS exactly without a record; otherwise a newline-terminated line whose length is returned and which `kstrtoint` reads back as the brightness |
| K90State.ShowMacroMode | hid-corsair-k90.c:136-144 | -ENOSYS exactly without a record; otherwise a newline-terminated line whose length is returned and which, written back, selects the hardware-mode code exactly when macro_mode is nonzero |
| K90State.ShowMacroRecord | hid-corsair-k90.c:176-184 | -ENOSYS exactly without a record; otherwise a newline-terminated line whose length is returned and which, written back, selects the LED-on code exactly when macro_record is nonzero |
| K90State.ShowCurrentProfile | hid-corsair-k90.c:216-224 | -ENOSYS exactly without a record; otherwise a newline-terminated line whose length is returned and which `kstrtoint` reads back as the profile |
| K90State.ShowFailsExactlyWithoutRecord | hid-corsair-k90.c:99-107 | every show returns -ENOSYS, writing nothing, exactly when there is no record; otherwise it returns the length of the newline-terminated line it wrote |
| K90State.StoreThenShow | hid-corsair-k90.c:253-256 | after a successful store, the show of the same file reads back as the number written, or shows the token the written text starts with |
| K90State.ShowThenStore | hid-corsair-k90.c:253-256 | writing back what a show rendered is accepted, sends the current value for the numeric files, and leaves a well-formed record unchanged |
| K90State.SignedChar | hid-corsair-k90.c:275 | a reply byte read through a signed `char` is in -128..127 and equal to the byte modulo 256, and equal to it below 0x80 |
| K90State.InitSpecialFunctions | hid-corsair-k90.c:270-309 | a record exists exactly on interface 0 when allocation and attribute-file creation succeed; a nonzero result means no record; a record comes with the status query (request 4) sent, all three flags 0, and is well-formed when the query failed; when creating the attribute files fails, the record is dropped and that error is returned |
| K90State.InitRecordOnlyOnInterfaceZero | hid-corsair-k90.c:277-306 | a record exists exactly on interface 0 when allocation and attribute-file creation succeed, and then set-up returns 0; other interfaces return 0 with no record and no query; allocation failure returns -ENOMEM; on interface 0 the status query is request 4; after it, a failure to create the attribute files is returned as is, and success returns 0 |
| K90State.InitContents | hid-corsair-k90.c:284-295 | a failed status query still attaches, with brightness 0 and profile 1; a successful one stores bytes 4 and 7; the three flags start at 0 |
| K90State.InitWellFormed | hid-corsair-k90.c:289-294 | the initial record is well-formed when the query failed or reported in-range bytes |
| K90State.InitNegativeBrightness | hid-corsair-k90.c:293 | a reply byte 4 above 0x7f gives a negative brightness, as no range check is made |
| K90Driver.DrvData.Snapshot | hid-corsair-k90.c:20-26 | the record's five fields as a value |
| K90Driver.DrvData.constructor | hid-corsair-k90.c:278 | a new record has every field 0 |
| K90Driver.DrvData.StoreBrightness | hid-corsair-k90.c:109-134 | return value, command sent and new fields are those of `K90State.StoreBrightness` on the old fields |
| K90Driver.DrvData.StoreMacroMode | hid-corsair-k90.c:146-174 | return value, command sent and new fields are those of `K90State.StoreMacroMode` on the old fields |
| K90Driver.DrvData.StoreMacroRecord | hid-corsair-k90.c:186-214 | return value, command sent and new fields are those of `K90State.StoreMacroRecord` on the old fields |
| K90Driver.DrvData.StoreCurrentProfile | hid-corsair-k90.c:226-251 | return value, command sent and new fields are those of `K90State.StoreCurrentProfile` on the old fields |
| K90Driver.HidDevice.Record | hid-corsair-k90.c:352-355 | the device has no record value exactly when its driver data is NULL |
| K90Driver.HidDevice.constructor | hid-corsair-k90.c:321-334 | a device reaches set-up without driver data |
| K90Driver.HidDevice.InitSpecialFunctions | hid-corsair-k90.c:270-309 | return value, query sent and the device's record are those of `K90State.InitSpecialFunctions`; a record it creates is new |
| K90Driver.HidDevice.Event | hid-corsair-k90.c:349-386 | returns 0, and the device's record afterwards is `K90State.OnEvent` of the record before |

## Left out

- `usb_control_msg`: the transfer itself, the pipe, the request-type bits, the index, data
  length and timeout are not modelled; its answer is a parameter and the request number and
  value are recorded.
- `kstrtoint` and `snprintf` are kernel library code; `K90Text` models only their base-10
  behaviour as the driver uses it (`ParseInt`, `FormatInt`). The truncation of `snprintf` at
  `PAGE_SIZE` cannot arise for these short lines and is not modelled.
- The character buffers of the attribute files are modelled as their characters before the
  terminating NUL; `count` is a separate parameter, and its conversion from `size_t` to
  `ssize_t` is not modelled.
- `hid_map_usage_clear` (binding the key code to the usage) and the `HID_USAGE` mask: the
  mapper takes the masked usage and returns the key code instead of binding it.
- The `gkey_codes` module parameter is modelled as the table argument of `InputMapping`.
- `K90State.SignedChar`: the status reply is read into a plain `char` array; the model takes
  `char` to be signed, which holds for kernels before 6.2 on x86. Kernels from 6.2 on are
  built with `-funsigned-char` on every architecture, and there the byte is stored as it is
  (so `InitNegativeBrightness` does not apply to them).
- A short status reply (fewer than 8 bytes, not an error) leaves part of the buffer as it
  was; the model takes whatever 8 bytes it is given.
- The stores dereference the record without checking it; they are methods of the record,
  which exists whenever the attribute files do.
- K90Driver.HidDevice.InitSpecialFunctions: requires the device to have no driver data yet, as
  at probe time, because the allocation-failure path leaves the driver data untouched.
- `printk` warnings, attribute-group creation and removal, `k90_cleanup_special_functions`,
  `kfree`, `k90_probe`, `k90_remove`, `hid_parse`, `hid_hw_start`/`hid_hw_stop`,
  `module_init`/`module_exit` and the device-ID table are OS resource management with no
  logic of their own beyond passing error codes on.
- Concurrency between event delivery and attribute access: the driver relies on the kernel
  to serialise them and has no logic of its own for it.
