/** The usage mapper: which HID usage codes of the keyboard are G-keys, which are special
    functions the driver keeps for itself, and what the input-mapping hook decides for each.
    Usages are taken after masking with `HID_USAGE`. */
module K90Usage {

  const K90_GKEY_COUNT: nat := 18

  /** The special-function range; the driver suppresses default mapping for all of it. */
  const K90_USAGE_SPECIAL_MIN: nat := 0xf0
  const K90_USAGE_SPECIAL_MAX: nat := 0xff

  /** Key codes of the Linux input layer used by the default G-key table. */
  const KEY_F13: nat := 183
  const KEY_F24: nat := 194
  const BTN_MISC: nat := 0x100

  /** The default G-key table: G1..G12 send F13..F24, G13..G18 send BTN_MISC+0..BTN_MISC+5.
      A load-time parameter may overwrite its entries but not change its length. */
  const DefaultGkeyMap: seq<nat> := [
    KEY_F13, KEY_F13 + 1, KEY_F13 + 2, KEY_F13 + 3, KEY_F13 + 4, KEY_F13 + 5,
    KEY_F13 + 6, KEY_F13 + 7, KEY_F13 + 8, KEY_F13 + 9, KEY_F13 + 10, KEY_F24,
    BTN_MISC + 0, BTN_MISC + 1, BTN_MISC + 2, BTN_MISC + 3, BTN_MISC + 4, BTN_MISC + 5
  ]

  /** A G-key table as the `unsigned short` array of the driver: 18 entries of 16 bits. */
  predicate IsGkeyMap(m: seq<nat>) {
    |m| == K90_GKEY_COUNT && forall i :: 0 <= i < |m| ==> m[i] < 0x1_0000
  }

  lemma DefaultGkeyMapIsGkeyMap()
    ensures IsGkeyMap(DefaultGkeyMap)
    ensures DefaultGkeyMap[11] == KEY_F24 && DefaultGkeyMap[17] == BTN_MISC + 5
  {
  }

  /** The usage code G-key number `gkey` reports: G1..G16 are 0xd0..0xdf, G17 and G18 are
      0xe8 and 0xe9. This is the reference the mapper below is checked against. */
  function GkeyUsage(gkey: nat): (usage: nat)
    requires 1 <= gkey <= K90_GKEY_COUNT
    ensures 0xd0 <= usage <= 0xdf || 0xe8 <= usage <= 0xe9
  {
    if gkey <= 16 then 0xd0 + (gkey - 1) else 0xe8 + (gkey - 17)
  }

  predicate IsSpecial(usage: nat) {
    K90_USAGE_SPECIAL_MIN <= usage <= K90_USAGE_SPECIAL_MAX
  }

  /** The 1-based G-key number of `usage`, or 0 when `usage` is not a G-key: the result is
      the one G-key that reports `usage`, and it always indexes the 18-entry table. */
  function UsageToGkey(usage: nat): (gkey: nat)
    ensures gkey <= K90_GKEY_COUNT
    ensures gkey != 0 ==> GkeyUsage(gkey) == usage
    ensures forall k :: 1 <= k <= K90_GKEY_COUNT && GkeyUsage(k) == usage ==> gkey == k
  {
    if 0xd0 <= usage <= 0xdf then usage - 0xd0 + 1
    else if 0xe8 <= usage <= 0xe9 then usage - 0xe8 + 17
    else 0
  }

  /** No G-key lies in the special-function range. */
  lemma GkeysAreNotSpecial(usage: nat)
    requires IsSpecial(usage)
    ensures UsageToGkey(usage) == 0
  {
  }

  /** The three outcomes of the input-mapping hook: bind the usage to a key code, claim it
      so that no default event is generated, or leave it to default handling. */
  datatype Mapping = Remap(keycode: nat) | Ignore | Default

  /** The value the hook returns to the HID core for each outcome. */
  function ReturnCode(m: Mapping): (ret: int)
    ensures ret == 1 <==> m.Remap?
    ensures ret == -1 <==> m.Ignore?
    ensures ret == 0 <==> m.Default?
  {
    match m
    case Remap(_) => 1
    case Ignore => -1
    case Default => 0
  }

  /** The decision of the input-mapping hook for `usage` with G-key table `gkeyMap`. */
  function InputMapping(gkeyMap: seq<nat>, usage: nat): (m: Mapping)
    requires |gkeyMap| == K90_GKEY_COUNT
    ensures m.Remap? <==> exists k :: 1 <= k <= K90_GKEY_COUNT && GkeyUsage(k) == usage
    ensures forall k :: 1 <= k <= K90_GKEY_COUNT && GkeyUsage(k) == usage ==>
      m == Remap(gkeyMap[k - 1])
    ensures m.Ignore? <==> IsSpecial(usage)
  {
    var gkey := UsageToGkey(usage);
    if gkey != 0 then
      Remap(gkeyMap[gkey - 1])
    else if IsSpecial(usage) then
      Ignore
    else
      Default
  }

  /** With a table whose entries are 16-bit codes, every remapped key code is one. */
  lemma RemapUsesTableEntry(gkeyMap: seq<nat>, usage: nat)
    requires IsGkeyMap(gkeyMap)
    requires InputMapping(gkeyMap, usage).Remap?
    ensures InputMapping(gkeyMap, usage).keycode in gkeyMap
    ensures InputMapping(gkeyMap, usage).keycode < 0x1_0000
  {
  }
}
