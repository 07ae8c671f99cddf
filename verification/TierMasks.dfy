/** The tier bit masks written to smoothfs: which tiers stay metadata-active, and which may
    be drained to without waking a sleeping disk. A mask is a `uint64`. */
module TierMasks {
  import opened Paths
  import opened Wrappers

  const MAX_UINT64 := 0xFFFF_FFFF_FFFF_FFFF

  // ---- unsigned bit arithmetic ----

  function Pow2(n: nat): (p: nat)
    ensures p >= 1
  {
    if n == 0 then 1 else 2 * Pow2(n - 1)
  }

  predicate Bit(m: nat, i: nat) { if i == 0 then m % 2 == 1 else Bit(m / 2, i - 1) }

  /** Bitwise or. */
  function Or(a: nat, b: nat): nat
    decreases a + b
  {
    if a == 0 then b else if b == 0 then a
    else 2 * Or(a / 2, b / 2) + (if a % 2 == 1 || b % 2 == 1 then 1 else 0)
  }

  lemma {:induction false} ZeroHasNoBits(i: nat)
    ensures !Bit(0, i)
  { if i > 0 { ZeroHasNoBits(i - 1); } }

  lemma OrHalves(a: nat, b: nat)
    ensures Or(a, b) / 2 == Or(a / 2, b / 2)
    ensures Or(a, b) % 2 == 1 <==> a % 2 == 1 || b % 2 == 1
  {
    if a > 0 && b > 0 {
      var high := Or(a / 2, b / 2);
      var low := if a % 2 == 1 || b % 2 == 1 then 1 else 0;
      assert Or(a, b) == 2 * high + low;
    }
  }

  lemma {:induction false} OrBits(a: nat, b: nat, i: nat)
    ensures Bit(Or(a, b), i) <==> Bit(a, i) || Bit(b, i)
    decreases i
  {
    OrHalves(a, b);
    if i > 0 { OrBits(a / 2, b / 2, i - 1); }
  }

  lemma {:induction false} Pow2Bits(n: nat, i: nat)
    ensures Bit(Pow2(n), i) <==> i == n
    decreases n
  {
    if n == 0 { if i > 0 { ZeroHasNoBits(i - 1); assert Pow2(0) / 2 == 0; } }
    else if i > 0 { Pow2Bits(n - 1, i - 1); assert Pow2(n) / 2 == Pow2(n - 1); }
  }

  lemma {:induction false} OnesBits(n: nat, i: nat)
    ensures Bit(Pow2(n) - 1, i) <==> i < n
    decreases n
  {
    if n == 0 { ZeroHasNoBits(i); }
    else if i > 0 { OnesBits(n - 1, i - 1); assert (Pow2(n) - 1) / 2 == Pow2(n - 1) - 1; }
  }

  lemma Pow2Of64()
    ensures Pow2(64) == MAX_UINT64 + 1
  {
    assert Pow2(4) == 0x10;
    Pow2Add(4, 4); assert Pow2(8) == 0x100;
    Pow2Add(8, 8); assert Pow2(16) == 0x1_0000;
    Pow2Add(16, 16); assert Pow2(32) == 0x1_0000_0000;
    Pow2Add(32, 32);
  }

  lemma {:induction false} Pow2Add(a: nat, b: nat)
    ensures Pow2(a + b) == Pow2(a) * Pow2(b)
    decreases b
  { if b > 0 { Pow2Add(a, b - 1); assert Pow2(a + b) == 2 * Pow2(a + (b - 1)); } }

  lemma {:induction false} BitsBound(m: nat, n: nat)
    requires forall i: nat :: Bit(m, i) ==> i < n
    ensures m < Pow2(n)
    decreases n
  {
    if n == 0 {
      assert !Bit(m, 0);
      if m > 0 { var i := TopBit(m); }
    } else {
      forall i: nat | Bit(m / 2, i) ensures i < n - 1 { assert Bit(m, i + 1); }
      BitsBound(m / 2, n - 1);
    }
  }

  lemma {:induction false} TopBit(m: nat) returns (i: nat)
    requires m > 0
    ensures Bit(m, i)
  {
    if m == 1 { i := 0; } else { i := TopBit(m / 2); i := i + 1; assert Bit(m, i); }
  }

  // ---- the metadata mask ----

  datatype Recommendation = Recommendation(mask: nat, ok: bool)

  function RecommendMetadata(tiers: nat): Recommendation {
    if tiers == 0 || tiers > 64 then Recommendation(1, false)
    else if tiers < 64 then Recommendation(Pow2(tiers) - 1, true)
    else Recommendation(MAX_UINT64, true)
  }

  lemma MetadataMaskIsAllTiers(tiers: nat, i: nat)
    requires 1 <= tiers <= 64
    ensures var r := RecommendMetadata(tiers); r.ok && (Bit(r.mask, i) <==> i < tiers)
  {
    Pow2Of64();
    OnesBits(tiers, i);
  }

  // ---- is a tier's backing awake? ----

  datatype Slot = Slot(name: string, empty: bool, kind: string, ref: string, pv: Option<string>)

  /** What the host reports: array members, disk types, drive power states. */
  datatype Host = Host(zfsMembers: string -> seq<string>, mdadmMembers: map<string, seq<string>>,
                       baseDisk: string -> string, rotational: Option<map<string, bool>>,
                       power: string -> Option<string>)

  function Devices(slot: Slot, host: Host): seq<string> {
    if slot.kind == "zfs" then host.zfsMembers(slot.ref)
    else if slot.kind == "" || slot.kind == "mdadm" then
      if slot.pv.None? then []
      else if slot.pv.value in host.mdadmMembers && |host.mdadmMembers[slot.pv.value]| > 0
      then host.mdadmMembers[slot.pv.value]
      else [slot.pv.value]
    else if slot.ref != "" then [slot.ref] else []
  }

  predicate Awake(device: string, host: Host) {
    && host.rotational.Some?
    && var base := host.baseDisk(device);
       && base in host.rotational.value
       && (host.rotational.value[base] ==> host.power(base) in {Some("active"), Some("idle")})
  }

  /** Proven awake: it has devices, every one of known type, every spinning one up. */
  predicate ConfirmedActive(slot: Slot, host: Host) {
    && |Devices(slot, host)| > 0
    && forall d <- Devices(slot, host) :: Awake(d, host)
  }

  method SlotExternallyActive(slot: Slot, host: Host) returns (active: bool)
    requires host.rotational.Some?
    ensures active <==> ConfirmedActive(slot, host)
  {
    var devices := Devices(slot, host);
    if |devices| == 0 { return false; }
    for i := 0 to |devices|
      invariant forall k | 0 <= k < i :: Awake(devices[k], host)
    {
      var base := host.baseDisk(devices[i]);
      if base !in host.rotational.value { assert !Awake(devices[i], host); return false; }
      if !host.rotational.value[base] { continue; }
      var state := host.power(base);
      if state.None? || (state.value != "active" && state.value != "idle") {
        assert !Awake(devices[i], host);
        return false;
      }
    }
    active := true;
  }

  // ---- the drain mask ----

  datatype Pool = Pool(name: string, cache: bool, tiers: seq<string>)

  function BackingMount(pool: string, slot: string): string { "/mnt/.tierd-backing/" + pool + "/" + slot }

  /** Assigned slots by cleaned backing path; a later slot replaces an earlier one. */
  function SlotsByPath(pool: string, slots: seq<Slot>): map<string, Slot> {
    if slots == [] then map[]
    else
      var before, s := SlotsByPath(pool, slots[..|slots| - 1]), slots[|slots| - 1];
      if s.empty then before else before[Clean(BackingMount(pool, s.name)) := s]
  }

  predicate Managed(pool: Pool, slots: seq<Slot>, i: nat)
    requires i < |pool.tiers|
  {
    Clean(pool.tiers[i]) in SlotsByPath(pool.name, slots)
  }

  predicate TierActive(pool: Pool, slots: seq<Slot>, host: Host, i: nat)
    requires i < |pool.tiers|
  {
    Managed(pool, slots, i) && ConfirmedActive(SlotsByPath(pool.name, slots)[Clean(pool.tiers[i])], host)
  }

  predicate DrainDecidable(pool: Pool, slots: Option<seq<Slot>>, host: Host) {
    && |pool.tiers| >= 1 && slots.Some?
    && (forall i | 1 <= i < |pool.tiers| && i < 64 :: Managed(pool, slots.value, i))
    && (|pool.tiers| == 1 || host.rotational.Some?)
  }

  method RecommendDrain(pool: Pool, slots: Option<seq<Slot>>, host: Host) returns (r: Recommendation)
    ensures pool.cache ==> r == RecommendMetadata(|pool.tiers|)
    ensures !pool.cache ==> (r.ok <==> DrainDecidable(pool, slots, host))
    ensures !pool.cache && r.ok ==> forall i: nat ::
              Bit(r.mask, i) <==> i == 0 || (i < |pool.tiers| && i < 64 && TierActive(pool, slots.value, host, i))
  {
    if pool.cache { return RecommendMetadata(|pool.tiers|); }
    if |pool.tiers| == 0 || slots.None? { return Recommendation(1, false); }
    var byPath := BuildSlotsByPath(pool.name, slots.value);
    var selected := SelectTiers(pool, slots.value, byPath);
    if selected.None? { return Recommendation(1, false); }
    forall i: nat ensures Bit(1, i) <==> i == 0 { Pow2Bits(0, i); }
    if selected.value == 0 { return Recommendation(1, true); }
    if host.rotational.None? { return Recommendation(1, false); }
    var mask := 1;
    for idx := 1 to selected.value + 1
      invariant forall i: nat :: Bit(mask, i) <==> i == 0 || (i < idx && TierActive(pool, slots.value, host, i))
    {
      assert Managed(pool, slots.value, idx);
      var active := SlotExternallyActive(byPath[Clean(pool.tiers[idx])], host);
      if active {
        SetBit(mask, idx);
        mask := Or(mask, Pow2(idx));
      }
    }
    r := Recommendation(mask, true);
  }

  lemma SetBit(mask: nat, idx: nat)
    ensures forall i: nat :: Bit(Or(mask, Pow2(idx)), i) <==> Bit(mask, i) || i == idx
  {
    forall i: nat ensures Bit(Or(mask, Pow2(idx)), i) <==> Bit(mask, i) || i == idx {
      OrBits(mask, Pow2(idx), i);
      Pow2Bits(idx, i);
    }
  }

  /** The loop choosing tiers 1..last for the power check; none when one is unmanaged. */
  method SelectTiers(pool: Pool, slots: seq<Slot>, byPath: map<string, Slot>) returns (last: Option<nat>)
    requires |pool.tiers| >= 1 && byPath == SlotsByPath(pool.name, slots)
    ensures last.Some? <==> forall i | 1 <= i < |pool.tiers| && i < 64 :: Managed(pool, slots, i)
    ensures last.Some? ==> last.value == (if |pool.tiers| < 64 then |pool.tiers| else 64) - 1
  {
    var selected := 0;
    for idx := 1 to |pool.tiers|
      invariant selected == (if idx < 64 then idx else 64) - 1
      invariant forall i | 1 <= i < idx && i < 64 :: Managed(pool, slots, i)
    {
      if idx >= 64 { continue; }
      if Clean(pool.tiers[idx]) !in byPath {
        assert !Managed(pool, slots, idx);
        return None;
      }
      selected := idx;
    }
    last := Some(selected);
  }

  method BuildSlotsByPath(pool: string, slots: seq<Slot>) returns (m: map<string, Slot>)
    ensures m == SlotsByPath(pool, slots)
  {
    m := map[];
    for i := 0 to |slots|
      invariant m == SlotsByPath(pool, slots[..i])
    {
      assert slots[..i + 1][..i] == slots[..i];
      if slots[i].empty { continue; }
      m := m[Clean(BackingMount(pool, slots[i].name)) := slots[i]];
    }
    assert slots[..|slots|] == slots;
  }

  /** The pair of masks both write-staging handlers put in sysfs; none when they refuse. The drain
      mask is only for kernels that have its attribute. */
  method WriteMasks(pool: Pool, slots: Option<seq<Slot>>, host: Host, hasDrain: bool)
    returns (metadata: Option<nat>, drain: Option<nat>)
    ensures metadata.Some? <==> 1 <= |pool.tiers| <= 64
    ensures drain.Some? <==> metadata.Some? && hasDrain
    ensures metadata.Some? ==> forall i: nat :: Bit(metadata.value, i) <==> i < |pool.tiers|
    ensures drain.Some? ==> Bit(drain.value, 0) && forall i: nat :: Bit(drain.value, i) ==> Bit(metadata.value, i)
    ensures drain.Some? && !pool.cache && DrainDecidable(pool, slots, host) ==> forall i | 1 <= i < |pool.tiers| ::
              Bit(drain.value, i) <==> TierActive(pool, slots.value, host, i)
    ensures metadata.Some? ==> SysfsUint(MaskLine(metadata.value)) == metadata.value
    ensures drain.Some? ==> SysfsUint(MaskLine(drain.value)) == drain.value
  {
    var m, d, written := ChooseMasks(pool, slots, host);
    metadata := if written then Some(m) else None;
    drain := if written && hasDrain then Some(d) else None;
  }

  method ChooseMasks(pool: Pool, slots: Option<seq<Slot>>, host: Host)
    returns (metadata: nat, drain: nat, written: bool)
    ensures written <==> 1 <= |pool.tiers| <= 64
    ensures written ==> forall i: nat :: Bit(metadata, i) <==> i < |pool.tiers|
    ensures written ==> Bit(drain, 0) && forall i: nat :: Bit(drain, i) ==> Bit(metadata, i)
    ensures written && !pool.cache && DrainDecidable(pool, slots, host) ==> forall i | 1 <= i < |pool.tiers| ::
              Bit(drain, i) <==> TierActive(pool, slots.value, host, i)
    ensures written ==> SysfsUint(MaskLine(metadata)) == metadata && SysfsUint(MaskLine(drain)) == drain
  {
    var m := RecommendMetadata(|pool.tiers|);
    metadata, drain, written := m.mask, m.mask, m.ok;
    if !written { return; }
    forall i: nat ensures Bit(metadata, i) <==> i < |pool.tiers| { MetadataMaskIsAllTiers(|pool.tiers|, i); }
    var d := RecommendDrain(pool, slots, host);
    if d.ok { drain := d.mask; }
    BitsBound(metadata, 64);
    BitsBound(drain, 64);
    Pow2Of64();
    MaskRoundTrip(metadata);
    MaskRoundTrip(drain);
  }

  // ---- printing and reading back ----

  const DIGITS := "0123456789abcdef"

  /** `strconv.FormatUint(m, 16)`. */
  function FormatHex(m: nat): (s: string)
    ensures |s| > 0
  {
    if m < 16 then [DIGITS[m]] else FormatHex(m / 16) + [DIGITS[m % 16]]
  }

  /** The line the handlers write to a mask attribute. */
  function MaskLine(m: nat): string { "0x" + FormatHex(m) + "\n" }

  function DigitValue(c: char): Option<nat> {
    if '0' <= c <= '9' then Some(c as int - '0' as int)
    else if 'a' <= c <= 'z' then Some(c as int - 'a' as int + 10)
    else if 'A' <= c <= 'Z' then Some(c as int - 'A' as int + 10)
    else None
  }

  /** The digit loop of `strconv.ParseUint(s, base, 64)`: syntax and range errors are None. */
  function ParseDigits(s: string, base: nat): Option<nat> {
    if s == "" then Some(0)
    else
      var before, d := ParseDigits(s[..|s| - 1], base), DigitValue(s[|s| - 1]);
      if before.None? || d.None? || d.value >= base || before.value * base + d.value > MAX_UINT64 then None
      else Some(before.value * base + d.value)
  }

  predicate IsPrefixed(s: string, lower: char, upper: char) {
    |s| >= 3 && s[0] == '0' && (s[1] == lower || s[1] == upper)
  }

  /** `strconv.ParseUint(s, 0, 64)`. */
  function ParseUint(s: string): Option<nat> {
    if s == "" then None
    else if IsPrefixed(s, 'x', 'X') then ParseDigits(s[2..], 16)
    else if IsPrefixed(s, 'b', 'B') then ParseDigits(s[2..], 2)
    else if IsPrefixed(s, 'o', 'O') then ParseDigits(s[2..], 8)
    else if s[0] == '0' then ParseDigits(s[1..], 8)
    else ParseDigits(s, 10)
  }

  predicate IsSpace(c: char) { c in " \t\n\r" || c as int in {0x0B, 0x0C, 0x85, 0xA0} }

  function TrimSpace(s: string): string {
    if s == "" then ""
    else if IsSpace(s[0]) then TrimSpace(s[1..])
    else if IsSpace(s[|s| - 1]) then TrimSpace(s[..|s| - 1])
    else s
  }

  /** `sysfsUint` on an attribute's content. */
  function SysfsUint(content: string): nat {
    var n := ParseUint(TrimSpace(content));
    if n.Some? then n.value else 0
  }

  /** Every mask tierd writes is the mask it reads back. */
  lemma MaskRoundTrip(m: nat)
    requires m <= MAX_UINT64
    ensures SysfsUint(MaskLine(m)) == m
  {
    var hex := FormatHex(m);
    var s := "0x" + hex;
    HexRoundTrip(m);
    assert s[2..] == hex && s[|s| - 1] == hex[|hex| - 1];
    assert MaskLine(m)[..|s|] == s;
    assert TrimSpace(s) == s;
    assert TrimSpace(MaskLine(m)) == s;
  }

  lemma {:induction false} HexRoundTrip(m: nat)
    requires m <= MAX_UINT64
    ensures ParseDigits(FormatHex(m), 16) == Some(m)
    ensures !IsSpace(FormatHex(m)[|FormatHex(m)| - 1])
  {
    var d := if m < 16 then m else m % 16;
    DigitRoundTrip(d);
    if m < 16 {
      assert ParseDigits([DIGITS[m]][..0], 16) == Some(0);
    } else {
      HexRoundTrip(m / 16);
      assert FormatHex(m)[..|FormatHex(m)| - 1] == FormatHex(m / 16);
    }
  }

  lemma DigitRoundTrip(d: nat)
    requires d < 16
    ensures DigitValue(DIGITS[d]) == Some(d) && !IsSpace(DIGITS[d])
  {
    assert DIGITS[d] == if d < 10 then ('0' as int + d) as char else ('a' as int + d - 10) as char;
  }
}
