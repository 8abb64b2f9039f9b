/**
 * Board logic of the ConnectCore 8X system-on-module: the variant table and
 * the hardware-ID (HWID) lookups built on it, MAC addresses assembled from
 * the fused pool and base, and the environment variables the board sets at
 * start-up.
 */
module Ccimx8x {
  import opened Wrappers
  import opened Format

  // ---------------------------------------------------------------------
  // Variant table
  // ---------------------------------------------------------------------

  datatype Cpu = Imx8None | Imx8Qxp | Imx8Dx

  datatype RamSize = NoRam | Mem512MB | Mem1GB | Mem2GB

  /** One row of ccimx8x_variants; the capability mask is split into its two bits. */
  datatype Variant = Variant(cpu: Cpu, ram: RamSize, wireless: bool, bluetooth: bool)

  /** ccimx8x_variants, indexed by the HWID variant number 0x00 .. 0x0B. */
  function Variants(): (t: seq<Variant>)
    ensures |t| == 12
  {
    [ Variant(Imx8None, NoRam, false, false),
      Variant(Imx8Qxp, Mem1GB, true, true),
      Variant(Imx8Qxp, Mem2GB, true, true),
      Variant(Imx8Qxp, Mem2GB, false, false),
      Variant(Imx8Dx, Mem1GB, true, true),
      Variant(Imx8Dx, Mem1GB, false, false),
      Variant(Imx8Dx, Mem512MB, false, false),
      Variant(Imx8Qxp, Mem1GB, false, false),
      Variant(Imx8Qxp, Mem1GB, true, true),
      Variant(Imx8Dx, Mem512MB, false, false),
      Variant(Imx8Dx, Mem1GB, false, false),
      Variant(Imx8Dx, Mem1GB, true, true) ]
  }

  /**
   * The decoded HWID fields the board logic reads. A non-zero `ram` marks an
   * HWID that describes the module itself instead of naming a variant.
   */
  datatype Hwid = Hwid(variant: Uint8, ram: nat, wifi: bool, bt: bool, macPool: Uint32, macBase: Uint32)

  /** hwid_in_db: the variant has a row with a real CPU. */
  predicate HwidInDb(h: Hwid) {
    h.variant < |Variants()| && Variants()[h.variant].cpu != Imx8None
  }

  /** The known variants are exactly 0x01 .. 0x0B. */
  lemma HwidInDbExactly(h: Hwid)
    ensures HwidInDb(h) <==> 1 <= h.variant <= 11
  {
  }

  /** board_has_wireless: the HWID's own flag, else the table, else assume yes. */
  predicate HasWireless(h: Hwid) {
    if h.ram != 0 then h.wifi
    else if HwidInDb(h) then Variants()[h.variant].wireless
    else true
  }

  /** board_has_bluetooth: the same rule with the Bluetooth flag and bit. */
  predicate HasBluetooth(h: Hwid) {
    if h.ram != 0 then h.bt
    else if HwidInDb(h) then Variants()[h.variant].bluetooth
    else true
  }

  /**
   * Without a self-describing HWID, wireless is reported for variants 0x01,
   * 0x02, 0x04, 0x08, 0x0B and for every unknown variant.
   */
  lemma WirelessByVariant(h: Hwid)
    requires h.ram == 0
    ensures HasWireless(h) <==> (h.variant in {1, 2, 4, 8, 11} || !(1 <= h.variant <= 11))
  {
  }

  /** In this table the two capabilities always come together. */
  lemma {:induction false} BluetoothFollowsWireless(h: Hwid)
    requires h.ram == 0
    ensures HasBluetooth(h) == HasWireless(h)
  {
    if HwidInDb(h) {
      assert Variants()[h.variant].bluetooth == Variants()[h.variant].wireless;
    }
  }

  // ---------------------------------------------------------------------
  // Boot device and partition table
  // ---------------------------------------------------------------------

  datatype BootDevice = Sd2Boot | Mmc1Boot | OtherBoot

  /** Build-time settings and the texts of the partition-table macros. */
  datatype BoardConfig = BoardConfig(envDev: nat, envPart: nat, hwidWords: nat,
                                     linux: PartitionTables, android: PartitionTables)

  datatype PartitionTables = PartitionTables(gb4: string, gb8: string, gb16: string)

  /** mmc_get_bootdevindex: the USDHC the module booted from. */
  function BootDevIndex(cfg: BoardConfig, b: BootDevice): nat {
    match b
    case Sd2Boot => 1
    case Mmc1Boot => 0
    case OtherBoot => cfg.envDev
  }

  /** mmc_get_env_part: the hardware partition that holds the environment. */
  function EnvPart(cfg: BoardConfig, b: BootDevice): nat {
    match b
    case Sd2Boot => 0
    case Mmc1Boot => 2
    case OtherBoot => cfg.envPart
  }

  /**
   * Booting from the SD card keeps the environment in its only (user)
   * partition on USDHC2; booting from eMMC moves it to boot partition 2 of
   * USDHC1.
   */
  lemma EnvLocation(cfg: BoardConfig, b: BootDevice)
    ensures b == Sd2Boot ==> BootDevIndex(cfg, b) == 1 && EnvPart(cfg, b) == 0
    ensures b == Mmc1Boot ==> BootDevIndex(cfg, b) == 0 && EnvPart(cfg, b) == 2
    ensures b == OtherBoot ==> BootDevIndex(cfg, b) == cfg.envDev && EnvPart(cfg, b) == cfg.envPart
  {
  }

  datatype TableSize = Table4GB | Table8GB | Table16GB

  function Rank(t: TableSize): nat {
    match t
    case Table4GB => 0
    case Table8GB => 1
    case Table16GB => 2
  }

  /** The eMMC capacity in whole GiB as an unsigned int, 0 without a device. */
  function CapacityGb(mmcBytes: Option<nat>): nat {
    if mmcBytes.None? then 0 else (mmcBytes.value / 0x4000_0000) % 0x1_0000_0000
  }

  /** The table for a capacity; eMMC sizes are not exact, so 15 GiB counts as 16. */
  function TableFor(gb: nat): TableSize {
    if gb >= 15 then Table16GB else if gb >= 7 then Table8GB else Table4GB
  }

  lemma TableForThresholds(gb: nat)
    ensures TableFor(gb) == Table16GB <==> gb >= 15
    ensures TableFor(gb) == Table8GB <==> 7 <= gb < 15
    ensures TableFor(gb) == Table4GB <==> gb < 7
  {
  }

  /** A larger device never gets a smaller table. */
  lemma TableForMonotone(a: nat, b: nat)
    requires a <= b
    ensures Rank(TableFor(a)) <= Rank(TableFor(b))
  {
  }

  function TableText(p: PartitionTables, t: TableSize): string {
    match t
    case Table4GB => p.gb4
    case Table8GB => p.gb8
    case Table16GB => p.gb16
  }

  /** env_set guarded by env_get: set k only when it has no value yet. */
  function SetIfAbsent(env: map<string, string>, k: string, v: string): map<string, string> {
    if k in env then env else env[k := v]
  }

  lemma SetIfAbsentMeaning(env: map<string, string>, k: string, v: string, other: string)
    ensures k in SetIfAbsent(env, k, v)
    ensures SetIfAbsent(env, k, v)[k] == if k in env then env[k] else v
    ensures other != k ==> (other in SetIfAbsent(env, k, v) <==> other in env)
    ensures other != k && other in env ==> SetIfAbsent(env, k, v)[other] == env[other]
  {
  }

  /** The environment after generate_partition_table. */
  function PartitionEnv(cfg: BoardConfig, env: map<string, string>, gb: nat): map<string, string> {
    var t := TableFor(gb);
    SetIfAbsent(SetIfAbsent(env, "parts_linux", TableText(cfg.linux, t)),
                "parts_android", TableText(cfg.android, t))
  }

  /**
   * Both table variables end up defined; a value that was already there is
   * kept, and a new one matches the capacity.
   */
  lemma PartitionEnvMeaning(cfg: BoardConfig, env: map<string, string>, gb: nat, k: string)
    ensures "parts_linux" in PartitionEnv(cfg, env, gb) && "parts_android" in PartitionEnv(cfg, env, gb)
    ensures "parts_linux" !in env ==>
              PartitionEnv(cfg, env, gb)["parts_linux"] == TableText(cfg.linux, TableFor(gb))
    ensures "parts_android" !in env ==>
              PartitionEnv(cfg, env, gb)["parts_android"] == TableText(cfg.android, TableFor(gb))
    ensures k in env ==> k in PartitionEnv(cfg, env, gb) && PartitionEnv(cfg, env, gb)[k] == env[k]
    ensures k != "parts_linux" && k != "parts_android" ==> (k in PartitionEnv(cfg, env, gb) <==> k in env)
  {
    var e1 := SetIfAbsent(env, "parts_linux", TableText(cfg.linux, TableFor(gb)));
    SetIfAbsentMeaning(env, "parts_linux", TableText(cfg.linux, TableFor(gb)), "parts_android");
    SetIfAbsentMeaning(env, "parts_linux", TableText(cfg.linux, TableFor(gb)), k);
    SetIfAbsentMeaning(e1, "parts_android", TableText(cfg.android, TableFor(gb)), "parts_linux");
    SetIfAbsentMeaning(e1, "parts_android", TableText(cfg.android, TableFor(gb)), k);
  }

  // ---------------------------------------------------------------------
  // MAC addresses
  // ---------------------------------------------------------------------

  /** mac_pools: index 0 is the all-zero slot the designated initialisers leave. */
  function MacPools(): (p: seq<seq<Uint8>>)
    ensures |p| == 3
    ensures forall i :: 0 <= i < |p| ==> |p[i]| == 3
  {
    [[0x00, 0x00, 0x00], [0x00, 0x04, 0xf3], [0x00, 0x40, 0x9d]]
  }

  const EINVAL: int := 22

  /** The guard of set_mac_from_pool as written: compares against the array size. */
  predicate PoolRejectedAsWritten(pool: Uint32) {
    pool > |MacPools()| || pool < 1
  }

  /** The guard it evidently intends: only pools with an entry in the table. */
  predicate PoolRejected(pool: Uint32) {
    pool >= |MacPools()| || pool < 1
  }

  /** Pool 3 gets through the written guard, yet mac_pools has no index 3. */
  lemma PoolThreeSlipsThrough()
    ensures !PoolRejectedAsWritten(3)
    ensures !(3 < |MacPools()|)
  {
  }

  /** The corrected guard accepts exactly the two real pools, and they are in range. */
  lemma PoolAcceptedExactly(pool: Uint32)
    ensures !PoolRejected(pool) <==> pool == 1 || pool == 2
    ensures !PoolRejected(pool) ==> pool < |MacPools()|
    ensures PoolRejected(pool) != PoolRejectedAsWritten(pool) <==> pool == 3
  {
  }

  /**
   * set_mac_from_pool, with the corrected guard: copies the pool's OUI into
   * the first three bytes, or reports -EINVAL and leaves the buffer alone.
   */
  method SetMacFromPool(pool: Uint32, mac: array<Uint8>) returns (ret: int)
    requires mac.Length >= 3
    modifies mac
    ensures PoolRejected(pool) ==> ret == -EINVAL && mac[..] == old(mac[..])
    ensures !PoolRejected(pool) ==> ret == 0 && mac[..3] == MacPools()[pool] && mac[3..] == old(mac[3..])
  {
    if pool >= |MacPools()| as Uint32 || pool < 1 {
      return -EINVAL;
    }
    var oui := MacPools()[pool];
    mac[0] := oui[0];
    mac[1] := oui[1];
    mac[2] := oui[2];
    ret := 0;
  }

  /** The three low bytes of a value, most significant first, as uint8_t casts cut them. */
  function LowerBytes(val: Uint32): (b: seq<Uint8>)
    ensures |b| == 3
  {
    [(val / 0x1_0000) % 0x100, (val / 0x100) % 0x100, val % 0x100]
  }

  /** Three bytes read as a big-endian 24-bit number. */
  function Int24(b: seq<Uint8>): nat
    requires |b| == 3
  {
    b[0] as int * 0x1_0000 + b[1] as int * 0x100 + b[2] as int
  }

  /** The three bytes put back together give the low 24 bits of the value. */
  lemma LowerBytesReassemble(val: Uint32)
    ensures Int24(LowerBytes(val)) == val % 0x100_0000
  {
    var hi, mid, lo := (val / 0x1_0000) % 0x100, (val / 0x100) % 0x100, val % 0x100;
    assert val / 0x100 == (val / 0x1_0000) * 0x100 + mid;
    assert val == (val / 0x100) * 0x100 + lo;
    assert val / 0x1_0000 == (val / 0x100_0000) * 0x100 + hi;
  }

  /** set_lower_mac: the low 24 bits of val into mac[3..6], the OUI untouched. */
  method SetLowerMac(val: Uint32, mac: array<Uint8>)
    requires mac.Length == 6
    modifies mac
    ensures mac[..3] == old(mac[..3])
    ensures mac[3..] == LowerBytes(val)
  {
    mac[3] := (val / 0x1_0000) % 0x100;
    mac[4] := (val / 0x100) % 0x100;
    mac[5] := val % 0x100;
  }

  /** The variables get_macs_from_fuses fills, in order. */
  function MacVars(): (v: seq<string>)
    ensures |v| == 4
  {
    ["ethaddr", "eth1addr", "wlanaddr", "btaddr"]
  }

  lemma MacVarsDistinct(i: nat, j: nat)
    requires i < 4 && j < 4 && i != j
    ensures MacVars()[i] != MacVars()[j]
  {
    if |MacVars()[i]| == |MacVars()[j]| {
      assert MacVars()[i][0] != MacVars()[j][0];
    }
  }

  /** uint32_t addition. */
  function Add32(a: Uint32, b: nat): Uint32 {
    (a + b) % 0x1_0000_0000
  }

  /** Four addresses (two Ethernet, Wi-Fi, Bluetooth) with wireless, two without. */
  function NumMacs(h: Hwid): nat {
    if HasWireless(h) then 4 else 2
  }

  /** Whether get_macs_from_fuses gets as far as setting variables. */
  predicate FusedMacsApply(h: Hwid) {
    && (HwidInDb(h) || h.ram != 0)
    && h.macPool != 0
    && !PoolRejected(h.macPool)
    && Add32(h.macBase, NumMacs(h)) <= 0xff_ffff
  }

  /** The i-th fused address: the pool's OUI and the low bytes of mac_base + i. */
  function MacFor(h: Hwid, i: nat): (mac: seq<Uint8>)
    requires !PoolRejected(h.macPool)
    ensures |mac| == 6
  {
    MacPools()[h.macPool] + LowerBytes(Add32(h.macBase, i))
  }

  /** The first n address variables, except those whose setenv command failed. */
  function MacVarsUpTo(env: map<string, string>, h: Hwid, failed: set<nat>, n: nat): map<string, string>
    requires !PoolRejected(h.macPool) && n <= 4
  {
    if n == 0 then env
    else
      var e := MacVarsUpTo(env, h, failed, n - 1);
      if n - 1 in failed then e else e[MacVars()[n - 1] := MacText(MacFor(h, n - 1))]
  }

  /** The environment after get_macs_from_fuses. */
  function MacEnv(env: map<string, string>, h: Hwid, failed: set<nat>): map<string, string> {
    if FusedMacsApply(h) then MacVarsUpTo(env, h, failed, NumMacs(h)) else env
  }

  /** Variable i below n holds address i unless its command failed; a failure does not stop the later ones. */
  lemma {:induction false} MacVarsUpToSets(env: map<string, string>, h: Hwid, failed: set<nat>, n: nat, i: nat)
    requires !PoolRejected(h.macPool) && n <= 4
    requires i < n && i !in failed
    ensures MacVars()[i] in MacVarsUpTo(env, h, failed, n)
    ensures MacVarsUpTo(env, h, failed, n)[MacVars()[i]] == MacText(MacFor(h, i))
  {
    if i < n - 1 {
      MacVarsUpToSets(env, h, failed, n - 1, i);
      MacVarsDistinct(i, n - 1);
    }
  }

  /** A variable that is not one of the addresses set keeps its state. */
  lemma {:induction false} MacVarsUpToKeeps(env: map<string, string>, h: Hwid, failed: set<nat>, n: nat, k: string)
    requires !PoolRejected(h.macPool) && n <= 4
    requires forall i :: 0 <= i < n && i !in failed ==> k != MacVars()[i]
    ensures k in MacVarsUpTo(env, h, failed, n) <==> k in env
    ensures k in env ==> MacVarsUpTo(env, h, failed, n)[k] == env[k]
  {
    if n > 0 {
      MacVarsUpToKeeps(env, h, failed, n - 1, k);
    }
  }

  /** Nothing changes when the HWID is unknown, the pool is 0 or invalid, or the pool would overflow. */
  lemma MacEnvUnchanged(env: map<string, string>, h: Hwid, failed: set<nat>)
    requires !FusedMacsApply(h)
    ensures MacEnv(env, h, failed) == env
  {
  }

  /** The guard arithmetic for a count of n addresses. */
  lemma MacInPool(base: Uint32, n: nat, i: nat)
    requires base <= 0xff_ffff && n <= 4 && Add32(base, n) <= 0xff_ffff && i < n
    ensures base + i <= 0xff_ffff
    ensures Int24(LowerBytes(base + i)) == base + i
  {
    LowerBytesReassemble(base + i);
  }

  /**
   * With a 24-bit base, the overflow guard keeps every address inside the
   * pool: address i is the pool's OUI followed by mac_base + i.
   */
  lemma FusedMacInPool(h: Hwid, i: nat)
    requires FusedMacsApply(h) && h.macBase <= 0xff_ffff
    requires i < NumMacs(h)
    ensures h.macBase + i <= 0xff_ffff
    ensures MacFor(h, i)[..3] == MacPools()[h.macPool]
    ensures Int24(MacFor(h, i)[3..]) == h.macBase + i
  {
    var n := NumMacs(h);
    assert n <= 4;
    MacInPool(h.macBase, n, i);
    assert Add32(h.macBase, i) == h.macBase + i;
    var oui := MacPools()[h.macPool];
    assert |oui| == 3;
    assert MacFor(h, i) == oui + LowerBytes(h.macBase + i);
  }

  /** Reducing modulo 2^32 first does not change the low 24 bits. */
  lemma Mod24OfMod32(x: nat)
    ensures (x % 0x1_0000_0000) % 0x100_0000 == x % 0x100_0000
  {
    var q, r := x / 0x1_0000_0000, x % 0x1_0000_0000;
    assert x == (q * 0x100) * 0x100_0000 + r;
    var s, t := r / 0x100_0000, r % 0x100_0000;
    assert x == (q * 0x100 + s) * 0x100_0000 + t;
  }

  /** Two numbers less than 2^24 apart differ in their low 24 bits. */
  lemma Mod24Differ(x: nat, d: nat)
    requires 0 < d < 0x100_0000
    ensures x % 0x100_0000 != (x + d) % 0x100_0000
  {
    var q, r := x / 0x100_0000, x % 0x100_0000;
    assert x + d == q * 0x100_0000 + (r + d);
    if r + d < 0x100_0000 {
      assert (x + d) % 0x100_0000 == r + d;
    } else {
      assert x + d == (q + 1) * 0x100_0000 + (r + d - 0x100_0000);
      assert (x + d) % 0x100_0000 == r + d - 0x100_0000;
    }
  }

  /** The low bytes of mac_base + i, with the uint32_t addition, are those of the true sum. */
  lemma LowerBytesOfSum(base: Uint32, i: nat)
    ensures Int24(LowerBytes(Add32(base, i))) == (base + i) % 0x100_0000
  {
    LowerBytesReassemble(Add32(base, i));
    Mod24OfMod32(base + i);
  }

  /**
   * ... and no two of the addresses are equal, for any base: addresses
   * fewer than 2^24 apart differ in their low 24 bits.
   */
  lemma FusedMacsDistinct(h: Hwid, i: nat, j: nat)
    requires FusedMacsApply(h)
    requires i < NumMacs(h) && j < NumMacs(h) && i != j
    ensures MacFor(h, i) != MacFor(h, j)
  {
    LowerBytesOfSum(h.macBase, i);
    LowerBytesOfSum(h.macBase, j);
    if i < j {
      Mod24Differ(h.macBase + i, j - i);
    } else {
      Mod24Differ(h.macBase + j, i - j);
    }
    assert MacFor(h, i)[3..] == LowerBytes(Add32(h.macBase, i));
    assert MacFor(h, j)[3..] == LowerBytes(Add32(h.macBase, j));
  }

  // ---------------------------------------------------------------------
  // Start-up environment
  // ---------------------------------------------------------------------

  /** tolower over a buffer, in place. */
  method LowercaseInPlace(a: array<char>)
    modifies a
    ensures a[..] == Lower(old(a[..]))
  {
    for i := 0 to a.Length
      invariant a[..i] == Lower(old(a[..]))[..i]
      invariant a[i..] == old(a[i..])
    {
      a[i] := ToLower(a[i]);
    }
  }

  /** soc_type: "imx8" and the CPU type name, cut to the 10-byte buffer, in lower case. */
  function SocType(cpuType: string): string {
    Lower(Truncate("imx8" + cpuType, 10))
  }

  lemma SocTypeMeaning(cpuType: string)
    ensures |SocType(cpuType)| <= 9
    ensures SocType(cpuType)[..4] == "imx8"
    ensures Lower(SocType(cpuType)) == SocType(cpuType)
    ensures |cpuType| <= 5 ==> SocType(cpuType) == "imx8" + Lower(cpuType)
  {
    var t := Truncate("imx8" + cpuType, 10);
    assert t[..4] == "imx8";
    LowerIdempotent(t);
    if |cpuType| <= 5 {
      assert t == "imx8" + cpuType;
      assert Lower(t) == "imx8" + Lower(cpuType);
    }
  }

  /** module_variant: "0x" and the variant in two hex digits. */
  function VariantText(v: Uint8): string {
    "0x" + HexPad(v, 2)
  }

  lemma VariantTextRoundTrip(v: Uint8)
    ensures |VariantText(v)| == 4 && VariantText(v)[..2] == "0x"
    ensures ParseHex(VariantText(v)[2..]) == Some(v)
  {
    HexPadByte(v);
    HexPadRoundTrip(v, 2);
    assert VariantText(v)[2..] == HexPad(v, 2);
  }

  /** The name of the i-th HWID variable, as snprintf leaves it in the 10-byte buffer. */
  function HwidVarName(i: nat): string {
    Truncate("hwid_" + Decimal(i), 10)
  }

  lemma HwidVarNamesDistinct(i: nat, j: nat)
    requires i < 10 && j < 10 && i != j
    ensures HwidVarName(i) != HwidVarName(j)
  {
    assert Decimal(i) == [DigitChar(i)];
    assert Decimal(j) == [DigitChar(j)];
    assert HwidVarName(i)[5] == DigitChar(i);
    assert HwidVarName(j)[5] == DigitChar(j);
  }

  /** The environment with hwid_0 .. hwid_{n-1} set to the raw HWID words in %08x. */
  function HwidVars(env: map<string, string>, raw: seq<Uint32>, n: nat): map<string, string>
    requires n <= |raw|
  {
    if n == 0 then env else HwidVars(env, raw, n - 1)[HwidVarName(n - 1) := HexPad(raw[n - 1], 8)]
  }

  /** Variable hwid_i holds word i as eight hex digits that read back as the word. */
  lemma {:induction false} HwidVarsMeaning(env: map<string, string>, raw: seq<Uint32>, n: nat, i: nat)
    requires n <= |raw| && n <= 10 && i < n
    ensures HwidVarName(i) in HwidVars(env, raw, n)
    ensures HwidVars(env, raw, n)[HwidVarName(i)] == HexPad(raw[i], 8)
    ensures |HexPad(raw[i], 8)| == 8 && ParseHex(HexPad(raw[i], 8)) == Some(raw[i])
  {
    HexPadWord(raw[i]);
    HexPadRoundTrip(raw[i], 8);
    if i < n - 1 {
      HwidVarsMeaning(env, raw, n - 1, i);
      HwidVarNamesDistinct(i, n - 1);
    }
  }

  /** module_ram: whole GB from 1024 MB on, MB below, cut to the 10-byte buffer. */
  function RamText(ramMb: int): string {
    Truncate(if ramMb >= 1024 then Decimal(ramMb / 1024) + "GB" else Decimal(ramMb) + "MB", 10)
  }

  /** The unit follows the 1024 MB threshold, and the number reads back. */
  lemma RamTextMeaning(ramMb: int)
    requires 0 <= ramMb < 1024 * 10_000_000
    ensures ramMb >= 1024 ==> RamText(ramMb) == Decimal(ramMb / 1024) + "GB"
    ensures ramMb < 1024 ==> RamText(ramMb) == Decimal(ramMb) + "MB"
    ensures var t := RamText(ramMb); ParseDecimal(t[..|t| - 2]) == Some(if ramMb >= 1024 then ramMb / 1024 else ramMb)
  {
    if ramMb >= 1024 {
      DecimalLength(ramMb / 1024, 7);
      DecimalRoundTrip(ramMb / 1024);
      var t := Decimal(ramMb / 1024) + "GB";
      assert t[..|t| - 2] == Decimal(ramMb / 1024);
    } else {
      DecimalLength(ramMb, 4);
      DecimalRoundTrip(ramMb);
      var t := Decimal(ramMb) + "MB";
      assert t[..|t| - 2] == Decimal(ramMb);
    }
  }

  function Pow10(k: nat): nat {
    if k == 0 then 1 else 10 * Pow10(k - 1)
  }

  lemma {:induction false} DecimalLength(n: nat, k: nat)
    requires 1 <= k && n < Pow10(k)
    ensures |Decimal(n)| <= k
    decreases k
  {
    if n >= 10 {
      assert k >= 2;
      assert n / 10 < Pow10(k - 1);
      DecimalLength(n / 10, k - 1);
    }
  }

  /** What som_default_environment reads besides the HWID fields. */
  datatype Startup = Startup(hwid: Hwid, raw: seq<Uint32>, cpuType: string, boot: BootDevice, ramMb: int)

  /** soc_type, mmcbootdev and module_variant. */
  function IdentityEnv(cfg: BoardConfig, env: map<string, string>, s: Startup): map<string, string> {
    env["soc_type" := SocType(s.cpuType)]["mmcbootdev" := Hex(BootDevIndex(cfg, s.boot))]
       ["module_variant" := VariantText(s.hwid.variant)]
  }

  /** module_ram, only for a self-describing HWID. */
  function RamEnv(env: map<string, string>, s: Startup): map<string, string> {
    if s.hwid.ram != 0 then env["module_ram" := RamText(s.ramMb)] else env
  }

  /** The environment after som_default_environment, step by step. */
  function SomEnv(cfg: BoardConfig, env: map<string, string>, s: Startup,
                  mmcBytes: Option<nat>, useFusedMacs: bool, failed: set<nat>): map<string, string>
    requires cfg.hwidWords <= |s.raw|
  {
    var e := PartitionEnv(cfg, RamEnv(HwidVars(IdentityEnv(cfg, env, s), s.raw, cfg.hwidWords), s),
                          CapacityGb(mmcBytes));
    if useFusedMacs then MacEnv(e, s.hwid, failed) else e
  }

  /** Every HWID variable name starts with "hwid_". */
  lemma HwidVarNamePrefix(i: nat)
    ensures |HwidVarName(i)| >= 5 && HwidVarName(i)[..5] == "hwid_"
  {
    var full := "hwid_" + Decimal(i);
    assert |full| >= 6;
    assert HwidVarName(i) <= full;
    assert full[..5] == "hwid_";
  }

  /** Setting the HWID variables leaves every other variable alone. */
  lemma {:induction false} HwidVarsKeeps(env: map<string, string>, raw: seq<Uint32>, n: nat, k: string)
    requires n <= |raw|
    requires |k| < 5 || k[..5] != "hwid_"
    ensures k in HwidVars(env, raw, n) <==> k in env
    ensures k in env ==> HwidVars(env, raw, n)[k] == env[k]
  {
    if n > 0 {
      HwidVarsKeeps(env, raw, n - 1, k);
      HwidVarNamePrefix(n - 1);
    }
  }

  /** A variable none of the later start-up steps writes. */
  predicate NotWrittenAfterIdentity(k: string) {
    && (|k| < 5 || k[..5] != "hwid_")
    && k != "module_ram" && k != "parts_linux" && k != "parts_android"
    && (forall i :: 0 <= i < 4 ==> k != MacVars()[i])
  }

  lemma IdentityVarsNotWrittenLater()
    ensures NotWrittenAfterIdentity("soc_type")
    ensures NotWrittenAfterIdentity("mmcbootdev")
    ensures NotWrittenAfterIdentity("module_variant")
  {
    assert "soc_type"[..5][0] == 's';
    assert "mmcbootdev"[..5][0] == 'm';
    assert "module_variant"[..5][0] == 'm';
    assert "soc_type"[0] != MacVars()[1][0] && "soc_type"[0] != MacVars()[2][0];
  }

  /** The steps after soc_type, mmcbootdev and module_variant leave those alone. */
  lemma LaterStepsKeep(cfg: BoardConfig, env: map<string, string>, s: Startup,
                       mmcBytes: Option<nat>, useFusedMacs: bool, failed: set<nat>, k: string)
    requires cfg.hwidWords <= |s.raw|
    requires NotWrittenAfterIdentity(k)
    ensures k in SomEnv(cfg, env, s, mmcBytes, useFusedMacs, failed) <==> k in IdentityEnv(cfg, env, s)
    ensures k in IdentityEnv(cfg, env, s) ==>
              SomEnv(cfg, env, s, mmcBytes, useFusedMacs, failed)[k] == IdentityEnv(cfg, env, s)[k]
  {
    var e0 := IdentityEnv(cfg, env, s);
    var e1 := HwidVars(e0, s.raw, cfg.hwidWords);
    HwidVarsKeeps(e0, s.raw, cfg.hwidWords, k);
    var e2 := RamEnv(e1, s);
    var e3 := PartitionEnv(cfg, e2, CapacityGb(mmcBytes));
    PartitionEnvMeaning(cfg, e2, CapacityGb(mmcBytes), k);
    if useFusedMacs && FusedMacsApply(s.hwid) {
      MacVarsUpToKeeps(e3, s.hwid, failed, NumMacs(s.hwid), k);
    }
  }

  /**
   * After start-up, soc_type, mmcbootdev and module_variant hold the values
   * derived from the CPU type, the boot device and the HWID.
   */
  lemma SomEnvIdentity(cfg: BoardConfig, env: map<string, string>, s: Startup,
                       mmcBytes: Option<nat>, useFusedMacs: bool, failed: set<nat>)
    requires cfg.hwidWords <= |s.raw|
    ensures "soc_type" in SomEnv(cfg, env, s, mmcBytes, useFusedMacs, failed)
    ensures SomEnv(cfg, env, s, mmcBytes, useFusedMacs, failed)["soc_type"] == SocType(s.cpuType)
    ensures "mmcbootdev" in SomEnv(cfg, env, s, mmcBytes, useFusedMacs, failed)
    ensures SomEnv(cfg, env, s, mmcBytes, useFusedMacs, failed)["mmcbootdev"] == Hex(BootDevIndex(cfg, s.boot))
    ensures "module_variant" in SomEnv(cfg, env, s, mmcBytes, useFusedMacs, failed)
    ensures SomEnv(cfg, env, s, mmcBytes, useFusedMacs, failed)["module_variant"] == VariantText(s.hwid.variant)
  {
    IdentityVarsNotWrittenLater();
    LaterStepsKeep(cfg, env, s, mmcBytes, useFusedMacs, failed, "soc_type");
    LaterStepsKeep(cfg, env, s, mmcBytes, useFusedMacs, failed, "mmcbootdev");
    LaterStepsKeep(cfg, env, s, mmcBytes, useFusedMacs, failed, "module_variant");
  }

  /** module_ram is written exactly when the HWID carries a RAM size; otherwise it keeps its value. */
  lemma SomEnvModuleRam(cfg: BoardConfig, env: map<string, string>, s: Startup,
                        mmcBytes: Option<nat>, useFusedMacs: bool, failed: set<nat>)
    requires cfg.hwidWords <= |s.raw|
    ensures s.hwid.ram != 0 ==> "module_ram" in SomEnv(cfg, env, s, mmcBytes, useFusedMacs, failed)
    ensures s.hwid.ram != 0 ==> SomEnv(cfg, env, s, mmcBytes, useFusedMacs, failed)["module_ram"] == RamText(s.ramMb)
    ensures s.hwid.ram == 0 ==> ("module_ram" in SomEnv(cfg, env, s, mmcBytes, useFusedMacs, failed) <==> "module_ram" in env)
    ensures s.hwid.ram == 0 && "module_ram" in env ==>
              SomEnv(cfg, env, s, mmcBytes, useFusedMacs, failed)["module_ram"] == env["module_ram"]
  {
    var k := "module_ram";
    assert k[..5][0] == 'm';
    var e0 := IdentityEnv(cfg, env, s);
    var e1 := HwidVars(e0, s.raw, cfg.hwidWords);
    HwidVarsKeeps(e0, s.raw, cfg.hwidWords, k);
    var e2 := RamEnv(e1, s);
    var e3 := PartitionEnv(cfg, e2, CapacityGb(mmcBytes));
    PartitionEnvMeaning(cfg, e2, CapacityGb(mmcBytes), k);
    if useFusedMacs && FusedMacsApply(s.hwid) {
      MacVarsUpToKeeps(e3, s.hwid, failed, NumMacs(s.hwid), k);
    }
  }

  /** The environment and the steps of start-up that change it. */
  class Board {
    const cfg: BoardConfig
    var env: map<string, string>

    constructor (cfg: BoardConfig, env0: map<string, string>)
      ensures this.cfg == cfg && env == env0
    {
      this.cfg := cfg;
      env := env0;
    }

    /** generate_partition_table: pick the tables by capacity, set the ones missing. */
    method GeneratePartitionTable(mmcBytes: Option<nat>)
      modifies this
      ensures env == PartitionEnv(cfg, old(env), CapacityGb(mmcBytes))
    {
      var gb := 0;
      if mmcBytes.Some? {
        gb := (mmcBytes.value / 0x4000_0000) % 0x1_0000_0000;
      }
      var linux, android;
      if gb >= 15 {
        linux, android := cfg.linux.gb16, cfg.android.gb16;
      } else if gb >= 7 {
        linux, android := cfg.linux.gb8, cfg.android.gb8;
      } else {
        linux, android := cfg.linux.gb4, cfg.android.gb4;
      }
      if "parts_linux" !in env {
        env := env["parts_linux" := linux];
      }
      if "parts_android" !in env {
        env := env["parts_android" := android];
      }
    }

    /**
     * get_macs_from_fuses. `failed` holds the indices whose setenv command
     * reports an error; the loop goes on after one.
     */
    method GetMacsFromFuses(h: Hwid, failed: set<nat>)
      modifies this
      ensures env == MacEnv(old(env), h, failed)
    {
      if (!HwidInDb(h) && h.ram == 0) || h.macPool == 0 {
        return;
      }
      var macaddr := new Uint8[6];
      var ret := SetMacFromPool(h.macPool, macaddr);
      if ret != 0 {
        return;
      }
      var nMacs := if HasWireless(h) then 4 else 2;
      if Add32(h.macBase, nMacs) > 0xff_ffff {
        return;
      }
      for i := 0 to nMacs
        invariant macaddr[..3] == MacPools()[h.macPool]
        invariant env == MacVarsUpTo(old(env), h, failed, i)
      {
        SetLowerMac(Add32(h.macBase, i), macaddr);
        assert macaddr[..] == MacFor(h, i);
        if i !in failed {
          env := env[MacVars()[i] := MacText(macaddr[..])];
        }
      }
    }

    /** The hwid_N variables, one per HWID word. */
    method SetHwidVars(raw: seq<Uint32>)
      requires cfg.hwidWords <= |raw|
      modifies this
      ensures env == HwidVars(old(env), raw, cfg.hwidWords)
    {
      for i := 0 to cfg.hwidWords
        invariant env == HwidVars(old(env), raw, i)
      {
        env := env[HwidVarName(i) := HexPad(raw[i], 8)];
      }
    }

    /** soc_type (lower-cased in place), mmcbootdev and module_variant. */
    method SetIdentityVars(s: Startup)
      modifies this
      ensures env == IdentityEnv(cfg, old(env), s)
    {
      var name := Truncate("imx8" + s.cpuType, 10);
      var buf := new char[|name|](i requires 0 <= i < |name| => name[i]);
      assert buf[..] == name;
      LowercaseInPlace(buf);
      env := env["soc_type" := buf[..]];
      env := env["mmcbootdev" := Hex(BootDevIndex(cfg, s.boot))];
      env := env["module_variant" := VariantText(s.hwid.variant)];
    }

    /**
     * som_default_environment, up to the MAC checks: soc_type, mmcbootdev,
     * module_variant, hwid_N, module_ram, the partition tables and, when
     * use_fused_macs says so, the fused MAC addresses.
     */
    method SomDefaultEnvironment(s: Startup, mmcBytes: Option<nat>, useFusedMacs: bool, failed: set<nat>)
      requires cfg.hwidWords <= |s.raw|
      modifies this
      ensures env == SomEnv(cfg, old(env), s, mmcBytes, useFusedMacs, failed)
    {
      SetIdentityVars(s);
      SetHwidVars(s.raw);
      if s.hwid.ram != 0 {
        env := env["module_ram" := RamText(s.ramMb)];
      }
      GeneratePartitionTable(mmcBytes);
      if useFusedMacs {
        GetMacsFromFuses(s.hwid, failed);
      }
    }
  }
}
