# U-Boot CAAM driver, ConnectCore 8X board start-up and `hwid` command in Dafny

This project models three pieces of the U-Boot tree for the Digi ConnectCore 8X
and proves properties about them.

- **The CAAM job-ring driver** (`drivers/crypto/fsl_caam.c`) is the class
  `CaamDriver.Caam`. Its state is:
  - the register file, as `map<Reg, bv32>`;
  - a log of bus events, made of register reads and writes, descriptor stores,
    ring stores and the blob clear;
  - the descriptor and ring buffers, as arrays.

  Its methods mirror `secmem_set_cmd_1`, `caam_decap_blob`, `caam_gen_blob`
  and `caam_open`. The values the hardware returns to polled reads are inputs.
  Each loop consumes them until the terminating value appears.
  `CaamSpec` holds the rest:
  - the spec functions those methods are proved against;
  - the header constants, as a `Platform` value with its stated assumptions;
  - the blob-descriptor encoding and its decoder;
  - `DMA_ALIGN`.
- **The board start-up logic** (`board/digi/ccimx8x/ccimx8x.c`) is module
  `Ccimx8x`:
  - the variant table and the capability lookups;
  - the MAC pools and the fused-MAC assembly;
  - the boot-device mapping and the partition-table choice;
  - the environment that `som_default_environment` builds, as the class
    `Board` over a `map<string, string>`.

  `Format` holds the printf conversions that the board code relies on:
  - `%x`, `%0Nx`, `%d` and `%pM`;
  - the `snprintf` truncation;
  - `tolower`.

  Each conversion is paired with a parser that reads it back.
- **The `hwid` command** (`board/digi/common/cmd_hwid.c`) is module `CmdHwid`.
  `DoHwid` returns three things:
  - the return code;
  - the fuse-driver calls made, in order;
  - the words printed.

  It is proved equal to the function `HwidCommand`, and the lemmas state what
  that function guarantees. Everything `do_hwid` calls but does not define is
  an input, a `Collaborators` value:
  - the fuse driver;
  - `strtou32`;
  - `manufstr_to_hwid`;
  - the confirmation prompt.

## Model

| member | source | states |
|---|---|---|
| CaamSpec.DmaAlign | drivers/crypto/fsl_caam.c:37 | DMA_ALIGN(x) is at most x and has the low bits below the (power-of-two) alignment clear |
| CaamSpec.DmaAlignGap | drivers/crypto/fsl_caam.c:37 | x - DMA_ALIGN(x) is less than the alignment |
| CaamSpec.EncodeBlobJob | drivers/crypto/fsl_caam.c:117-124 | a blob descriptor's first eight words; there are always eight |
| CaamSpec.DecodeEncode | drivers/crypto/fsl_caam.c:117-124 | reading an encoded descriptor back gives the job with its lengths cut to the 16-bit fields |
| CaamSpec.EncodeDecode | drivers/crypto/fsl_caam.c:183-190 | every word sequence with the blob-descriptor shape is the encoding of the job it decodes to |
| CaamSpec.BlobDescriptorsMirror | drivers/crypto/fsl_caam.c:117-124 | for the same operands the decap and encap descriptors swap input and output: decap reads the blob (BLOB_SIZE) and writes the plain text (data_size), encap the reverse |
| CaamSpec.BlobDescriptorsShareHead | drivers/crypto/fsl_caam.c:183-185 | both descriptors start with header 0xB0800008, the 16-byte key-modifier LOAD 0x14400010 and the key modifier |
| CaamSpec.CommandOfWithLength | drivers/crypto/fsl_caam.c:120 | setting a SEQ IN/OUT PTR length keeps the command half |
| CaamSpec.LengthOfWithLength | drivers/crypto/fsl_caam.c:122 | the length field holds the low 16 bits of the length |
| CaamSpec.JobResult | drivers/crypto/fsl_caam.c:146-157 | SUCCESS exactly when the echoed address is the submitted descriptor and no JOB_RING_STS bit is set, otherwise -1 |
| CaamSpec.FirstMatch | drivers/crypto/fsl_caam.c:140-141 | where a poll for a value stops: that value, and no earlier read was it |
| CaamSpec.FirstSettled | drivers/crypto/fsl_caam.c:95-100 | where the secure-memory poll stops: CMD_COMPLETE clear, and set in every earlier read |
| CaamSpec.WaitEvents | drivers/crypto/fsl_caam.c:205-206 | the wait for ORSFR0 makes one read per polled value up to the first 1 |
| CaamSpec.JobEventsProtocol | drivers/crypto/fsl_caam.c:128-161 | a job stores the address in the ring, writes IRJAR0 := 1, reads ORSFR0 until it reads 1 (never 1 before), then writes ORJRR0 := 1 once, last |
| CaamSpec.GenBlobClearsFirst | drivers/crypto/fsl_caam.c:178-190 | caam_gen_blob clears the BLOB_SIZE bytes of the blob first, once, before the encap descriptor stores |
| CaamSpec.DecapSubmitsAndReleases | drivers/crypto/fsl_caam.c:117-161 | after the descriptor stores, the ring slot gets decap_dsc; the slot is released once, last |
| CaamSpec.GenBlobSubmitsAndReleases | drivers/crypto/fsl_caam.c:181-225 | after the clear and the descriptor stores, the ring slot gets encap_dsc; the slot is released once, last |
| CaamSpec.PollReadsSnoc | drivers/crypto/fsl_caam.c:302-303 | each polled read extends the trace by that read |
| CaamSpec.OpenSkipsRng | drivers/crypto/fsl_caam.c:268 | with IF0 set in RDSTA, caam_open stops after the set-up |
| CaamSpec.OpenSkipsOrReleasesOnce | drivers/crypto/fsl_caam.c:268-331 | with IF0 set, caam_open touches no TRNG register, submits no job and never writes ORJRR0; otherwise it releases the slot once, last, whatever the job's result and the final RDSTA |
| CaamSpec.OpenStartsWithSetup | drivers/crypto/fsl_caam.c:240-264 | CCGR0 is written back with the three CAAM clock masks or'ed in, JRCFGR0_LS with the interrupt mask or'ed in |
| CaamSpec.OrMask | drivers/crypto/fsl_caam.c:241-243 | or-ing a mask sets its bits and keeps every other bit |
| CaamSpec.OpenProgramsRings | drivers/crypto/fsl_caam.c:255-260 | IRBAR0/ORBAR0 get the ring addresses and IRSR0/ORSR0 get JOB_RING_ENTRIES |
| CaamSpec.RunIsTrimWithoutPgm | drivers/crypto/fsl_caam.c:282-283 | the resume step's xor with PGM clears PGM, which the trim value has set |
| CaamSpec.RtmctlLeavesProgramMode | drivers/crypto/fsl_caam.c:270-291 | after the TRNG programming, RTMCTL has PGM clear and ERR written back |
| CaamSpec.TrimSetsPgm | drivers/crypto/fsl_caam.c:270-274 | the trim value keeps PGM set |
| CaamSpec.FinalSetsErr | drivers/crypto/fsl_caam.c:290-291 | the final RTMCTL write has ERR set |
| CaamSpec.SetupRegsEnablesClocks | drivers/crypto/fsl_caam.c:240-244 | after the set-up, CCGR0 is its old value or'ed with the CAAM clocks |
| CaamSpec.SetupRegsMasksInterrupt | drivers/crypto/fsl_caam.c:263-264 | after the set-up, JRCFGR0_LS is its old value or'ed with JRCFG_LS_IMSK |
| CaamSpec.SetupRegsProgramsRings | drivers/crypto/fsl_caam.c:255-260 | the ring base and size registers hold the ring addresses and JOB_RING_ENTRIES |
| CaamSpec.SetupRegsKeepsOthers | drivers/crypto/fsl_caam.c:240-264 | the set-up changes no other register |
| CaamSpec.RngRegsFinishJob | drivers/crypto/fsl_caam.c:270-331 | after the RNG branch, the last value written to RTMCTL is RtmctlFinal (PGM clear, ERR set), IRJAR0 and ORJRR0 were last written 1, ORSFR0 was last read as 1, and RDSTA is what the accelerator reported |
| CaamSpec.RngRegsKeepsOthers | drivers/crypto/fsl_caam.c:270-331 | the RNG branch changes no other register |
| CaamSpec.OpenRegsSkip | drivers/crypto/fsl_caam.c:268 | with IF0 set, caam_open changes only the set-up registers, and RDSTA keeps its value |
| CaamSpec.OpenRegsRng | drivers/crypto/fsl_caam.c:268-331 | otherwise RDSTA ends as the job reported, the last value written to RTMCTL is RtmctlFinal, and ORJRR0 was written 1 |
| CaamDriver.Caam.constructor | drivers/crypto/fsl_caam.c:41-83 | the descriptor images as loaded and zeroed rings |
| CaamDriver.Caam.SecmemSetCmd | drivers/crypto/fsl_caam.c:91-101 | writes the command to SMCJR0 once and returns the first polled status with CMD_COMPLETE clear |
| CaamDriver.Caam.WaitForOneJob | drivers/crypto/fsl_caam.c:140-141 | reads ORSFR0 until it reads 1, logging each read |
| CaamDriver.Caam.WriteBlobDescriptor | drivers/crypto/fsl_caam.c:117-124 | words 0-7 become the job's encoding and word 8 is unchanged |
| CaamDriver.Caam.SubmitJob | drivers/crypto/fsl_caam.c:128-137 | the input slot gets the descriptor address, then IRJAR0 := 1 |
| CaamDriver.Caam.CheckOutputRing | drivers/crypto/fsl_caam.c:146-157 | the result is JobResult of the output ring's two words |
| CaamDriver.Caam.ReleaseJob | drivers/crypto/fsl_caam.c:161 | ORJRR0 := 1 |
| CaamDriver.Caam.CollectJob | drivers/crypto/fsl_caam.c:140-161 | waits for ORSFR0 to read 1, returns JobResult of the two output-ring words and releases the slot |
| CaamDriver.Caam.RunJob | drivers/crypto/fsl_caam.c:128-161 | submit, wait, check, release: the registers, rings and log after one job |
| CaamDriver.Caam.DecapBlob | drivers/crypto/fsl_caam.c:112-164 | decap_dsc holds the decap encoding; rings, registers and log are those of JobEvents after the descriptor stores |
| CaamDriver.Caam.GenBlob | drivers/crypto/fsl_caam.c:174-228 | encap_dsc holds the encap encoding; the log is the clear, the stores, then the job |
| CaamDriver.Caam.SetUpJobRing | drivers/crypto/fsl_caam.c:240-268 | the registers become SetupRegs and the set-up events are logged; returns RDSTA |
| CaamDriver.Caam.EnterTrngProgramMode | drivers/crypto/fsl_caam.c:270-274 | RTMCTL becomes PGM with the oscillator divider |
| CaamDriver.Caam.SetTrngDelays | drivers/crypto/fsl_caam.c:277-279 | RTSDCTL, RTFRQMIN and RTFRQMAX get the entropy-delay values |
| CaamDriver.Caam.ResumeTrngRunMode | drivers/crypto/fsl_caam.c:282-291 | RTMCTL gets PGM toggled, then ERR written back |
| CaamDriver.Caam.ProgramTrng | drivers/crypto/fsl_caam.c:270-291 | the registers become TrngRegs and TrngEvents are logged |
| CaamDriver.Caam.InstantiateRng | drivers/crypto/fsl_caam.c:295-331 | runs rng_inst_dsc through the ring and reads RDSTA back |
| CaamDriver.Caam.InitRng | drivers/crypto/fsl_caam.c:268-331 | TRNG programming followed by the instantiation job |
| CaamDriver.Caam.Open | drivers/crypto/fsl_caam.c:234-333 | registers become OpenRegs and the log grows by OpenEvents; the rings change only in the RNG branch |
| Format.DigitChar | board/digi/ccimx8x/ccimx8x.c:356 | the digit printf writes reads back as its value |
| Format.ValueOfDigits | board/digi/ccimx8x/ccimx8x.c:356 | the digits of n read back as n |
| Format.HexLength | board/digi/ccimx8x/ccimx8x.c:365 | a value below 16^k has at most k hex digits |
| Format.HexRoundTrip | board/digi/ccimx8x/ccimx8x.c:356 | %x reads back |
| Format.HexPadRoundTrip | board/digi/ccimx8x/ccimx8x.c:365 | %0Nx reads back |
| Format.HexPadWord | board/digi/ccimx8x/ccimx8x.c:365 | %08x of a 32-bit word is exactly 8 characters, so it fits hex_val[9] |
| Format.HexPadByte | board/digi/ccimx8x/ccimx8x.c:360 | %02x of a byte is exactly 2 characters |
| Format.DecimalRoundTrip | board/digi/ccimx8x/ccimx8x.c:374-377 | %d reads back, negative values included |
| Format.DecimalInjective | board/digi/ccimx8x/ccimx8x.c:364 | different values print differently under %d |
| Format.JoinLayout | board/digi/ccimx8x/ccimx8x.c:295-302 | colon-joined two-character groups: group k at 3k, a colon after every group but the last |
| Format.MacTextLayout | board/digi/ccimx8x/ccimx8x.c:295-302 | %pM is 17 characters, byte k at 3k as two hex digits, colons between |
| Format.MacByteOfText | board/digi/ccimx8x/ccimx8x.c:295-302 | each byte of %pM reads back |
| Format.MacRoundTrip | board/digi/ccimx8x/ccimx8x.c:295-302 | %pM reads back to the six bytes |
| Format.Truncate | board/digi/ccimx8x/ccimx8x.c:349 | snprintf into a buffer of size n keeps a prefix of at most n - 1 characters, and everything when it fits |
| Format.ToLowerMeaning | board/digi/ccimx8x/ccimx8x.c:350-351 | ASCII case folding: 'A'..'Z' become 'a'..'z', every other character is left alone |
| Format.LowerIdempotent | board/digi/ccimx8x/ccimx8x.c:350-351 | lowering twice is lowering once |
| Format.DigitsLowerCase | board/digi/ccimx8x/ccimx8x.c:356 | printf's hex digits are lower case |
| Format.LowerKeepsHex | board/digi/ccimx8x/ccimx8x.c:356 | tolower leaves %x output unchanged |
| Ccimx8x.Variants | board/digi/ccimx8x/ccimx8x.c:37-116 | the variant table has 12 rows |
| Ccimx8x.HwidInDbExactly | board/digi/ccimx8x/ccimx8x.c:160-167 | hwid_in_db holds exactly for variants 0x01-0x0B |
| Ccimx8x.WirelessByVariant | board/digi/ccimx8x/ccimx8x.c:180-190 | without a RAM field, wireless comes from the table for known variants (1, 2, 4, 8, 11 have it) and is assumed for unknown ones |
| Ccimx8x.BluetoothFollowsWireless | board/digi/ccimx8x/ccimx8x.c:180-202 | in the table-driven case every variant has Bluetooth exactly when it has wireless |
| Ccimx8x.EnvLocation | board/digi/ccimx8x/ccimx8x.c:118-151 | SD2 boot: device 1, partition 0; MMC1 boot: device 0, partition 2; otherwise the configured device and partition |
| Ccimx8x.TableForThresholds | board/digi/ccimx8x/ccimx8x.c:254-263 | 16GB table from 15 GB, 8GB from 7 to 14 GB, 4GB below 7 GB (or no MMC) |
| Ccimx8x.TableForMonotone | board/digi/ccimx8x/ccimx8x.c:254-263 | a bigger eMMC never gets a smaller table |
| Ccimx8x.SetIfAbsentMeaning | board/digi/ccimx8x/ccimx8x.c:265-269 | a variable that exists keeps its value, a missing one gets the default, the rest of the environment is unchanged |
| Ccimx8x.PartitionEnvMeaning | board/digi/ccimx8x/ccimx8x.c:242-270 | parts_linux and parts_android end up set, only where absent, to the chosen table; nothing else changes |
| Ccimx8x.MacPools | board/digi/ccimx8x/ccimx8x.c:28-31 | three three-byte entries, index 0 unused |
| Ccimx8x.PoolThreeSlipsThrough | board/digi/ccimx8x/ccimx8x.c:276 | the guard as written lets pool 3 through although the table has no entry 3 |
| Ccimx8x.PoolAcceptedExactly | board/digi/ccimx8x/ccimx8x.c:276 | the corrected guard accepts exactly pools 1 and 2, which index the table; it differs from the written guard only at 3 |
| Ccimx8x.SetMacFromPool | board/digi/ccimx8x/ccimx8x.c:274-284 | with the corrected guard (see Findings): a rejected pool returns -EINVAL and leaves mac alone; otherwise mac[0..2] is the pool's OUI, mac[3..5] untouched |
| Ccimx8x.LowerBytesReassemble | board/digi/ccimx8x/ccimx8x.c:286-293 | the three bytes put back together give val modulo 2^24 |
| Ccimx8x.SetLowerMac | board/digi/ccimx8x/ccimx8x.c:286-293 | mac[3..5] gets bits 23-16, 15-8 and 7-0 of val; mac[0..2] is untouched |
| Ccimx8x.MacVarsDistinct | board/digi/ccimx8x/ccimx8x.c:330-335 | ethaddr, eth1addr, wlanaddr and btaddr are different names |
| Ccimx8x.MacVarsUpToSets | board/digi/ccimx8x/ccimx8x.c:329-335 | every address variable whose set did not fail holds the pool OUI with the low bytes of mac_base + i, whatever failed before it |
| Ccimx8x.MacVarsUpToKeeps | board/digi/ccimx8x/ccimx8x.c:329-335 | a variable the loop does not set keeps its presence and value |
| Ccimx8x.MacEnvUnchanged | board/digi/ccimx8x/ccimx8x.c:310-328 | unknown HWID without RAM field, pool 0, a pool the corrected guard rejects, or mac_base + n_macs above 0xffffff in uint32_t: no variable changes |
| Ccimx8x.MacInPool | board/digi/ccimx8x/ccimx8x.c:325-328 | with a 24-bit mac_base and under the overflow guard, mac_base + i stays within 24 bits and its three low bytes reassemble to it |
| Ccimx8x.FusedMacInPool | board/digi/ccimx8x/ccimx8x.c:322-335 | address i is the pool's OUI followed by mac_base + i |
| Ccimx8x.FusedMacsDistinct | board/digi/ccimx8x/ccimx8x.c:322-335 | the fused addresses are pairwise different, for every mac_base: the uint32_t sums are fewer than 2^24 apart, so their low 24 bits differ |
| Ccimx8x.LowerBytesOfSum | board/digi/ccimx8x/ccimx8x.c:330 | the bytes set_lower_mac takes from the uint32_t sum mac_base + i are the low 24 bits of the true sum |
| Ccimx8x.LowercaseInPlace | board/digi/ccimx8x/ccimx8x.c:349-350 | the buffer becomes its lower-case version |
| Ccimx8x.SocTypeMeaning | board/digi/ccimx8x/ccimx8x.c:348-351 | soc_type starts with "imx8", fits the buffer and is lower case; for short type names it is "imx8" + the lowered name |
| Ccimx8x.VariantTextRoundTrip | board/digi/ccimx8x/ccimx8x.c:359-360 | module_variant is "0x" and two hex digits that read back as the variant |
| Ccimx8x.HwidVarNamesDistinct | board/digi/ccimx8x/ccimx8x.c:363-367 | hwid_0 .. hwid_9 are different names |
| Ccimx8x.HwidVarsMeaning | board/digi/ccimx8x/ccimx8x.c:363-367 | hwid_i holds word i as eight hex digits that read back as the word |
| Ccimx8x.HwidVarNamePrefix | board/digi/ccimx8x/ccimx8x.c:364 | every HWID variable name starts with "hwid_" |
| Ccimx8x.HwidVarsKeeps | board/digi/ccimx8x/ccimx8x.c:363-367 | setting the HWID variables changes no other variable |
| Ccimx8x.RamTextMeaning | board/digi/ccimx8x/ccimx8x.c:370-380 | module_ram is whole GB with "GB" from 1024 MB on and "MB" below; the number reads back |
| Ccimx8x.DecimalLength | board/digi/ccimx8x/ccimx8x.c:374-377 | a value below 10^k prints in at most k digits, so module_ram fits its buffer |
| Ccimx8x.IdentityVarsNotWrittenLater | board/digi/ccimx8x/ccimx8x.c:351-360 | soc_type, mmcbootdev and module_variant are none of the variables the later steps write |
| Ccimx8x.LaterStepsKeep | board/digi/ccimx8x/ccimx8x.c:362-390 | the HWID, RAM, partition and MAC steps leave such a variable alone |
| Ccimx8x.SomEnvIdentity | board/digi/ccimx8x/ccimx8x.c:348-360 | after start-up soc_type, mmcbootdev and module_variant hold the values derived from CPU type, boot device and HWID |
| Ccimx8x.SomEnvModuleRam | board/digi/ccimx8x/ccimx8x.c:370-380 | module_ram is written exactly when the HWID has a RAM field, otherwise it keeps its value |
| Ccimx8x.Board.GeneratePartitionTable | board/digi/ccimx8x/ccimx8x.c:242-270 | the environment becomes PartitionEnv for the eMMC capacity |
| Ccimx8x.Board.GetMacsFromFuses | board/digi/ccimx8x/ccimx8x.c:304-336 | the environment becomes MacEnv, with the corrected pool guard: the loop sets the address variables one by one |
| Ccimx8x.Board.SetHwidVars | board/digi/ccimx8x/ccimx8x.c:363-367 | the environment becomes HwidVars |
| Ccimx8x.Board.SetIdentityVars | board/digi/ccimx8x/ccimx8x.c:348-360 | soc_type (lowered in place), mmcbootdev and module_variant are set |
| Ccimx8x.Board.SomDefaultEnvironment | board/digi/ccimx8x/ccimx8x.c:338-391 | the environment becomes SomEnv: identity, HWID, RAM, partition and MAC steps in source order |
| CmdHwid.RunShape | board/digi/common/cmd_hwid.c:100-107 | the calls are the planned ones in order; a failing call is last and its code is returned; a bad argument returns usage after the earlier calls; 0 means every step ran and succeeded |
| CmdHwid.Reversed | board/digi/common/cmd_hwid.c:37-38 | element k of the result is element N - 1 - k |
| CmdHwid.UsageTouchesNothing | board/digi/common/cmd_hwid.c:62-63 | fewer than two arguments or an unknown operation: usage, no fuse call |
| CmdHwid.ArgumentWindow | board/digi/common/cmd_hwid.c:56-67 | confirmed iff argv[2] is "-y"; the value arguments start at 2 + confirmed |
| CmdHwid.StopsAtFirstError | board/digi/common/cmd_hwid.c:168-170 | every call but the last succeeded, and a failing last call's code is returned |
| CmdHwid.ProgWritesHighWordFirst | board/digi/common/cmd_hwid.c:91-108 | the k-th call is fuse_prog (prog) or fuse_override (override) of the k-th value argument into word START + N - 1 - k of the HWID bank |
| CmdHwid.BadValueStopsWithUsage | board/digi/common/cmd_hwid.c:100-106 | a value that does not parse at argument i returns usage with exactly the i earlier words written |
| CmdHwid.ManufWritesLowWordFirst | board/digi/common/cmd_hwid.c:109-150 | the k-th call is fuse_prog (prog_manuf) or fuse_override (override_manuf) of val[k] into word START + k of the HWID bank |
| CmdHwid.ReadVisitsAscending | board/digi/common/cmd_hwid.c:69-90 | the k-th call is fuse_read (read, read_manuf) or fuse_sense (sense, sense_manuf) of word START + k of the HWID bank |
| CmdHwid.ReadPrintsHighWordFirst | board/digi/common/cmd_hwid.c:33-40 | a successful read prints the word of index N - 1 first, down to index 0 |
| CmdHwid.DeclinedPromptWritesNothing | board/digi/common/cmd_hwid.c:91-115 | prog, prog_manuf and lock without -y and with the prompt declined touch no fuse; once the prompt is reached (lock; prog with enough arguments; prog_manuf with a decodable string) they return CMD_RET_FAILURE |
| CmdHwid.OverrideNeverAsks | board/digi/common/cmd_hwid.c:123-150 | the prompt's answer does not change override or override_manuf |
| CmdHwid.LockProgramsOnce | board/digi/common/cmd_hwid.c:151-161 | a confirmed lock makes one fuse_prog of the lock value to the lock bank and word and returns its status |
| CmdHwid.ReadWords | board/digi/common/cmd_hwid.c:69-90 | the ascending loop makes the run of ReadSteps and fills val[0..N) with the words read |
| CmdHwid.ProgWords | board/digi/common/cmd_hwid.c:97-107 | the descending loop makes the run of ProgSteps |
| CmdHwid.ManufWords | board/digi/common/cmd_hwid.c:116-121 | the ascending loop makes the run of ManufSteps over val |
| CmdHwid.PrintHwid | board/digi/common/cmd_hwid.c:33-40 | the downward loop prints val[0..N) reversed |
| CmdHwid.DoHwid | board/digi/common/cmd_hwid.c:53-171 | return code, fuse calls and printed words are those of HwidCommand |

## Left out

- Cache maintenance (`flush_dcache_range`, `invalidate_dcache_range`) has no value the model could observe. The blob flush at drivers/crypto/fsl_caam.c:198 ends its range from `g_input_ring` rather than from `blob`. That range is not modelled.
- The cryptographic blob transform is done by the accelerator. The model can state what the descriptors ask for, but not a seal/unseal round trip.
- The contents of `rng_inst_dsc` are left out. It is only submitted, never rewritten.
- Diagnostics are left out: `printf`/`debug` output and the register reads inside them (drivers/crypto/fsl_caam.c:306-328). These branches only print, which `OpenSkipsOrReleasesOnce` reflects.
- The accelerator is modelled as a response value `JobResponse`/`RngResponse`: the polled ORSFR0 values and the two output-ring words it writes. The RDSTA value read after instantiation is part of the same response.
- The unbounded polling loops assume that the polled sequence contains the terminating value. The source has no timeout.
- Header constants whose values are not in these files are fields of `Platform`: BLOB_SIZE overhead, JOB_RING_STS, RDSTA_IF0, CMD_COMPLETE, the RTMCTL bits, the clock masks, ARCH_DMA_MINALIGN and the descriptor images. `Platform.Valid` states what the driver relies on, for example a power-of-two alignment.
- `CaamDriver.Caam.regs` records, for each register, the last value the driver wrote to it or read from it. It is a log of bus traffic, not the device's register contents. Reads of RTMCTL at drivers/crypto/fsl_caam.c:273, 282 and 290 are modelled as returning the last value written. Write-one-to-clear bits (RTMCTL ERR), the add and remove strobes IRJAR0 and ORJRR0, and the counter ORSFR0 are not modelled as device behaviour.
- CaamSpec.RngRegsFinishJob: "RTMCTL is RtmctlFinal" means the last value written to RTMCTL, with ERR set as a clear request. The value the device holds afterwards is not modelled, and likewise for IRJAR0, ORSFR0 and ORJRR0.
- CaamSpec.OpenRegsRng: RTMCTL and ORJRR0 are the last values written, as for RngRegsFinishJob. The device's contents after caam_open are not modelled.
- CaamSpec.DmaAlign: states "a multiple of the alignment" as "the low bits below the alignment are clear". That is the same for a power of two, but is not written as a remainder.
- CaamDriver.Caam.WriteBlobDescriptor: logs the eight stores as one block of events and does not interleave them with the array writes.
- `ccimx8_init`, `board_updated_hwid`, `reset_cpu`, `reset_misc`, `fdt_fixup_ccimx8x`, `print_ccimx8x_info` and `detail_board_ddr_info` are hardware, MCA, FDT or console code.
- `env_set_macaddr_forced` and `run_command` are left out. A failed `setenv` is modelled as the set of address indices in `failed`.
- `verify_mac_address` is foreign and is not modelled.
- `env_get_yesno("use_fused_macs")` is the boolean input `useFusedMacs`. It stands for "the result is nonzero" (board/digi/ccimx8x/ccimx8x.c:389). `env_get_yesno` returns -1 for an unset variable, so `useFusedMacs` is also true when `use_fused_macs` is unset. The environment lookup itself is not modelled.
- `get_imx8_type` and `hwid_get_ramsize` are inputs of `Startup`.
- The raw HWID words are an input sequence instead of a cast of `my_hwid`.
- The `id_string` column of the variant table is descriptive text and is not modelled.
- Format.ToLowerMeaning: only ASCII case folding over characters is modelled. U-Boot's `tolower` (linux/ctype.h over lib/ctype.c, which is not part of this model) works on bytes and also lowers the Latin-1 capitals 0xC0-0xDE except 0xD7. The CPU type names are ASCII, so this does not change `soc_type`.
- The capability bits of a variant are two booleans (wireless, Bluetooth). `board_has_*` returning nonzero is modelled as `true`.
- `mmcbootdev` is set directly. The model does not build the `setenv -f` command string and run it.
- Ccimx8x.HwidVarsMeaning: stated for at most ten HWID words, whose names have a single digit. The distinctness of longer names is not proved.
- Ccimx8x.RamTextMeaning: stated for RAM sizes whose text fits the 10-byte buffer.
- Ccimx8x.SetMacFromPool: models the corrected guard `pool >= ARRAY_SIZE(mac_pools)` (see Findings). For pool 3, the source's guard at board/digi/ccimx8x/ccimx8x.c:276 passes and the copy reads past `mac_pools`, which has no defined value to model. The model returns -EINVAL instead.
- Ccimx8x.MacEnvUnchanged: "a rejected pool" is the corrected guard. For mac_pool = 3 the source goes on to set the address variables from an out-of-bounds OUI. The model leaves the environment unchanged.
- Ccimx8x.Board.GetMacsFromFuses: uses MacEnv, and so the corrected pool guard. It does not model the source's pool-3 path.
- Ccimx8x.MacInPool: assumes that mac_base itself fits in 24 bits. The source's guard at board/digi/ccimx8x/ccimx8x.c:325 only bounds mac_base + n_macs modulo 2^32, so a mac_base near 2^32 can pass it with mac_base + i above 0xffffff. Ccimx8x.FusedMacsDistinct needs no such bound.
- Ccimx8x.FusedMacInPool: assumes that mac_base itself fits in 24 bits. The source's guard only bounds mac_base + n_macs modulo 2^32.
- board/digi/common/cmd_pmic.c is not part of this model. It is a loop over external PMIC register accessors with console output.
- The fuse driver (`fuse_read`, `fuse_sense`, `fuse_prog`, `fuse_override`), `strtou32`, `confirm_prog` and `manufstr_to_hwid` are answers in `Collaborators`. The fuse bank is not modelled as state: the command is modelled by the calls it makes.
- `val` in do_hwid is `u32 val[8]` (board/digi/common/cmd_hwid.c:59). With CONFIG_HWID_WORDS_NUMBER above 8, the source's loops write past it. That limit is the source's own, so every `CmdHwid` member requires `cfg.words <= VAL_WORDS`.
- When `manufstr_to_hwid` returns fewer than eight words, the rest of `val` reads as 0. In C it would be uninitialised.
- `board_print_hwid` and `board_print_manufid` are `__weak` (board/digi/common/cmd_hwid.c:33-45). The model uses their default bodies: both print the words from index CONFIG_HWID_WORDS_NUMBER-1 down. A board that overrides them is not modelled.
- `printf`/`puts` output of the `hwid` command is reduced to the words printed, in print order, not their `" %.8x"` text.
- The `U_BOOT_CMD` registration is not modelled.

## Findings

| source | as written | input that shows it | evidently intended | confidence | as-written member | corrected member |
|---|---|---|---|---|---|---|
| board/digi/ccimx8x/ccimx8x.c:276 | `set_mac_from_pool` rejects `pool > ARRAY_SIZE(mac_pools)`, so it accepts pool 3 | mac_pool = 3 in the HWID: the guard passes and `mac_pools[3]` is read past the three-entry table | reject `pool >= ARRAY_SIZE(mac_pools)`, so that only pools 1 and 2 are accepted | not executed | Ccimx8x.PoolThreeSlipsThrough | Ccimx8x.PoolAcceptedExactly, Ccimx8x.SetMacFromPool |
