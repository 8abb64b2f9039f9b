/**
 * Pure part of the CAAM (Cryptographic Acceleration and Assurance Module)
 * job-ring driver: the platform constants it is built with, the registers
 * and bus events it produces, DMA alignment, the blob descriptor format and
 * the event traces that the driver's operations must produce.
 */
module CaamSpec {
  import opened Wrappers

  /** The memory-mapped registers the driver touches (CCGR0 lives in the clock controller). */
  datatype Reg =
    | CCGR0        // clock gating register 0
    | IRBAR0       // input ring base address
    | ORBAR0       // output ring base address
    | IRSR0        // input ring size
    | ORSR0        // output ring size
    | IRJAR0       // input ring jobs added
    | ORSFR0       // output ring slots full
    | ORJRR0       // output ring jobs removed
    | JRCFGR0_LS   // job ring configuration, low word
    | RDSTA        // RNG state-handle status
    | RTMCTL       // TRNG miscellaneous control
    | RTSDCTL      // TRNG seed control
    | RTFRQMIN     // TRNG frequency count minimum
    | RTFRQMAX     // TRNG frequency count maximum
    | SMCJR0       // secure memory command
    | SMCSJR0      // secure memory command status

  /**
   * Addresses of the driver's statically allocated buffers, as the address
   * casts `(uint32_t)g_input_ring` etc. yield them.
   */
  datatype Layout = Layout(
    inputRing: bv32,
    outputRing: bv32,
    decapDsc: bv32,
    encapDsc: bv32,
    rngInstDsc: bv32)

  /** Build-time constants of memory handling and the return code. */
  datatype MemConsts = MemConsts(
    dmaMinAlign: bv32,        // ARCH_DMA_MINALIGN
    blobOverhead: bv32,       // BLOB_SIZE(x) - x
    success: bv32)            // SUCCESS

  /** Job-ring constants. */
  datatype RingConsts = RingConsts(
    entries: bv32,            // JOB_RING_ENTRIES
    sts: bv32,                // JOB_RING_STS: error bits of an output-ring status word
    imsk: bv32)               // JRCFG_LS_IMSK: job ring interrupt mask

  /** The CAAM clock gates in CCGR0. */
  datatype ClockMasks = ClockMasks(
    secureMem: bv32,          // MXC_CCM_CCGR0_CAAM_SECURE_MEM_MASK
    wrapperAclk: bv32,        // MXC_CCM_CCGR0_CAAM_WRAPPER_ACLK_MASK
    wrapperIpg: bv32)         // MXC_CCM_CCGR0_CAAM_WRAPPER_IPG_MASK

  /** Status bits the driver tests. */
  datatype StatusBits = StatusBits(
    cmdComplete: bv32,        // CMD_COMPLETE bit of SMCSJR0
    rdstaIf0: bv32,           // RDSTA_IF0: state handle 0 instantiated
    rdstaSkvn: bv32)          // RDSTA_SKVN: secure key valid

  /** TRNG control bits and trim values. */
  datatype TrngConsts = TrngConsts(
    pgm: bv32,                // RTMCTL_PGM: TRNG program mode
    err: bv32,                // RTMCTL_ERR: TRNG error flag (write 1 to clear)
    oscDiv: bv32,             // RNG_TRIM_OSC_DIV
    entDly: bv32)             // RNG_TRIM_ENT_DLY

  /** The initial contents of decap_dsc and encap_dsc. */
  datatype DescImages = DescImages(
    decap: seq<bv32>,         // DECAP_BLOB_DESC1..9
    encap: seq<bv32>)         // ENCAP_BLOB_DESC1..9

  /**
   * Constants that come from headers outside this model, kept as parameters
   * and grouped by what they are about.
   */
  datatype Platform = Platform(
    mem: MemConsts,
    ring: RingConsts,
    clocks: ClockMasks,
    bits: StatusBits,
    trng: TrngConsts,
    images: DescImages,
    layout: Layout)
  {
    /** What the driver assumes of the constants it is compiled with. */
    predicate Valid() {
      && IsPowerOfTwo(mem.dmaMinAlign)
      && 1 <= ring.entries
      && mem.success != FAILED
      && |images.decap| == DESC_WORDS && |images.encap| == DESC_WORDS
    }

    /** The three CAAM clock-gate masks or'ed together, as caam_open sets them. */
    function CaamClocks(): bv32 {
      clocks.secureMem | clocks.wrapperAclk | clocks.wrapperIpg
    }
  }

  /** Length of each of the three descriptor images. */
  const DESC_WORDS: nat := 9

  /** The `-1` a blob operation returns on failure, as a uint32_t. */
  const FAILED: bv32 := 0xFFFF_FFFF

  /** A power of two: exactly one bit set. */
  predicate IsPowerOfTwo(a: bv32) {
    a != 0 && a & (a - 1) == 0
  }

  // ---------------------------------------------------------------------
  // Bit-level facts, one per lemma
  // ---------------------------------------------------------------------

  /** Every bit of `m` is set in `v`. */
  predicate HasBits(v: bv32, m: bv32) {
    v & m == m
  }

  /** No bit of `m` is set in `v`. */
  predicate NoBits(v: bv32, m: bv32) {
    v & m == 0
  }

  /** `v` and `w` agree on every bit outside `m`. */
  predicate SameOutside(v: bv32, w: bv32, m: bv32) {
    v & !m == w & !m
  }

  /** Or-ing a mask into a word sets every bit of the mask ... */
  lemma OrSetsMask(v: bv32, m: bv32)
    ensures HasBits(v | m, m)
  {}

  lemma OrSetsMaskLeft(m: bv32, v: bv32)
    ensures HasBits(m | v, m)
  {}

  /** ... and leaves every bit outside the mask as it was. */
  lemma OrKeepsOthers(v: bv32, m: bv32)
    ensures SameOutside(v | m, v, m)
  {}

  /** Exclusive-or with bits that are all set clears them and keeps the rest. */
  lemma XorClearsSetBits(t: bv32, p: bv32)
    requires HasBits(t, p)
    ensures t ^ p == t & !p
  {}

  lemma AndNotClears(t: bv32, p: bv32)
    ensures NoBits(t & !p, p)
  {}

  /** Or-ing in bits disjoint from `p` keeps `p` clear. */
  lemma OrDisjointKeepsClear(r: bv32, p: bv32, e: bv32)
    requires NoBits(r, p) && NoBits(p, e)
    ensures NoBits(r | e, p)
  {}

  lemma LowBitsDifference(x: bv32, m: bv32)
    ensures x - (x & !m) == x & m
  {}

  lemma LowBitsBelow(x: bv32, a: bv32)
    requires IsPowerOfTwo(a)
    ensures x & (a - 1) < a
  {}

  // ---------------------------------------------------------------------
  // DMA_ALIGN
  // ---------------------------------------------------------------------

  /**
   * DMA_ALIGN: clears the bits of an address below the DMA alignment, so the
   * result is the alignment boundary at or below `x`: it is not above `x`
   * and has no bit below the alignment set, i.e. it is a multiple of it.
   */
  function DmaAlign(x: bv32, align: bv32): (r: bv32)
    requires IsPowerOfTwo(align)
    ensures r <= x
    ensures r & (align - 1) == 0
  {
    x & !(align - 1)
  }

  /** DMA_ALIGN moves an address down by less than the alignment. */
  lemma DmaAlignGap(x: bv32, align: bv32)
    requires IsPowerOfTwo(align)
    ensures x - DmaAlign(x, align) < align
  {
    LowBitsDifference(x, align - 1);
    LowBitsBelow(x, align);
  }

  /** BLOB_SIZE in 32-bit unsigned arithmetic. */
  function BlobSize(plat: Platform, dataSize: bv32): bv32 {
    dataSize + plat.mem.blobOverhead
  }

  // ---------------------------------------------------------------------
  // Blob descriptors
  // ---------------------------------------------------------------------

  /** Descriptor header: a job descriptor of 8 words. */
  const BLOB_HEADER: bv32 := 0xB080_0008
  /** LOAD command: a 16-byte key modifier, whose address is the next word. */
  const LOAD_KEY_MODIFIER: bv32 := 0x1440_0010
  /** SEQ IN PTR command; the low 16 bits hold the input length. */
  const SEQ_IN_PTR: bv32 := 0xF000_0000
  /** SEQ OUT PTR command; the low 16 bits hold the output length. */
  const SEQ_OUT_PTR: bv32 := 0xF800_0000
  /** OPERATION command: blob decapsulation protocol. */
  const OP_DECAP_BLOB: bv32 := 0x860D_0000
  /** OPERATION command: blob encapsulation protocol. */
  const OP_ENCAP_BLOB: bv32 := 0x870D_0000

  /** The 16-bit length field of a SEQ IN/OUT PTR word. */
  function LengthOf(w: bv32): bv32 {
    w & 0xFFFF
  }

  /** The command half of a SEQ IN/OUT PTR word. */
  function CommandOf(w: bv32): bv32 {
    w & 0xFFFF_0000
  }

  /** A SEQ IN/OUT PTR word: the command with the low 16 bits of `n` as length. */
  function WithLength(cmd: bv32, n: bv32): bv32 {
    cmd | LengthOf(n)
  }

  lemma CommandOfWithLength(cmd: bv32, n: bv32)
    requires LengthOf(cmd) == 0
    ensures CommandOf(WithLength(cmd, n)) == cmd
  {}

  lemma LengthOfWithLength(cmd: bv32, n: bv32)
    requires LengthOf(cmd) == 0
    ensures LengthOf(WithLength(cmd, n)) == LengthOf(n)
  {}

  /** A word is its command half with its own length field. */
  lemma WithLengthOfWord(w: bv32)
    ensures WithLength(CommandOf(w), w) == w
  {}

  datatype BlobOp = Encapsulate | Decapsulate

  /** The operands of a blob job: what the accelerator reads and what it writes. */
  datatype BlobJob = BlobJob(
    op: BlobOp,
    keyModifier: bv32,
    input: bv32,
    inputLen: bv32,
    output: bv32,
    outputLen: bv32)

  /** The first eight words of a blob descriptor for `j`; lengths are cut to 16 bits. */
  function EncodeBlobJob(j: BlobJob): (ws: seq<bv32>)
    ensures |ws| == DESC_WORDS - 1
  {
    [ BLOB_HEADER, LOAD_KEY_MODIFIER, j.keyModifier,
      WithLength(SEQ_IN_PTR, j.inputLen), j.input,
      WithLength(SEQ_OUT_PTR, j.outputLen), j.output,
      if j.op == Decapsulate then OP_DECAP_BLOB else OP_ENCAP_BLOB ]
  }

  /** Reads a blob job back out of eight descriptor words, if they have the blob shape. */
  function DecodeBlobJob(ws: seq<bv32>): Option<BlobJob> {
    if && |ws| == DESC_WORDS - 1
       && ws[0] == BLOB_HEADER && ws[1] == LOAD_KEY_MODIFIER
       && CommandOf(ws[3]) == SEQ_IN_PTR
       && CommandOf(ws[5]) == SEQ_OUT_PTR
       && (ws[7] == OP_DECAP_BLOB || ws[7] == OP_ENCAP_BLOB)
    then
      Some(BlobJob(if ws[7] == OP_DECAP_BLOB then Decapsulate else Encapsulate,
                   ws[2], ws[4], LengthOf(ws[3]), ws[6], LengthOf(ws[5])))
    else
      None
  }

  /** Decoding an encoded job gives the job back, with its lengths cut to the 16-bit fields. */
  lemma DecodeEncode(j: BlobJob)
    ensures DecodeBlobJob(EncodeBlobJob(j))
            == Some(j.(inputLen := LengthOf(j.inputLen), outputLen := LengthOf(j.outputLen)))
  {
    CommandOfWithLength(SEQ_IN_PTR, j.inputLen);
    CommandOfWithLength(SEQ_OUT_PTR, j.outputLen);
    LengthOfWithLength(SEQ_IN_PTR, j.inputLen);
    LengthOfWithLength(SEQ_OUT_PTR, j.outputLen);
  }

  /** Every well-formed blob descriptor is the encoding of the job it decodes to. */
  lemma EncodeDecode(ws: seq<bv32>)
    requires DecodeBlobJob(ws).Some?
    ensures EncodeBlobJob(DecodeBlobJob(ws).value) == ws
  {
    var j := DecodeBlobJob(ws).value;
    assert j == BlobJob(if ws[7] == OP_DECAP_BLOB then Decapsulate else Encapsulate,
                        ws[2], ws[4], LengthOf(ws[3]), ws[6], LengthOf(ws[5]));
    WithLengthOfWord(ws[3]);
    WithLengthOfWord(ws[5]);
    assert ws == [ws[0], ws[1], ws[2], ws[3], ws[4], ws[5], ws[6], ws[7]];
  }

  /** The job caam_decap_blob describes: read the blob, write the plain text. */
  function DecapJob(plat: Platform, plainText: bv32, blob: bv32, keyModifier: bv32, dataSize: bv32): BlobJob {
    BlobJob(Decapsulate, keyModifier, blob, BlobSize(plat, dataSize), plainText, dataSize)
  }

  /** The job caam_gen_blob describes: read the plain data, write the blob. */
  function EncapJob(plat: Platform, plainData: bv32, blob: bv32, keyModifier: bv32, dataSize: bv32): BlobJob {
    BlobJob(Encapsulate, keyModifier, plainData, dataSize, blob, BlobSize(plat, dataSize))
  }

  /**
   * For the same operands the two descriptors share their first three
   * words and swap input and output: the blob, BLOB_SIZE long, is what
   * decapsulation reads and what encapsulation writes.
   */
  lemma BlobDescriptorsMirror(plat: Platform, plain: bv32, blob: bv32, keyModifier: bv32, dataSize: bv32)
    ensures var d := DecodeBlobJob(EncodeBlobJob(DecapJob(plat, plain, blob, keyModifier, dataSize)));
            var e := DecodeBlobJob(EncodeBlobJob(EncapJob(plat, plain, blob, keyModifier, dataSize)));
            && d.Some? && e.Some?
            && d.value.op == Decapsulate && e.value.op == Encapsulate
            && d.value.keyModifier == e.value.keyModifier == keyModifier
            && d.value.input == e.value.output == blob
            && d.value.inputLen == e.value.outputLen == LengthOf(BlobSize(plat, dataSize))
            && d.value.output == e.value.input == plain
            && d.value.outputLen == e.value.inputLen == LengthOf(dataSize)
  {
    DecodeEncode(DecapJob(plat, plain, blob, keyModifier, dataSize));
    DecodeEncode(EncapJob(plat, plain, blob, keyModifier, dataSize));
  }

  /** The two descriptors have the same first three words. */
  lemma BlobDescriptorsShareHead(plat: Platform, plain: bv32, blob: bv32, keyModifier: bv32, dataSize: bv32)
    ensures EncodeBlobJob(DecapJob(plat, plain, blob, keyModifier, dataSize))[..3]
            == EncodeBlobJob(EncapJob(plat, plain, blob, keyModifier, dataSize))[..3]
            == [BLOB_HEADER, LOAD_KEY_MODIFIER, keyModifier]
  {}

  // ---------------------------------------------------------------------
  // Job result
  // ---------------------------------------------------------------------

  /** The status word reports an error: some JOB_RING_STS bit is set. */
  predicate JobFailed(plat: Platform, status: bv32) {
    status & plat.ring.sts != 0
  }

  /**
   * What a blob operation returns, given the two output-ring words the
   * accelerator wrote and the descriptor address that was submitted.
   */
  function JobResult(plat: Platform, echoed: bv32, status: bv32, submitted: bv32): (ret: bv32)
    requires plat.mem.success != FAILED
    ensures ret == plat.mem.success <==> echoed == submitted && !JobFailed(plat, status)
    ensures ret != plat.mem.success ==> ret == FAILED
  {
    if echoed == submitted && !JobFailed(plat, status) then plat.mem.success else FAILED
  }

  // ---------------------------------------------------------------------
  // Polled reads
  // ---------------------------------------------------------------------

  /** `v` occurs in `s`: a loop polling until the register reads `v` ends. */
  predicate Ends(s: seq<bv32>, v: bv32) {
    exists i :: 0 <= i < |s| && s[i] == v
  }

  /** Index of the first `v` in `s`: where a loop polling for `v` stops. */
  function FirstMatch(s: seq<bv32>, v: bv32): (k: nat)
    requires Ends(s, v)
    ensures k < |s| && s[k] == v
    ensures forall j :: 0 <= j < k ==> s[j] != v
    decreases |s|
  {
    if s[0] == v then 0
    else
      assert Ends(s[1..], v) by {
        var i :| 0 <= i < |s| && s[i] == v;
        assert s[1..][i - 1] == s[i];
      }
      1 + FirstMatch(s[1..], v)
  }

  /** A value of the secure-memory status register with CMD_COMPLETE set. */
  predicate CmdBitSet(plat: Platform, v: bv32) {
    v & plat.bits.cmdComplete != 0
  }

  /** Some value in `s` has CMD_COMPLETE clear: the secure-memory poll ends. */
  predicate SettlesIn(plat: Platform, s: seq<bv32>) {
    exists i :: 0 <= i < |s| && !CmdBitSet(plat, s[i])
  }

  /** Index of the first value in `s` with CMD_COMPLETE clear. */
  function FirstSettled(plat: Platform, s: seq<bv32>): (k: nat)
    requires SettlesIn(plat, s)
    ensures k < |s| && !CmdBitSet(plat, s[k])
    ensures forall j :: 0 <= j < k ==> CmdBitSet(plat, s[j])
    decreases |s|
  {
    if !CmdBitSet(plat, s[0]) then 0
    else
      assert SettlesIn(plat, s[1..]) by {
        var i :| 0 <= i < |s| && !CmdBitSet(plat, s[i]);
        assert s[1..][i - 1] == s[i];
      }
      1 + FirstSettled(plat, s[1..])
  }

  // ---------------------------------------------------------------------
  // Events
  // ---------------------------------------------------------------------

  datatype Desc = DecapDesc | EncapDesc

  /** What the driver does on the bus, in program order. */
  datatype Event =
    | RegWrite(reg: Reg, val: bv32)               // __raw_writel
    | RegRead(reg: Reg, val: bv32)                // __raw_readl
    | DescStore(desc: Desc, index: nat, val: bv32) // a word of decap_dsc / encap_dsc
    | RingStore(index: nat, val: bv32)            // a word of g_input_ring
    | BlobClear(addr: bv32, len: bv32)            // memset(blob, 0, len)

  /** The reads a polling loop on `r` makes when the register returns `vs`. */
  function PollReads(r: Reg, vs: seq<bv32>): (t: seq<Event>) {
    seq(|vs|, i requires 0 <= i < |vs| => RegRead(r, vs[i]))
  }

  /** One more polled read extends the trace by that read. */
  lemma PollReadsSnoc(r: Reg, vs: seq<bv32>, i: nat)
    requires i < |vs|
    ensures PollReads(r, vs[..i + 1]) == PollReads(r, vs[..i]) + [RegRead(r, vs[i])]
  {}

  /** The stores that fill the first words of a descriptor with `ws`. */
  function DescStores(d: Desc, ws: seq<bv32>): seq<Event> {
    seq(|ws|, i requires 0 <= i < |ws| => DescStore(d, i, ws[i]))
  }

  /** A write to ORJRR0, the output ring's jobs-removed register. */
  predicate WritesOrjrr(e: Event) {
    e.RegWrite? && e.reg == ORJRR0
  }

  /** `t` ends with the release write and writes ORJRR0 nowhere else. */
  predicate ReleasedOnceLast(t: seq<Event>) {
    && |t| > 0 && t[|t| - 1] == RELEASE
    && forall i :: 0 <= i < |t| - 1 ==> !WritesOrjrr(t[i])
  }

  /** Polling ORSFR0 until it reads exactly one completed job. */
  function WaitEvents(polls: seq<bv32>): (t: seq<Event>)
    requires Ends(polls, 1)
    ensures |t| == FirstMatch(polls, 1) + 1
  {
    PollReads(ORSFR0, polls[..FirstMatch(polls, 1) + 1])
  }

  /** The write that removes the finished job from the output ring. */
  const RELEASE: Event := RegWrite(ORJRR0, 1)

  /**
   * One job on the single-entry ring: put the descriptor address in the
   * input slot, add one job, wait for ORSFR0 == 1 and remove the job.
   */
  function JobEvents(addr: bv32, polls: seq<bv32>): seq<Event>
    requires Ends(polls, 1)
  {
    [RingStore(0, addr), RegWrite(IRJAR0, 1)] + WaitEvents(polls) + [RELEASE]
  }

  /**
   * The ring protocol: the descriptor address is stored, then IRJAR0 gets 1,
   * then ORSFR0 is read until it reads exactly 1 (every earlier read was not 1),
   * then ORJRR0 gets 1, exactly once.
   */
  lemma JobEventsProtocol(addr: bv32, polls: seq<bv32>)
    requires Ends(polls, 1)
    ensures var t := JobEvents(addr, polls);
            && |t| >= 4
            && t[0] == RingStore(0, addr) && t[1] == RegWrite(IRJAR0, 1)
            && t[|t| - 2] == RegRead(ORSFR0, 1)
            && (forall i :: 2 <= i < |t| - 2 ==> t[i].RegRead? && t[i].reg == ORSFR0 && t[i].val != 1)
            && ReleasedOnceLast(t)
  {
    var k := FirstMatch(polls, 1);
    var w := WaitEvents(polls);
    var t := JobEvents(addr, polls);
    forall i | 2 <= i < |t| - 2
      ensures t[i].RegRead? && t[i].reg == ORSFR0 && t[i].val != 1
    {
      assert t[i] == w[i - 2] == RegRead(ORSFR0, polls[i - 2]);
    }
    assert t[|t| - 2] == w[k] == RegRead(ORSFR0, polls[k]);
    forall i | 0 <= i < |t| - 1 ensures !WritesOrjrr(t[i]) {
      if 2 <= i {
        assert t[i] == w[i - 2];
      }
    }
  }

  /** caam_decap_blob: rewrite decap_dsc[0..8], then run the job. */
  function DecapEvents(plat: Platform, plainText: bv32, blob: bv32, keyModifier: bv32, dataSize: bv32, polls: seq<bv32>): seq<Event>
    requires Ends(polls, 1)
  {
    DescStores(DecapDesc, EncodeBlobJob(DecapJob(plat, plainText, blob, keyModifier, dataSize)))
    + JobEvents(plat.layout.decapDsc, polls)
  }

  /** caam_gen_blob: clear the blob, rewrite encap_dsc[0..8], then run the job. */
  function GenBlobEvents(plat: Platform, plainData: bv32, blob: bv32, keyModifier: bv32, dataSize: bv32, polls: seq<bv32>): seq<Event>
    requires Ends(polls, 1)
  {
    [BlobClear(blob, BlobSize(plat, dataSize))]
    + DescStores(EncapDesc, EncodeBlobJob(EncapJob(plat, plainData, blob, keyModifier, dataSize)))
    + JobEvents(plat.layout.encapDsc, polls)
  }

  /**
   * caam_gen_blob clears the whole blob (BLOB_SIZE bytes) before it writes
   * any descriptor word or ring slot, and clears it only that once.
   */
  lemma GenBlobClearsFirst(plat: Platform, plainData: bv32, blob: bv32, keyModifier: bv32, dataSize: bv32, polls: seq<bv32>)
    requires Ends(polls, 1)
    ensures var t := GenBlobEvents(plat, plainData, blob, keyModifier, dataSize, polls);
            && t[0] == BlobClear(blob, BlobSize(plat, dataSize))
            && (forall i :: 1 <= i < |t| ==> !t[i].BlobClear?)
            && (forall i :: 1 <= i < DESC_WORDS ==> t[i].DescStore? && t[i].desc == EncapDesc)
  {
    var t := GenBlobEvents(plat, plainData, blob, keyModifier, dataSize, polls);
    var ds := DescStores(EncapDesc, EncodeBlobJob(EncapJob(plat, plainData, blob, keyModifier, dataSize)));
    var w := WaitEvents(polls);
    var je := JobEvents(plat.layout.encapDsc, polls);
    assert t == [t[0]] + ds + je;
    forall i | 1 <= i < |t| ensures !t[i].BlobClear? {
      if i < 1 + |ds| {
        assert t[i] == ds[i - 1];
      } else if i < 3 + |ds| || i == |t| - 1 {
      } else {
        assert t[i] == w[i - 3 - |ds|];
      }
    }
    forall i | 1 <= i < DESC_WORDS ensures t[i].DescStore? && t[i].desc == EncapDesc {
      assert t[i] == ds[i - 1];
    }
  }

  /**
   * caam_decap_blob puts decap_dsc's address on the ring right after the
   * eight descriptor words and releases the slot exactly once, last.
   */
  lemma DecapSubmitsAndReleases(plat: Platform, plain: bv32, blob: bv32, keyModifier: bv32, dataSize: bv32, polls: seq<bv32>)
    requires Ends(polls, 1)
    ensures var d := DecapEvents(plat, plain, blob, keyModifier, dataSize, polls);
            && d[DESC_WORDS - 1] == RingStore(0, plat.layout.decapDsc)
            && ReleasedOnceLast(d)
  {
    var ws := EncodeBlobJob(DecapJob(plat, plain, blob, keyModifier, dataSize));
    var w := WaitEvents(polls);
    NoReleaseInPolls(ORSFR0, polls[..FirstMatch(polls, 1) + 1]);
    NoReleaseInDescStores(DecapDesc, ws);
    var ring := [RingStore(0, plat.layout.decapDsc), RegWrite(IRJAR0, 1)];
    NoReleaseAppend(DescStores(DecapDesc, ws), ring);
    NoReleaseAppend(DescStores(DecapDesc, ws) + ring, w);
    var pre := DescStores(DecapDesc, ws) + ring + w;
    assert DecapEvents(plat, plain, blob, keyModifier, dataSize, polls) == pre + [RELEASE];
    ReleasedOnceLastOfAppend(pre);
  }

  /**
   * caam_gen_blob puts encap_dsc's address on the ring right after the
   * clear and the eight descriptor words, and releases the slot exactly
   * once, last.
   */
  lemma GenBlobSubmitsAndReleases(plat: Platform, plain: bv32, blob: bv32, keyModifier: bv32, dataSize: bv32, polls: seq<bv32>)
    requires Ends(polls, 1)
    ensures var g := GenBlobEvents(plat, plain, blob, keyModifier, dataSize, polls);
            && g[DESC_WORDS] == RingStore(0, plat.layout.encapDsc)
            && ReleasedOnceLast(g)
  {
    var ws := EncodeBlobJob(EncapJob(plat, plain, blob, keyModifier, dataSize));
    var w := WaitEvents(polls);
    NoReleaseInPolls(ORSFR0, polls[..FirstMatch(polls, 1) + 1]);
    NoReleaseInDescStores(EncapDesc, ws);
    var clear := [BlobClear(blob, BlobSize(plat, dataSize))];
    var ring := [RingStore(0, plat.layout.encapDsc), RegWrite(IRJAR0, 1)];
    NoReleaseAppend(clear, DescStores(EncapDesc, ws));
    NoReleaseAppend(clear + DescStores(EncapDesc, ws), ring);
    NoReleaseAppend(clear + DescStores(EncapDesc, ws) + ring, w);
    var pre := clear + DescStores(EncapDesc, ws) + ring + w;
    assert GenBlobEvents(plat, plain, blob, keyModifier, dataSize, polls) == pre + [RELEASE];
    ReleasedOnceLastOfAppend(pre);
  }

  // ---------------------------------------------------------------------
  // secmem_set_cmd_1
  // ---------------------------------------------------------------------

  /** Write the command once, then read SMCSJR0 until CMD_COMPLETE reads clear. */
  function SecmemEvents(plat: Platform, cmd: bv32, polls: seq<bv32>): seq<Event>
    requires SettlesIn(plat, polls)
  {
    [RegWrite(SMCJR0, cmd)] + PollReads(SMCSJR0, polls[..FirstSettled(plat, polls) + 1])
  }

  // ---------------------------------------------------------------------
  // caam_open
  // ---------------------------------------------------------------------

  /** The RNG instantiation job: the accelerator's answer and RDSTA read afterwards. */
  datatype RngResponse = RngResponse(polls: seq<bv32>, echoed: bv32, status: bv32, rdsta: bv32)

  /*
   * The read-modify-write steps of caam_open, each applied to the value read
   * back from the register.
   */

  /** CCGR0 with the three CAAM clock gates switched on. */
  function WithClocks(plat: Platform, v: bv32): bv32 {
    v | plat.CaamClocks()
  }

  /** JRCFGR0_LS with the job-ring interrupt masked. */
  function WithRingIrqMasked(plat: Platform, v: bv32): bv32 {
    v | plat.ring.imsk
  }

  /** RTMCTL with the oscillator divider or'ed in at bit 2. */
  function WithOscDiv(plat: Platform, v: bv32): bv32 {
    v | (plat.trng.oscDiv << 2)
  }

  /** RTMCTL with the PGM bit toggled. */
  function TogglePgm(plat: Platform, v: bv32): bv32 {
    v ^ plat.trng.pgm
  }

  /** RTMCTL with the ERR bit written back (write one to clear). */
  function WithErr(plat: Platform, v: bv32): bv32 {
    v | plat.trng.err
  }

  /** RTMCTL after the OSC_DIV step: program mode with the oscillator divider set. */
  function RtmctlTrim(plat: Platform): bv32 {
    WithOscDiv(plat, plat.trng.pgm)
  }

  /** RTMCTL after the run-mode step, which toggles the PGM bit of the value read back. */
  function RtmctlRun(plat: Platform): bv32 {
    TogglePgm(plat, RtmctlTrim(plat))
  }

  /** RTMCTL after the ERR bit is written back to clear it. */
  function RtmctlFinal(plat: Platform): bv32 {
    WithErr(plat, RtmctlRun(plat))
  }

  /** RTSDCTL: the entropy delay in the upper half, 0x09C4 as sample size. */
  function RtsdctlDelay(plat: Platform): bv32 {
    (plat.trng.entDly << 16) | 0x09C4
  }

  /** RTFRQMIN: half the entropy delay. */
  function RtfrqMin(plat: Platform): bv32 {
    plat.trng.entDly >> 1
  }

  /** RTFRQMAX: sixteen times the entropy delay, in 32 bits. */
  function RtfrqMax(plat: Platform): bv32 {
    plat.trng.entDly << 4
  }

  /** Clock, ring and interrupt set-up, up to and including the RDSTA check. */
  function SetupEvents(plat: Platform, ccgr0: bv32, jrcfg: bv32, rdsta: bv32): seq<Event> {
    [ RegRead(CCGR0, ccgr0), RegWrite(CCGR0, WithClocks(plat, ccgr0)),
      RegWrite(IRBAR0, plat.layout.inputRing), RegWrite(ORBAR0, plat.layout.outputRing),
      RegWrite(IRSR0, plat.ring.entries), RegWrite(ORSR0, plat.ring.entries),
      RegRead(JRCFGR0_LS, jrcfg), RegWrite(JRCFGR0_LS, WithRingIrqMasked(plat, jrcfg)),
      RegRead(RDSTA, rdsta) ]
  }

  /** TRNG programming, from entering program mode to clearing ERR. */
  function TrngEvents(plat: Platform): seq<Event> {
    TrngProgramEvents(plat) + TrngDelayEvents(plat) + TrngRunEvents(plat)
  }

  /** Enter program mode, then set the oscillator divider. */
  function TrngProgramEvents(plat: Platform): seq<Event> {
    [ RegWrite(RTMCTL, plat.trng.pgm),
      RegRead(RTMCTL, plat.trng.pgm), RegWrite(RTMCTL, RtmctlTrim(plat)) ]
  }

  /** Entropy delay and frequency-count limits. */
  function TrngDelayEvents(plat: Platform): seq<Event> {
    [ RegWrite(RTSDCTL, RtsdctlDelay(plat)),
      RegWrite(RTFRQMIN, RtfrqMin(plat)),
      RegWrite(RTFRQMAX, RtfrqMax(plat)) ]
  }

  /** Resume run mode, then clear ERR. */
  function TrngRunEvents(plat: Platform): seq<Event> {
    [ RegRead(RTMCTL, RtmctlTrim(plat)), RegWrite(RTMCTL, RtmctlRun(plat)),
      RegRead(RTMCTL, RtmctlRun(plat)), RegWrite(RTMCTL, RtmctlFinal(plat)) ]
  }

  /** TRNG programming and the RNG instantiation job. */
  function RngEvents(plat: Platform, rng: RngResponse): seq<Event>
    requires Ends(rng.polls, 1)
  {
    TrngEvents(plat) + RngJobEvents(plat, rng)
  }

  /** The RNG instantiation job: submit, wait, read RDSTA back, release. */
  function RngJobEvents(plat: Platform, rng: RngResponse): seq<Event>
    requires Ends(rng.polls, 1)
  {
    [RingStore(0, plat.layout.rngInstDsc), RegWrite(IRJAR0, 1)]
    + WaitEvents(rng.polls)
    + [RegRead(RDSTA, rng.rdsta), RELEASE]
  }

  /** The RNG is already instantiated when RDSTA has IF0 set. */
  predicate RngInstantiated(plat: Platform, rdsta: bv32) {
    rdsta & plat.bits.rdstaIf0 == plat.bits.rdstaIf0
  }

  /** The whole of caam_open, from the values CCGR0, JRCFGR0_LS and RDSTA hold when it starts. */
  function OpenEvents(plat: Platform, ccgr0: bv32, jrcfg: bv32, rdsta: bv32, rng: RngResponse): seq<Event>
    requires !RngInstantiated(plat, rdsta) ==> Ends(rng.polls, 1)
  {
    SetupEvents(plat, ccgr0, jrcfg, rdsta)
    + if RngInstantiated(plat, rdsta) then [] else RngEvents(plat, rng)
  }

  /** Events that program the TRNG or use the job ring. */
  predicate RngOrJob(e: Event) {
    || (e.RegWrite? && e.reg in {RTMCTL, RTSDCTL, RTFRQMIN, RTFRQMAX, IRJAR0, ORJRR0})
    || e.RingStore?
  }

  /** No event of `t` writes ORJRR0. */
  predicate NoRelease(t: seq<Event>) {
    forall i :: 0 <= i < |t| ==> !WritesOrjrr(t[i])
  }

  lemma ReleasedOnceLastOfAppend(pre: seq<Event>)
    requires NoRelease(pre)
    ensures ReleasedOnceLast(pre + [RELEASE])
  {
    var t := pre + [RELEASE];
    forall i | 0 <= i < |t| - 1 ensures !WritesOrjrr(t[i]) {
      assert t[i] == pre[i];
    }
  }

  lemma NoReleaseInPolls(r: Reg, vs: seq<bv32>)
    ensures NoRelease(PollReads(r, vs))
  {}

  lemma NoReleaseInDescStores(d: Desc, ws: seq<bv32>)
    ensures NoRelease(DescStores(d, ws))
  {}

  lemma NoReleaseInSetup(plat: Platform, ccgr0: bv32, jrcfg: bv32, rdsta: bv32)
    ensures NoRelease(SetupEvents(plat, ccgr0, jrcfg, rdsta))
  {}

  lemma NoReleaseInTrngProgram(plat: Platform)
    ensures NoRelease(TrngProgramEvents(plat))
  {}

  lemma NoReleaseInTrngDelay(plat: Platform)
    ensures NoRelease(TrngDelayEvents(plat))
  {}

  lemma NoReleaseInTrngRun(plat: Platform)
    ensures NoRelease(TrngRunEvents(plat))
  {}

  lemma NoReleaseInTrngSteps(plat: Platform)
    ensures NoRelease(TrngProgramEvents(plat))
    ensures NoRelease(TrngDelayEvents(plat))
    ensures NoRelease(TrngRunEvents(plat))
  {
    NoReleaseInTrngProgram(plat);
    NoReleaseInTrngDelay(plat);
    NoReleaseInTrngRun(plat);
  }

  lemma NoReleaseInTrng(plat: Platform)
    ensures NoRelease(TrngEvents(plat))
  {
    NoReleaseInTrngSteps(plat);
    NoReleaseAppend(TrngProgramEvents(plat), TrngDelayEvents(plat));
    NoReleaseAppend(TrngProgramEvents(plat) + TrngDelayEvents(plat), TrngRunEvents(plat));
  }

  lemma NoReleaseAppend(a: seq<Event>, b: seq<Event>)
    requires NoRelease(a) && NoRelease(b)
    ensures NoRelease(a + b)
  {
    forall i | 0 <= i < |a + b| ensures !WritesOrjrr((a + b)[i]) {
      if i >= |a| {
        assert (a + b)[i] == b[i - |a|];
      }
    }
  }

  /** The events of the RNG branch release the ring slot once, last. */
  lemma RngEventsReleaseLast(plat: Platform, ccgr0: bv32, jrcfg: bv32, rdsta: bv32, rng: RngResponse)
    requires Ends(rng.polls, 1)
    ensures ReleasedOnceLast(SetupEvents(plat, ccgr0, jrcfg, rdsta) + RngEvents(plat, rng))
  {
    RngJobReleasesLast(plat, rng);
    NoReleaseInTrng(plat);
    ReleasedOnceLastPrefix(TrngEvents(plat), RngJobEvents(plat, rng));
    NoReleaseInSetup(plat, ccgr0, jrcfg, rdsta);
    ReleasedOnceLastPrefix(SetupEvents(plat, ccgr0, jrcfg, rdsta), RngEvents(plat, rng));
  }

  lemma RngJobReleasesLast(plat: Platform, rng: RngResponse)
    requires Ends(rng.polls, 1)
    ensures ReleasedOnceLast(RngJobEvents(plat, rng))
  {
    var w := WaitEvents(rng.polls);
    var mid := [RingStore(0, plat.layout.rngInstDsc), RegWrite(IRJAR0, 1)];
    var last := [RegRead(RDSTA, rng.rdsta)];
    NoReleaseInPolls(ORSFR0, rng.polls[..FirstMatch(rng.polls, 1) + 1]);
    NoReleaseAppend(mid, w);
    NoReleaseAppend(mid + w, last);
    assert RngJobEvents(plat, rng) == mid + w + last + [RELEASE];
    ReleasedOnceLastOfAppend(mid + w + last);
  }

  /** Events without an ORJRR0 write in front keep the release once and last. */
  lemma ReleasedOnceLastPrefix(a: seq<Event>, b: seq<Event>)
    requires NoRelease(a) && ReleasedOnceLast(b)
    ensures ReleasedOnceLast(a + b)
  {
    var t := a + b;
    assert t[|t| - 1] == b[|b| - 1];
    forall i | 0 <= i < |t| - 1 ensures !WritesOrjrr(t[i]) {
      if i >= |a| {
        assert t[i] == b[i - |a|];
      }
    }
  }

  /** With IF0 already set, caam_open stops after the set-up events. */
  lemma OpenSkipsRng(plat: Platform, ccgr0: bv32, jrcfg: bv32, rdsta: bv32, rng: RngResponse)
    requires RngInstantiated(plat, rdsta)
    ensures OpenEvents(plat, ccgr0, jrcfg, rdsta, rng) == SetupEvents(plat, ccgr0, jrcfg, rdsta)
  {}

  lemma SetupNotRngOrJob(plat: Platform, ccgr0: bv32, jrcfg: bv32, rdsta: bv32)
    ensures var s := SetupEvents(plat, ccgr0, jrcfg, rdsta);
            forall i :: 0 <= i < |s| ==> !RngOrJob(s[i])
  {}

  /**
   * When RDSTA already has IF0, caam_open writes no TRNG register, submits
   * no job and never writes ORJRR0; otherwise it releases the slot exactly
   * once, as its last action, whatever the job's outcome and the final RDSTA.
   */
  lemma OpenSkipsOrReleasesOnce(plat: Platform, ccgr0: bv32, jrcfg: bv32, rdsta: bv32, rng: RngResponse)
    requires !RngInstantiated(plat, rdsta) ==> Ends(rng.polls, 1)
    ensures var t := OpenEvents(plat, ccgr0, jrcfg, rdsta, rng);
            && (RngInstantiated(plat, rdsta) ==> forall i :: 0 <= i < |t| ==> !RngOrJob(t[i]))
            && (!RngInstantiated(plat, rdsta) ==> ReleasedOnceLast(t))
  {
    if RngInstantiated(plat, rdsta) {
      OpenSkipsRng(plat, ccgr0, jrcfg, rdsta, rng);
      SetupNotRngOrJob(plat, ccgr0, jrcfg, rdsta);
    } else {
      RngEventsReleaseLast(plat, ccgr0, jrcfg, rdsta, rng);
    }
  }

  /**
   * Whichever branch it then takes, caam_open writes CCGR0 back with the
   * three CAAM clock masks or'ed in, and JRCFGR0_LS with the interrupt mask
   * or'ed in (OrMask: those bits set, every other bit kept).
   */
  lemma OpenStartsWithSetup(plat: Platform, ccgr0: bv32, jrcfg: bv32, rdsta: bv32, rng: RngResponse)
    requires !RngInstantiated(plat, rdsta) ==> Ends(rng.polls, 1)
    ensures var t := OpenEvents(plat, ccgr0, jrcfg, rdsta, rng);
            && |t| >= 9
            && t[1] == RegWrite(CCGR0, ccgr0 | plat.CaamClocks())
            && t[7] == RegWrite(JRCFGR0_LS, jrcfg | plat.ring.imsk)
  {
    var t := OpenEvents(plat, ccgr0, jrcfg, rdsta, rng);
    var s := SetupEvents(plat, ccgr0, jrcfg, rdsta);
    assert t[..9] == s;
  }

  /**
   * Or-ing in a mask sets the mask's bits and keeps all others: what the
   * read-modify-write of CCGR0 and JRCFGR0_LS does to the register.
   */
  lemma OrMask(v: bv32, m: bv32)
    ensures HasBits(v | m, m) && SameOutside(v | m, v, m)
  {
    OrSetsMask(v, m);
    OrKeepsOthers(v, m);
  }

  /** caam_open programs both rings with their addresses and JOB_RING_ENTRIES as size. */
  lemma OpenProgramsRings(plat: Platform, ccgr0: bv32, jrcfg: bv32, rdsta: bv32, rng: RngResponse)
    requires !RngInstantiated(plat, rdsta) ==> Ends(rng.polls, 1)
    ensures var t := OpenEvents(plat, ccgr0, jrcfg, rdsta, rng);
            t[2..6] == [ RegWrite(IRBAR0, plat.layout.inputRing), RegWrite(ORBAR0, plat.layout.outputRing),
                         RegWrite(IRSR0, plat.ring.entries), RegWrite(ORSR0, plat.ring.entries) ]
  {}

  lemma TrimSetsPgm(plat: Platform)
    ensures HasBits(RtmctlTrim(plat), plat.trng.pgm)
  {
    OrSetsMaskLeft(plat.trng.pgm, plat.trng.oscDiv << 2);
  }

  lemma RunIsTrimWithoutPgm(plat: Platform)
    ensures RtmctlRun(plat) == RtmctlTrim(plat) & !plat.trng.pgm
  {
    TrimSetsPgm(plat);
    XorClearsSetBits(RtmctlTrim(plat), plat.trng.pgm);
  }

  lemma RunClearsPgm(plat: Platform)
    ensures NoBits(RtmctlRun(plat), plat.trng.pgm)
  {
    RunIsTrimWithoutPgm(plat);
    AndNotClears(RtmctlTrim(plat), plat.trng.pgm);
  }

  lemma FinalKeepsPgmClear(plat: Platform)
    requires NoBits(plat.trng.pgm, plat.trng.err)
    ensures NoBits(RtmctlFinal(plat), plat.trng.pgm)
  {
    RunClearsPgm(plat);
    OrDisjointKeepsClear(RtmctlRun(plat), plat.trng.pgm, plat.trng.err);
  }

  lemma FinalSetsErr(plat: Platform)
    ensures HasBits(RtmctlFinal(plat), plat.trng.err)
  {
    OrSetsMask(RtmctlRun(plat), plat.trng.err);
  }

  /**
   * The run-mode step toggles PGM with an exclusive or. PGM is set in the
   * value it reads back, so the toggle clears it and keeps the other bits;
   * the ERR write afterwards sets ERR and, as long as ERR and PGM are
   * different bits, keeps the TRNG out of program mode.
   */
  lemma RtmctlLeavesProgramMode(plat: Platform)
    requires NoBits(plat.trng.pgm, plat.trng.err)
    ensures RtmctlRun(plat) == RtmctlTrim(plat) & !plat.trng.pgm
    ensures NoBits(RtmctlFinal(plat), plat.trng.pgm)
    ensures HasBits(RtmctlFinal(plat), plat.trng.err)
  {
    RunIsTrimWithoutPgm(plat);
    FinalKeepsPgmClear(plat);
    FinalSetsErr(plat);
  }

  // ---------------------------------------------------------------------
  // Register state after caam_open
  // ---------------------------------------------------------------------

  /** The registers after the clock, ring and interrupt set-up. */
  function SetupRegs(plat: Platform, regs: map<Reg, bv32>): map<Reg, bv32>
    requires CCGR0 in regs && JRCFGR0_LS in regs
  {
    regs[CCGR0 := WithClocks(plat, regs[CCGR0])]
        [IRBAR0 := plat.layout.inputRing][ORBAR0 := plat.layout.outputRing]
        [IRSR0 := plat.ring.entries][ORSR0 := plat.ring.entries]
        [JRCFGR0_LS := WithRingIrqMasked(plat, regs[JRCFGR0_LS])]
  }

  /**
   * The registers after TRNG programming, in the order they are written;
   * RTMCTL keeps the last of its writes.
   */
  function TrngRegs(plat: Platform, regs: map<Reg, bv32>): map<Reg, bv32> {
    regs[RTMCTL := RtmctlTrim(plat)][RTSDCTL := RtsdctlDelay(plat)]
        [RTFRQMIN := RtfrqMin(plat)][RTFRQMAX := RtfrqMax(plat)][RTMCTL := RtmctlFinal(plat)]
  }

  /** The registers after the instantiation job, which RDSTA reports on. */
  function RngJobRegs(regs: map<Reg, bv32>, rdsta: bv32): map<Reg, bv32> {
    regs[IRJAR0 := 1][ORSFR0 := 1][RDSTA := rdsta][ORJRR0 := 1]
  }

  /** The registers after TRNG programming and the instantiation job. */
  function RngRegs(plat: Platform, regs: map<Reg, bv32>, rdsta: bv32): map<Reg, bv32> {
    RngJobRegs(TrngRegs(plat, regs), rdsta)
  }

  /** The registers after caam_open, from the registers before it. */
  function OpenRegs(plat: Platform, regs: map<Reg, bv32>, rng: RngResponse): map<Reg, bv32>
    requires CCGR0 in regs && JRCFGR0_LS in regs && RDSTA in regs
  {
    if RngInstantiated(plat, regs[RDSTA]) then SetupRegs(plat, regs)
    else RngRegs(plat, SetupRegs(plat, regs), rng.rdsta)
  }

  /** The set-up turns on every CAAM clock and keeps the other CCGR0 bits (see OrMask). */
  lemma SetupRegsEnablesClocks(plat: Platform, regs: map<Reg, bv32>)
    requires CCGR0 in regs && JRCFGR0_LS in regs
    ensures SetupRegs(plat, regs)[CCGR0] == regs[CCGR0] | plat.CaamClocks()
  {}

  /** The set-up masks the job-ring interrupt and keeps the other JRCFGR0_LS bits. */
  lemma SetupRegsMasksInterrupt(plat: Platform, regs: map<Reg, bv32>)
    requires CCGR0 in regs && JRCFGR0_LS in regs
    ensures SetupRegs(plat, regs)[JRCFGR0_LS] == regs[JRCFGR0_LS] | plat.ring.imsk
  {}

  /** The set-up points the accelerator at both rings and gives their sizes. */
  lemma SetupRegsProgramsRings(plat: Platform, regs: map<Reg, bv32>)
    requires CCGR0 in regs && JRCFGR0_LS in regs
    ensures SetupRegs(plat, regs)[IRBAR0] == plat.layout.inputRing
    ensures SetupRegs(plat, regs)[ORBAR0] == plat.layout.outputRing
    ensures SetupRegs(plat, regs)[IRSR0] == plat.ring.entries
    ensures SetupRegs(plat, regs)[ORSR0] == plat.ring.entries
  {}

  /** The set-up touches neither the secure-memory registers nor the TRNG and job registers. */
  lemma SetupRegsKeepsOthers(plat: Platform, regs: map<Reg, bv32>, r: Reg)
    requires CCGR0 in regs && JRCFGR0_LS in regs && r in regs
    requires r != CCGR0 && r != JRCFGR0_LS && r != IRBAR0 && r != ORBAR0
    requires r != IRSR0 && r != ORSR0
    ensures SetupRegs(plat, regs)[r] == regs[r]
  {}

  /**
   * The TRNG programming and the instantiation job leave RTMCTL out of
   * program mode (RtmctlLeavesProgramMode), one job added and removed, and
   * RDSTA as the accelerator reported it.
   */
  lemma RngRegsFinishJob(plat: Platform, regs: map<Reg, bv32>, rdsta: bv32)
    ensures RngRegs(plat, regs, rdsta)[RTMCTL] == RtmctlFinal(plat)
    ensures RngRegs(plat, regs, rdsta)[IRJAR0] == 1
    ensures RngRegs(plat, regs, rdsta)[ORSFR0] == 1
    ensures RngRegs(plat, regs, rdsta)[ORJRR0] == 1
    ensures RngRegs(plat, regs, rdsta)[RDSTA] == rdsta
  {}

  /** The TRNG programming leaves the clock, ring and secure-memory registers alone. */
  lemma RngRegsKeepsOthers(plat: Platform, regs: map<Reg, bv32>, rdsta: bv32, r: Reg)
    requires r in regs
    requires r != RTMCTL && r != RTSDCTL && r != RTFRQMIN && r != RTFRQMAX
    requires r != IRJAR0 && r != ORSFR0 && r != RDSTA && r != ORJRR0
    ensures RngRegs(plat, regs, rdsta)[r] == regs[r]
  {}

  /** With IF0 already set, caam_open changes only what the set-up changes. */
  lemma OpenRegsSkip(plat: Platform, regs: map<Reg, bv32>, rng: RngResponse)
    requires CCGR0 in regs && JRCFGR0_LS in regs && RDSTA in regs
    requires RngInstantiated(plat, regs[RDSTA])
    ensures OpenRegs(plat, regs, rng) == SetupRegs(plat, regs)
    ensures OpenRegs(plat, regs, rng)[RDSTA] == regs[RDSTA]
  {
    SetupRegsKeepsOthers(plat, regs, RDSTA);
  }

  /** Otherwise it also leaves the TRNG running and RDSTA as the instantiation job reported it. */
  lemma OpenRegsRng(plat: Platform, regs: map<Reg, bv32>, rng: RngResponse)
    requires CCGR0 in regs && JRCFGR0_LS in regs && RDSTA in regs
    requires !RngInstantiated(plat, regs[RDSTA])
    ensures OpenRegs(plat, regs, rng)[RDSTA] == rng.rdsta
    ensures OpenRegs(plat, regs, rng)[RTMCTL] == RtmctlFinal(plat)
    ensures OpenRegs(plat, regs, rng)[ORJRR0] == 1
  {
    RngRegsFinishJob(plat, SetupRegs(plat, regs), rng.rdsta);
  }
}
