/**
 * The CAAM job-ring driver as a stateful object: the statically allocated
 * descriptors and rings are arrays, the memory-mapped registers a map that
 * reads return the last value of, and everything the driver does on the bus
 * is appended to `log`. Each operation is proved to produce exactly the
 * trace and the final state that CaamSpec describes.
 */
module CaamDriver {
  import opened CaamSpec

  /** What the accelerator does with one job: the ORSFR0 values the driver sees, then the two output-ring words it wrote. */
  datatype JobResponse = JobResponse(polls: seq<bv32>, echoed: bv32, status: bv32)

  class Caam {
    const plat: Platform
    const decapDsc: array<bv32>     // decap_dsc
    const encapDsc: array<bv32>     // encap_dsc
    const inputRing: array<bv32>    // g_input_ring
    const outputRing: array<bv32>   // g_output_ring
    var regs: map<Reg, bv32>
    var log: seq<Event>

    /** Depends on constant fields only, so no operation can falsify it. */
    predicate Valid() {
      && plat.Valid()
      && decapDsc.Length == DESC_WORDS && encapDsc.Length == DESC_WORDS
      && inputRing.Length == plat.ring.entries as int
      && outputRing.Length == 2 * plat.ring.entries as int
      && decapDsc != encapDsc && decapDsc != inputRing && decapDsc != outputRing
      && encapDsc != inputRing && encapDsc != outputRing && inputRing != outputRing
    }

    /** The driver's globals as the image loads them; `regs0` is what the hardware holds. */
    constructor (plat: Platform, regs0: map<Reg, bv32>)
      requires plat.Valid()
      ensures Valid()
      ensures this.plat == plat && regs == regs0 && log == []
      ensures decapDsc[..] == plat.images.decap && encapDsc[..] == plat.images.encap
      ensures forall i :: 0 <= i < inputRing.Length ==> inputRing[i] == 0
      ensures forall i :: 0 <= i < outputRing.Length ==> outputRing[i] == 0
      ensures fresh(decapDsc) && fresh(encapDsc) && fresh(inputRing) && fresh(outputRing)
    {
      this.plat := plat;
      decapDsc := new bv32[DESC_WORDS](i requires 0 <= i < DESC_WORDS => plat.images.decap[i]);
      encapDsc := new bv32[DESC_WORDS](i requires 0 <= i < DESC_WORDS => plat.images.encap[i]);
      inputRing := new bv32[plat.ring.entries as int](_ => 0);
      outputRing := new bv32[2 * plat.ring.entries as int](_ => 0);
      regs := regs0;
      log := [];
    }

    function DescArray(d: Desc): array<bv32> {
      if d == DecapDesc then decapDsc else encapDsc
    }

    /**
     * secmem_set_cmd_1: write the command, then read the status register
     * until CMD_COMPLETE reads clear, and return that status.
     */
    method SecmemSetCmd(cmd: bv32, polls: seq<bv32>) returns (status: bv32)
      requires SettlesIn(plat, polls)
      modifies this
      ensures status == polls[FirstSettled(plat, polls)] && !CmdBitSet(plat, status)
      ensures regs == old(regs)[SMCJR0 := cmd][SMCSJR0 := status]
      ensures log == old(log) + SecmemEvents(plat, cmd, polls)
    {
      regs := regs[SMCJR0 := cmd];
      log := log + [RegWrite(SMCJR0, cmd)];
      var i := 0;
      status := polls[0];
      var seen := [RegRead(SMCSJR0, status)];
      while CmdBitSet(plat, status)
        invariant i <= FirstSettled(plat, polls) && status == polls[i]
        invariant seen == PollReads(SMCSJR0, polls[..i + 1])
        modifies {}
        decreases FirstSettled(plat, polls) - i
      {
        i := i + 1;
        PollReadsSnoc(SMCSJR0, polls, i);
        status := polls[i];
        seen := seen + [RegRead(SMCSJR0, status)];
      }
      regs := regs[SMCSJR0 := status];
      log := log + seen;
    }

    /** Read ORSFR0 until it reads 1: one job on the output ring. */
    method WaitForOneJob(polls: seq<bv32>)
      requires Ends(polls, 1)
      modifies this
      ensures regs == old(regs)[ORSFR0 := 1]
      ensures log == old(log) + WaitEvents(polls)
    {
      var i := 0;
      var v := polls[0];
      var seen := [RegRead(ORSFR0, v)];
      while v != 1
        invariant i <= FirstMatch(polls, 1) && v == polls[i]
        invariant seen == PollReads(ORSFR0, polls[..i + 1])
        modifies {}
        decreases FirstMatch(polls, 1) - i
      {
        i := i + 1;
        PollReadsSnoc(ORSFR0, polls, i);
        v := polls[i];
        seen := seen + [RegRead(ORSFR0, v)];
      }
      regs := regs[ORSFR0 := v];
      log := log + seen;
    }

    /**
     * Fill the first eight words of decap_dsc or encap_dsc with the blob
     * descriptor for `j`, in the order both blob operations store them; the
     * ninth word is left as it was.
     */
    method WriteBlobDescriptor(d: Desc, j: BlobJob)
      requires DescArray(d).Length == DESC_WORDS
      modifies this, DescArray(d)
      ensures regs == old(regs)
      ensures DescArray(d)[..] == EncodeBlobJob(j) + [old(DescArray(d)[DESC_WORDS - 1])]
      ensures log == old(log) + DescStores(d, EncodeBlobJob(j))
    {
      var dsc := DescArray(d);
      dsc[0] := BLOB_HEADER;
      dsc[1] := LOAD_KEY_MODIFIER;
      dsc[2] := j.keyModifier;
      dsc[3] := WithLength(SEQ_IN_PTR, j.inputLen);
      dsc[4] := j.input;
      dsc[5] := WithLength(SEQ_OUT_PTR, j.outputLen);
      dsc[6] := j.output;
      dsc[7] := if j.op == Decapsulate then OP_DECAP_BLOB else OP_ENCAP_BLOB;
      assert dsc[..DESC_WORDS - 1] == EncodeBlobJob(j);
      assert dsc[..] == dsc[..DESC_WORDS - 1] + [dsc[DESC_WORDS - 1]];
      log := log + DescStores(d, dsc[..DESC_WORDS - 1]);
    }

    /** Put the descriptor address in the input-ring slot and tell the accelerator one job was added. */
    method SubmitJob(addr: bv32)
      requires inputRing.Length >= 1
      modifies this, inputRing
      ensures inputRing[..] == old(inputRing[..])[0 := addr]
      ensures regs == old(regs)[IRJAR0 := 1]
      ensures log == old(log) + [RingStore(0, addr), RegWrite(IRJAR0, 1)]
    {
      inputRing[0] := addr;
      log := log + [RingStore(0, addr)];
      regs := regs[IRJAR0 := 1];
      log := log + [RegWrite(IRJAR0, 1)];
    }

    /**
     * The output-ring check of the blob operations: success only when the
     * accelerator echoed the submitted descriptor address and reported no
     * error bit.
     */
    method CheckOutputRing(addr: bv32) returns (ret: bv32)
      requires outputRing.Length >= 2 && plat.mem.success != FAILED
      ensures ret == JobResult(plat, outputRing[0], outputRing[1], addr)
    {
      ret := plat.mem.success;
      if outputRing[0] == addr {
        if JobFailed(plat, outputRing[1]) {
          ret := FAILED;
        }
      } else {
        ret := FAILED;
      }
    }

    /** Tell the accelerator the finished job was taken off the output ring. */
    method ReleaseJob()
      modifies this
      ensures regs == old(regs)[ORJRR0 := 1]
      ensures log == old(log) + [RELEASE]
    {
      regs := regs[ORJRR0 := 1];
      log := log + [RELEASE];
    }

    /**
     * Wait for the submitted job, let the accelerator fill the output ring,
     * check it and remove the job.
     */
    method CollectJob(addr: bv32, resp: JobResponse) returns (ret: bv32)
      requires outputRing.Length >= 2 && plat.mem.success != FAILED
      requires Ends(resp.polls, 1)
      modifies this, outputRing
      ensures ret == JobResult(plat, resp.echoed, resp.status, addr)
      ensures outputRing[..] == old(outputRing[..])[0 := resp.echoed][1 := resp.status]
      ensures regs == old(regs)[ORSFR0 := 1][ORJRR0 := 1]
      ensures log == old(log) + WaitEvents(resp.polls) + [RELEASE]
    {
      WaitForOneJob(resp.polls);
      // The accelerator writes the output ring while the driver polls.
      outputRing[0] := resp.echoed;
      outputRing[1] := resp.status;
      ret := CheckOutputRing(addr);
      ReleaseJob();
    }

    /**
     * Add the job whose descriptor is at `addr`, wait for it, check the
     * output ring and remove the job: the second half of caam_decap_blob
     * and caam_gen_blob.
     */
    method RunJob(addr: bv32, resp: JobResponse) returns (ret: bv32)
      requires inputRing.Length >= 1 && outputRing.Length >= 2 && inputRing != outputRing
      requires plat.mem.success != FAILED
      requires Ends(resp.polls, 1)
      modifies this, inputRing, outputRing
      ensures ret == JobResult(plat, resp.echoed, resp.status, addr)
      ensures inputRing[..] == old(inputRing[..])[0 := addr]
      ensures outputRing[..] == old(outputRing[..])[0 := resp.echoed][1 := resp.status]
      ensures regs == old(regs)[IRJAR0 := 1][ORSFR0 := 1][ORJRR0 := 1]
      ensures log == old(log) + JobEvents(addr, resp.polls)
    {
      SubmitJob(addr);
      ret := CollectJob(addr, resp);
      assert log == old(log) + ([RingStore(0, addr), RegWrite(IRJAR0, 1)] + WaitEvents(resp.polls) + [RELEASE]);
    }

    /**
     * caam_decap_blob: describe the decapsulation of the blob at `blob`
     * into `plainText` in decap_dsc, then run it.
     */
    method DecapBlob(plainText: bv32, blob: bv32, keyModifier: bv32, dataSize: bv32, resp: JobResponse)
      returns (ret: bv32)
      requires Valid() && Ends(resp.polls, 1)
      modifies this, decapDsc, inputRing, outputRing
      ensures ret == JobResult(plat, resp.echoed, resp.status, plat.layout.decapDsc)
      ensures decapDsc[..] == EncodeBlobJob(DecapJob(plat, plainText, blob, keyModifier, dataSize))
                              + [old(decapDsc[DESC_WORDS - 1])]
      ensures inputRing[..] == old(inputRing[..])[0 := plat.layout.decapDsc]
      ensures outputRing[..] == old(outputRing[..])[0 := resp.echoed][1 := resp.status]
      ensures regs == old(regs)[IRJAR0 := 1][ORSFR0 := 1][ORJRR0 := 1]
      ensures log == old(log) + DecapEvents(plat, plainText, blob, keyModifier, dataSize, resp.polls)
    {
      ghost var stores := DescStores(DecapDesc, EncodeBlobJob(DecapJob(plat, plainText, blob, keyModifier, dataSize)));
      WriteBlobDescriptor(DecapDesc, DecapJob(plat, plainText, blob, keyModifier, dataSize));
      ret := RunJob(plat.layout.decapDsc, resp);
      assert log == old(log) + (stores + JobEvents(plat.layout.decapDsc, resp.polls));
    }

    /**
     * caam_gen_blob: clear the blob, describe the encapsulation of
     * `plainData` into it in encap_dsc, then run it.
     */
    method GenBlob(plainData: bv32, blob: bv32, keyModifier: bv32, dataSize: bv32, resp: JobResponse)
      returns (ret: bv32)
      requires Valid() && Ends(resp.polls, 1)
      modifies this, encapDsc, inputRing, outputRing
      ensures ret == JobResult(plat, resp.echoed, resp.status, plat.layout.encapDsc)
      ensures encapDsc[..] == EncodeBlobJob(EncapJob(plat, plainData, blob, keyModifier, dataSize))
                              + [old(encapDsc[DESC_WORDS - 1])]
      ensures inputRing[..] == old(inputRing[..])[0 := plat.layout.encapDsc]
      ensures outputRing[..] == old(outputRing[..])[0 := resp.echoed][1 := resp.status]
      ensures regs == old(regs)[IRJAR0 := 1][ORSFR0 := 1][ORJRR0 := 1]
      ensures log == old(log) + GenBlobEvents(plat, plainData, blob, keyModifier, dataSize, resp.polls)
    {
      ghost var clear := [BlobClear(blob, BlobSize(plat, dataSize))];
      ghost var stores := DescStores(EncapDesc, EncodeBlobJob(EncapJob(plat, plainData, blob, keyModifier, dataSize)));
      log := log + [BlobClear(blob, BlobSize(plat, dataSize))];
      WriteBlobDescriptor(EncapDesc, EncapJob(plat, plainData, blob, keyModifier, dataSize));
      ret := RunJob(plat.layout.encapDsc, resp);
      assert log == old(log) + (clear + stores + JobEvents(plat.layout.encapDsc, resp.polls));
    }

    /**
     * The first part of caam_open: switch on the CAAM clocks, program both
     * ring addresses and sizes, mask the job-ring interrupt, then read RDSTA.
     */
    method SetUpJobRing() returns (rdsta: bv32)
      requires CCGR0 in regs && JRCFGR0_LS in regs && RDSTA in regs
      modifies this
      ensures rdsta == old(regs[RDSTA])
      ensures regs == SetupRegs(plat, old(regs))
      ensures log == old(log) + SetupEvents(plat, old(regs[CCGR0]), old(regs[JRCFGR0_LS]), rdsta)
    {
      var r := regs;
      var ccgr0 := r[CCGR0];
      r := r[CCGR0 := WithClocks(plat, ccgr0)];
      r := r[IRBAR0 := plat.layout.inputRing][ORBAR0 := plat.layout.outputRing];
      r := r[IRSR0 := plat.ring.entries][ORSR0 := plat.ring.entries];
      var jrcfg := r[JRCFGR0_LS];
      r := r[JRCFGR0_LS := WithRingIrqMasked(plat, jrcfg)];
      rdsta := r[RDSTA];
      regs := r;
      log := log + [ RegRead(CCGR0, ccgr0), RegWrite(CCGR0, WithClocks(plat, ccgr0)),
                     RegWrite(IRBAR0, plat.layout.inputRing), RegWrite(ORBAR0, plat.layout.outputRing),
                     RegWrite(IRSR0, plat.ring.entries), RegWrite(ORSR0, plat.ring.entries),
                     RegRead(JRCFGR0_LS, jrcfg), RegWrite(JRCFGR0_LS, WithRingIrqMasked(plat, jrcfg)),
                     RegRead(RDSTA, rdsta) ];
    }

    /** Enter TRNG program mode and set the oscillator divider. */
    method EnterTrngProgramMode()
      modifies this
      ensures regs == old(regs)[RTMCTL := RtmctlTrim(plat)]
      ensures log == old(log) + TrngProgramEvents(plat)
    {
      var r := regs[RTMCTL := plat.trng.pgm];
      var pgm := r[RTMCTL];
      // The second write to RTMCTL replaces the first.
      regs := regs[RTMCTL := WithOscDiv(plat, pgm)];
      log := log + [ RegWrite(RTMCTL, plat.trng.pgm),
                     RegRead(RTMCTL, pgm), RegWrite(RTMCTL, WithOscDiv(plat, pgm)) ];
    }

    /** Entropy delay and the frequency-count limits. */
    method SetTrngDelays()
      modifies this
      ensures regs == old(regs)[RTSDCTL := RtsdctlDelay(plat)][RTFRQMIN := RtfrqMin(plat)]
                               [RTFRQMAX := RtfrqMax(plat)]
      ensures log == old(log) + TrngDelayEvents(plat)
    {
      // The entropy delay and the two frequency limits derived from it.
      regs := regs[RTSDCTL := RtsdctlDelay(plat)];
      log := log + [RegWrite(RTSDCTL, RtsdctlDelay(plat))];
      regs := regs[RTFRQMIN := RtfrqMin(plat)];
      log := log + [RegWrite(RTFRQMIN, RtfrqMin(plat))];
      regs := regs[RTFRQMAX := RtfrqMax(plat)];
      log := log + [RegWrite(RTFRQMAX, RtfrqMax(plat))];
    }

    /** Toggle PGM to resume run mode, then write ERR back to clear it. */
    method ResumeTrngRunMode()
      requires RTMCTL in regs && regs[RTMCTL] == RtmctlTrim(plat)
      modifies this
      ensures regs == old(regs)[RTMCTL := RtmctlFinal(plat)]
      ensures log == old(log) + TrngRunEvents(plat)
    {
      var r := regs;
      var trim := r[RTMCTL];
      r := r[RTMCTL := TogglePgm(plat, trim)];
      var run := r[RTMCTL];
      r := r[RTMCTL := WithErr(plat, run)];
      regs := r;
      log := log + [ RegRead(RTMCTL, trim), RegWrite(RTMCTL, TogglePgm(plat, trim)),
                     RegRead(RTMCTL, run), RegWrite(RTMCTL, WithErr(plat, run)) ];
    }

    /** TRNG programming, from entering program mode to clearing ERR. */
    method ProgramTrng()
      modifies this
      ensures regs == TrngRegs(plat, old(regs))
      ensures log == old(log) + TrngEvents(plat)
    {
      EnterTrngProgramMode();
      SetTrngDelays();
      ResumeTrngRunMode();
    }

    /**
     * The RNG instantiation job: submit rng_inst_dsc, wait, let the
     * accelerator fill the output ring, read RDSTA and remove the job. The
     * checks between the wait and the RDSTA read only print.
     */
    method InstantiateRng(rng: RngResponse)
      requires inputRing.Length >= 1 && outputRing.Length >= 2 && inputRing != outputRing
      requires Ends(rng.polls, 1)
      modifies this, inputRing, outputRing
      ensures inputRing[..] == old(inputRing[..])[0 := plat.layout.rngInstDsc]
      ensures outputRing[..] == old(outputRing[..])[0 := rng.echoed][1 := rng.status]
      ensures regs == RngJobRegs(old(regs), rng.rdsta)
      ensures log == old(log) + RngJobEvents(plat, rng)
    {
      SubmitJob(plat.layout.rngInstDsc);
      WaitForOneJob(rng.polls);
      outputRing[0] := rng.echoed;
      outputRing[1] := rng.status;
      regs := regs[RDSTA := rng.rdsta];
      log := log + [RegRead(RDSTA, rng.rdsta)];
      ReleaseJob();
    }

    /** The RNG branch of caam_open: program the TRNG, then instantiate the RNG. */
    method InitRng(rng: RngResponse)
      requires inputRing.Length >= 1 && outputRing.Length >= 2 && inputRing != outputRing
      requires Ends(rng.polls, 1)
      modifies this, inputRing, outputRing
      ensures inputRing[..] == old(inputRing[..])[0 := plat.layout.rngInstDsc]
      ensures outputRing[..] == old(outputRing[..])[0 := rng.echoed][1 := rng.status]
      ensures regs == RngRegs(plat, old(regs), rng.rdsta)
      ensures log == old(log) + RngEvents(plat, rng)
    {
      ProgramTrng();
      InstantiateRng(rng);
    }

    /**
     * caam_open: set up the job ring and, unless RDSTA says state handle 0
     * is already instantiated, program the TRNG and run the RNG
     * instantiation job.
     */
    method Open(rng: RngResponse)
      requires Valid()
      requires CCGR0 in regs && JRCFGR0_LS in regs && RDSTA in regs
      requires !RngInstantiated(plat, regs[RDSTA]) ==> Ends(rng.polls, 1)
      modifies this, inputRing, outputRing
      ensures regs == OpenRegs(plat, old(regs), rng)
      ensures log == old(log) + OpenEvents(plat, old(regs[CCGR0]), old(regs[JRCFGR0_LS]), old(regs[RDSTA]), rng)
      ensures RngInstantiated(plat, old(regs[RDSTA])) ==>
                inputRing[..] == old(inputRing[..]) && outputRing[..] == old(outputRing[..])
      ensures !RngInstantiated(plat, old(regs[RDSTA])) ==>
                && inputRing[..] == old(inputRing[..])[0 := plat.layout.rngInstDsc]
                && outputRing[..] == old(outputRing[..])[0 := rng.echoed][1 := rng.status]
    {
      var rdsta := SetUpJobRing();
      ghost var setup := SetupEvents(plat, old(regs[CCGR0]), old(regs[JRCFGR0_LS]), rdsta);
      if !RngInstantiated(plat, rdsta) {
        InitRng(rng);
        assert log == old(log) + (setup + RngEvents(plat, rng));
      } else {
        assert log == old(log) + (setup + []);
      }
    }
  }
}
