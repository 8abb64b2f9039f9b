/**
 * The `hwid` command: reads, senses, programs, overrides and locks the HWID
 * words of the fuse bank. The fuse driver, the hex parser, the
 * manufacturing-string decoder and the interactive confirmation are
 * collaborators whose answers are inputs; the command's own logic is the
 * argument handling, the order in which it visits the words and the stop
 * at the first error.
 */
module CmdHwid {
  import opened Wrappers
  import opened Format

  const CMD_RET_SUCCESS: int := 0
  const CMD_RET_FAILURE: int := 1
  const CMD_RET_USAGE: int := -1

  /** Build-time settings: where the HWID lives and how the lock fuse is set. */
  datatype HwidConfig = HwidConfig(bank: nat, startWord: nat, words: nat,
                                   lock: LockFuse)

  datatype LockFuse = LockFuse(bank: nat, word: nat, value: Uint32)

  /** The `val` buffer of the command holds eight words. */
  const VAL_WORDS: nat := 8

  datatype FuseOp = Read | Sense | Prog | Override

  /** One call into the fuse driver; for a read or sense, `value` is what it reported. */
  datatype FuseCall = FuseCall(op: FuseOp, bank: nat, word: nat, value: Uint32)

  /** The answers of the code the command calls but does not define. */
  datatype Collaborators = Collaborators(
    status: FuseCall -> int,
    fuseValue: (FuseOp, nat, nat) -> Uint32,
    parseHex: string -> Option<Uint32>,
    manufToHwid: seq<string> -> Option<seq<Uint32>>,
    userConfirms: bool)

  // ---------------------------------------------------------------------
  // Running a planned sequence of fuse calls
  // ---------------------------------------------------------------------

  /** One loop iteration: a fuse call, or an argument that does not parse. */
  datatype Step = Call(call: FuseCall) | BadArg

  datatype Outcome = Outcome(ret: int, calls: seq<FuseCall>)

  /** The loops of do_hwid: go through the steps, stop at the first bad argument or failing call. */
  function Run(steps: seq<Step>, c: Collaborators): Outcome
    decreases |steps|
  {
    if |steps| == 0 then Outcome(CMD_RET_SUCCESS, [])
    else match steps[0]
      case BadArg => Outcome(CMD_RET_USAGE, [])
      case Call(fc) =>
        if c.status(fc) != 0 then Outcome(c.status(fc), [fc])
        else
          var r := Run(steps[1..], c);
          Outcome(r.ret, [fc] + r.calls)
  }

  predicate Succeeded(calls: seq<FuseCall>, c: Collaborators) {
    forall k :: 0 <= k < |calls| ==> c.status(calls[k]) == 0
  }

  /**
   * A failing call is the last one made, and its code is returned: every
   * call before the last succeeded.
   */
  predicate StopsAtFailure(ret: int, calls: seq<FuseCall>, c: Collaborators) {
    && (forall k :: 0 <= k < |calls| - 1 ==> c.status(calls[k]) == 0)
    && (|calls| > 0 && c.status(calls[|calls| - 1]) != 0 ==> ret == c.status(calls[|calls| - 1]))
  }

  /**
   * The calls made are the planned ones, in order, up to the first failure;
   * a failing call stops the run with its code; a bad argument returns
   * usage with every earlier call made; zero means every step ran and
   * succeeded.
   */
  predicate FollowsPlan(steps: seq<Step>, r: Outcome, c: Collaborators) {
    && |r.calls| <= |steps|
    && (forall k :: 0 <= k < |r.calls| ==> steps[k] == Call(r.calls[k]))
    && StopsAtFailure(r.ret, r.calls, c)
    && (r.ret == 0 <==> |r.calls| == |steps| && Succeeded(r.calls, c))
    && (Succeeded(r.calls, c) && |r.calls| < |steps| ==>
          steps[|r.calls|] == BadArg && r.ret == CMD_RET_USAGE)
  }

  lemma {:induction false} RunShape(steps: seq<Step>, c: Collaborators)
    ensures FollowsPlan(steps, Run(steps, c), c)
    decreases |steps|
  {
    if |steps| > 0 && steps[0].Call? && c.status(steps[0].call) == 0 {
      var fc := steps[0].call;
      var tail := Run(steps[1..], c);
      RunShape(steps[1..], c);
      var calls := Run(steps, c).calls;
      assert calls == [fc] + tail.calls;
      assert forall k :: 0 < k < |calls| ==> calls[k] == tail.calls[k - 1];
      assert Succeeded(calls, c) <==> Succeeded(tail.calls, c) by {
        if Succeeded(tail.calls, c) {
          forall k | 0 <= k < |calls| ensures c.status(calls[k]) == 0 {
            if k > 0 { assert calls[k] == tail.calls[k - 1]; }
          }
        }
        if Succeeded(calls, c) {
          forall k | 0 <= k < |tail.calls| ensures c.status(tail.calls[k]) == 0 {
            assert calls[k + 1] == tail.calls[k];
          }
        }
      }
    }
  }

  /** Running past a successful call: it joins the calls already made. */
  lemma RunStep(steps: seq<Step>, i: nat, calls: seq<FuseCall>, c: Collaborators)
    requires i < |steps| && steps[i].Call? && c.status(steps[i].call) == 0
    ensures After(calls, Run(steps[i..], c)) == After(calls + [steps[i].call], Run(steps[i + 1..], c))
  {
    assert steps[i..][1..] == steps[i + 1..];
    var rest := Run(steps[i + 1..], c).calls;
    assert calls + ([steps[i].call] + rest) == (calls + [steps[i].call]) + rest;
  }

  /** Past the last step, the calls made are the whole run. */
  lemma RunDone(steps: seq<Step>, calls: seq<FuseCall>, c: Collaborators)
    ensures After(calls, Run(steps[|steps|..], c)) == Outcome(CMD_RET_SUCCESS, calls)
  {
    assert steps[|steps|..] == [];
    assert calls + [] == calls;
  }

  /** A failing call ends the run with its code. */
  lemma RunFails(steps: seq<Step>, i: nat, c: Collaborators)
    requires i < |steps| && steps[i].Call? && c.status(steps[i].call) != 0
    ensures Run(steps[i..], c) == Outcome(c.status(steps[i].call), [steps[i].call])
  {
    assert steps[i..][0] == steps[i];
  }

  /** A bad argument ends the run with usage. */
  lemma RunStopsAtBadArg(steps: seq<Step>, i: nat, c: Collaborators)
    requires i < |steps| && steps[i] == BadArg
    ensures Run(steps[i..], c) == Outcome(CMD_RET_USAGE, [])
  {
    assert steps[i..][0] == steps[i];
  }

  /** Loop state: the calls made so far, all successful, then the rest of the run. */
  function After(calls: seq<FuseCall>, r: Outcome): Outcome {
    Outcome(r.ret, calls + r.calls)
  }

  // ---------------------------------------------------------------------
  // The planned calls of each operation
  // ---------------------------------------------------------------------

  /** read/sense: word START + i, ascending, into val[i]. */
  function ReadCall(cfg: HwidConfig, op: FuseOp, c: Collaborators, i: nat): FuseCall {
    var w := cfg.startWord + i;
    FuseCall(op, cfg.bank, w, c.fuseValue(op, cfg.bank, w))
  }

  function ReadSteps(cfg: HwidConfig, op: FuseOp, c: Collaborators): seq<Step> {
    seq(cfg.words, i requires 0 <= i < cfg.words => Call(ReadCall(cfg, op, c, i)))
  }

  function ReadValues(cfg: HwidConfig, op: FuseOp, c: Collaborators): seq<Uint32> {
    seq(cfg.words, i requires 0 <= i < cfg.words => ReadCall(cfg, op, c, i).value)
  }

  /** prog/override: argument i goes to word START + N - 1 - i, highest first. */
  function ProgStep(cfg: HwidConfig, op: FuseOp, args: seq<string>, c: Collaborators, i: nat): Step
    requires i < cfg.words && i < |args|
  {
    match c.parseHex(args[i])
    case None => BadArg
    case Some(v) => Call(FuseCall(op, cfg.bank, cfg.startWord + cfg.words - 1 - i, v))
  }

  function ProgSteps(cfg: HwidConfig, op: FuseOp, args: seq<string>, c: Collaborators): seq<Step>
    requires cfg.words <= |args|
  {
    seq(cfg.words, i requires 0 <= i < cfg.words => ProgStep(cfg, op, args, c, i))
  }

  /** prog_manuf/override_manuf: val[i] goes to word START + i, ascending. */
  function ManufSteps(cfg: HwidConfig, op: FuseOp, vals: seq<Uint32>): seq<Step>
    requires cfg.words <= |vals|
  {
    seq(cfg.words, i requires 0 <= i < cfg.words => Call(FuseCall(op, cfg.bank, cfg.startWord + i, vals[i])))
  }

  /** The words manufstr_to_hwid leaves in the eight-word buffer (zero where it wrote nothing). */
  function FitWords(vals: seq<Uint32>): (b: seq<Uint32>)
    ensures |b| == VAL_WORDS
  {
    seq(VAL_WORDS, i requires 0 <= i < VAL_WORDS => if i < |vals| then vals[i] else 0)
  }

  function LockCall(cfg: HwidConfig): FuseCall {
    FuseCall(Prog, cfg.lock.bank, cfg.lock.word, cfg.lock.value)
  }

  // ---------------------------------------------------------------------
  // The command
  // ---------------------------------------------------------------------

  /** The command's result: return code, fuse calls in order, and the words printed in order. */
  datatype Reply = Reply(ret: int, calls: seq<FuseCall>, shown: seq<Uint32>)

  /** The words in reverse order: what board_print_hwid prints, N-1 first. */
  function Reversed(s: seq<Uint32>): (r: seq<Uint32>)
    ensures |r| == |s|
    ensures forall k :: 0 <= k < |s| ==> r[k] == s[|s| - 1 - k]
  {
    if |s| == 0 then [] else [s[|s| - 1]] + Reversed(s[..|s| - 1])
  }

  function ReadCommand(cfg: HwidConfig, op: FuseOp, c: Collaborators): Reply {
    var r := Run(ReadSteps(cfg, op, c), c);
    Reply(r.ret, r.calls, if r.ret == 0 then Reversed(ReadValues(cfg, op, c)) else [])
  }

  /** prog needs the confirmation (or -y); override does not. */
  function ProgCommand(cfg: HwidConfig, op: FuseOp, args: seq<string>, confirmed: bool, c: Collaborators): Reply {
    if |args| < cfg.words then Reply(CMD_RET_USAGE, [], [])
    else if op == Prog && !confirmed && !c.userConfirms then Reply(CMD_RET_FAILURE, [], [])
    else
      var r := Run(ProgSteps(cfg, op, args, c), c);
      Reply(r.ret, r.calls, [])
  }

  function ManufCommand(cfg: HwidConfig, op: FuseOp, args: seq<string>, confirmed: bool, c: Collaborators): Reply
    requires cfg.words <= VAL_WORDS
  {
    if |args| < 1 then Reply(CMD_RET_USAGE, [], [])
    else if c.manufToHwid(args).None? then Reply(CMD_RET_FAILURE, [], [])
    else if op == Prog && !confirmed && !c.userConfirms then Reply(CMD_RET_FAILURE, [], [])
    else
      var r := Run(ManufSteps(cfg, op, FitWords(c.manufToHwid(args).value)), c);
      Reply(r.ret, r.calls, [])
  }

  function LockCommand(cfg: HwidConfig, confirmed: bool, c: Collaborators): Reply {
    if !confirmed && !c.userConfirms then Reply(CMD_RET_FAILURE, [], [])
    else
      var r := Run([Call(LockCall(cfg))], c);
      Reply(r.ret, r.calls, [])
  }

  /** `-y` right after the operation. */
  predicate Confirmed(argv: seq<string>) {
    |argv| >= 3 && argv[2] == "-y"
  }

  /** The arguments after the operation and the optional -y. */
  function Args(argv: seq<string>): seq<string>
    requires |argv| >= 2
  {
    argv[if Confirmed(argv) then 3 else 2..]
  }

  const OPS: set<string> := {"read", "read_manuf", "sense", "sense_manuf", "prog", "prog_manuf",
                             "override", "override_manuf", "lock"}

  /** do_hwid. */
  function HwidCommand(cfg: HwidConfig, argv: seq<string>, c: Collaborators): Reply
    requires cfg.words <= VAL_WORDS
  {
    if |argv| < 2 then Reply(CMD_RET_USAGE, [], [])
    else
      var op, args, confirmed := argv[1], Args(argv), Confirmed(argv);
      if op == "read" || op == "read_manuf" then ReadCommand(cfg, Read, c)
      else if op == "sense" || op == "sense_manuf" then ReadCommand(cfg, Sense, c)
      else if op == "prog" then ProgCommand(cfg, Prog, args, confirmed, c)
      else if op == "prog_manuf" then ManufCommand(cfg, Prog, args, confirmed, c)
      else if op == "override" then ProgCommand(cfg, Override, args, confirmed, c)
      else if op == "override_manuf" then ManufCommand(cfg, Override, args, confirmed, c)
      else if op == "lock" then LockCommand(cfg, confirmed, c)
      else Reply(CMD_RET_USAGE, [], [])
  }

  // ---------------------------------------------------------------------
  // Properties of the command
  // ---------------------------------------------------------------------

  /** Too few arguments or an unknown operation: usage, and no fuse is touched. */
  lemma UsageTouchesNothing(cfg: HwidConfig, argv: seq<string>, c: Collaborators)
    requires cfg.words <= VAL_WORDS
    requires |argv| < 2 || argv[1] !in OPS
    ensures HwidCommand(cfg, argv, c) == Reply(CMD_RET_USAGE, [], [])
  {
  }

  /** The value arguments start right after the operation, or after a -y there. */
  lemma ArgumentWindow(argv: seq<string>)
    requires |argv| >= 2
    ensures Confirmed(argv) ==> Args(argv) == argv[3..]
    ensures !Confirmed(argv) ==> Args(argv) == argv[2..]
    ensures Confirmed(argv) <==> |argv| >= 3 && argv[2] == "-y"
  {
  }

  /** Every operation stops at the first failing fuse call and returns its code. */
  lemma StopsAtFirstError(cfg: HwidConfig, argv: seq<string>, c: Collaborators)
    requires cfg.words <= VAL_WORDS
    ensures StopsAtFailure(HwidCommand(cfg, argv, c).ret, HwidCommand(cfg, argv, c).calls, c)
  {
    var r := HwidCommand(cfg, argv, c);
    if |argv| >= 2 {
      var op, args, confirmed := argv[1], Args(argv), Confirmed(argv);
      if op == "read" || op == "read_manuf" {
        assert r == ReadCommand(cfg, Read, c);
        RunShape(ReadSteps(cfg, Read, c), c);
      } else if op == "sense" || op == "sense_manuf" {
        assert r == ReadCommand(cfg, Sense, c);
        RunShape(ReadSteps(cfg, Sense, c), c);
      } else if op == "prog" || op == "override" {
        var fop := if op == "prog" then Prog else Override;
        assert r == ProgCommand(cfg, fop, args, confirmed, c);
        if |args| >= cfg.words {
          RunShape(ProgSteps(cfg, fop, args, c), c);
        }
      } else if op == "prog_manuf" || op == "override_manuf" {
        var fop := if op == "prog_manuf" then Prog else Override;
        assert r == ManufCommand(cfg, fop, args, confirmed, c);
        if |args| >= 1 && c.manufToHwid(args).Some? {
          RunShape(ManufSteps(cfg, fop, FitWords(c.manufToHwid(args).value)), c);
        }
      } else if op == "lock" {
        assert r == LockCommand(cfg, confirmed, c);
        RunShape([Call(LockCall(cfg))], c);
      }
    }
  }

  /**
   * prog and override write the highest word first: the k-th call writes
   * the k-th value argument into word START + N - 1 - k. A value that does
   * not parse stops the command with usage, the words before it written.
   */
  lemma ProgWritesHighWordFirst(cfg: HwidConfig, argv: seq<string>, c: Collaborators, k: nat)
    requires cfg.words <= VAL_WORDS
    requires |argv| >= 2 && argv[1] in {"prog", "override"}
    requires k < |HwidCommand(cfg, argv, c).calls|
    ensures k < cfg.words <= |Args(argv)|
    ensures HwidCommand(cfg, argv, c).calls[k].word == cfg.startWord + cfg.words - 1 - k
    ensures c.parseHex(Args(argv)[k]) == Some(HwidCommand(cfg, argv, c).calls[k].value)
    ensures HwidCommand(cfg, argv, c).calls[k].op == (if argv[1] == "prog" then Prog else Override)
    ensures HwidCommand(cfg, argv, c).calls[k].bank == cfg.bank
  {
    var op := if argv[1] == "prog" then Prog else Override;
    RunShape(ProgSteps(cfg, op, Args(argv), c), c);
  }

  /** A bad value argument: usage, with exactly the earlier words written. */
  lemma BadValueStopsWithUsage(cfg: HwidConfig, argv: seq<string>, c: Collaborators, i: nat)
    requires cfg.words <= VAL_WORDS
    requires |argv| >= 2 && argv[1] in {"prog", "override"}
    requires argv[1] == "prog" ==> Confirmed(argv) || c.userConfirms
    requires i < cfg.words <= |Args(argv)| && c.parseHex(Args(argv)[i]).None?
    requires forall j :: 0 <= j < i ==> c.parseHex(Args(argv)[j]).Some?
    requires forall j :: 0 <= j < i ==> c.status(FuseCall(if argv[1] == "prog" then Prog else Override, cfg.bank,
                                                          cfg.startWord + cfg.words - 1 - j,
                                                          c.parseHex(Args(argv)[j]).value)) == 0
    ensures HwidCommand(cfg, argv, c).ret == CMD_RET_USAGE
    ensures |HwidCommand(cfg, argv, c).calls| == i
  {
    var op := if argv[1] == "prog" then Prog else Override;
    var steps := ProgSteps(cfg, op, Args(argv), c);
    RunShape(steps, c);
    assert steps[i] == BadArg;
    assert forall k :: 0 <= k < i ==>
      steps[k] == Call(FuseCall(op, cfg.bank, cfg.startWord + cfg.words - 1 - k, c.parseHex(Args(argv)[k]).value));
  }

  /**
   * prog_manuf programs and override_manuf overrides val[k] into word
   * START + k of the HWID bank, lowest first.
   */
  lemma ManufWritesLowWordFirst(cfg: HwidConfig, argv: seq<string>, c: Collaborators, k: nat)
    requires cfg.words <= VAL_WORDS
    requires |argv| >= 2 && argv[1] in {"prog_manuf", "override_manuf"}
    requires k < |HwidCommand(cfg, argv, c).calls|
    ensures k < cfg.words && |Args(argv)| >= 1 && c.manufToHwid(Args(argv)).Some?
    ensures HwidCommand(cfg, argv, c).calls[k].word == cfg.startWord + k
    ensures HwidCommand(cfg, argv, c).calls[k].value == FitWords(c.manufToHwid(Args(argv)).value)[k]
    ensures HwidCommand(cfg, argv, c).calls[k].op == (if argv[1] == "prog_manuf" then Prog else Override)
    ensures HwidCommand(cfg, argv, c).calls[k].bank == cfg.bank
  {
    var op := if argv[1] == "prog_manuf" then Prog else Override;
    RunShape(ManufSteps(cfg, op, FitWords(c.manufToHwid(Args(argv)).value)), c);
  }

  /**
   * read reads and sense senses word START + k of the HWID bank as their
   * k-th call.
   */
  lemma ReadVisitsAscending(cfg: HwidConfig, argv: seq<string>, c: Collaborators, k: nat)
    requires cfg.words <= VAL_WORDS
    requires |argv| >= 2 && argv[1] in {"read", "read_manuf", "sense", "sense_manuf"}
    requires k < |HwidCommand(cfg, argv, c).calls|
    ensures HwidCommand(cfg, argv, c).calls[k].word == cfg.startWord + k
    ensures HwidCommand(cfg, argv, c).calls[k].op == (if argv[1] in {"read", "read_manuf"} then Read else Sense)
    ensures HwidCommand(cfg, argv, c).calls[k].bank == cfg.bank
  {
    var op := if argv[1] in {"read", "read_manuf"} then Read else Sense;
    RunShape(ReadSteps(cfg, op, c), c);
  }

  /** On success read and sense print the words from the highest index down. */
  lemma ReadPrintsHighWordFirst(cfg: HwidConfig, argv: seq<string>, c: Collaborators, k: nat)
    requires cfg.words <= VAL_WORDS
    requires |argv| >= 2 && argv[1] in {"read", "read_manuf", "sense", "sense_manuf"}
    requires HwidCommand(cfg, argv, c).ret == 0 && k < cfg.words
    ensures |HwidCommand(cfg, argv, c).shown| == cfg.words
    ensures HwidCommand(cfg, argv, c).shown[k]
            == c.fuseValue(if argv[1] in {"read", "read_manuf"} then Read else Sense,
                           cfg.bank, cfg.startWord + cfg.words - 1 - k)
  {
  }

  /**
   * Without -y and with the prompt declined, prog, prog_manuf and lock
   * touch no fuse and do not report success; once the prompt is reached
   * (enough arguments, and a decodable manufacturing string) they fail
   * with CMD_RET_FAILURE.
   */
  lemma DeclinedPromptWritesNothing(cfg: HwidConfig, argv: seq<string>, c: Collaborators)
    requires cfg.words <= VAL_WORDS
    requires |argv| >= 2 && argv[1] in {"prog", "prog_manuf", "lock"}
    requires !Confirmed(argv) && !c.userConfirms
    ensures HwidCommand(cfg, argv, c).calls == []
    ensures HwidCommand(cfg, argv, c).ret in {CMD_RET_FAILURE, CMD_RET_USAGE}
    ensures (|| argv[1] == "lock"
             || (argv[1] == "prog" && |Args(argv)| >= cfg.words)
             || (argv[1] == "prog_manuf" && |Args(argv)| >= 1 && c.manufToHwid(Args(argv)).Some?))
            ==> HwidCommand(cfg, argv, c).ret == CMD_RET_FAILURE
  {
  }

  /** override and override_manuf never ask: the answer to the prompt changes nothing. */
  lemma OverrideNeverAsks(cfg: HwidConfig, argv: seq<string>, c: Collaborators)
    requires cfg.words <= VAL_WORDS
    requires |argv| >= 2 && argv[1] in {"override", "override_manuf"}
    ensures HwidCommand(cfg, argv, c) == HwidCommand(cfg, argv, c.(userConfirms := !c.userConfirms))
  {
    var c' := c.(userConfirms := !c.userConfirms);
    if argv[1] == "override" && |Args(argv)| >= cfg.words {
      RunSameStatus(ProgSteps(cfg, Override, Args(argv), c), c, c');
      assert ProgSteps(cfg, Override, Args(argv), c) == ProgSteps(cfg, Override, Args(argv), c');
    } else if argv[1] == "override_manuf" && |Args(argv)| >= 1 && c.manufToHwid(Args(argv)).Some? {
      RunSameStatus(ManufSteps(cfg, Override, FitWords(c.manufToHwid(Args(argv)).value)), c, c');
    }
  }

  /** Run depends on the collaborators only through the fuse status. */
  lemma {:induction false} RunSameStatus(steps: seq<Step>, c: Collaborators, c': Collaborators)
    requires c.status == c'.status
    ensures Run(steps, c) == Run(steps, c')
    decreases |steps|
  {
    if |steps| > 0 {
      RunSameStatus(steps[1..], c, c');
    }
  }

  /** A confirmed lock programs the lock fuse once and returns its status. */
  lemma LockProgramsOnce(cfg: HwidConfig, argv: seq<string>, c: Collaborators)
    requires cfg.words <= VAL_WORDS
    requires |argv| >= 2 && argv[1] == "lock" && (Confirmed(argv) || c.userConfirms)
    ensures HwidCommand(cfg, argv, c).calls == [LockCall(cfg)]
    ensures HwidCommand(cfg, argv, c).ret == c.status(LockCall(cfg))
  {
    var steps := [Call(LockCall(cfg))];
    assert steps[1..] == [];
    assert Run(steps[1..], c) == Outcome(CMD_RET_SUCCESS, []);
    assert [LockCall(cfg)] + [] == [LockCall(cfg)];
    assert HwidCommand(cfg, argv, c) == LockCommand(cfg, Confirmed(argv), c);
  }

  // ---------------------------------------------------------------------
  // The implementation
  // ---------------------------------------------------------------------

  /** The read and sense loops: ascending words into val, stop at the first error. */
  method ReadWords(cfg: HwidConfig, op: FuseOp, c: Collaborators, val: array<Uint32>)
    returns (ret: int, calls: seq<FuseCall>)
    requires cfg.words <= val.Length
    modifies val
    ensures Outcome(ret, calls) == Run(ReadSteps(cfg, op, c), c)
    ensures ret == 0 ==> val[..cfg.words] == ReadValues(cfg, op, c)
  {
    ghost var steps := ReadSteps(cfg, op, c);
    var word := cfg.startWord;
    calls := [];
    var i := 0;
    while i < cfg.words
      invariant 0 <= i <= cfg.words && word == cfg.startWord + i
      invariant Run(steps, c) == After(calls, Run(steps[i..], c))
      invariant val[..i] == ReadValues(cfg, op, c)[..i]
    {
      var v := c.fuseValue(op, cfg.bank, word);
      val[i] := v;
      var fc := FuseCall(op, cfg.bank, word, v);
      assert steps[i] == Call(fc);
      ret := c.status(fc);
      if ret != 0 {
        RunFails(steps, i, c);
        calls := calls + [fc];
        return;
      }
      RunStep(steps, i, calls, c);
      calls := calls + [fc];
      i, word := i + 1, word + 1;
    }
    RunDone(steps, calls, c);
    ret := 0;
  }

  /** The prog and override loops: parse each argument, write it, highest word first. */
  method ProgWords(cfg: HwidConfig, op: FuseOp, args: seq<string>, c: Collaborators, val: array<Uint32>)
    returns (ret: int, calls: seq<FuseCall>)
    requires cfg.words <= val.Length && cfg.words <= |args|
    modifies val
    ensures Outcome(ret, calls) == Run(ProgSteps(cfg, op, args, c), c)
  {
    ghost var steps := ProgSteps(cfg, op, args, c);
    var word: int := cfg.startWord + cfg.words - 1;
    calls := [];
    var i := 0;
    while i < cfg.words
      invariant 0 <= i <= cfg.words && word == cfg.startWord + cfg.words - 1 - i
      invariant Run(steps, c) == After(calls, Run(steps[i..], c))
    {
      assert steps[i] == ProgStep(cfg, op, args, c, i);
      var parsed := c.parseHex(args[i]);
      if parsed.None? {
        RunStopsAtBadArg(steps, i, c);
        assert calls + [] == calls;
        return CMD_RET_USAGE, calls;
      }
      val[i] := parsed.value;
      var fc := FuseCall(op, cfg.bank, word, val[i]);
      assert steps[i] == Call(fc);
      ret := c.status(fc);
      if ret != 0 {
        RunFails(steps, i, c);
        calls := calls + [fc];
        return;
      }
      RunStep(steps, i, calls, c);
      calls := calls + [fc];
      i, word := i + 1, word - 1;
    }
    RunDone(steps, calls, c);
    ret := 0;
  }

  /** The prog_manuf and override_manuf loops: val[i] into word START + i. */
  method ManufWords(cfg: HwidConfig, op: FuseOp, val: array<Uint32>, c: Collaborators)
    returns (ret: int, calls: seq<FuseCall>)
    requires cfg.words <= val.Length
    ensures Outcome(ret, calls) == Run(ManufSteps(cfg, op, val[..]), c)
  {
    ghost var steps := ManufSteps(cfg, op, val[..]);
    var word := cfg.startWord;
    calls := [];
    var i := 0;
    while i < cfg.words
      invariant 0 <= i <= cfg.words && word == cfg.startWord + i
      invariant Run(steps, c) == After(calls, Run(steps[i..], c))
    {
      var fc := FuseCall(op, cfg.bank, word, val[i]);
      assert steps[i] == Call(fc);
      ret := c.status(fc);
      if ret != 0 {
        RunFails(steps, i, c);
        calls := calls + [fc];
        return;
      }
      RunStep(steps, i, calls, c);
      calls := calls + [fc];
      i, word := i + 1, word + 1;
    }
    RunDone(steps, calls, c);
    ret := 0;
  }

  /** board_print_hwid: the words from index N - 1 down to 0. */
  method PrintHwid(cfg: HwidConfig, val: array<Uint32>) returns (shown: seq<Uint32>)
    requires cfg.words <= val.Length
    ensures shown == Reversed(val[..cfg.words])
  {
    shown := [];
    var i: int := cfg.words - 1;
    while i >= 0
      invariant -1 <= i < cfg.words
      invariant shown == Reversed(val[i + 1..cfg.words])
    {
      assert val[i..cfg.words][..|val[i..cfg.words]| - 1] == val[i..cfg.words - 1];
      shown := shown + [val[i]];
      i := i - 1;
    }
  }

  /** do_hwid: argument checks and dispatch, with the fuse words in an eight-word buffer. */
  method DoHwid(cfg: HwidConfig, argv: seq<string>, c: Collaborators)
    returns (ret: int, calls: seq<FuseCall>, shown: seq<Uint32>)
    requires cfg.words <= VAL_WORDS
    ensures Reply(ret, calls, shown) == HwidCommand(cfg, argv, c)
  {
    var confirmed := |argv| >= 3 && argv[2] == "-y";
    if |argv| < 2 {
      return CMD_RET_USAGE, [], [];
    }
    var op := argv[1];
    var args := argv[if confirmed then 3 else 2..];
    var val := new Uint32[VAL_WORDS];
    shown := [];
    assert args == Args(argv) && confirmed == Confirmed(argv);
    if op == "read" || op == "read_manuf" || op == "sense" || op == "sense_manuf" {
      var fop := if op == "read" || op == "read_manuf" then Read else Sense;
      assert HwidCommand(cfg, argv, c) == ReadCommand(cfg, fop, c);
      ret, calls := ReadWords(cfg, fop, c, val);
      if ret == 0 {
        shown := PrintHwid(cfg, val);
      }
    } else if op == "prog" || op == "override" {
      var fop := if op == "prog" then Prog else Override;
      assert HwidCommand(cfg, argv, c) == ProgCommand(cfg, fop, args, confirmed, c);
      if |args| < cfg.words {
        return CMD_RET_USAGE, [], [];
      }
      if fop == Prog && !confirmed && !c.userConfirms {
        return CMD_RET_FAILURE, [], [];
      }
      ret, calls := ProgWords(cfg, fop, args, c, val);
    } else if op == "prog_manuf" || op == "override_manuf" {
      var fop := if op == "prog_manuf" then Prog else Override;
      assert HwidCommand(cfg, argv, c) == ManufCommand(cfg, fop, args, confirmed, c);
      if |args| < 1 {
        return CMD_RET_USAGE, [], [];
      }
      var words := c.manufToHwid(args);
      if words.None? {
        return CMD_RET_FAILURE, [], [];
      }
      if fop == Prog && !confirmed && !c.userConfirms {
        return CMD_RET_FAILURE, [], [];
      }
      var fitted := FitWords(words.value);
      for i := 0 to VAL_WORDS
        invariant val[..i] == fitted[..i]
      {
        val[i] := fitted[i];
      }
      assert val[..] == fitted;
      ret, calls := ManufWords(cfg, fop, val, c);
    } else if op == "lock" {
      assert HwidCommand(cfg, argv, c) == LockCommand(cfg, confirmed, c);
      if !confirmed && !c.userConfirms {
        return CMD_RET_FAILURE, [], [];
      }
      var fc := LockCall(cfg);
      ret := c.status(fc);
      calls := [fc];
      assert [Call(fc)][1..] == [];
      assert Run([Call(fc)][1..], c) == Outcome(CMD_RET_SUCCESS, []);
      assert [fc] + [] == [fc];
    } else {
      return CMD_RET_USAGE, [], [];
    }
  }
}
