// The polling driver's operations (software/poll/iicmb.c) on the controller's
// registers. Register stores are recorded in a ghost log; register loads are
// answered from `replies`, the completed CMDR value and DPR contents the
// controller presents after each command. Every bus transaction is proved to
// do exactly what `PollTransfer.Execute` says of its command plan.

module PollPort {

  import opened Registers
  import opened TrunkDefs
  import opened PollTransfer
  import opened PollSteps

  class Port {
    /** The controller's answers to the commands still to come, one per command. */
    var replies: seq<Reply>
    /** The data/parameter register as the controller last presented it. */
    var dpr: bv8
    /** Every register store so far, in order. */
    ghost var log: seq<RegWrite>

    /** `IICMB_REG_WRITE`: one register store. */
    method Store(offset: bv8, value: bv8)
      modifies this`log
      ensures log == old(log) + [RegWrite(offset, value)]
    {
      log := log + [RegWrite(offset, value)];
    }

    /** `iicmb_init`: enable the core. */
    method Init()
      modifies this`log
      ensures log == old(log) + [RegWrite(IICMB_CSR, IICMB_CSR_ENABLE)]
    {
      Store(IICMB_CSR, IICMB_CSR_ENABLE);
    }

    /** `iicmb_disable`: clear the control/status register. */
    method Disable()
      modifies this`log
      ensures log == old(log) + [RegWrite(IICMB_CSR, 0x00)]
    {
      Store(IICMB_CSR, 0x00);
    }

    /** The controller answered the first of `rs0` with `r`: that reply is
        consumed and its DPR byte is what DPR now holds. */
    ghost predicate Answered(rs0: seq<Reply>, r: Rsp)
      reads this
    {
      rs0 != [] && r == Classify(rs0[0].cmdr) && replies == rs0[1..] && dpr == rs0[0].dpr
    }

    /** `iicmb_wait_response`: the next completed CMDR value, classified. */
    method WaitResponse() returns (r: Rsp)
      requires replies != []
      modifies this`replies, this`dpr
      ensures Answered(old(replies), r)
    {
      var tmp := replies[0].cmdr;
      dpr := replies[0].dpr;
      replies := replies[1..];
      r := Classify(tmp);
    }

    /** `iicmb_cmd_wait`: the delay into DPR, then the WAIT opcode. */
    method CmdWait(n: bv8) returns (r: Rsp)
      requires replies != []
      modifies this`replies, this`dpr, this`log
      ensures log == old(log) + [Param(n), Command(IICMB_CMD_WAIT)]
      ensures Answered(old(replies), r)
    {
      Store(IICMB_DPR, n & 0xFF);
      Store(IICMB_CMDR, IICMB_CMD_WAIT);
      r := WaitResponse();
    }

    /** `iicmb_cmd_write`: the byte into DPR, then the WRITE opcode. */
    method CmdWrite(n: bv8) returns (r: Rsp)
      requires replies != []
      modifies this`replies, this`dpr, this`log
      ensures log == old(log) + [Param(n), Command(IICMB_CMD_WRITE)]
      ensures Answered(old(replies), r)
    {
      Store(IICMB_DPR, n & 0xFF);
      Store(IICMB_CMDR, IICMB_CMD_WRITE);
      r := WaitResponse();
    }

    /** `iicmb_cmd_read_ack`: READ_ACK; on DONE the DPR byte goes to `d[i]`. */
    method CmdReadAck(d: array<bv8>, i: nat) returns (r: Rsp)
      requires replies != [] && i < d.Length
      modifies this`replies, this`dpr, this`log, d
      ensures log == old(log) + [Command(IICMB_CMD_READ_ACK)]
      ensures Answered(old(replies), r)
      ensures d[..] == if r == Done then old(d[..])[i := dpr] else old(d[..])
    {
      Store(IICMB_CMDR, IICMB_CMD_READ_ACK);
      r := WaitResponse();
      if r == Done {
        d[i] := dpr;
      }
    }

    /** `iicmb_cmd_read_nak`: READ_NAK; on DONE the DPR byte goes to `d[i]`. */
    method CmdReadNak(d: array<bv8>, i: nat) returns (r: Rsp)
      requires replies != [] && i < d.Length
      modifies this`replies, this`dpr, this`log, d
      ensures log == old(log) + [Command(IICMB_CMD_READ_NAK)]
      ensures Answered(old(replies), r)
      ensures d[..] == if r == Done then old(d[..])[i := dpr] else old(d[..])
    {
      Store(IICMB_CMDR, IICMB_CMD_READ_NAK);
      r := WaitResponse();
      if r == Done {
        d[i] := dpr;
      }
    }

    /** `iicmb_cmd_start`: the START opcode. */
    method CmdStart() returns (r: Rsp)
      requires replies != []
      modifies this`replies, this`dpr, this`log
      ensures log == old(log) + [Command(IICMB_CMD_START)]
      ensures Answered(old(replies), r)
    {
      Store(IICMB_CMDR, IICMB_CMD_START);
      r := WaitResponse();
    }

    /** `iicmb_cmd_stop`: the STOP opcode. */
    method CmdStop() returns (r: Rsp)
      requires replies != []
      modifies this`replies, this`dpr, this`log
      ensures log == old(log) + [Command(IICMB_CMD_STOP)]
      ensures Answered(old(replies), r)
    {
      Store(IICMB_CMDR, IICMB_CMD_STOP);
      r := WaitResponse();
    }

    /** `iicmb_cmd_set_bus`: the bus number into DPR, then the SET_BUS opcode. */
    method CmdSetBus(n: bv8) returns (r: Rsp)
      requires replies != []
      modifies this`replies, this`dpr, this`log
      ensures log == old(log) + [Param(n), Command(IICMB_CMD_SET_BUS)]
      ensures Answered(old(replies), r)
    {
      Store(IICMB_DPR, n & 0xFF);
      Store(IICMB_CMDR, IICMB_CMD_SET_BUS);
      r := WaitResponse();
    }

    // -------------------------------------------------------------------
    // One command of a transaction, as its plan says
    // -------------------------------------------------------------------

    /** `iicmb_cmd_start` as the next action of a transaction that ends in `goal`. */
    method StartStep(ghost goal: Final, ghost rest: seq<Action>, ghost buf: seq<bv8>) returns (r: Rsp)
      requires rest != [] && rest[0].StartCond? && Follows(goal, rest, log, replies, buf)
      modifies this`replies, this`dpr, this`log
      ensures r == Done ==> Follows(goal, rest[1..], log, replies, buf)
      ensures r != Done ==> Ended(goal, rest[0].onFail, r, log, replies, buf)
    {
      r := CmdStart();
    }

    /** `iicmb_cmd_write` of `b` as the next action of a transaction that ends in `goal`. */
    method WriteStep(b: bv8, ghost goal: Final, ghost rest: seq<Action>, ghost buf: seq<bv8>) returns (r: Rsp)
      requires rest != [] && rest[0] == WriteByte(b, rest[0].onFail) && Follows(goal, rest, log, replies, buf)
      modifies this`replies, this`dpr, this`log
      ensures r == Done ==> Follows(goal, rest[1..], log, replies, buf)
      ensures r != Done ==> Ended(goal, rest[0].onFail, r, log, replies, buf)
    {
      r := CmdWrite(b);
    }

    /** `iicmb_cmd_read_ack` into `d[i]` as the next action of a transaction that ends in `goal`. */
    method ReadAckStep(d: array<bv8>, i: nat, ghost goal: Final, ghost rest: seq<Action>) returns (r: Rsp)
      requires i < d.Length && rest != [] && rest[0] == ReadByte(true, i, rest[0].onFail) && Follows(goal, rest, log, replies, d[..])
      modifies this`replies, this`dpr, this`log, d
      ensures r == Done ==> Follows(goal, rest[1..], log, replies, d[..])
      ensures r != Done ==> Ended(goal, rest[0].onFail, r, log, replies, d[..])
    {
      r := CmdReadAck(d, i);
    }

    /** `iicmb_cmd_read_nak` into `d[i]` as the next action of a transaction that ends in `goal`. */
    method ReadNakStep(d: array<bv8>, i: nat, ghost goal: Final, ghost rest: seq<Action>) returns (r: Rsp)
      requires i < d.Length && rest != [] && rest[0] == ReadByte(false, i, rest[0].onFail) && Follows(goal, rest, log, replies, d[..])
      modifies this`replies, this`dpr, this`log, d
      ensures r == Done ==> Follows(goal, rest[1..], log, replies, d[..])
      ensures r != Done ==> Ended(goal, rest[0].onFail, r, log, replies, d[..])
    {
      r := CmdReadNak(d, i);
    }

    /** The slave address with the write bit, then the byte address: the two
        writes that open every transaction after START; either failing
        leaves the `do { ... } while (0)` block for STOP. */
    method AddressStep(sa: bv8, a: bv8, ghost goal: Final, ghost rest: seq<Action>, ghost buf: seq<bv8>) returns (r: Rsp)
      requires 1 < |rest| && rest[0] == WriteByte(sa << 1, BreakToStop) && rest[1] == WriteByte(a, BreakToStop)
      requires Follows(goal, rest, log, replies, buf)
      modifies this`replies, this`dpr, this`log
      ensures r == Done ==> Follows(goal, rest[2..], log, replies, buf)
      ensures r != Done ==> Stopping(goal, r, log, replies, buf)
    {
      r := WriteStep(sa << 1, goal, rest, buf);
      if r != Done { return; }
      r := WriteStep(a, goal, rest[1..], buf);
    }

    /** `iicmb_cmd_stop` closing a transaction that ends in `goal`. */
    method StopStep(r: Rsp, ghost goal: Final, ghost buf: seq<bv8>)
      requires Stopping(goal, r, log, replies, buf)
      modifies this`replies, this`dpr, this`log
      ensures goal == Final(r, log, replies, buf)
    {
      var stopped := CmdStop();
    }

    // -------------------------------------------------------------------
    // The bus transactions
    // -------------------------------------------------------------------

    /** `iicmb_read_bus`: read one byte from byte address `a` of slave `sa`
        into `d[0]`, exactly as `Execute` runs the one-byte read plan. */
    method ReadBus(sa: bv8, a: bv8, d: array<bv8>) returns (ret: Rsp)
      requires 6 < |replies| && 1 <= d.Length
      modifies this`replies, this`dpr, this`log, d
      ensures var o := Execute(ReadPlan(sa, a, 1), old(replies), old(d[..]));
              ret == o.ret && log == old(log) + o.writes && d[..] == o.buf && replies == old(replies)[o.used..]
    {
      ghost var plan := ReadPlan(sa, a, 1);
      ReadPlanShape(plan, sa, a, 1);
      ghost var goal := Target(plan, log, replies, d[..]);
      TargetFollows(plan, log, replies, d[..]);
      ret := ReadBusSteps(sa, a, d, goal, plan);
    }

    /** The commands of `iicmb_read_bus`, following the one-byte read plan to its end. */
    method ReadBusSteps(sa: bv8, a: bv8, d: array<bv8>, ghost goal: Final, ghost plan: seq<Action>) returns (ret: Rsp)
      requires 1 <= d.Length && IsReadPlan(plan, sa, a, 1) && Follows(goal, plan, log, replies, d[..])
      modifies this`replies, this`dpr, this`log, d
      ensures goal == Final(ret, log, replies, d[..])
    {
      ghost var buf := d[..];
      ret := StartStep(goal, plan, buf);
      if ret != Done { return; }
      label body: {
        ret := AddressStep(sa, a, goal, plan[1..], buf);
        if ret != Done { break body; }
        ret := StartStep(goal, plan[3..], buf);
        if ret != Done { return; }
        ret := WriteStep((sa << 1) | 1, goal, plan[4..], buf);
        if ret != Done { break body; }
        ret := ReadNakStep(d, 0, goal, plan[5..]);
        if ret != Done { return; }
      }
      StopStep(ret, goal, d[..]);
    }

    /** `iicmb_read_bus_mul`: read `n` bytes (at least one) from byte address
        `a` of slave `sa` into `d`, exactly as `Execute` runs the read plan. */
    method ReadBusMul(sa: bv8, a: bv8, d: array<bv8>, n: int) returns (ret: Rsp)
      requires 5 + Count(n) < |replies| && Count(n) <= d.Length
      modifies this`replies, this`dpr, this`log, d
      ensures var o := Execute(ReadPlan(sa, a, Count(n)), old(replies), old(d[..]));
              ret == o.ret && log == old(log) + o.writes && d[..] == o.buf && replies == old(replies)[o.used..]
    {
      ghost var plan := ReadPlan(sa, a, Count(n));
      ReadPlanShape(plan, sa, a, Count(n));
      ghost var goal := Target(plan, log, replies, d[..]);
      TargetFollows(plan, log, replies, d[..]);
      ret := ReadBusMulSteps(sa, a, d, n, goal, plan);
    }

    /** The commands of `iicmb_read_bus_mul`, following the read plan to its end. */
    method ReadBusMulSteps(sa: bv8, a: bv8, d: array<bv8>, n: int, ghost goal: Final, ghost plan: seq<Action>) returns (ret: Rsp)
      requires Count(n) <= d.Length && IsReadPlan(plan, sa, a, Count(n)) && Follows(goal, plan, log, replies, d[..])
      modifies this`replies, this`dpr, this`log, d
      ensures goal == Final(ret, log, replies, d[..])
    {
      ret := StartStep(goal, plan, d[..]);
      if ret != Done { return; }
      label body: {
        ret := AddressStep(sa, a, goal, plan[1..], d[..]);
        if ret != Done { break body; }
        ret := StartStep(goal, plan[3..], d[..]);
        if ret != Done { return; }
        ret := WriteStep((sa << 1) | 1, goal, plan[4..], d[..]);
        if ret != Done { break body; }
        ret := ReadBytes(d, n, goal, plan);
        if ret != Done { return; }
      }
      StopStep(ret, goal, d[..]);
    }

    /** The loop of `iicmb_read_bus_mul` and its closing READ_NAK: byte `i`
        into `d[i]`, the last one with NAK; a failed read returns at once. */
    method ReadBytes(d: array<bv8>, n: int, ghost goal: Final, ghost plan: seq<Action>) returns (ret: Rsp)
      requires Count(n) <= d.Length && |plan| == 5 + Count(n)
      requires forall j :: 5 <= j < 5 + Count(n) ==> plan[j] == ReadByte(j < 4 + Count(n), j - 5, ReturnAtOnce)
      requires Follows(goal, plan[5..], log, replies, d[..])
      modifies this`replies, this`dpr, this`log, d
      ensures ret == Done ==> Stopping(goal, Done, log, replies, d[..])
      ensures ret != Done ==> goal == Final(ret, log, replies, d[..])
    {
      var i := 0;
      while i < n - 1
        invariant 0 <= i < Count(n)
        invariant Follows(goal, plan[5 + i..], log, replies, d[..])
      {
        ret := ReadAckStep(d, i, goal, plan[5 + i..]);
        if ret != Done { return; }
        i := i + 1;
      }
      ret := ReadNakStep(d, i, goal, plan[5 + i..]);
    }

    /** `iicmb_write_bus`: write byte `d` to byte address `a` of slave `sa`,
        exactly as `Execute` runs the one-byte write plan. */
    method WriteBus(sa: bv8, a: bv8, d: bv8) returns (ret: Rsp)
      requires 4 < |replies|
      modifies this`replies, this`dpr, this`log
      ensures var o := Execute(WritePlan(sa, a, [d]), old(replies), []);
              ret == o.ret && log == old(log) + o.writes && replies == old(replies)[o.used..]
    {
      ghost var plan := WritePlan(sa, a, [d]);
      WritePlanShape(plan, sa, a, [d]);
      ghost var goal := Target(plan, log, replies, []);
      TargetFollows(plan, log, replies, []);
      ret := WriteBusSteps(sa, a, d, goal, plan);
    }

    /** The commands of `iicmb_write_bus`, following the one-byte write plan to its end. */
    method WriteBusSteps(sa: bv8, a: bv8, d: bv8, ghost goal: Final, ghost plan: seq<Action>) returns (ret: Rsp)
      requires IsWritePlan(plan, sa, a, [d]) && Follows(goal, plan, log, replies, [])
      modifies this`replies, this`dpr, this`log
      ensures goal == Final(ret, log, replies, [])
    {
      ret := StartStep(goal, plan, []);
      if ret != Done { return; }
      label body: {
        ret := AddressStep(sa, a, goal, plan[1..], []);
        if ret != Done { break body; }
        ret := WriteStep(d, goal, plan[3..], []);
        if ret != Done { break body; }
      }
      StopStep(ret, goal, []);
    }

    /** `iicmb_write_bus_mul`: write the first `n` bytes of `d` (none when
        `n <= 0`) from byte address `a` of slave `sa` on, exactly as `Execute`
        runs the write plan; a refused byte ends the loop and goes to STOP. */
    method WriteBusMul(sa: bv8, a: bv8, d: array<bv8>, n: int) returns (ret: Rsp)
      requires n <= d.Length && 3 + (if n > 0 then n else 0) < |replies|
      modifies this`replies, this`dpr, this`log
      ensures var o := Execute(WritePlan(sa, a, Sent(d[..], n)), old(replies), []);
              ret == o.ret && log == old(log) + o.writes && replies == old(replies)[o.used..]
    {
      ghost var plan := WritePlan(sa, a, Sent(d[..], n));
      WritePlanShape(plan, sa, a, Sent(d[..], n));
      ghost var goal := Target(plan, log, replies, []);
      TargetFollows(plan, log, replies, []);
      ret := WriteBusMulSteps(sa, a, d, n, goal, plan);
    }

    /** The commands of `iicmb_write_bus_mul`, following the write plan to its end. */
    method WriteBusMulSteps(sa: bv8, a: bv8, d: array<bv8>, n: int, ghost goal: Final, ghost plan: seq<Action>) returns (ret: Rsp)
      requires n <= d.Length && IsWritePlan(plan, sa, a, Sent(d[..], n)) && Follows(goal, plan, log, replies, [])
      modifies this`replies, this`dpr, this`log
      ensures goal == Final(ret, log, replies, [])
    {
      ret := StartStep(goal, plan, []);
      if ret != Done { return; }
      label body: {
        ret := AddressStep(sa, a, goal, plan[1..], []);
        if ret != Done { break body; }
        var i := 0;
        while i < n
          invariant 0 <= i <= |plan| - 3
          invariant ret == Done && Follows(goal, plan[3 + i..], log, replies, [])
        {
          ret := WriteStep(d[i], goal, plan[3 + i..], []);
          if ret != Done { break; }
          i := i + 1;
        }
      }
      StopStep(ret, goal, []);
    }
  }
}
