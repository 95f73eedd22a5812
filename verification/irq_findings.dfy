// Two places where `iicm_fsm` does not do what its comments and its own
// structure say it means to do. For each: the behaviour as written, shown on
// the model of the code, and a corrected step with the intended property
// proved about it.

module IrqFindings {

  import opened Registers
  import opened IrqDefs
  import opened IrqFsm
  import opened IrqSteps
  import opened IrqRuns

  // 1. The write and read classes test the masked response against
  //    IICMB_ERO_IICMB (0x04), an error-code constant, where IICMB_RSP_ERR
  //    (0x10) is meant; the branch (end the transfer, latch IICMB) is dead.

  /** As written, ERR after a command of a transfer latches UNKNOWN, issues no
      command and keeps the state: no further interrupt comes, and the handle
      stays busy with the controller error unreported. */
  lemma ErrStallsTransfer(h: Handle, dpr: bv8)
    requires Consistent(h) && (IsWriteState(h.fsm) || IsReadState(h.fsm))
    ensures var r := Step(h, IICMB_RSP_ERR, dpr);
            && r.writes == [] && r.next.fsm == h.fsm && Busy(r.next) == IICMB_ERROR
            && r.next.error & IICMB_ERO_UNKNOWN != 0
            && r.next.error & IICMB_ERO_IICMB == h.error & IICMB_ERO_IICMB
  {
    StateClasses();
    UnexpectedResponse(h, IICMB_RSP_ERR, dpr);
  }

  /** `iicm_fsm` with both corrections: ERR in a transfer state ends it in IDLE
      with IICMB latched, and the completion test after STOP asks for both
      sides to be complete. Every other case is the step as written. */
  function StepIntended(h: Handle, cmdReg: bv8, dpr: bv8): (r: StepResult)
    requires Consistent(h)
    ensures Consistent(r.next)
  {
    var cl := h.fsm & IICMB_FSM_CL;
    var rsp := cmdReg & IICMB_RSP;
    if (cl == IICMB_FSM_CL_WR || cl == IICMB_FSM_CL_RD) && rsp == IICMB_RSP_ERR then
      StepResult(h.(error := h.error | IICMB_ERO_IICMB, fsm := IICMB_FSM_IDLE), [])
    else if h.fsm == IICMB_FSM_WT_IDLE then
      StepResult(h.(fsm := IICMB_FSM_IDLE, error := StopOutcome(h.error, BothComplete(h), rsp)), [])
    else
      Step(h, cmdReg, dpr)
  }

  /** The completion test as intended: every requested byte of both sides moved. */
  predicate BothComplete(h: Handle)
  {
    h.wrLen == h.wrIs && h.rdLen == h.rdIs
  }

  /** The response of one finished command: exactly one flag set. */
  predicate SingleFlag(rsp: bv8)
  {
    rsp == IICMB_RSP_DONE || rsp == IICMB_RSP_NAK || rsp == IICMB_RSP_ARB_LOST || rsp == IICMB_RSP_ERR
  }

  /** With the correction, a write state never stalls: whatever single flag
      the controller reports, the step issues a command (so another interrupt
      follows) or returns to IDLE. */
  lemma {:induction false} IntendedWriteProgress(h: Handle, cmdReg: bv8, dpr: bv8)
    requires Consistent(h) && IsWriteState(h.fsm) && SingleFlag(cmdReg & IICMB_RSP)
    ensures var r := StepIntended(h, cmdReg, dpr);
            r.writes != [] || r.next.fsm == IICMB_FSM_IDLE
  {
    StateClasses();
    var rsp := cmdReg & IICMB_RSP;
    if rsp == IICMB_RSP_ARB_LOST {
      ArbitrationLost(h, cmdReg, dpr);
    } else if rsp == IICMB_RSP_NAK && h.fsm == IICMB_FSM_WR_ADR_SET {
      AddressSent(h, cmdReg, dpr);
    } else if rsp == IICMB_RSP_NAK && h.fsm == IICMB_FSM_WR_ADR_CHK {
      AddressRefused(h, cmdReg, dpr);
    } else if rsp == IICMB_RSP_NAK {
      DataRefused(h, cmdReg, dpr);
    } else if rsp == IICMB_RSP_DONE && h.fsm == IICMB_FSM_WR_ADR_SET {
      AddressSent(h, cmdReg, dpr);
    } else if rsp == IICMB_RSP_DONE {
      ByteSent(h, cmdReg, dpr);
    }
  }

  /** The same for the read states. */
  lemma {:induction false} IntendedReadProgress(h: Handle, cmdReg: bv8, dpr: bv8)
    requires Consistent(h) && IsReadState(h.fsm) && SingleFlag(cmdReg & IICMB_RSP)
    ensures var r := StepIntended(h, cmdReg, dpr);
            r.writes != [] || r.next.fsm == IICMB_FSM_IDLE
  {
    StateClasses();
    var rsp := cmdReg & IICMB_RSP;
    if rsp == IICMB_RSP_ARB_LOST {
      ArbitrationLost(h, cmdReg, dpr);
    } else if rsp == IICMB_RSP_ERR {
    } else if h.fsm == IICMB_FSM_RD_ADR_SET {
      AddressSent(h, cmdReg, dpr);
    } else if h.fsm == IICMB_FSM_RD_ADR_CHK && rsp == IICMB_RSP_NAK {
      AddressRefused(h, cmdReg, dpr);
    } else if h.fsm == IICMB_FSM_RD_ADR_CHK {
      ReadAddressAcked(h, cmdReg, dpr);
    } else {
      ByteReceived(h, cmdReg, dpr);
    }
  }

  // 2. The completion test after STOP is `wrLen == wrIs || rdLen == rdIs`:
  //    one complete side is enough to clear "transfer incomplete". After a
  //    one-sided `iicm_wr_rd` the side not requested has zero counters, so
  //    the test is always true. `iicm_write` and `iicm_read` leave the other
  //    side's counters from the last transfer, so there it depends on history.
  //    The correction asks for both sides and has the one-sided initiators
  //    clear the side not requested, as `iicm_wr_rd` does.

  /** As written: a one-sided `iicm_wr_rd` of two bytes whose second byte the
      slave refuses ends in IDLE with no error bit at all, though only one
      byte went out. */
  lemma RefusedWriteReportedComplete()
    ensures
      var h0 := Handle(IICMB_FSM_IDLE, 0, 0, 0, 0, 0, 0, 0, [], []);
      var a := WriteRead(h0, 0x50, [1, 2], 2, [], 0);
      var r := Run(a.next, [Done(0), Done(0), Irq(IICMB_RSP_NAK, 0), Done(0)]);
      && a.ret == IICMB_OK
      && a.writes + r.writes
         == [Command(IICMB_CMD_START), Param(0xA0), Command(IICMB_CMD_WRITE),
             Param(1), Command(IICMB_CMD_WRITE), Command(IICMB_CMD_STOP)]
      && r.next.fsm == IICMB_FSM_IDLE && r.next.wrIs < r.next.wrLen && Error(r.next) == 0
  {
    var h0 := Handle(IICMB_FSM_IDLE, 0, 0, 0, 0, 0, 0, 0, [], []);
    var g := WriteRead(h0, 0x50, [1, 2], 2, [], 0).next;
    assert g == Handle(IICMB_FSM_WR_ADR_SET, 0, 0xA0, IICMB_ERO_TF_INC, 2, 0, 0, 0, [1, 2], []);
    var s0 := Step(g, IICMB_RSP_DONE, 0);
    AddressSent(g, IICMB_RSP_DONE, 0);
    var s1 := Step(s0.next, IICMB_RSP_DONE, 0);
    ByteSent(s0.next, IICMB_RSP_DONE, 0);
    var s2 := Step(s1.next, IICMB_RSP_NAK, 0);
    DataRefused(s1.next, IICMB_RSP_NAK, 0);
    var s3 := Step(s2.next, IICMB_RSP_DONE, 0);
    StopAnswered(s2.next, IICMB_RSP_DONE, 0);
    assert s3.next.error == 0;
    var e1 := [Done(0), Irq(IICMB_RSP_NAK, 0), Done(0)];
    var e2 := [Irq(IICMB_RSP_NAK, 0), Done(0)];
    var e3 := [Done(0)];
    RunCons(g, Done(0), e1);
    Advance(s0, Done(0), s1, e2);
    var a1 := StepResult(s1.next, s0.writes + s1.writes);
    Advance(a1, Irq(IICMB_RSP_NAK, 0), s2, e3);
    var a2 := StepResult(s2.next, a1.writes + s2.writes);
    Advance(a2, Done(0), s3, []);
    ThenNothing(StepResult(s3.next, a2.writes + s3.writes));
  }

  /** With the correction, the answer to STOP always ends in IDLE, and
      "transfer incomplete" is clear afterwards exactly when it was clear
      before or the answer is DONE and every requested byte of both sides
      was transferred. */
  lemma IntendedCompletion(h: Handle, cmdReg: bv8, dpr: bv8)
    requires Consistent(h) && h.fsm == IICMB_FSM_WT_IDLE
    ensures var r := StepIntended(h, cmdReg, dpr);
            && r.writes == [] && r.next.fsm == IICMB_FSM_IDLE
            && (r.next.error & IICMB_ERO_TF_INC == 0 <==>
                  h.error & IICMB_ERO_TF_INC == 0
                  || (cmdReg & IICMB_RSP == IICMB_RSP_DONE && h.wrIs == h.wrLen && h.rdIs == h.rdLen))
  {
  }

  /** Outside WT_IDLE and ERR in a transfer state, the corrected step is the
      step as written. */
  lemma IntendedAgrees(h: Handle, cmdReg: bv8, dpr: bv8)
    requires Consistent(h) && h.fsm != IICMB_FSM_WT_IDLE
    requires cmdReg & IICMB_RSP != IICMB_RSP_ERR
    ensures StepIntended(h, cmdReg, dpr) == Step(h, cmdReg, dpr)
  {
  }

  /** `iicm_write` as intended: an accepted request also clears the read side,
      as a one-sided `iicm_wr_rd` does; otherwise it is `iicm_write`. */
  function WriteIntended(h: Handle, adr7: bv8, buf: seq<bv8>, len: u16): (r: Armed)
    requires len <= |buf|
    ensures var x := Write(h, adr7, buf, len);
            && r.ret == x.ret && r.writes == x.writes
            && r.next == if x.writes == [] then x.next else x.next.(rdLen := 0, rdIs := 0, rdBuf := [])
  {
    OneSidedWriteRead(h, adr7, buf, len, []);
    WriteRead(h, adr7, buf, len, [], 0)
  }

  /** `iicm_read` as intended: an accepted request also clears the write side. */
  function ReadIntended(h: Handle, adr7: bv8, buf: seq<bv8>, len: u16): (r: Armed)
    requires len <= |buf|
    ensures var x := Read(h, adr7, buf, len);
            && r.ret == x.ret && r.writes == x.writes
            && r.next == if x.writes == [] then x.next else x.next.(wrLen := 0, wrIs := 0, wrBuf := [])
  {
    OneSidedWriteRead(h, adr7, buf, len, []);
    WriteRead(h, adr7, [], 0, buf, len)
  }

  /** With both corrections, a write acknowledged throughout ends error-free
      from any IDLE handle, whatever counters an earlier read left: the
      address and data phase runs as written (no WT_IDLE and no ERR on the
      way, where the two steps agree) and ends in WT_IDLE after STOP; the
      DONE that answers STOP then clears every error bit. */
  lemma IntendedWriteTransfer(h: Handle, adr7: bv8, buf: seq<bv8>, len: u16)
    requires h.fsm == IICMB_FSM_IDLE && 0 < len as int <= |buf|
    ensures
      var a := WriteIntended(h, adr7, buf, len);
      var w := Then(StepResult(a.next, a.writes), Dones(len as nat + 2));
      var s := StepIntended(w.next, IICMB_RSP_DONE, 0);
      && a.ret == IICMB_OK
      && w.next.fsm == IICMB_FSM_WT_IDLE && w.next.wrIs == len
      && w.writes
         == [Command(IICMB_CMD_START)] + [Param(ShiftedAddress(adr7) | IICMB_I2C_WR), Command(IICMB_CMD_WRITE)]
            + SentBytes(buf, 0, len as nat) + [Command(IICMB_CMD_STOP)]
      && s.writes == [] && Busy(s.next) == IICMB_OKAY && Error(s.next) == 0
  {
    var a := WriteIntended(h, adr7, buf, len);
    var acc := StepResult(a.next, a.writes);
    assert Dones(len as nat + 2) + [] == Dones(len as nat + 2);
    WritePhase(acc, []);
    var g := acc.next;
    var done := g.(wrIs := g.wrLen, fsm := IICMB_FSM_WT_IDLE);
    ThenNothing(StepResult(done, acc.writes + [Param(g.adr | IICMB_I2C_WR), Command(IICMB_CMD_WRITE)]
                                 + SentBytes(g.wrBuf, 0, g.wrLen as nat) + [Command(IICMB_CMD_STOP)]));
    IntendedCompletion(done, IICMB_RSP_DONE, 0);
  }

  /** The same for a read: every byte in the buffer, then error-free. */
  lemma IntendedReadTransfer(h: Handle, adr7: bv8, buf: seq<bv8>, len: u16, data: seq<bv8>)
    requires h.fsm == IICMB_FSM_IDLE && 0 < len as int <= |buf| && |data| == len as int
    ensures
      var a := ReadIntended(h, adr7, buf, len);
      var w := Then(StepResult(a.next, a.writes), Dones(2) + ReadIrqs(data));
      var s := StepIntended(w.next, IICMB_RSP_DONE, 0);
      && a.ret == IICMB_OK
      && w.next.fsm == IICMB_FSM_WT_IDLE && w.next.rdIs == len && w.next.rdBuf == data + buf[len..]
      && w.writes
         == [Command(IICMB_CMD_START)] + [Param(ShiftedAddress(adr7) | IICMB_I2C_RD), Command(IICMB_CMD_WRITE)]
            + ReadCommands(0, len as nat) + [Command(IICMB_CMD_STOP)]
      && s.writes == [] && Busy(s.next) == IICMB_OKAY && Error(s.next) == 0
  {
    var a := ReadIntended(h, adr7, buf, len);
    var acc := StepResult(a.next, a.writes);
    assert Dones(2) + (ReadIrqs(data) + []) == Dones(2) + ReadIrqs(data);
    ReadPhase(acc, data, []);
    var g := acc.next;
    var done := g.(fsm := IICMB_FSM_WT_IDLE, rdIs := g.rdLen, rdBuf := Fill(g.rdBuf, 0, data));
    ThenNothing(StepResult(done, acc.writes + [Param(g.adr | IICMB_I2C_RD), Command(IICMB_CMD_WRITE)]
                                 + ReadCommands(0, g.rdLen as nat) + [Command(IICMB_CMD_STOP)]));
    FillFromStart(buf, data);
    IntendedCompletion(done, IICMB_RSP_DONE, 0);
  }

  /** With the correction, the refused write of the as-written trace above is
      reported: after STOP is answered, "transfer incomplete" stays set. */
  lemma IntendedRefusedWriteReported()
    ensures
      var h0 := Handle(IICMB_FSM_IDLE, 0, 0, 0, 0, 0, 0, 0, [], []);
      var a := WriteIntended(h0, 0x50, [1, 2], 2);
      var w := Run(a.next, [Done(0), Done(0), Irq(IICMB_RSP_NAK, 0)]);
      var s := StepIntended(w.next, IICMB_RSP_DONE, 0);
      && w.next.fsm == IICMB_FSM_WT_IDLE
      && s.next.fsm == IICMB_FSM_IDLE && s.next.wrIs < s.next.wrLen
      && s.next.error & IICMB_ERO_TF_INC != 0
  {
    var h0 := Handle(IICMB_FSM_IDLE, 0, 0, 0, 0, 0, 0, 0, [], []);
    var g := WriteIntended(h0, 0x50, [1, 2], 2).next;
    assert g == Handle(IICMB_FSM_WR_ADR_SET, 0, 0xA0, IICMB_ERO_TF_INC, 2, 0, 0, 0, [1, 2], []);
    var s0 := Step(g, IICMB_RSP_DONE, 0);
    AddressSent(g, IICMB_RSP_DONE, 0);
    var s1 := Step(s0.next, IICMB_RSP_DONE, 0);
    ByteSent(s0.next, IICMB_RSP_DONE, 0);
    var s2 := Step(s1.next, IICMB_RSP_NAK, 0);
    DataRefused(s1.next, IICMB_RSP_NAK, 0);
    var e1 := [Done(0), Irq(IICMB_RSP_NAK, 0)];
    var e2 := [Irq(IICMB_RSP_NAK, 0)];
    assert [Done(0)] + e1 == [Done(0), Done(0), Irq(IICMB_RSP_NAK, 0)];
    assert [Done(0)] + e2 == e1 && e2 + [] == e2;
    RunCons(g, Done(0), e1);
    Advance(s0, Done(0), s1, e2);
    var a1 := StepResult(s1.next, s0.writes + s1.writes);
    Advance(a1, Irq(IICMB_RSP_NAK, 0), s2, []);
    ThenNothing(StepResult(s2.next, a1.writes + s2.writes));
    assert s2.next == g.(fsm := IICMB_FSM_WT_IDLE, wrIs := 1);
    IntendedCompletion(s2.next, IICMB_RSP_DONE, 0);
    assert StepIntended(s2.next, IICMB_RSP_DONE, 0).next.wrIs == 1;
  }
}
