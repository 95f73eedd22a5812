// What one call of `iicm_fsm` does, path by path: each lemma fixes the state
// and the response class and states the resulting handle and register stores
// outright.

module IrqSteps {

  import opened Registers
  import opened IrqDefs
  import opened IrqFsm

  /** A masked response never equals the label IICMB_ERO_IICMB (0x04) that the
      write and read classes use where IICMB_RSP_ERR was meant. */
  lemma ErrLabelUnreachable(cmdReg: bv8)
    ensures cmdReg & IICMB_RSP != IICMB_ERO_IICMB
  {
  }

  /** In IDLE a step only acknowledges the interrupt. */
  lemma IdleStep(h: Handle, cmdReg: bv8, dpr: bv8)
    requires Consistent(h) && h.fsm == IICMB_FSM_IDLE
    ensures Step(h, cmdReg, dpr) == StepResult(h, [])
  {
  }

  /** In WT_IDLE every response ends in IDLE without a store: DONE clears
      "transfer incomplete" when a side completed, ERR latches the controller
      error, anything else the unknown-error bit. */
  lemma StopAnswered(h: Handle, cmdReg: bv8, dpr: bv8)
    requires Consistent(h) && h.fsm == IICMB_FSM_WT_IDLE
    ensures Step(h, cmdReg, dpr)
         == StepResult(h.(fsm := IICMB_FSM_IDLE, error := StopOutcome(h.error, SideComplete(h), cmdReg & IICMB_RSP)), [])
  {
  }

  /** DONE in WT_IDLE clears at most the TF_INC bit, exactly when the
      completion test holds, and sets none. */
  lemma StopClearsOnlyIncomplete(error: bv8, complete: bool)
    ensures StopOutcome(error, complete, IICMB_RSP_DONE) & !IICMB_ERO_TF_INC == error & !IICMB_ERO_TF_INC
    ensures StopOutcome(error, complete, IICMB_RSP_DONE) & IICMB_ERO_TF_INC
         == (if complete then 0 else error & IICMB_ERO_TF_INC)
  {
  }

  /** Arbitration lost in any write or read state: latch ARBLOST, STOP, wait
      in WT_IDLE; indices and buffers are kept. */
  lemma ArbitrationLost(h: Handle, cmdReg: bv8, dpr: bv8)
    requires Consistent(h)
    requires h.fsm & IICMB_FSM_CL == IICMB_FSM_CL_WR || h.fsm & IICMB_FSM_CL == IICMB_FSM_CL_RD
    requires cmdReg & IICMB_RSP == IICMB_RSP_ARB_LOST
    ensures Step(h, cmdReg, dpr)
         == StepResult(h.(error := h.error | IICMB_ERO_ARBLOST, fsm := IICMB_FSM_WT_IDLE), [Command(IICMB_CMD_STOP)])
  {
  }

  /** ERR, or a response with no flag among DONE/NAK/ARB_LOST, in any write or
      read state: latch UNKNOWN and change nothing else, so no command is
      issued and the machine stays where it is. */
  lemma UnexpectedResponse(h: Handle, cmdReg: bv8, dpr: bv8)
    requires Consistent(h)
    requires h.fsm & IICMB_FSM_CL == IICMB_FSM_CL_WR || h.fsm & IICMB_FSM_CL == IICMB_FSM_CL_RD
    requires cmdReg & IICMB_RSP !in {IICMB_RSP_DONE, IICMB_RSP_NAK, IICMB_RSP_ARB_LOST}
    ensures Step(h, cmdReg, dpr) == StepResult(h.(error := h.error | IICMB_ERO_UNKNOWN), [])
  {
    ErrLabelUnreachable(cmdReg);
  }

  /** The slave address goes out from WR_ADR_SET and RD_ADR_SET, with the
      direction bit of the state's class; a NAK here is not looked at. */
  lemma AddressSent(h: Handle, cmdReg: bv8, dpr: bv8)
    requires Consistent(h) && (h.fsm == IICMB_FSM_WR_ADR_SET || h.fsm == IICMB_FSM_RD_ADR_SET)
    requires cmdReg & IICMB_RSP == IICMB_RSP_DONE || cmdReg & IICMB_RSP == IICMB_RSP_NAK
    ensures Step(h, cmdReg, dpr)
         == if h.fsm == IICMB_FSM_WR_ADR_SET
            then StepResult(h.(fsm := IICMB_FSM_WR_ADR_CHK), [Param(h.adr | IICMB_I2C_WR), Command(IICMB_CMD_WRITE)])
            else StepResult(h.(fsm := IICMB_FSM_RD_ADR_CHK), [Param(h.adr | IICMB_I2C_RD), Command(IICMB_CMD_WRITE)])
  {
  }

  /** NAK on the address byte, in either direction: latch NOSLAVE, STOP, no data. */
  lemma AddressRefused(h: Handle, cmdReg: bv8, dpr: bv8)
    requires Consistent(h) && (h.fsm == IICMB_FSM_WR_ADR_CHK || h.fsm == IICMB_FSM_RD_ADR_CHK)
    requires cmdReg & IICMB_RSP == IICMB_RSP_NAK
    ensures Step(h, cmdReg, dpr)
         == StepResult(h.(error := h.error | IICMB_ERO_NOSLAVE, fsm := IICMB_FSM_WT_IDLE), [Command(IICMB_CMD_STOP)])
  {
  }

  /** NAK on a data byte: STOP and WT_IDLE, with no new error bit. */
  lemma DataRefused(h: Handle, cmdReg: bv8, dpr: bv8)
    requires Consistent(h) && h.fsm == IICMB_FSM_WR_DAT
    requires cmdReg & IICMB_RSP == IICMB_RSP_NAK
    ensures Step(h, cmdReg, dpr) == StepResult(h.(fsm := IICMB_FSM_WT_IDLE), [Command(IICMB_CMD_STOP)])
  {
  }

  /** DONE after the address or a data byte of a write: the next byte goes out;
      after the last one, a repeated START when a read follows, else STOP. */
  lemma ByteSent(h: Handle, cmdReg: bv8, dpr: bv8)
    requires Consistent(h) && (h.fsm == IICMB_FSM_WR_ADR_CHK || h.fsm == IICMB_FSM_WR_DAT)
    requires cmdReg & IICMB_RSP == IICMB_RSP_DONE
    ensures Step(h, cmdReg, dpr)
         == if h.wrIs < h.wrLen
            then StepResult(h.(fsm := IICMB_FSM_WR_DAT, wrIs := h.wrIs + 1), [Param(h.wrBuf[h.wrIs]), Command(IICMB_CMD_WRITE)])
            else if h.wrRd == 1 then StepResult(h.(fsm := IICMB_FSM_RD_ADR_SET), [Command(IICMB_CMD_START)])
            else StepResult(h.(fsm := IICMB_FSM_WT_IDLE), [Command(IICMB_CMD_STOP)])
  {
  }

  /** DONE after the read address: the first read, with NAK exactly when a
      single byte is requested. */
  lemma ReadAddressAcked(h: Handle, cmdReg: bv8, dpr: bv8)
    requires Consistent(h) && h.fsm == IICMB_FSM_RD_ADR_CHK
    requires cmdReg & IICMB_RSP == IICMB_RSP_DONE
    ensures Step(h, cmdReg, dpr)
         == StepResult(h.(fsm := IICMB_FSM_RD_BYTE),
                       [Command(if h.rdLen == 1 then IICMB_CMD_READ_NAK else IICMB_CMD_READ_ACK)])
  {
  }

  /** A byte in RD_BYTE (its response flag is not looked at): the DPR byte is
      stored at the read index, then STOP after the last byte, else the next
      read, with NAK exactly for the final one. */
  lemma ByteReceived(h: Handle, cmdReg: bv8, dpr: bv8)
    requires Consistent(h) && h.fsm == IICMB_FSM_RD_BYTE
    requires cmdReg & IICMB_RSP == IICMB_RSP_DONE || cmdReg & IICMB_RSP == IICMB_RSP_NAK
    ensures
      var g := h.(rdBuf := h.rdBuf[h.rdIs := dpr], rdIs := h.rdIs + 1);
      Step(h, cmdReg, dpr)
        == if g.rdIs == g.rdLen then StepResult(g.(fsm := IICMB_FSM_WT_IDLE), [Command(IICMB_CMD_STOP)])
           else StepResult(g, [Command(if g.rdIs == g.rdLen - 1 then IICMB_CMD_READ_NAK else IICMB_CMD_READ_ACK)])
  {
  }
}
