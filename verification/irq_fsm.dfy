// The interrupt-driven transfer state machine of software/irq/iicmb.c, as
// functions on a value of the driver handle. IrqSession's class runs the same
// steps in place; the lemmas here and in IrqRuns state what the steps promise.

module IrqFsm {

  import opened Wrappers
  import opened Registers
  import opened IrqDefs

  /** The driver handle `t_iicm`. `wrBuf` and `rdBuf` are the contents of the
      buffers the handle points at; a NULL pointer is the empty sequence. */
  datatype Handle = Handle(
    fsm: bv8,       // uint8FSM, a state code (any byte, so that unknown codes stay expressible)
    wrRd: bv1,      // uint8WrRd: a read follows the write (repeated start)
    adr: bv8,       // uint8Adr: the 7-bit slave address shifted left by one
    error: bv8,     // uint8Error: or-latched IICMB_ERO_* bits
    wrLen: u16, wrIs: u16,
    rdLen: u16, rdIs: u16,
    wrBuf: seq<bv8>,
    rdBuf: seq<bv8>)

  /** The new handle and the register stores, in order, of one call. */
  datatype StepResult = StepResult(next: Handle, writes: seq<RegWrite>)

  /** A store into the data/parameter register. */
  function Param(v: bv8): RegWrite { RegWrite(IICMB_DPR, v) }

  /** A store into the command register. */
  function Command(op: bv8): RegWrite { RegWrite(IICMB_CMDR, op) }

  predicate IsWriteState(fsm: bv8)
  {
    fsm == IICMB_FSM_WR_ADR_SET || fsm == IICMB_FSM_WR_ADR_CHK || fsm == IICMB_FSM_WR_DAT
  }

  predicate IsReadState(fsm: bv8)
  {
    fsm == IICMB_FSM_RD_ADR_SET || fsm == IICMB_FSM_RD_ADR_CHK || fsm == IICMB_FSM_RD_BYTE
  }

  /** What every handle the driver produces satisfies: in a transfer state the
      indices stay within their lengths and the lengths within the buffers. */
  predicate Consistent(h: Handle): (c: bool)
    ensures !IsWriteState(h.fsm) && !IsReadState(h.fsm) ==> c
    ensures c && IsWriteState(h.fsm) && h.wrIs < h.wrLen ==> h.wrIs as int < |h.wrBuf|
    ensures c && h.fsm == IICMB_FSM_RD_BYTE ==> h.rdIs as int < |h.rdBuf|
  {
    && (IsWriteState(h.fsm) ==> h.wrIs <= h.wrLen <= |h.wrBuf|)
    && (IsWriteState(h.fsm) && h.wrRd == 1 ==> h.rdIs == 0 < h.rdLen <= |h.rdBuf|)
    && (h.fsm == IICMB_FSM_RD_ADR_SET || h.fsm == IICMB_FSM_RD_ADR_CHK ==> h.rdIs == 0 < h.rdLen <= |h.rdBuf|)
    && (h.fsm == IICMB_FSM_RD_BYTE ==> h.rdIs < h.rdLen <= |h.rdBuf|)
  }

  /** A step's stores issue exactly one command, possibly after one parameter. */
  predicate IssuesOneCommand(ws: seq<RegWrite>)
  {
    || (|ws| == 1 && ws[0].offset == IICMB_CMDR)
    || (|ws| == 2 && ws[0].offset == IICMB_DPR && ws[1].offset == IICMB_CMDR)
  }

  predicate IsReadCommand(ws: seq<RegWrite>)
  {
    ws == [Command(IICMB_CMD_READ_ACK)] || ws == [Command(IICMB_CMD_READ_NAK)]
  }

  /** The laws every step obeys, for handle `h`, DPR byte `dpr` and result `r`. */
  predicate StepLaws(h: Handle, dpr: bv8, r: StepResult)
    requires Consistent(h)
  {
    && Consistent(r.next)
    && KeepsRequest(h, dpr, r)
    && KeepsErrors(h, r)
    && IssuesCommands(h, r)
  }

  /** The request is kept; the indices and the read buffer move by one byte at most. */
  predicate KeepsRequest(h: Handle, dpr: bv8, r: StepResult)
    requires Consistent(h)
  {
    // the request itself (address, lengths, write buffer, flag) is never changed
    && r.next.(fsm := h.fsm, error := h.error, wrIs := h.wrIs, rdIs := h.rdIs, rdBuf := h.rdBuf) == h
    // indices grow by at most one; a sent data byte is the next one of the buffer
    && h.wrIs <= r.next.wrIs <= h.wrIs + 1 && h.rdIs <= r.next.rdIs <= h.rdIs + 1
    && (r.next.wrIs != h.wrIs ==>
          IsWriteState(h.fsm) && h.wrIs < h.wrLen &&
          r.writes == [Param(h.wrBuf[h.wrIs]), Command(IICMB_CMD_WRITE)])
    // the read buffer changes in the cell at the read index only, to the DPR byte
    && (r.next.rdIs == h.rdIs ==> r.next.rdBuf == h.rdBuf)
    && (r.next.rdIs != h.rdIs ==>
          h.fsm == IICMB_FSM_RD_BYTE && r.next.rdBuf == h.rdBuf[h.rdIs := dpr])
  }

  /** Error bits are latched. */
  predicate KeepsErrors(h: Handle, r: StepResult)
  {
    // error bits are only ever added, except the incomplete-transfer bit in WT_IDLE
    && h.error & !IICMB_ERO_TF_INC & !r.next.error == 0
    && (h.fsm != IICMB_FSM_WT_IDLE ==> h.error & !r.next.error == 0)
  }

  /** What a step may put in the command register, and what it implies. */
  predicate IssuesCommands(h: Handle, r: StepResult)
  {
    // at most one command per interrupt; a command means another interrupt is awaited
    && (r.writes == [] || IssuesOneCommand(r.writes))
    && (r.writes != [] ==> r.next.fsm != IICMB_FSM_IDLE)
    && (r.writes == [] && r.next.fsm != IICMB_FSM_IDLE ==>
          r.next.error & (IICMB_ERO_UNKNOWN | IICMB_ERO_FSM) != 0)
    // STOP is issued exactly when WT_IDLE is entered; START only as the repeated start
    && (r.next.fsm == IICMB_FSM_WT_IDLE <==> r.writes == [Command(IICMB_CMD_STOP)])
    && (r.writes == [Command(IICMB_CMD_START)] <==> IsWriteState(h.fsm) && r.next.fsm == IICMB_FSM_RD_ADR_SET)
    && (r.writes == [Command(IICMB_CMD_START)] ==> h.wrRd == 1 && h.wrIs == h.wrLen)
    // a read is requested with NAK exactly when it fetches the last byte
    && (IsReadCommand(r.writes) ==>
          r.next.fsm == IICMB_FSM_RD_BYTE && r.next.rdIs < r.next.rdLen &&
          (r.writes[0].value == IICMB_CMD_READ_NAK <==> r.next.rdIs == r.next.rdLen - 1))
    // a state only ever moves to a known state
    && (r.next.fsm == h.fsm || Decode(r.next.fsm).Some?)
  }

  /** `iicm_fsm`: one step per completion interrupt. `cmdReg` is the byte read
      from CMDR at entry, `dpr` what DPR holds (read only in RD_BYTE). */
  function Step(h: Handle, cmdReg: bv8, dpr: bv8): (r: StepResult)
    requires Consistent(h)
    ensures Consistent(r.next)
  {
    var cl := h.fsm & IICMB_FSM_CL;
    if cl == IICMB_FSM_IDLE then IdleClassStep(h, cmdReg)
    else if cl == IICMB_FSM_CL_WR then
      match Screen(h, cmdReg)
      case Some(abort) => abort
      case None => WriteStep(h, cmdReg)
    else if cl == IICMB_FSM_CL_RD then
      match Screen(h, cmdReg)
      case Some(abort) => abort
      case None => ReadStep(h, cmdReg, dpr)
    else StepResult(h.(error := h.error | IICMB_ERO_FSM), [])
  }

  /** The error word after the controller answered STOP with `rsp`, for error
      word `error` and `complete` as the completion test found it: DONE clears
      "transfer incomplete" when the transfer is complete, ERR latches the
      controller error, anything else the unknown-error bit. */
  function StopOutcome(error: bv8, complete: bool, rsp: bv8): (r: bv8)
    ensures rsp != IICMB_RSP_DONE ==> r & error == error
    ensures rsp == IICMB_RSP_ERR ==> r & IICMB_ERO_IICMB != 0
    ensures rsp != IICMB_RSP_DONE && rsp != IICMB_RSP_ERR ==> r & IICMB_ERO_UNKNOWN != 0
    ensures rsp == IICMB_RSP_ERR ==> r & !IICMB_ERO_IICMB == error & !IICMB_ERO_IICMB
    ensures rsp != IICMB_RSP_DONE && rsp != IICMB_RSP_ERR ==> r & !IICMB_ERO_UNKNOWN == error & !IICMB_ERO_UNKNOWN
  {
    if rsp == IICMB_RSP_DONE then (if complete then error & !IICMB_ERO_TF_INC else error)
    else if rsp == IICMB_RSP_ERR then error | IICMB_ERO_IICMB
    else error | IICMB_ERO_UNKNOWN
  }

  /** The completion test after STOP: one side complete is enough, so a
      side with zero length and index passes it whatever the other did. */
  predicate SideComplete(h: Handle): (c: bool)
    ensures h.wrLen == h.wrIs && h.rdLen == h.rdIs ==> c
    ensures h.wrLen == h.wrIs == 0 || h.rdLen == h.rdIs == 0 ==> c
  {
    h.wrLen == h.wrIs || h.rdLen == h.rdIs
  }

  /** The idle class: WT_IDLE always ends in IDLE, judging the STOP's response;
      IDLE only acknowledges the interrupt; any other code of the class is an FSM error. */
  function IdleClassStep(h: Handle, cmdReg: bv8): (r: StepResult)
    requires Consistent(h) && h.fsm & IICMB_FSM_CL == 0
    ensures Consistent(r.next)
  {
    if h.fsm == IICMB_FSM_WT_IDLE then
      StepResult(h.(error := StopOutcome(h.error, SideComplete(h), cmdReg & IICMB_RSP), fsm := IICMB_FSM_IDLE), [])
    else if h.fsm == IICMB_FSM_IDLE then StepResult(h, [])
    else StepResult(h.(error := h.error | IICMB_ERO_FSM), [])
  }

  /** The response check of the write and read classes. None lets DONE and NAK
      through to the byte-level step. The label compared against IICMB_ERO_IICMB
      (0x04) can never match a masked response, so ERR lands in the last branch. */
  function Screen(h: Handle, cmdReg: bv8): (r: Option<StepResult>)
    requires Consistent(h) && h.fsm & IICMB_FSM_CL != 0
    ensures r.None? <==> cmdReg & IICMB_RSP in {IICMB_RSP_DONE, IICMB_RSP_NAK}
    ensures r.Some? ==> Consistent(r.value.next)
  {
    var rsp := cmdReg & IICMB_RSP;
    if rsp == IICMB_RSP_DONE || rsp == IICMB_RSP_NAK then None
    else if rsp == IICMB_RSP_ARB_LOST then Some(Release(h, IICMB_ERO_ARBLOST))
    else if rsp == IICMB_ERO_IICMB then Some(Abandon(h))
    else Some(Latch(h, IICMB_ERO_UNKNOWN))
  }

  /** The branch under the IICMB_ERO_IICMB label: latch the controller error and
      drop the transfer without a STOP. */
  function Abandon(h: Handle): (r: StepResult)
    ensures Consistent(r.next)
  {
    StepResult(h.(error := h.error | IICMB_ERO_IICMB, fsm := IICMB_FSM_IDLE), [])
  }

  /** The byte write states, after the response check. */
  function WriteStep(h: Handle, cmdReg: bv8): (r: StepResult)
    requires Consistent(h) && h.fsm & IICMB_FSM_CL == IICMB_FSM_CL_WR
    ensures Consistent(r.next)
  {
    if h.fsm == IICMB_FSM_WR_ADR_SET then SendAddress(h, IICMB_I2C_WR, IICMB_FSM_WR_ADR_CHK)
    else if h.fsm == IICMB_FSM_WR_ADR_CHK then CheckWriteAddress(h, cmdReg)
    else if h.fsm == IICMB_FSM_WR_DAT then SendNextByte(h, cmdReg)
    else Latch(h, IICMB_ERO_FSM)
  }

  /** WR_ADR_CHK: a NAK on the address means no slave; otherwise go on to WR_DAT
      and send the first data byte in the same step. */
  function CheckWriteAddress(h: Handle, cmdReg: bv8): (r: StepResult)
    requires Consistent(h) && h.fsm == IICMB_FSM_WR_ADR_CHK
    ensures Consistent(r.next)
  {
    if cmdReg & IICMB_RSP == IICMB_RSP_NAK then Release(h, IICMB_ERO_NOSLAVE)
    else SendNextByte(h, cmdReg)
  }

  /** WR_ADR_SET and RD_ADR_SET: send the slave address with direction bit `dir`. */
  function SendAddress(h: Handle, dir: bv8, check: bv8): (r: StepResult)
    requires Consistent(h)
    requires (h.fsm, dir, check) == (IICMB_FSM_WR_ADR_SET, IICMB_I2C_WR, IICMB_FSM_WR_ADR_CHK) ||
             (h.fsm, dir, check) == (IICMB_FSM_RD_ADR_SET, IICMB_I2C_RD, IICMB_FSM_RD_ADR_CHK)
    ensures Consistent(r.next)
  {
    StepResult(h.(fsm := check), [Param(h.adr | dir), Command(IICMB_CMD_WRITE)])
  }

  /** Give up or finish the transfer: latch `bits`, issue STOP and wait for it in WT_IDLE. */
  function Release(h: Handle, bits: bv8): (r: StepResult)
    requires Consistent(h) && h.fsm != IICMB_FSM_WT_IDLE
    ensures Consistent(r.next)
  {
    StepResult(h.(error := h.error | bits, fsm := IICMB_FSM_WT_IDLE), [Command(IICMB_CMD_STOP)])
  }

  /** Latch `bit` and do nothing else: no command, no state change. */
  function Latch(h: Handle, bit: bv8): (r: StepResult)
    requires Consistent(h) && h.fsm != IICMB_FSM_WT_IDLE && h.fsm != IICMB_FSM_IDLE
    requires bit == IICMB_ERO_FSM || bit == IICMB_ERO_UNKNOWN
    ensures Consistent(r.next)
  {
    StepResult(h.(error := h.error | bit), [])
  }

  /** WR_DAT, entered from the address check (the state becomes WR_DAT first)
      or from the previous byte: stop on NAK, finish (STOP or repeated START)
      after the last byte, else send one byte. */
  function SendNextByte(h: Handle, cmdReg: bv8): (r: StepResult)
    requires Consistent(h) && (h.fsm == IICMB_FSM_WR_ADR_CHK || h.fsm == IICMB_FSM_WR_DAT)
    ensures Consistent(r.next)
  {
    if cmdReg & IICMB_RSP == IICMB_RSP_NAK then Release(h, 0)
    else if h.wrIs == h.wrLen then
      if h.wrRd != 0 then Restart(h) else Release(h, 0)
    else SendByte(h)
  }

  /** The write half is done and a read follows: repeated START, then RD_ADR_SET. */
  function Restart(h: Handle): (r: StepResult)
    requires Consistent(h) && IsWriteState(h.fsm) && h.wrRd == 1 && h.wrIs == h.wrLen
    ensures Consistent(r.next)
  {
    StepResult(h.(fsm := IICMB_FSM_RD_ADR_SET), [Command(IICMB_CMD_START)])
  }

  /** Put the byte at the write index on the bus and advance the index. */
  function SendByte(h: Handle): (r: StepResult)
    requires Consistent(h) && IsWriteState(h.fsm) && h.wrIs < h.wrLen
    ensures Consistent(r.next)
  {
    StepResult(h.(fsm := IICMB_FSM_WR_DAT, wrIs := h.wrIs + 1), [Param(h.wrBuf[h.wrIs]), Command(IICMB_CMD_WRITE)])
  }

  /** The byte read states, after the response check. */
  function ReadStep(h: Handle, cmdReg: bv8, dpr: bv8): (r: StepResult)
    requires Consistent(h) && h.fsm & IICMB_FSM_CL == IICMB_FSM_CL_RD
    ensures Consistent(r.next)
  {
    if h.fsm == IICMB_FSM_RD_ADR_SET then SendAddress(h, IICMB_I2C_RD, IICMB_FSM_RD_ADR_CHK)
    else if h.fsm == IICMB_FSM_RD_ADR_CHK then
      if cmdReg & IICMB_RSP == IICMB_RSP_NAK then Release(h, IICMB_ERO_NOSLAVE)
      else RequestFirstByte(h)
    else if h.fsm == IICMB_FSM_RD_BYTE then ReceiveByte(h, dpr)
    else Latch(h, IICMB_ERO_FSM)
  }

  /** RD_ADR_CHK, address acknowledged: ask for the first byte, with NAK when it
      is the only one. */
  function RequestFirstByte(h: Handle): (r: StepResult)
    requires Consistent(h) && h.fsm == IICMB_FSM_RD_ADR_CHK
    ensures Consistent(r.next)
  {
    StepResult(h.(fsm := IICMB_FSM_RD_BYTE),
               [Command(if h.rdLen == 1 then IICMB_CMD_READ_NAK else IICMB_CMD_READ_ACK)])
  }

  /** RD_BYTE: store the DPR byte at the read index, then STOP after the last
      byte or request the next one. */
  function ReceiveByte(h: Handle, dpr: bv8): (r: StepResult)
    requires Consistent(h) && h.fsm == IICMB_FSM_RD_BYTE
    ensures Consistent(r.next)
  {
    var g := h.(rdBuf := h.rdBuf[h.rdIs := dpr], rdIs := h.rdIs + 1);
    if g.rdIs == g.rdLen then
      StepResult(g.(fsm := IICMB_FSM_WT_IDLE), [Command(IICMB_CMD_STOP)])
    else
      StepResult(g, [Command(if g.rdIs < g.rdLen - 1 then IICMB_CMD_READ_ACK else IICMB_CMD_READ_NAK)])
  }


  // The laws of a step, proved state by state.

  /** Every step obeys StepLaws. */
  lemma StepObeysLaws(h: Handle, cmdReg: bv8, dpr: bv8)
    requires Consistent(h)
    ensures StepLaws(h, dpr, Step(h, cmdReg, dpr))
  {
    var cl := h.fsm & IICMB_FSM_CL;
    if cl == IICMB_FSM_IDLE {
      IdleClassLaws(h, cmdReg, dpr);
    } else if cl == IICMB_FSM_CL_WR || cl == IICMB_FSM_CL_RD {
      match Screen(h, cmdReg)
      case Some(abort) =>
        ScreenLaws(h, cmdReg, dpr);
      case None =>
        if cl == IICMB_FSM_CL_WR {
          WriteStepLaws(h, cmdReg, dpr);
        } else {
          ReadStepLaws(h, cmdReg, dpr);
        }
    } else {
      assert Step(h, cmdReg, dpr) == StepResult(h.(error := h.error | IICMB_ERO_FSM), []);
    }
  }

  lemma IdleClassLaws(h: Handle, cmdReg: bv8, dpr: bv8)
    requires Consistent(h) && h.fsm & IICMB_FSM_CL == 0
    ensures StepLaws(h, dpr, IdleClassStep(h, cmdReg))
  {
    var r := IdleClassStep(h, cmdReg);
    if h.fsm == IICMB_FSM_WT_IDLE {
      assert r.writes == [] && r.next.fsm == IICMB_FSM_IDLE;
      assert r.next == h.(error := r.next.error, fsm := IICMB_FSM_IDLE);
    } else if h.fsm == IICMB_FSM_IDLE {
      assert r == StepResult(h, []);
    } else {
      assert r == StepResult(h.(error := h.error | IICMB_ERO_FSM), []);
    }
  }

  lemma ScreenLaws(h: Handle, cmdReg: bv8, dpr: bv8)
    requires Consistent(h) && h.fsm & IICMB_FSM_CL != 0
    ensures Screen(h, cmdReg).Some? ==> StepLaws(h, dpr, Screen(h, cmdReg).value)
  {
    var rsp := cmdReg & IICMB_RSP;
    if rsp == IICMB_RSP_ARB_LOST {
      ReleaseLaws(h, IICMB_ERO_ARBLOST, dpr);
    } else if rsp == IICMB_ERO_IICMB {
      AbandonLaws(h, dpr);
    } else if rsp != IICMB_RSP_DONE && rsp != IICMB_RSP_NAK {
      LatchLaws(h, IICMB_ERO_UNKNOWN, dpr);
    }
  }

  lemma AbandonLaws(h: Handle, dpr: bv8)
    requires Consistent(h) && h.fsm != IICMB_FSM_WT_IDLE && h.fsm != IICMB_FSM_IDLE
    ensures StepLaws(h, dpr, Abandon(h))
  {
    var r := Abandon(h);
    assert r.next == h.(error := h.error | IICMB_ERO_IICMB, fsm := IICMB_FSM_IDLE);
    assert r.writes == [];
  }

  lemma RestartLaws(h: Handle, dpr: bv8)
    requires Consistent(h) && IsWriteState(h.fsm) && h.wrRd == 1 && h.wrIs == h.wrLen
    ensures StepLaws(h, dpr, Restart(h))
  {
    var r := Restart(h);
    assert r.next == h.(fsm := IICMB_FSM_RD_ADR_SET);
    assert r.writes == [Command(IICMB_CMD_START)];
  }

  lemma SendByteLaws(h: Handle, dpr: bv8)
    requires Consistent(h) && IsWriteState(h.fsm) && h.wrIs < h.wrLen
    ensures StepLaws(h, dpr, SendByte(h))
  {
    var r := SendByte(h);
    assert r.next == h.(fsm := IICMB_FSM_WR_DAT, wrIs := h.wrIs + 1);
    assert r.writes == [Param(h.wrBuf[h.wrIs]), Command(IICMB_CMD_WRITE)];
  }

  lemma RequestFirstByteLaws(h: Handle, dpr: bv8)
    requires Consistent(h) && h.fsm == IICMB_FSM_RD_ADR_CHK
    ensures StepLaws(h, dpr, RequestFirstByte(h))
  {
    var r := RequestFirstByte(h);
    assert r.next == h.(fsm := IICMB_FSM_RD_BYTE);
    assert r.writes == [Command(if h.rdLen == 1 then IICMB_CMD_READ_NAK else IICMB_CMD_READ_ACK)];
  }

  lemma WriteStepLaws(h: Handle, cmdReg: bv8, dpr: bv8)
    requires Consistent(h) && h.fsm & IICMB_FSM_CL == IICMB_FSM_CL_WR
    ensures StepLaws(h, dpr, WriteStep(h, cmdReg))
  {
    if h.fsm == IICMB_FSM_WR_ADR_SET {
      SendAddressLaws(h, IICMB_I2C_WR, IICMB_FSM_WR_ADR_CHK, dpr);
    } else if h.fsm == IICMB_FSM_WR_ADR_CHK {
      if cmdReg & IICMB_RSP == IICMB_RSP_NAK {
        ReleaseLaws(h, IICMB_ERO_NOSLAVE, dpr);
      } else {
        SendNextByteLaws(h, cmdReg, dpr);
      }
    } else if h.fsm == IICMB_FSM_WR_DAT {
      SendNextByteLaws(h, cmdReg, dpr);
    } else {
      LatchLaws(h, IICMB_ERO_FSM, dpr);
    }
  }

  lemma SendAddressLaws(h: Handle, dir: bv8, check: bv8, dpr: bv8)
    requires Consistent(h)
    requires (h.fsm, dir, check) == (IICMB_FSM_WR_ADR_SET, IICMB_I2C_WR, IICMB_FSM_WR_ADR_CHK) ||
             (h.fsm, dir, check) == (IICMB_FSM_RD_ADR_SET, IICMB_I2C_RD, IICMB_FSM_RD_ADR_CHK)
    ensures StepLaws(h, dpr, SendAddress(h, dir, check))
  {
    var r := SendAddress(h, dir, check);
    assert r.next == h.(fsm := check);
    assert r.writes == [Param(h.adr | dir), Command(IICMB_CMD_WRITE)];
    assert Decode(check).Some?;
    assert !IsReadCommand(r.writes) && IssuesOneCommand(r.writes);
  }

  lemma ReleaseLaws(h: Handle, bits: bv8, dpr: bv8)
    requires Consistent(h) && h.fsm != IICMB_FSM_WT_IDLE
    ensures StepLaws(h, dpr, Release(h, bits))
  {
    var r := Release(h, bits);
    assert r.next == h.(error := h.error | bits, fsm := IICMB_FSM_WT_IDLE);
    assert r.writes == [Command(IICMB_CMD_STOP)];
    ReleaseKeepsErrors(h, bits);
  }

  /** Or-ing bits into the error word clears none of them. */
  lemma ReleaseKeepsErrors(h: Handle, bits: bv8)
    requires Consistent(h) && h.fsm != IICMB_FSM_WT_IDLE
    ensures KeepsErrors(h, Release(h, bits))
  {
    assert Release(h, bits).next.error == h.error | bits;
  }

  lemma LatchLaws(h: Handle, bit: bv8, dpr: bv8)
    requires Consistent(h) && h.fsm != IICMB_FSM_WT_IDLE && h.fsm != IICMB_FSM_IDLE
    requires bit == IICMB_ERO_FSM || bit == IICMB_ERO_UNKNOWN
    ensures StepLaws(h, dpr, Latch(h, bit))
  {
    var r := Latch(h, bit);
    assert r.next == h.(error := h.error | bit);
    assert r.writes == [];
  }

  lemma SendNextByteLaws(h: Handle, cmdReg: bv8, dpr: bv8)
    requires Consistent(h) && (h.fsm == IICMB_FSM_WR_ADR_CHK || h.fsm == IICMB_FSM_WR_DAT)
    ensures StepLaws(h, dpr, SendNextByte(h, cmdReg))
  {
    if cmdReg & IICMB_RSP == IICMB_RSP_NAK || (h.wrIs == h.wrLen && h.wrRd == 0) {
      ReleaseLaws(h, 0, dpr);
    } else if h.wrIs == h.wrLen {
      RestartLaws(h, dpr);
    } else {
      SendByteLaws(h, dpr);
    }
  }

  lemma ReadStepLaws(h: Handle, cmdReg: bv8, dpr: bv8)
    requires Consistent(h) && h.fsm & IICMB_FSM_CL == IICMB_FSM_CL_RD
    ensures StepLaws(h, dpr, ReadStep(h, cmdReg, dpr))
  {
    if h.fsm == IICMB_FSM_RD_ADR_SET {
      SendAddressLaws(h, IICMB_I2C_RD, IICMB_FSM_RD_ADR_CHK, dpr);
    } else if h.fsm == IICMB_FSM_RD_ADR_CHK {
      if cmdReg & IICMB_RSP == IICMB_RSP_NAK {
        ReleaseLaws(h, IICMB_ERO_NOSLAVE, dpr);
      } else {
        RequestFirstByteLaws(h, dpr);
      }
    } else if h.fsm == IICMB_FSM_RD_BYTE {
      ReceiveByteLaws(h, dpr);
    } else {
      LatchLaws(h, IICMB_ERO_FSM, dpr);
    }
  }

  lemma ReceiveByteLaws(h: Handle, dpr: bv8)
    requires Consistent(h) && h.fsm == IICMB_FSM_RD_BYTE
    ensures StepLaws(h, dpr, ReceiveByte(h, dpr))
  {
    var r := ReceiveByte(h, dpr);
    var g := h.(rdBuf := h.rdBuf[h.rdIs := dpr], rdIs := h.rdIs + 1);
    if g.rdIs == g.rdLen {
      assert r.next == g.(fsm := IICMB_FSM_WT_IDLE);
      assert r.writes == [Command(IICMB_CMD_STOP)];
    } else {
      assert r.next == g;
      assert r.writes == [Command(if g.rdIs < g.rdLen - 1 then IICMB_CMD_READ_ACK else IICMB_CMD_READ_NAK)];
    }
  }

  /** What an initiator returns, with the handle and the stores it leaves. */
  datatype Armed = Armed(ret: int, next: Handle, writes: seq<RegWrite>)

  /** The slave address as the handle keeps it: `(uint8_t)(adr7 << 1)`. */
  function ShiftedAddress(adr7: bv8): (a: bv8)
    ensures a & 1 == 0 && a >> 1 == adr7 & 0x7F
  {
    adr7 << 1
  }

  /** `iicm_write`: a zero length is accepted without touching anything, even
      during a transfer; otherwise a handle that is not IDLE is busy. */
  function Write(h: Handle, adr7: bv8, buf: seq<bv8>, len: u16): (r: Armed)
    requires len <= |buf|
    ensures r.ret == (if len > 0 && h.fsm != IICMB_FSM_IDLE then IICMB_BUSY else IICMB_OK)
    ensures len == 0 || h.fsm != IICMB_FSM_IDLE ==> r.next == h && r.writes == []
    ensures len > 0 && h.fsm == IICMB_FSM_IDLE ==>
              && Consistent(r.next) && r.writes == [Command(IICMB_CMD_START)]
              && r.next.fsm == IICMB_FSM_WR_ADR_SET && r.next.wrRd == 0
              && r.next.error == IICMB_ERO_TF_INC && r.next.adr == ShiftedAddress(adr7)
              && r.next.wrIs == 0 && r.next.wrLen == len && r.next.wrBuf == buf
              && (r.next.rdLen, r.next.rdIs, r.next.rdBuf) == (h.rdLen, h.rdIs, h.rdBuf)
  {
    if len == 0 then Armed(IICMB_OK, h, [])
    else if h.fsm != IICMB_FSM_IDLE then Armed(IICMB_BUSY, h, [])
    else
      var g := h.(error := IICMB_ERO_TF_INC, adr := ShiftedAddress(adr7), wrLen := len, wrIs := 0,
                  wrBuf := buf, wrRd := 0, fsm := IICMB_FSM_WR_ADR_SET);
      Armed(IICMB_OK, g, [Command(IICMB_CMD_START)])
  }

  /** `iicm_read`: as `iicm_write`, for the read direction. */
  function Read(h: Handle, adr7: bv8, buf: seq<bv8>, len: u16): (r: Armed)
    requires len <= |buf|
    ensures r.ret == (if len > 0 && h.fsm != IICMB_FSM_IDLE then IICMB_BUSY else IICMB_OK)
    ensures len == 0 || h.fsm != IICMB_FSM_IDLE ==> r.next == h && r.writes == []
    ensures len > 0 && h.fsm == IICMB_FSM_IDLE ==>
              && Consistent(r.next) && r.writes == [Command(IICMB_CMD_START)]
              && r.next.fsm == IICMB_FSM_RD_ADR_SET && r.next.wrRd == 0
              && r.next.error == IICMB_ERO_TF_INC && r.next.adr == ShiftedAddress(adr7)
              && r.next.rdIs == 0 && r.next.rdLen == len && r.next.rdBuf == buf
              && (r.next.wrLen, r.next.wrIs, r.next.wrBuf) == (h.wrLen, h.wrIs, h.wrBuf)
  {
    if len == 0 then Armed(IICMB_OK, h, [])
    else if h.fsm != IICMB_FSM_IDLE then Armed(IICMB_BUSY, h, [])
    else
      var g := h.(error := IICMB_ERO_TF_INC, adr := ShiftedAddress(adr7), rdLen := len, rdIs := 0,
                  rdBuf := buf, wrRd := 0, fsm := IICMB_FSM_RD_ADR_SET);
      Armed(IICMB_OK, g, [Command(IICMB_CMD_START)])
  }

  /** `iicm_wr_rd`: write, repeated start, read. Only a request with both
      lengths zero is a no-op; a one-sided request is carried out. A side with
      length zero gets a NULL buffer. */
  function WriteRead(h: Handle, adr7: bv8, wr: seq<bv8>, wrLen: u16, rd: seq<bv8>, rdLen: u16): (r: Armed)
    requires wrLen <= |wr| && rdLen <= |rd|
    ensures r.ret == (if (wrLen > 0 || rdLen > 0) && h.fsm != IICMB_FSM_IDLE then IICMB_BUSY else IICMB_OK)
    ensures (wrLen == 0 && rdLen == 0) || h.fsm != IICMB_FSM_IDLE ==> r.next == h && r.writes == []
    ensures (wrLen > 0 || rdLen > 0) && h.fsm == IICMB_FSM_IDLE ==>
              && Consistent(r.next) && r.writes == [Command(IICMB_CMD_START)]
              && r.next.error == IICMB_ERO_TF_INC && r.next.adr == ShiftedAddress(adr7)
              && r.next.wrIs == 0 && r.next.rdIs == 0
              && r.next.wrLen == wrLen && r.next.rdLen == rdLen
              && r.next.fsm == (if wrLen > 0 then IICMB_FSM_WR_ADR_SET else IICMB_FSM_RD_ADR_SET)
              && (r.next.wrRd == 1 <==> wrLen > 0 && rdLen > 0)
              && r.next.wrBuf == (if wrLen > 0 then wr else [])
              && r.next.rdBuf == (if rdLen > 0 then rd else [])
  {
    if wrLen == 0 && rdLen == 0 then Armed(IICMB_OK, h, [])
    else if h.fsm != IICMB_FSM_IDLE then Armed(IICMB_BUSY, h, [])
    else
      var g := h.(error := IICMB_ERO_TF_INC, adr := ShiftedAddress(adr7),
                  wrLen := wrLen, wrIs := 0, wrBuf := if wrLen != 0 then wr else [],
                  rdLen := rdLen, rdIs := 0, rdBuf := if rdLen != 0 then rd else []);
      var g' := if wrLen != 0 then g.(fsm := IICMB_FSM_WR_ADR_SET, wrRd := if rdLen != 0 then 1 else 0)
                else g.(fsm := IICMB_FSM_RD_ADR_SET, wrRd := 0);
      Armed(IICMB_OK, g', [Command(IICMB_CMD_START)])
  }

  /** `iicm_busy`: IICMB_OKAY exactly in IDLE, so WT_IDLE still counts as busy. */
  function Busy(h: Handle): (r: int)
    ensures r == IICMB_OKAY || r == IICMB_ERROR
    ensures r == IICMB_OKAY <==> h.fsm == IICMB_FSM_IDLE
  {
    if h.fsm == IICMB_FSM_IDLE then IICMB_OKAY else IICMB_ERROR
  }

  /** `iicm_error`: the latched error bits as an int. */
  function Error(h: Handle): (r: int)
    ensures 0 <= r < 256
    ensures r == 0 <==> h.error == 0
  {
    h.error as int
  }

  /** The handle part of `iicm_init`: IDLE, no error, no write request, NULL
      buffers. The read length and index are not reset. */
  function Reset(h: Handle): (r: Handle)
    ensures Consistent(r) && Busy(r) == IICMB_OKAY && Error(r) == 0
    ensures r.wrLen == 0 && r.wrIs == 0 && r.wrRd == 0 && r.wrBuf == [] && r.rdBuf == []
    ensures r.rdLen == h.rdLen && r.rdIs == h.rdIs
  {
    h.(fsm := IICMB_FSM_IDLE, wrRd := 0, error := IICMB_OKAY as bv8, wrLen := 0, wrIs := 0, wrBuf := [], rdBuf := [])
  }

  /** A one-sided `iicm_wr_rd` does what `iicm_write` or `iicm_read` does, except
      that it also clears the other side's length and index and NULLs its buffer. */
  lemma OneSidedWriteRead(h: Handle, adr7: bv8, buf: seq<bv8>, len: u16, other: seq<bv8>)
    requires len <= |buf|
    ensures var w := WriteRead(h, adr7, buf, len, other, 0);
            var x := Write(h, adr7, buf, len);
            w.ret == x.ret && w.writes == x.writes &&
            w.next == if x.writes == [] then x.next else x.next.(rdLen := 0, rdIs := 0, rdBuf := [])
    ensures var w := WriteRead(h, adr7, other, 0, buf, len);
            var x := Read(h, adr7, buf, len);
            w.ret == x.ret && w.writes == x.writes &&
            w.next == if x.writes == [] then x.next else x.next.(wrLen := 0, wrIs := 0, wrBuf := [])
  {
  }

}
