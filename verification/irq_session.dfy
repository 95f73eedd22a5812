// The interrupt-driven driver as the C code runs it: a `t_iicm` handle whose
// fields the entry points update in place, a read buffer owned by the caller
// that the interrupt step fills, and the stores into the controller's DPR and
// CMDR registers, kept in a ghost log instead of reaching hardware. Every
// method is proved to do what the matching function of IrqFsm says.

module IrqSession {

  import opened Registers
  import opened IrqDefs
  import opened IrqFsm

  /** A caller's buffer as its contents; NULL reads as empty. */
  function Contents(a: array?<bv8>): seq<bv8>
    reads a
  {
    if a == null then [] else a[..]
  }

  class Session {
    var fsm: bv8            // uint8FSM
    var wrRd: bv1           // uint8WrRd
    var adr: bv8            // uint8Adr
    var error: bv8          // uint8Error
    var wrLen: u16          // uint16WrByteLen
    var wrIs: u16           // uint16WrByteIs
    var rdLen: u16          // uint16RdByteLen
    var rdIs: u16           // uint16RdByteIs
    var wrBuf: seq<bv8>     // uint8PtrWrBuf: only ever read, so held by its contents
    var rdBuf: array?<bv8>  // uint8PtrRdBuf: the caller's buffer, null for NULL
    ghost var log: seq<RegWrite>   // every DPR/CMDR store, oldest first

    /** The handle as a value; a NULL read buffer reads as empty. */
    function Abs(): Handle
      reads this, rdBuf
    {
      Handle(fsm, wrRd, adr, error, wrLen, wrIs, rdLen, rdIs, wrBuf, Contents(rdBuf))
    }

    predicate Valid()
      reads this, rdBuf
    {
      Consistent(Abs())
    }

    /** A store into the controller register at `offset`. */
    method Store(offset: bv8, value: bv8)
      modifies this`log
      ensures log == old(log) + [RegWrite(offset, value)]
    {
      log := log + [RegWrite(offset, value)];
    }

    /** `iicm_start_bit`: START into the command register. */
    method StartBit()
      modifies this`log
      ensures log == old(log) + [Command(IICMB_CMD_START)]
    {
      Store(IICMB_CMDR, IICMB_CMD_START);
    }

    /** `iicm_stop_bit`: STOP into the command register. */
    method StopBit()
      modifies this`log
      ensures log == old(log) + [Command(IICMB_CMD_STOP)]
    {
      Store(IICMB_CMDR, IICMB_CMD_STOP);
    }

    /** The handle part of `iicm_init`; the read length and index keep their values. */
    method Init()
      modifies this
      ensures Abs() == Reset(old(Abs())) && rdBuf == null && log == old(log)
    {
      fsm := IICMB_FSM_IDLE;
      wrRd := 0;
      error := IICMB_OKAY as bv8;
      wrLen := 0;
      wrIs := 0;
      wrBuf := [];
      rdBuf := null;
    }

    /** `iicm_fsm`, run by the interrupt service routine: `cmdReg` is the
        command register as read on entry, `dpr` the data register. */
    method Fsm(cmdReg: bv8, dpr: bv8)
      requires Valid()
      modifies this, rdBuf
      ensures Valid() && rdBuf == old(rdBuf)
      ensures Abs() == Step(old(Abs()), cmdReg, dpr).next
      ensures log == old(log) + Step(old(Abs()), cmdReg, dpr).writes
    {
      var cl := fsm & IICMB_FSM_CL;
      if cl == IICMB_FSM_IDLE {
        IdleFsm(cmdReg);
      } else if cl == IICMB_FSM_CL_WR || cl == IICMB_FSM_CL_RD {
        var rsp := cmdReg & IICMB_RSP;
        if rsp == IICMB_RSP_DONE || rsp == IICMB_RSP_NAK {
          if cl == IICMB_FSM_CL_WR {
            WriteFsm(cmdReg);
          } else {
            ReadFsm(cmdReg, dpr);
          }
        } else {
          Reject(cmdReg);
        }
      } else {
        LatchBits(IICMB_ERO_FSM);
      }
    }

    /** Or `bits` into the error word, nothing else. */
    method LatchBits(bits: bv8)
      modifies this`error
      ensures error == old(error) | bits
    {
      error := error | bits;
    }

    /** The idle class of `iicm_fsm`. */
    method IdleFsm(cmdReg: bv8)
      requires Valid() && fsm & IICMB_FSM_CL == 0
      modifies this`error, this`fsm
      ensures Abs() == IdleClassStep(old(Abs()), cmdReg).next
      ensures log == old(log) + IdleClassStep(old(Abs()), cmdReg).writes
    {
      if fsm == IICMB_FSM_WT_IDLE {
        Conclude(cmdReg);
      } else if fsm != IICMB_FSM_IDLE {
        LatchBits(IICMB_ERO_FSM);
      }
    }

    /** WT_IDLE: the controller answered STOP; judge the answer and go IDLE. */
    method Conclude(cmdReg: bv8)
      requires fsm == IICMB_FSM_WT_IDLE
      modifies this`error, this`fsm
      ensures error == StopOutcome(old(error), old(wrLen == wrIs || rdLen == rdIs), cmdReg & IICMB_RSP)
      ensures fsm == IICMB_FSM_IDLE
    {
      var rsp := cmdReg & IICMB_RSP;
      if rsp == IICMB_RSP_DONE {
        if wrLen == wrIs || rdLen == rdIs {
          error := error & !IICMB_ERO_TF_INC;
        }
      } else if rsp == IICMB_RSP_ERR {
        error := error | IICMB_ERO_IICMB;
      } else {
        error := error | IICMB_ERO_UNKNOWN;
      }
      fsm := IICMB_FSM_IDLE;
    }

    /** The response check of the write and read classes, for a response
        other than DONE and NAK. */
    method Reject(cmdReg: bv8)
      requires Valid() && fsm & IICMB_FSM_CL != 0
      requires cmdReg & IICMB_RSP != IICMB_RSP_DONE && cmdReg & IICMB_RSP != IICMB_RSP_NAK
      modifies this`error, this`fsm, this`log
      ensures Abs() == Screen(old(Abs()), cmdReg).value.next
      ensures log == old(log) + Screen(old(Abs()), cmdReg).value.writes
    {
      var rsp := cmdReg & IICMB_RSP;
      if rsp == IICMB_RSP_ARB_LOST {
        StopTransfer(IICMB_ERO_ARBLOST);
      } else if rsp == IICMB_ERO_IICMB {
        // The C code's `case IICMB_ERO_IICMB:` (latch IICMB, go IDLE); a
        // masked response is never 0x04 (IrqSteps.ErrLabelUnreachable).
        assert false;
      } else {
        LatchBits(IICMB_ERO_UNKNOWN);
      }
    }

    /** Latch `bits`, wait for the bus to go idle and issue STOP. */
    method StopTransfer(bits: bv8)
      requires Valid() && fsm != IICMB_FSM_WT_IDLE
      modifies this`error, this`fsm, this`log
      ensures Abs() == Release(old(Abs()), bits).next
      ensures log == old(log) + Release(old(Abs()), bits).writes
    {
      error := error | bits;
      fsm := IICMB_FSM_WT_IDLE;
      StopBit();
    }

    /** Put the slave address with direction bit `dir` on the bus, then wait in `check`. */
    method AddressByte(dir: bv8, check: bv8)
      requires Valid()
      requires (fsm, dir, check) == (IICMB_FSM_WR_ADR_SET, IICMB_I2C_WR, IICMB_FSM_WR_ADR_CHK) ||
               (fsm, dir, check) == (IICMB_FSM_RD_ADR_SET, IICMB_I2C_RD, IICMB_FSM_RD_ADR_CHK)
      modifies this`fsm, this`log
      ensures Abs() == SendAddress(old(Abs()), dir, check).next
      ensures log == old(log) + SendAddress(old(Abs()), dir, check).writes
    {
      Store(IICMB_DPR, adr | dir);
      Store(IICMB_CMDR, IICMB_CMD_WRITE);
      fsm := check;
    }

    /** The byte write part of `iicm_fsm`, after the response check. */
    method WriteFsm(cmdReg: bv8)
      requires Valid() && fsm & IICMB_FSM_CL == IICMB_FSM_CL_WR
      modifies this`error, this`fsm, this`wrIs, this`log
      ensures Abs() == WriteStep(old(Abs()), cmdReg).next
      ensures log == old(log) + WriteStep(old(Abs()), cmdReg).writes
    {
      if fsm == IICMB_FSM_WR_ADR_SET {
        AddressByte(IICMB_I2C_WR, IICMB_FSM_WR_ADR_CHK);
      } else if fsm == IICMB_FSM_WR_ADR_CHK && cmdReg & IICMB_RSP == IICMB_RSP_NAK {
        StopTransfer(IICMB_ERO_NOSLAVE);
      } else if fsm == IICMB_FSM_WR_ADR_CHK || fsm == IICMB_FSM_WR_DAT {
        WriteData(cmdReg);
      } else {
        LatchBits(IICMB_ERO_FSM);
      }
    }

    /** WR_DAT, also entered by falling through from WR_ADR_CHK. */
    method WriteData(cmdReg: bv8)
      requires Valid() && (fsm == IICMB_FSM_WR_ADR_CHK || fsm == IICMB_FSM_WR_DAT)
      modifies this`fsm, this`wrIs, this`log
      ensures Abs() == SendNextByte(old(Abs()), cmdReg).next
      ensures log == old(log) + SendNextByte(old(Abs()), cmdReg).writes
    {
      fsm := IICMB_FSM_WR_DAT;
      if cmdReg & IICMB_RSP == IICMB_RSP_NAK {
        fsm := IICMB_FSM_WT_IDLE;
        StopBit();
      } else if wrIs == wrLen {
        if wrRd != 0 {
          fsm := IICMB_FSM_RD_ADR_SET;
          StartBit();
        } else {
          fsm := IICMB_FSM_WT_IDLE;
          StopBit();
        }
      } else {
        DataByte();
      }
    }

    /** Put the byte at the write index on the bus and advance the index. */
    method DataByte()
      requires Valid() && fsm == IICMB_FSM_WR_DAT && wrIs < wrLen
      modifies this`wrIs, this`log
      ensures Abs() == SendByte(old(Abs())).next
      ensures log == old(log) + SendByte(old(Abs())).writes
    {
      Store(IICMB_DPR, wrBuf[wrIs]);
      Store(IICMB_CMDR, IICMB_CMD_WRITE);
      wrIs := wrIs + 1;
    }

    /** The byte read part of `iicm_fsm`, after the response check. */
    method ReadFsm(cmdReg: bv8, dpr: bv8)
      requires Valid() && fsm & IICMB_FSM_CL == IICMB_FSM_CL_RD
      modifies this`error, this`fsm, this`rdIs, this`log, rdBuf
      ensures Abs() == ReadStep(old(Abs()), cmdReg, dpr).next
      ensures log == old(log) + ReadStep(old(Abs()), cmdReg, dpr).writes
    {
      if fsm == IICMB_FSM_RD_ADR_SET {
        AddressByte(IICMB_I2C_RD, IICMB_FSM_RD_ADR_CHK);
      } else if fsm == IICMB_FSM_RD_ADR_CHK {
        if cmdReg & IICMB_RSP == IICMB_RSP_NAK {
          StopTransfer(IICMB_ERO_NOSLAVE);
        } else {
          FirstRead();
        }
      } else if fsm == IICMB_FSM_RD_BYTE {
        StoreByte(dpr);
      } else {
        LatchBits(IICMB_ERO_FSM);
      }
    }

    /** RD_ADR_CHK with the address acknowledged: request the first byte. */
    method FirstRead()
      requires Valid() && fsm == IICMB_FSM_RD_ADR_CHK
      modifies this`fsm, this`log
      ensures Abs() == RequestFirstByte(old(Abs())).next
      ensures log == old(log) + RequestFirstByte(old(Abs())).writes
    {
      fsm := IICMB_FSM_RD_BYTE;
      if rdLen == 1 {
        Store(IICMB_CMDR, IICMB_CMD_READ_NAK);
      } else {
        Store(IICMB_CMDR, IICMB_CMD_READ_ACK);
      }
    }

    /** RD_BYTE: the only place the caller's read buffer is written. */
    method StoreByte(dpr: bv8)
      requires Valid() && fsm == IICMB_FSM_RD_BYTE
      modifies this`fsm, this`rdIs, this`log, rdBuf
      ensures Abs() == ReceiveByte(old(Abs()), dpr).next
      ensures log == old(log) + ReceiveByte(old(Abs()), dpr).writes
    {
      assert rdBuf != null && rdIs < rdLen <= rdBuf.Length;
      rdBuf[rdIs] := dpr;
      rdIs := rdIs + 1;
      if rdIs == rdLen {
        fsm := IICMB_FSM_WT_IDLE;
        StopBit();
      } else if rdIs < rdLen - 1 {
        Store(IICMB_CMDR, IICMB_CMD_READ_ACK);
      } else {
        Store(IICMB_CMDR, IICMB_CMD_READ_NAK);
      }
    }

    /** The part every initiator shares: the transfer counts as incomplete
        until its STOP is answered, and the address is kept shifted. */
    method Arm(adr7: bv8)
      modifies this`error, this`adr
      ensures error == IICMB_ERO_TF_INC && adr == ShiftedAddress(adr7)
    {
      error := IICMB_ERO_TF_INC;
      adr := adr7 << 1;
    }

    /** Take `buf` as the write buffer of `len` bytes, none sent yet. */
    method SetWrite(buf: seq<bv8>, len: u16)
      modifies this`wrLen, this`wrIs, this`wrBuf
      ensures wrLen == len && wrIs == 0 && wrBuf == buf
    {
      wrLen := len;
      wrIs := 0;
      wrBuf := buf;
    }

    /** Take `buf` as the read buffer of `len` bytes, none received yet. */
    method SetRead(buf: array?<bv8>, len: u16)
      modifies this`rdLen, this`rdIs, this`rdBuf
      ensures rdLen == len && rdIs == 0 && rdBuf == buf
    {
      rdLen := len;
      rdIs := 0;
      rdBuf := buf;
    }

    /** `iicm_write`. */
    method Write(adr7: bv8, buf: seq<bv8>, len: u16) returns (ret: int)
      requires len <= |buf|
      modifies this
      ensures var a := IrqFsm.Write(old(Abs()), adr7, buf, len);
              ret == a.ret && Abs() == a.next && log == old(log) + a.writes
      ensures rdBuf == old(rdBuf)
    {
      if len == 0 {
        return IICMB_OK;
      }
      if fsm != IICMB_FSM_IDLE {
        return IICMB_BUSY;
      }
      Arm(adr7);
      SetWrite(buf, len);
      wrRd := 0;
      fsm := IICMB_FSM_WR_ADR_SET;
      StartBit();
      return IICMB_OK;
    }

    /** `iicm_read`: an accepted request makes the session hold `buf`, which
        may be NULL when `len` is zero. */
    method Read(adr7: bv8, buf: array?<bv8>, len: u16) returns (ret: int)
      requires len > 0 ==> buf != null && len as int <= buf.Length
      modifies this
      ensures var a := IrqFsm.Read(old(Abs()), adr7, Contents(buf), len);
              ret == a.ret && Abs() == a.next && log == old(log) + a.writes
      ensures rdBuf == if len > 0 && old(fsm) == IICMB_FSM_IDLE then buf else old(rdBuf)
    {
      if len == 0 {
        return IICMB_OK;
      }
      if fsm != IICMB_FSM_IDLE {
        return IICMB_BUSY;
      }
      Arm(adr7);
      SetRead(buf, len);
      wrRd := 0;
      fsm := IICMB_FSM_RD_ADR_SET;
      StartBit();
      return IICMB_OK;
    }

    /** `iicm_wr_rd`: an accepted request holds `rd` as the read buffer when
        `rdLen` is not zero, and NULL otherwise; `rd` itself may be NULL
        when `rdLen` is zero. */
    method WrRd(adr7: bv8, wr: seq<bv8>, wrLen': u16, rd: array?<bv8>, rdLen': u16) returns (ret: int)
      requires wrLen' <= |wr| && (rdLen' > 0 ==> rd != null && rdLen' as int <= rd.Length)
      modifies this
      ensures var a := IrqFsm.WriteRead(old(Abs()), adr7, wr, wrLen', Contents(rd), rdLen');
              ret == a.ret && Abs() == a.next && log == old(log) + a.writes
      ensures rdBuf == if (wrLen' == 0 && rdLen' == 0) || old(fsm) != IICMB_FSM_IDLE then old(rdBuf)
                       else if rdLen' != 0 then rd else null
    {
      if wrLen' == 0 && rdLen' == 0 {
        return IICMB_OK;
      }
      if fsm != IICMB_FSM_IDLE {
        return IICMB_BUSY;
      }
      Arm(adr7);
      SetWrite(if wrLen' != 0 then wr else [], wrLen');
      SetRead(if rdLen' != 0 then rd else null, rdLen');
      if wrLen' != 0 {
        fsm := IICMB_FSM_WR_ADR_SET;
        if rdLen' != 0 {
          wrRd := 1;
        } else {
          wrRd := 0;
        }
      } else {
        fsm := IICMB_FSM_RD_ADR_SET;
        wrRd := 0;
      }
      StartBit();
      return IICMB_OK;
    }

    /** `iicm_busy`. */
    method Busy() returns (r: int)
      ensures r == IrqFsm.Busy(Abs())
    {
      if fsm == IICMB_FSM_IDLE {
        return IICMB_OKAY;
      }
      return IICMB_ERROR;
    }

    /** `iicm_error`. */
    method Error() returns (r: int)
      ensures r == IrqFsm.Error(Abs())
    {
      return error as int;
    }
  }
}
