// Constants and types of the interrupt-driven driver's header
// (software/irq/iicmb.h): register offsets, CSR bits, command opcodes,
// response flags, direction bits, FSM state codes, error bits, return codes
// and the field widths of the driver handle.

module IrqDefs {

  import opened Wrappers

  /** A uint16_t field of the driver handle. */
  type u16 = x: int | 0 <= x < 0x1_0000

  // Register offsets
  const IICMB_CSR: bv8 := 0x00
  const IICMB_DPR: bv8 := 0x01
  const IICMB_CMDR: bv8 := 0x02
  const IICMB_FSMR: bv8 := 0x03

  // Control/status register bits
  const IICMB_CSR_IICM_ENA: bv8 := 0x80
  const IICMB_CSR_IRQ_ENA: bv8 := 0x40
  const IICMB_CSR_BB: bv8 := 0x20
  const IICMB_CSR_BC: bv8 := 0x10
  const IICMB_CSR_BUS: bv8 := 0x0F

  // Command opcodes written to CMDR
  const IICMB_CMD_WAIT: bv8 := 0x00
  const IICMB_CMD_WRITE: bv8 := 0x01
  const IICMB_CMD_READ_ACK: bv8 := 0x02
  const IICMB_CMD_READ_NAK: bv8 := 0x03
  const IICMB_CMD_START: bv8 := 0x04
  const IICMB_CMD_STOP: bv8 := 0x05
  const IICMB_CMD_SET_BUS: bv8 := 0x06

  // Response flags read back from CMDR
  const IICMB_RSP: bv8 := 0xF0
  const IICMB_RSP_COMPLETED: bv8 := 0x00
  const IICMB_RSP_DONE: bv8 := 0x80
  const IICMB_RSP_NAK: bv8 := 0x40
  const IICMB_RSP_ARB_LOST: bv8 := 0x20
  const IICMB_RSP_ERR: bv8 := 0x10

  // Direction bit or-ed into the shifted slave address
  const IICMB_I2C_WR: bv8 := 0x00
  const IICMB_I2C_RD: bv8 := 0x01

  // Driver FSM state codes; the two top bits select the class
  const IICMB_FSM_IDLE: bv8 := 0x00
  const IICMB_FSM_WT_IDLE: bv8 := 0x01
  const IICMB_FSM_CL: bv8 := 0xC0
  const IICMB_FSM_CL_WR: bv8 := 0x40
  const IICMB_FSM_WR_ADR_SET: bv8 := 0x41
  const IICMB_FSM_WR_ADR_CHK: bv8 := 0x42
  const IICMB_FSM_WR_DAT: bv8 := 0x43
  const IICMB_FSM_CL_RD: bv8 := 0x80
  const IICMB_FSM_RD_ADR_SET: bv8 := 0x81
  const IICMB_FSM_RD_ADR_CHK: bv8 := 0x82
  const IICMB_FSM_RD_BYTE: bv8 := 0x83

  // Error bits latched in the handle, and the general return codes
  const IICMB_OKAY: int := 0
  const IICMB_ERROR: int := -1
  const IICMB_ERO_NOSLAVE: bv8 := 0x01
  const IICMB_ERO_ARBLOST: bv8 := 0x02
  const IICMB_ERO_IICMB: bv8 := 0x04
  const IICMB_ERO_TF_INC: bv8 := 0x08
  const IICMB_ERO_FSM: bv8 := 0x40
  const IICMB_ERO_UNKNOWN: bv8 := 0x80

  // Return codes of the transfer initiators
  const IICMB_OK: int := 0
  const IICMB_BUSY: int := 1

  /** The `t_iicmb_fsm` enumeration. */
  datatype FsmState = IDLE | WT_IDLE | WR_ADR_SET | WR_ADR_CHK | WR_BYTE | RD_ADR_SET | RD_ADR_CHK | RD_BYTE

  /** The numeric state code (IICMB_FSM_*) that stands for each enumerator. */
  function Code(s: FsmState): (c: bv8)
    ensures Decode(c) == Some(s)
    ensures c & IICMB_FSM_CL == ClassOf(s)
  {
    match s
    case IDLE => IICMB_FSM_IDLE
    case WT_IDLE => IICMB_FSM_WT_IDLE
    case WR_ADR_SET => IICMB_FSM_WR_ADR_SET
    case WR_ADR_CHK => IICMB_FSM_WR_ADR_CHK
    case WR_BYTE => IICMB_FSM_WR_DAT
    case RD_ADR_SET => IICMB_FSM_RD_ADR_SET
    case RD_ADR_CHK => IICMB_FSM_RD_ADR_CHK
    case RD_BYTE => IICMB_FSM_RD_BYTE
  }

  /** The enumerator a state byte stands for; None for the bytes no state uses. */
  function Decode(c: bv8): (r: Option<FsmState>)
    ensures r.Some? ==> c & IICMB_FSM_CL == ClassOf(r.value)
    ensures r.None? <==> c !in {IICMB_FSM_IDLE, IICMB_FSM_WT_IDLE, IICMB_FSM_WR_ADR_SET, IICMB_FSM_WR_ADR_CHK,
                                IICMB_FSM_WR_DAT, IICMB_FSM_RD_ADR_SET, IICMB_FSM_RD_ADR_CHK, IICMB_FSM_RD_BYTE}
  {
    if c == IICMB_FSM_IDLE then Some(IDLE)
    else if c == IICMB_FSM_WT_IDLE then Some(WT_IDLE)
    else if c == IICMB_FSM_WR_ADR_SET then Some(WR_ADR_SET)
    else if c == IICMB_FSM_WR_ADR_CHK then Some(WR_ADR_CHK)
    else if c == IICMB_FSM_WR_DAT then Some(WR_BYTE)
    else if c == IICMB_FSM_RD_ADR_SET then Some(RD_ADR_SET)
    else if c == IICMB_FSM_RD_ADR_CHK then Some(RD_ADR_CHK)
    else if c == IICMB_FSM_RD_BYTE then Some(RD_BYTE)
    else None
  }

  /** The class a state belongs to: write, read, or the idle class (0). */
  function ClassOf(s: FsmState): bv8
  {
    match s
    case IDLE | WT_IDLE => 0
    case WR_ADR_SET | WR_ADR_CHK | WR_BYTE => IICMB_FSM_CL_WR
    case RD_ADR_SET | RD_ADR_CHK | RD_BYTE => IICMB_FSM_CL_RD
  }

  /** A byte with exactly one bit set. */
  predicate SingleBit(b: bv8)
  {
    b != 0 && b & (b - 1) == 0
  }

  /** The write states, masked with the class selector, give the write class;
      the read states give the read class; IDLE and WT_IDLE give 0. */
  lemma StateClasses()
    ensures IICMB_FSM_WR_ADR_SET & IICMB_FSM_CL == IICMB_FSM_CL_WR
    ensures IICMB_FSM_WR_ADR_CHK & IICMB_FSM_CL == IICMB_FSM_CL_WR
    ensures IICMB_FSM_WR_DAT & IICMB_FSM_CL == IICMB_FSM_CL_WR
    ensures IICMB_FSM_RD_ADR_SET & IICMB_FSM_CL == IICMB_FSM_CL_RD
    ensures IICMB_FSM_RD_ADR_CHK & IICMB_FSM_CL == IICMB_FSM_CL_RD
    ensures IICMB_FSM_RD_BYTE & IICMB_FSM_CL == IICMB_FSM_CL_RD
    ensures IICMB_FSM_IDLE & IICMB_FSM_CL == 0 && IICMB_FSM_WT_IDLE & IICMB_FSM_CL == 0
    ensures IICMB_FSM_CL_WR != IICMB_FSM_CL_RD
  {
  }

  /** The latched error codes are distinct single bits, so or-ing one in
      never sets or clears another. */
  lemma ErrorBitsIndependent(e: bv8)
    ensures SingleBit(IICMB_ERO_NOSLAVE) && SingleBit(IICMB_ERO_ARBLOST) && SingleBit(IICMB_ERO_IICMB)
    ensures SingleBit(IICMB_ERO_TF_INC) && SingleBit(IICMB_ERO_FSM) && SingleBit(IICMB_ERO_UNKNOWN)
    ensures var bits := [IICMB_ERO_NOSLAVE, IICMB_ERO_ARBLOST, IICMB_ERO_IICMB,
                         IICMB_ERO_TF_INC, IICMB_ERO_FSM, IICMB_ERO_UNKNOWN];
            forall i, j :: 0 <= i < j < |bits| ==>
              bits[i] & bits[j] == 0 && (e | bits[i]) & bits[j] == e & bits[j] && (e | bits[j]) & bits[i] == e & bits[i]
  {
  }

  /** The response flags are distinct single bits inside the response mask;
      "completed" is the empty flag set. */
  lemma ResponseFlags()
    ensures SingleBit(IICMB_RSP_DONE) && SingleBit(IICMB_RSP_NAK)
    ensures SingleBit(IICMB_RSP_ARB_LOST) && SingleBit(IICMB_RSP_ERR)
    ensures IICMB_RSP_DONE | IICMB_RSP_NAK | IICMB_RSP_ARB_LOST | IICMB_RSP_ERR == IICMB_RSP
    ensures IICMB_RSP_DONE & IICMB_RSP_NAK == 0 && IICMB_RSP_DONE & IICMB_RSP_ARB_LOST == 0
    ensures IICMB_RSP_DONE & IICMB_RSP_ERR == 0 && IICMB_RSP_NAK & IICMB_RSP_ARB_LOST == 0
    ensures IICMB_RSP_NAK & IICMB_RSP_ERR == 0 && IICMB_RSP_ARB_LOST & IICMB_RSP_ERR == 0
    ensures IICMB_RSP_COMPLETED == 0
  {
  }

  /** The opcodes WAIT .. SET_BUS are the distinct values 0 .. 6. */
  lemma Opcodes()
    ensures var ops := [IICMB_CMD_WAIT, IICMB_CMD_WRITE, IICMB_CMD_READ_ACK, IICMB_CMD_READ_NAK,
                        IICMB_CMD_START, IICMB_CMD_STOP, IICMB_CMD_SET_BUS];
            forall i :: 0 <= i < |ops| ==> ops[i] as int == i
  {
  }

  /** Shifting a 7-bit address left by one leaves bit 0 free, so the write and
      the read address byte of one slave differ in bit 0 alone. */
  lemma DirectionBit(adr7: bv8)
    ensures IICMB_I2C_WR == 0 && IICMB_I2C_RD == 1
    ensures (adr7 << 1) & 1 == 0
    ensures (adr7 << 1) | IICMB_I2C_WR == adr7 << 1
    ensures ((adr7 << 1) | IICMB_I2C_WR) ^ ((adr7 << 1) | IICMB_I2C_RD) == 1
  {
  }

}
