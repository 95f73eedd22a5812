// Constants and enumerations of the polling driver's header
// (iicmb/trunk/software/iicmb.h): register offsets, CSR bits, response flags,
// the `rsp_tt` responses and the `cmd_tt` commands with their opcodes.

module TrunkDefs {

  import opened Wrappers

  // Register offsets
  const IICMB_CSR: bv8 := 0x00
  const IICMB_DPR: bv8 := 0x01
  const IICMB_CMDR: bv8 := 0x02
  const IICMB_FSMR: bv8 := 0x03

  // Control/status register bits
  const IICMB_CSR_ENABLE: bv8 := 0x80
  const IICMB_CSR_IRQ_ENABLE: bv8 := 0x40

  // Response flags in CMDR; "completed" is the mask of all four
  const IICMB_RSP_DONE: bv8 := 0x80
  const IICMB_RSP_NAK: bv8 := 0x40
  const IICMB_RSP_ARB_LOST: bv8 := 0x20
  const IICMB_RSP_ERR: bv8 := 0x10
  const IICMB_RSP_COMPLETED: bv8 := 0xF0

  // Command opcodes in CMDR
  const IICMB_CMD_WAIT: bv8 := 0x00
  const IICMB_CMD_WRITE: bv8 := 0x01
  const IICMB_CMD_READ_ACK: bv8 := 0x02
  const IICMB_CMD_READ_NAK: bv8 := 0x03
  const IICMB_CMD_START: bv8 := 0x04
  const IICMB_CMD_STOP: bv8 := 0x05
  const IICMB_CMD_SET_BUS: bv8 := 0x06

  /** `rsp_tt`: the outcome of one command. */
  datatype Rsp = Done | Nak | ArbLost | Err

  /** `cmd_tt`: the byte-level commands, in declaration order. */
  datatype Cmd = Wait | Write | ReadAck | ReadNak | Start | Stop | SetBus

  /** The value C gives each `cmd_tt` enumerator: its position in the declaration. */
  function Ordinal(c: Cmd): nat
  {
    match c
    case Wait => 0
    case Write => 1
    case ReadAck => 2
    case ReadNak => 3
    case Start => 4
    case Stop => 5
    case SetBus => 6
  }

  /** The IICMB_CMD_* opcode that stands for each command. */
  function Opcode(c: Cmd): (op: bv8)
    ensures op as int == Ordinal(c)
    ensures FromOpcode(op) == Some(c)
  {
    match c
    case Wait => IICMB_CMD_WAIT
    case Write => IICMB_CMD_WRITE
    case ReadAck => IICMB_CMD_READ_ACK
    case ReadNak => IICMB_CMD_READ_NAK
    case Start => IICMB_CMD_START
    case Stop => IICMB_CMD_STOP
    case SetBus => IICMB_CMD_SET_BUS
  }

  /** The command an opcode byte names; None for bytes above 6. */
  function FromOpcode(op: bv8): (r: Option<Cmd>)
    ensures r.Some? <==> op < 7
    ensures r.Some? ==> Ordinal(r.value) == op as int
  {
    if op == IICMB_CMD_WAIT then Some(Wait)
    else if op == IICMB_CMD_WRITE then Some(Write)
    else if op == IICMB_CMD_READ_ACK then Some(ReadAck)
    else if op == IICMB_CMD_READ_NAK then Some(ReadNak)
    else if op == IICMB_CMD_START then Some(Start)
    else if op == IICMB_CMD_STOP then Some(Stop)
    else if op == IICMB_CMD_SET_BUS then Some(SetBus)
    else None
  }

  /** The four response flags are distinct single bits whose union is the
      "completed" mask. */
  lemma ResponseFlags()
    ensures var flags := [IICMB_RSP_DONE, IICMB_RSP_NAK, IICMB_RSP_ARB_LOST, IICMB_RSP_ERR];
            (forall i :: 0 <= i < |flags| ==> flags[i] != 0 && flags[i] & (flags[i] - 1) == 0) &&
            (forall i, j :: 0 <= i < j < |flags| ==> flags[i] & flags[j] == 0)
    ensures IICMB_RSP_DONE | IICMB_RSP_NAK | IICMB_RSP_ARB_LOST | IICMB_RSP_ERR == IICMB_RSP_COMPLETED
  {
  }

  /** The register offsets are 0 .. 3, and the two CSR enable bits are distinct single bits. */
  lemma RegisterLayout()
    ensures IICMB_CSR as int == 0 && IICMB_DPR as int == 1 && IICMB_CMDR as int == 2 && IICMB_FSMR as int == 3
    ensures IICMB_CSR_ENABLE & IICMB_CSR_IRQ_ENABLE == 0
    ensures IICMB_CSR_ENABLE & (IICMB_CSR_ENABLE - 1) == 0 && IICMB_CSR_IRQ_ENABLE & (IICMB_CSR_IRQ_ENABLE - 1) == 0
  {
  }

}
