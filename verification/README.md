# IICMB I2C master drivers, modelled in Dafny

The IICMB is an I2C master controller with four byte registers: CSR
(control/status), DPR (data/parameter), CMDR (command/response) and FSMR.
Software issues one byte-level command at a time by writing CMDR, with a
parameter in DPR first where the command takes one. The controller reports
completion through response flags in CMDR. This project models the two C
drivers for the controller and the constants of their headers.

- **The interrupt-driven driver** (`software/irq/iicmb.c`, header
  `software/irq/iicmb.h`). A transfer is armed by `iicm_write`, `iicm_read`
  or `iicm_wr_rd`. Each completion interrupt then calls `iicm_fsm`, which
  issues the next command or finishes the transfer.
  - `IrqFsm` states the handle as a value `Handle` and one interrupt as the
    pure function `Step`. It also has the initiators, the queries, the
    handle reset, and the laws every step obeys.
  - `IrqSteps` proves one lemma per branch of `iicm_fsm`.
  - `IrqRuns` runs whole transfers interrupt by interrupt.
  - `IrqSession.Session` is the driver as the C code runs it: a class whose
    fields the methods update in place, with a caller-owned read buffer
    that the interrupt step fills. Each method is proved to do what the
    matching `IrqFsm` function says.
- **The polling driver** (`software/poll/iicmb.c`, header
  `iicmb/trunk/software/iicmb.h`). Each command is followed by a busy wait on
  CMDR.
  - `PollTransfer` describes each bus transaction as a *plan*, a list of
    actions. `Execute` runs a plan against the controller's replies. The
    lemmas state the command sequences, the STOP rules and the buffer
    contents.
  - `PollPort.Port` is the driver itself. Register stores go to a log.
    Register loads are answered from `replies`, one completed CMDR value and
    DPR byte per command.
  - Every transaction method `X` states its result against `Execute`. Its
    worker `XSteps` issues the commands one by one, keeping the relation
    `PollSteps.Follows` between the state so far and the transaction's end.
    `PollSteps` proves that `Follows` allows exactly the end `Execute`
    computes.
- **The headers**. `IrqDefs` and `TrunkDefs` hold the constants, the enums
  and the handle field widths. Their lemmas state the bit layouts the
  drivers rely on.
- **Stores.** Both drivers store through volatile pointers. In the model a
  store is a `Registers.RegWrite(offset, value)` appended to a ghost log.
  The bytes the driver reads from CMDR and DPR are parameters (`iicm_fsm`)
  or come from the reply sequence (polling driver).

Where the written description of the drivers and the code differ, the model
follows the code:
- `iicm_wr_rd` carries out one-sided requests.
- No initiator checks whether the bus is busy.
- ERR in a transfer state is treated as an unknown response.

## Model

| member | source | states |
|---|---|---|
| TrunkDefs.Opcode | iicmb/trunk/software/iicmb.h:76-94 | each `cmd_tt` value equals its `IICMB_CMD_*` opcode, and decoding the opcode gives the command back |
| TrunkDefs.FromOpcode | iicmb/trunk/software/iicmb.h:76-94 | an opcode byte names a command exactly when it is below 7, and then the command's position is that byte |
| TrunkDefs.ResponseFlags | iicmb/trunk/software/iicmb.h:57-61 | DONE, NAK, ARB_LOST and ERR are non-zero, pairwise disjoint single bits whose union is `IICMB_RSP_COMPLETED` |
| TrunkDefs.RegisterLayout | iicmb/trunk/software/iicmb.h:47-54 | the offsets CSR, DPR, CMDR, FSMR are 0..3; the CSR enable and IRQ-enable bits are distinct single bits |
| IrqDefs.Code | software/irq/iicmb.h:107-142 | every `t_iicmb_fsm` state has a code that decodes back to it and whose class bits are the state's class |
| IrqDefs.Decode | software/irq/iicmb.h:107-117 | a byte decodes to a state exactly when it is one of the eight state codes, and the decoded state has the byte's class |
| IrqDefs.StateClasses | software/irq/iicmb.h:107-117 | the write states mask to the write class, the read states to the read class, IDLE and WT_IDLE to 0 |
| IrqDefs.ErrorBitsIndependent | software/irq/iicmb.h:155-160 | the six error codes are pairwise distinct single bits, so or-ing one in neither sets nor clears another |
| IrqDefs.ResponseFlags | software/irq/iicmb.h:77-82 | the four response flags are disjoint single bits making up `IICMB_RSP`; `IICMB_RSP_COMPLETED` is 0 |
| IrqDefs.Opcodes | software/irq/iicmb.h:69-75 | the opcodes WAIT..SET_BUS are the distinct values 0..6 |
| IrqDefs.DirectionBit | software/irq/iicmb.h:94-95 | WR is 0 and RD is 1; a shifted address has bit 0 clear, so the read and write address bytes differ in bit 0 only |
| IrqFsm.Step | software/irq/iicmb.c:190-397 | one interrupt step keeps the handle consistent: indices within lengths, lengths within buffers |
| IrqFsm.IdleClassStep | software/irq/iicmb.c:200-232 | the idle-class step keeps the handle consistent |
| IrqFsm.Screen | software/irq/iicmb.c:236-255 | the response check lets a response through to the byte-level step exactly when it is DONE or NAK |
| IrqFsm.Abandon | software/irq/iicmb.c:247-250 | the branch under the `IICMB_ERO_IICMB` label leaves a consistent handle |
| IrqFsm.WriteStep | software/irq/iicmb.c:257-308 | the byte-level write step keeps the handle consistent |
| IrqFsm.CheckWriteAddress | software/irq/iicmb.c:267-275 | the write address check keeps the handle consistent |
| IrqFsm.SendAddress | software/irq/iicmb.c:259-265 | sending the slave address keeps the handle consistent |
| IrqFsm.Release | software/irq/iicmb.c:241-245 | latching bits and issuing STOP keeps the handle consistent |
| IrqFsm.Latch | software/irq/iicmb.c:252-254 | latching an FSM or unknown error alone keeps the handle consistent |
| IrqFsm.SendNextByte | software/irq/iicmb.c:277-304 | WR_DAT keeps the write index within the write length |
| IrqFsm.Restart | software/irq/iicmb.c:290-292 | the repeated START into the read half keeps the handle consistent |
| IrqFsm.SendByte | software/irq/iicmb.c:300-303 | sending the byte at the write index keeps the index within the length |
| IrqFsm.ReadStep | software/irq/iicmb.c:335-387 | the byte-level read step keeps the handle consistent |
| IrqFsm.RequestFirstByte | software/irq/iicmb.c:354-361 | the first read request keeps the handle consistent |
| IrqFsm.ReceiveByte | software/irq/iicmb.c:364-383 | storing a received byte keeps the read index within the read length |
| IrqFsm.StepObeysLaws | software/irq/iicmb.c:190-397 | every step keeps the handle consistent and the request unchanged; indices grow by at most one and only with the matching data store or buffer cell; error bits are only added, except TF_INC in WT_IDLE; at most one command is issued; STOP is issued exactly on entering WT_IDLE; START only as the repeated start after the last write byte; READ_NAK exactly for the last byte; no command means IDLE or a latched FSM/unknown error |
| IrqFsm.IdleClassLaws | software/irq/iicmb.c:200-232 | the idle class obeys the step laws |
| IrqFsm.ScreenLaws | software/irq/iicmb.c:236-255 | the response check, when it decides, obeys the step laws |
| IrqFsm.AbandonLaws | software/irq/iicmb.c:247-250 | the `IICMB_ERO_IICMB` branch obeys the step laws |
| IrqFsm.RestartLaws | software/irq/iicmb.c:290-292 | the repeated START obeys the step laws |
| IrqFsm.SendByteLaws | software/irq/iicmb.c:300-303 | sending a data byte obeys the step laws |
| IrqFsm.RequestFirstByteLaws | software/irq/iicmb.c:354-361 | the first read request obeys the step laws |
| IrqFsm.WriteStepLaws | software/irq/iicmb.c:257-308 | the write states obey the step laws |
| IrqFsm.SendAddressLaws | software/irq/iicmb.c:259-265 | WR_ADR_SET and RD_ADR_SET obey the step laws |
| IrqFsm.ReleaseLaws | software/irq/iicmb.c:241-245 | latch-and-STOP obeys the step laws |
| IrqFsm.ReleaseKeepsErrors | software/irq/iicmb.c:241-245 | latch-and-STOP clears no error bit |
| IrqFsm.LatchLaws | software/irq/iicmb.c:252-254 | latching an FSM or unknown error obeys the step laws |
| IrqFsm.SendNextByteLaws | software/irq/iicmb.c:277-304 | WR_DAT obeys the step laws |
| IrqFsm.ReadStepLaws | software/irq/iicmb.c:335-387 | the read states obey the step laws |
| IrqFsm.ReceiveByteLaws | software/irq/iicmb.c:364-383 | RD_BYTE obeys the step laws |
| IrqFsm.ShiftedAddress | software/irq/iicmb.c:443 | the stored address has bit 0 clear, and shifting it back gives the 7-bit address |
| IrqFsm.Consistent | software/irq/iicmb.c:257-387 | outside the write and read states every handle is consistent; in a consistent handle the next byte to send, and the next cell to receive into, lie inside their buffers |
| IrqFsm.StopOutcome | software/irq/iicmb.c:208-220 | a response to STOP other than DONE clears no bit; ERR latches the controller error and any other non-DONE response the unknown-error bit, each leaving every other bit as it was (DONE is stated by `IrqSteps.StopClearsOnlyIncomplete`) |
| IrqFsm.SideComplete | software/irq/iicmb.c:211 | the completion test holds when both sides are complete, and also whenever one side has zero length and index, whatever the other side did |
| IrqFsm.Write | software/irq/iicmb.c:430-452 | a zero length returns OK and changes nothing, even mid-transfer; otherwise a non-IDLE handle returns BUSY and changes nothing; an accepted request issues one START, sets TF_INC alone, the shifted address, WR_ADR_SET, the write side at index 0, and keeps the read side |
| IrqFsm.Read | software/irq/iicmb.c:460-482 | the same for the read side and RD_ADR_SET |
| IrqFsm.WriteRead | software/irq/iicmb.c:490-536 | only both lengths zero is a no-op; otherwise BUSY unless IDLE; an accepted request issues one START, sets TF_INC alone, both indices to 0, WR_ADR_SET when writing else RD_ADR_SET, the write-read flag exactly when both lengths are positive, and an empty buffer for a zero-length side |
| IrqFsm.Busy | software/irq/iicmb.c:405-411 | OKAY exactly in IDLE, so WT_IDLE counts as busy; ERROR otherwise |
| IrqFsm.Error | software/irq/iicmb.c:419-422 | the latched error byte as an int in 0..255, zero exactly when no bit is latched |
| IrqFsm.Reset | software/irq/iicmb.c:147-154 | the reset handle is consistent, not busy and error-free, with no write request and NULL buffers; the read length and index keep their values |
| IrqFsm.OneSidedWriteRead | software/irq/iicmb.c:490-536 | a one-sided `iicm_wr_rd` returns and stores what `iicm_write` or `iicm_read` does, and also clears the other side's length, index and buffer |
| IrqSteps.ErrLabelUnreachable | software/irq/iicmb.c:247 | no CMDR byte masked with the response mask equals `IICMB_ERO_IICMB` |
| IrqSteps.IdleStep | software/irq/iicmb.c:225-226 | in IDLE a step changes nothing and stores nothing |
| IrqSteps.StopAnswered | software/irq/iicmb.c:206-223 | in WT_IDLE every response leads to IDLE with no store, the error word judged by the response and the either-side completion test |
| IrqSteps.StopClearsOnlyIncomplete | software/irq/iicmb.c:209-214 | DONE after STOP clears TF_INC exactly when the completion test holds, and touches no other bit |
| IrqSteps.ArbitrationLost | software/irq/iicmb.c:241-245 | ARB_LOST in any transfer state latches ARBLOST, issues STOP and enters WT_IDLE, with indices and buffers unchanged |
| IrqSteps.UnexpectedResponse | software/irq/iicmb.c:252-254 | ERR or any unflagged response in a transfer state latches UNKNOWN and changes nothing else |
| IrqSteps.AddressSent | software/irq/iicmb.c:259-265 | WR_ADR_SET and RD_ADR_SET send the shifted address with the class's direction bit and move to the check state |
| IrqSteps.AddressRefused | software/irq/iicmb.c:268-272 | a NAK on the address in either direction latches NOSLAVE, issues only STOP and enters WT_IDLE |
| IrqSteps.DataRefused | software/irq/iicmb.c:279-284 | a NAK on a data byte issues STOP and enters WT_IDLE with no new error bit |
| IrqSteps.ByteSent | software/irq/iicmb.c:273-303 | DONE after the address or a data byte sends the next byte; after the last, a repeated START when a read follows, else STOP |
| IrqSteps.ReadAddressAcked | software/irq/iicmb.c:354-361 | the first read is READ_NAK exactly when one byte is requested |
| IrqSteps.ByteReceived | software/irq/iicmb.c:364-383 | RD_BYTE stores DPR at the read index and advances it, then STOP after the last byte, else READ_ACK, or READ_NAK for the final byte |
| IrqRuns.Run | software/irq/iicmb.c:190-397 | `iicm_fsm` called once per interrupt keeps the handle consistent throughout |
| IrqRuns.SendData | software/irq/iicmb.c:277-303 | in WR_DAT, one DONE per remaining byte sends every remaining byte in order and leaves the write index at the length |
| IrqRuns.SendAllData | software/irq/iicmb.c:267-303 | from an acknowledged write address, the first byte and all others go out in order |
| IrqRuns.WriteClosed | software/irq/iicmb.c:286-298 | after the last byte: STOP and WT_IDLE, or a repeated START and RD_ADR_SET when a read follows |
| IrqRuns.WritePhase | software/irq/iicmb.c:259-303 | the whole write half: the address, every data byte, then STOP or the repeated START |
| IrqRuns.ReceiveOne | software/irq/iicmb.c:364-383 | one received byte in accumulated form |
| IrqRuns.ReceiveLast | software/irq/iicmb.c:364-375 | the last byte is stored and STOP is issued |
| IrqRuns.ReceiveNext | software/irq/iicmb.c:376-383 | a byte that is not the last is stored and the next one is requested |
| IrqRuns.ReceiveData | software/irq/iicmb.c:364-383 | in RD_BYTE, one DONE per remaining byte fills the buffer from the read index on, acknowledging all but the last, then STOP |
| IrqRuns.ReadPhase | software/irq/iicmb.c:337-383 | the whole read half: the address with the read bit, every byte, STOP |
| IrqRuns.Stopped | software/irq/iicmb.c:206-214 | DONE after STOP returns to IDLE, clearing TF_INC when either side is complete |
| IrqRuns.WriteRequest | software/irq/iicmb.c:206-303 | an armed write answered DONE throughout ends in IDLE with no error, every byte sent, then STOP |
| IrqRuns.WriteTransfer | software/irq/iicmb.c:430-452 | a complete `iicm_write`: START, the address, every byte, STOP; it ends idle and error-free |
| IrqRuns.ReadRequest | software/irq/iicmb.c:206-383 | an armed read answered DONE throughout ends in IDLE with no error and the bytes in the buffer |
| IrqRuns.ArbitrationLostRun | software/irq/iicmb.c:206-245 | a lost arbitration in a transfer state, then the answer to its STOP: one STOP in all, IDLE at the end, ARBLOST still latched, indices and read buffer unchanged |
| IrqRuns.AddressRefusedRun | software/irq/iicmb.c:206-272 | a refused address, then the answer to its STOP: one STOP in all, IDLE at the end, NOSLAVE still latched |
| IrqRuns.ReadTransfer | software/irq/iicmb.c:460-482 | a complete `iicm_read`: START, the address, the reads with ACK then NAK, STOP; the data fill the front of the buffer, the rest is kept, and it ends idle and error-free |
| IrqRuns.WriteReadRequest | software/irq/iicmb.c:206-383 | an armed write-read answered DONE throughout: the write half, a repeated START, the read half, one STOP, no error |
| IrqRuns.WriteReadTransfer | software/irq/iicmb.c:490-536 | a complete `iicm_wr_rd`: the write half ends in a repeated START rather than STOP, the read half follows, and one STOP ends both |
| IrqFindings.ErrStallsTransfer | software/irq/iicmb.c:247-254 | as written, ERR in a transfer state issues no command and keeps the state, so the handle stays busy with UNKNOWN latched and IICMB not latched |
| IrqFindings.StepIntended | software/irq/iicmb.c:190-397 | the corrected step keeps the handle consistent |
| IrqFindings.IntendedAgrees | software/irq/iicmb.c:190-397 | outside WT_IDLE, and for any response but ERR, the corrected step is the step as written |
| IrqFindings.WriteIntended | software/irq/iicmb.c:430-452 | the corrected `iicm_write` returns and stores what `iicm_write` does; an accepted request also clears the read side's length, index and buffer, as a one-sided `iicm_wr_rd` does |
| IrqFindings.ReadIntended | software/irq/iicmb.c:460-482 | the corrected `iicm_read`: the same, clearing the write side |
| IrqFindings.IntendedWriteTransfer | software/irq/iicmb.c:206-303 | with both corrections, a write acknowledged throughout, from any IDLE handle whatever an earlier transfer left, issues START, the address, every byte and STOP, and the answer to STOP leaves the handle idle and error-free |
| IrqFindings.IntendedReadTransfer | software/irq/iicmb.c:206-383 | the same for a read, with the received bytes at the front of the buffer |
| IrqFindings.IntendedRefusedWriteReported | software/irq/iicmb.c:206-223 | with the correction, the two-byte write whose second byte is refused ends in IDLE with TF_INC still set |
| IrqFindings.IntendedWriteProgress | software/irq/iicmb.c:236-308 | with the correction, any single flag in a write state leads to a command or to IDLE |
| IrqFindings.IntendedReadProgress | software/irq/iicmb.c:314-387 | the same for the read states |
| IrqFindings.RefusedWriteReportedComplete | software/irq/iicmb.c:211 | as written, a two-byte one-sided write whose second byte is refused ends in IDLE with no error bit, though one byte is unsent |
| IrqFindings.IntendedCompletion | software/irq/iicmb.c:206-223 | with the correction, the answer to STOP ends in IDLE, and TF_INC is clear exactly when it was clear before, or the answer is DONE and both sides moved every byte; the corrected initiators give the side not requested zero counters, so this means every requested byte |
| IrqSession.Session.StartBit | software/irq/iicmb.c:35-38 | START goes into the command register and nothing else is stored |
| IrqSession.Session.StopBit | software/irq/iicmb.c:45-48 | STOP goes into the command register and nothing else is stored |
| IrqSession.Session.Store | software/irq/iicmb.c:37 | one volatile register store appended to the log |
| IrqSession.Session.LatchBits | software/irq/iicmb.c:216-219 | or's the bits into the error word and changes nothing else |
| IrqSession.Session.Arm | software/irq/iicmb.c:442-443 | the error word becomes TF_INC alone and the address is kept shifted |
| IrqSession.Session.SetWrite | software/irq/iicmb.c:444-446 | the write side takes the length, index 0 and the buffer |
| IrqSession.Session.SetRead | software/irq/iicmb.c:474-476 | the read side takes the length, index 0 and the caller's buffer, which may be NULL |
| IrqSession.Session.Init | software/irq/iicmb.c:147-154 | the handle becomes the reset handle with a NULL read buffer, storing nothing |
| IrqSession.Session.Fsm | software/irq/iicmb.c:190-397 | the in-place step leaves the handle and the caller's buffer as `Step` says, stores what `Step` stores, and keeps the handle consistent |
| IrqSession.Session.IdleFsm | software/irq/iicmb.c:200-232 | the idle class in place, as `IdleClassStep` |
| IrqSession.Session.Conclude | software/irq/iicmb.c:206-223 | WT_IDLE in place: the error word judged by the completion test and the response, then IDLE |
| IrqSession.Session.Reject | software/irq/iicmb.c:236-255 | the response check in place, for a response other than DONE and NAK, as `Screen` |
| IrqSession.Session.StopTransfer | software/irq/iicmb.c:241-245 | latch-and-STOP in place, as `Release` |
| IrqSession.Session.AddressByte | software/irq/iicmb.c:259-265 | the address send in place, as `SendAddress` |
| IrqSession.Session.WriteFsm | software/irq/iicmb.c:257-308 | the write states in place, as `WriteStep` |
| IrqSession.Session.WriteData | software/irq/iicmb.c:277-304 | WR_DAT in place, as `SendNextByte` |
| IrqSession.Session.DataByte | software/irq/iicmb.c:300-303 | one data byte in place, as `SendByte` |
| IrqSession.Session.ReadFsm | software/irq/iicmb.c:335-387 | the read states in place, as `ReadStep`, writing only the caller's read buffer |
| IrqSession.Session.FirstRead | software/irq/iicmb.c:354-361 | the first read request in place, as `RequestFirstByte` |
| IrqSession.Session.StoreByte | software/irq/iicmb.c:364-383 | RD_BYTE in place: the caller's buffer gets the byte at the read index, as `ReceiveByte` |
| IrqSession.Session.Write | software/irq/iicmb.c:430-452 | `iicm_write` in place, as `IrqFsm.Write`; the read buffer is kept |
| IrqSession.Session.Read | software/irq/iicmb.c:460-482 | `iicm_read` in place, as `IrqFsm.Read`; an accepted request takes the caller's buffer; a NULL buffer is accepted with length zero |
| IrqSession.Session.WrRd | software/irq/iicmb.c:490-536 | `iicm_wr_rd` in place, as `IrqFsm.WriteRead`; the read buffer becomes the caller's, or NULL for a zero read length; a NULL read buffer is accepted with read length zero |
| IrqSession.Session.Busy | software/irq/iicmb.c:405-411 | `iicm_busy` of the current handle |
| IrqSession.Session.Error | software/irq/iicmb.c:419-422 | `iicm_error` of the current handle |
| PollTransfer.Classify | software/poll/iicmb.c:79-83 | the response is DONE exactly when none of NAK, ARB_LOST and ERR is set, and a failure is reported only when its own flag is set |
| PollTransfer.ClassifyPriority | software/poll/iicmb.c:79-83 | NAK wins over ARB_LOST, ARB_LOST over ERR, and DONE is returned exactly when none of the three is set |
| PollTransfer.ClassifyFlag | software/poll/iicmb.c:77-83 | a value with a single response flag is classified as that flag, and each flag ends the busy wait |
| PollTransfer.FailureWinsOverDone | software/poll/iicmb.c:79-83 | a DONE bit next to a failure flag does not change the classification |
| PollTransfer.Stores | software/poll/iicmb.c:87-138 | every command of a transaction stores something, and never ends with STOP |
| PollTransfer.Execute | software/poll/iicmb.c:150-278 | running a plan keeps the buffer length and uses at least one and at most one more reply than there are actions |
| PollTransfer.Count | software/poll/iicmb.c:205-213 | `iicmb_read_bus_mul` reads `n` bytes for `n >= 1` and one byte otherwise |
| PollTransfer.Sent | software/poll/iicmb.c:266-271 | `iicmb_write_bus_mul` sends `n` bytes for `n > 0`, none otherwise |
| PollTransfer.ReadHeader | software/poll/iicmb.c:189-203 | the read header is the write header, then a repeated START that returns at once and the address again with the direction bit set, a write that sends STOP on failure |
| PollTransfer.ReadTail | software/poll/iicmb.c:205-213 | one read per slot from `from` on, in order, each returning at once on failure, with ACK on all but the last |
| PollTransfer.ReadPlan | software/poll/iicmb.c:183-213 | the read plan has five header actions and one per byte; its reads land inside a buffer of `count` bytes, each in its own slot |
| PollTransfer.WriteHeader | software/poll/iicmb.c:256-264 | START returning at once, then the 7-bit slave address with the write bit clear and the byte address, both writes sending STOP on failure |
| PollTransfer.DataWrites | software/poll/iicmb.c:266-271 | one write per data byte, in order, each sending STOP on failure |
| PollTransfer.WritePlan | software/poll/iicmb.c:250-271 | the write plan has three header actions, then the data writes, and reads nothing |
| PollTransfer.FlattenLast | software/poll/iicmb.c:150-278 | the stores of a non-empty run of commands never end in STOP |
| PollTransfer.AllAcknowledged | software/poll/iicmb.c:150-278 | with every command answered DONE, all stores go out, then STOP; the result is DONE and one reply per command plus one for STOP is used |
| PollTransfer.FirstFailure | software/poll/iicmb.c:150-278 | the first refused command's response is the result; the stores up to it go out, then STOP exactly when that command breaks out of the block |
| PollTransfer.LastResponse | software/poll/iicmb.c:176-179 | the result is the response of the last command before STOP; the reply to STOP never decides it |
| PollTransfer.ReceivedBytes | software/poll/iicmb.c:103-124 | with every command answered DONE, each read stores its DPR byte in its own slot, and other slots are kept |
| PollTransfer.FlattenReadTail | software/poll/iicmb.c:205-213 | the reads issue `count - 1` READ_ACK, then READ_NAK |
| PollTransfer.FlattenDataWrites | software/poll/iicmb.c:266-271 | the data writes store each byte into DPR, then WRITE, in order |
| PollTransfer.HeaderStores | software/poll/iicmb.c:189-204 | the stores of the transaction headers: START, the address with the write bit, the byte address, then for reads a repeated START and the address with the read bit |
| PollTransfer.ReadPlanShape | software/poll/iicmb.c:189-213 | the action-by-action description holds of the read plan and of nothing else, and its reads go into slots 0..count-1, one each |
| PollTransfer.WritePlanShape | software/poll/iicmb.c:256-271 | the action-by-action description holds of the write plan and of nothing else |
| PollTransfer.ReadAllAcknowledged | software/poll/iicmb.c:183-220 | a read answered DONE throughout stores the eight header stores, `count - 1` READ_ACK, READ_NAK, STOP, and returns DONE |
| PollTransfer.ReadAllStored | software/poll/iicmb.c:205-213 | after such a read, byte `j` of the buffer is the DPR byte of reply `5 + j`; the rest of the buffer is kept |
| PollTransfer.ReadStopRule | software/poll/iicmb.c:189-213 | a failed START, repeated START or read returns at once; a failed address or byte-address write sends STOP first; the result is the failed response |
| PollTransfer.WriteAllAcknowledged | software/poll/iicmb.c:250-278 | a write answered DONE throughout stores START, both addresses, every byte in order, STOP, and returns DONE |
| PollTransfer.WriteStopRule | software/poll/iicmb.c:255-278 | a failed write sends STOP exactly when the first START succeeded, and returns the failed response |
| PollTransfer.WritePlanStores | software/poll/iicmb.c:255-271 | the stores of a write transaction written out |
| PollTransfer.WritePlanPrefix | software/poll/iicmb.c:266-271 | the first commands of a write transaction are the whole transaction for the first bytes |
| PollTransfer.WriteRefusedByte | software/poll/iicmb.c:266-275 | a refused byte ends the loop: it and the bytes before it go out, then STOP; later bytes never do |
| PollTransfer.SingleByteTransfers | software/poll/iicmb.c:150-247 | the single-byte transactions are the multi-byte ones for one byte, and a multi-byte read with `n <= 1` reads exactly one byte, into slot 0 |
| PollSteps.Target | software/poll/iicmb.c:150-278 | the end of a transaction as `Execute` computes it |
| PollSteps.TargetFollows | software/poll/iicmb.c:150-278 | the end `Execute` computes satisfies the command-by-command relation `Follows` |
| PollSteps.TargetStep | software/poll/iicmb.c:150-278 | after one acknowledged command, the end of the whole plan is the end of the rest from the new state |
| PollSteps.FollowsOnlyTarget | software/poll/iicmb.c:150-278 | `Follows` allows no end but the one `Execute` computes |
| PollSteps.FollowsUnique | software/poll/iicmb.c:150-278 | at most one end follows from a state |
| PollPort.Port.Store | iicmb/trunk/software/iicmb.h:98 | one register store appended to the log |
| PollPort.Port.Init | software/poll/iicmb.c:66 | stores the enable bit into CSR |
| PollPort.Port.Disable | software/poll/iicmb.c:68 | stores 0 into CSR |
| PollPort.Port.WaitResponse | software/poll/iicmb.c:71-84 | consumes the next reply, returns its classification and leaves its DPR byte readable |
| PollPort.Port.CmdWait | software/poll/iicmb.c:87-92 | stores the delay into DPR, then WAIT into CMDR, and returns the response |
| PollPort.Port.CmdWrite | software/poll/iicmb.c:95-100 | stores the byte into DPR, then WRITE into CMDR, and returns the response |
| PollPort.Port.CmdReadAck | software/poll/iicmb.c:103-112 | stores READ_ACK; the target cell receives DPR exactly when the response is DONE, and is unchanged otherwise |
| PollPort.Port.CmdReadNak | software/poll/iicmb.c:115-124 | the same with READ_NAK |
| PollPort.Port.CmdStart | software/poll/iicmb.c:127-131 | stores START and returns the response |
| PollPort.Port.CmdStop | software/poll/iicmb.c:134-138 | stores STOP and returns the response |
| PollPort.Port.CmdSetBus | software/poll/iicmb.c:141-146 | stores the bus number into DPR, then SET_BUS, and returns the response |
| PollPort.Port.StartStep | software/poll/iicmb.c:127-131 | START as the next action of a transaction: DONE keeps `Follows` for the rest, a failure ends the transaction as the action says |
| PollPort.Port.WriteStep | software/poll/iicmb.c:95-100 | WRITE as the next action of a transaction, likewise |
| PollPort.Port.ReadAckStep | software/poll/iicmb.c:103-112 | READ_ACK into `d[i]` as the next action of a transaction, likewise |
| PollPort.Port.ReadNakStep | software/poll/iicmb.c:115-124 | READ_NAK into `d[i]` as the next action of a transaction, likewise |
| PollPort.Port.AddressStep | software/poll/iicmb.c:193-198 | the slave address, then the byte address; either failing leaves the block for STOP |
| PollPort.Port.StopStep | software/poll/iicmb.c:216-219 | the closing STOP, its response ignored, reaches the transaction's end |
| PollPort.Port.ReadBus | software/poll/iicmb.c:150-180 | `iicmb_read_bus` returns, stores, fills `d` and consumes replies exactly as `Execute` runs the one-byte read plan |
| PollPort.Port.ReadBusSteps | software/poll/iicmb.c:150-180 | the commands of `iicmb_read_bus` reach the end the plan allows |
| PollPort.Port.ReadBusMul | software/poll/iicmb.c:183-220 | `iicmb_read_bus_mul` returns, stores, fills `d` and consumes replies exactly as `Execute` runs the read plan for `Count(n)` bytes |
| PollPort.Port.ReadBusMulSteps | software/poll/iicmb.c:183-220 | the commands of `iicmb_read_bus_mul` reach the end the plan allows |
| PollPort.Port.ReadBytes | software/poll/iicmb.c:205-213 | the read loop and its closing READ_NAK: all acknowledged leads to STOP; a failed read returns at once |
| PollPort.Port.WriteBus | software/poll/iicmb.c:223-247 | `iicmb_write_bus` returns, stores and consumes replies exactly as `Execute` runs the one-byte write plan |
| PollPort.Port.WriteBusSteps | software/poll/iicmb.c:223-247 | the commands of `iicmb_write_bus` reach the end the plan allows |
| PollPort.Port.WriteBusMul | software/poll/iicmb.c:250-278 | `iicmb_write_bus_mul` returns, stores and consumes replies exactly as `Execute` runs the write plan for the first `n` bytes |
| PollPort.Port.WriteBusMulSteps | software/poll/iicmb.c:250-278 | the commands of `iicmb_write_bus_mul`, its loop included, reach the end the plan allows |

## Left out

- Hardware I/O. The volatile stores and loads become the register log and
  the parameters or replies. `IICMB_BASE`, the base-address macros and the
  `t_iicm_reg` layout are not modelled.
- The irq driver's enable and disable routines (`iicm_enable`,
  `iicm_disable`, `iicm_irq_enable`, `iicm_irq_disable`) and its
  `iicmb_set_bus`. These are read-modify-write sequences on CSR, DPR and
  CMDR with read-back checks that need a model of the hardware.
- The core part of `iicm_init`, which calls the routines above. Only the
  handle reset is modelled.
- `iicm_completion_busy_wait` and the busy wait in `iicmb_wait_response`.
  These are unbounded polling loops. A reply stands for the final CMDR
  value, so the polling transactions require one reply per command they may
  issue.
- PollPort.Port.WaitResponse: a reply is classified as given, even without
  any completion bit set. The driver would keep polling on such a value.
- `print_rsp` and `iicmb_report_registers`. These are console output only.
- Concurrency between the interrupt service routine and the initiators.
  Each `iicm_fsm` call is one atomic step.
- The prototypes in `software/irq/iicmb.h` that do not match the
  implementation, such as `iicmb_init(self, iicmbAdr, bus)` and the
  `uint8PtrData` field. The model follows the `t_iicm` handle the `.c` file
  uses.
- `software/irq/test/iicmb_test.c`. It holds no assertions.
- IrqSession.Session.Write: the write buffer is held as a snapshot of its
  contents. A caller changing the buffer while the transfer runs is not
  captured. The driver never writes this buffer.
- PollPort.Port.ReadBusMul: `n - 1` is computed on unbounded integers. The
  C `int` overflow for `n == INT_MIN` is not modelled.
- PollPort.Port.WriteBusMul: `d` is read as a snapshot. The array is not
  written by the driver, so no aliasing with the log or the replies arises.
- `FsmState` lists the `t_iicmb_fsm` enumerators for `Code` and `Decode`.
  The driver itself keeps the state as a byte, and so does the model, so
  the `IICMB_ERO_FSM` paths for unknown codes stay reachable.

## Findings

| source | as written | input that shows it | evidently intended | confidence | as-written member | corrected member |
|---|---|---|---|---|---|---|
| software/irq/iicmb.c:247 (and 325) | the response check of the write and read classes uses the case label `IICMB_ERO_IICMB` (0x04), which a byte masked with `IICMB_RSP` (0xF0) can never equal; ERR falls to the default branch, which latches UNKNOWN, issues no command and keeps the state | any write or read state with CMDR = `IICMB_RSP_ERR` (0x10): no further interrupt comes and `iicm_busy` reports busy forever | `case IICMB_RSP_ERR`: latch `IICMB_ERO_IICMB` and end the transfer | high, not executed | IrqFindings.ErrStallsTransfer | IrqFindings.StepIntended, IrqFindings.IntendedWriteProgress, IrqFindings.IntendedReadProgress |
| software/irq/iicmb.c:211 | after STOP, "transfer incomplete" is cleared when the write side *or* the read side is complete; after a one-sided `iicm_wr_rd` the side not requested has zero length and index, so it always counts as complete (after `iicm_write` or `iicm_read` the other side keeps the counters of an earlier transfer) | `iicm_wr_rd(adr7 = 0x50, wr = [1, 2], wrLen = 2, rdLen = 0)` with the second data byte refused (NAK): the run ends in IDLE with `iicm_error` = 0 though one byte was not sent | clear it only when both sides moved every byte, with every initiator clearing the side not requested as `iicm_wr_rd` does | medium, not executed | IrqFindings.RefusedWriteReportedComplete | IrqFindings.IntendedCompletion, IrqFindings.WriteIntended, IrqFindings.ReadIntended, IrqFindings.IntendedWriteTransfer, IrqFindings.IntendedReadTransfer, IrqFindings.IntendedRefusedWriteReported |

`IrqSession.Session` models the driver as written. `IrqFindings.StepIntended`
is the step with both corrections, and `IrqFindings.WriteIntended` and
`IrqFindings.ReadIntended` are the one-sided initiators that go with it. The
intended properties are proved about them.
