// Whole transfers of the interrupt-driven driver: a request armed by one of
// the initiators, followed by the controller's answers to the commands the
// driver issues, one interrupt per answer.

module IrqRuns {

  import opened Registers
  import opened IrqDefs
  import opened IrqFsm
  import opened IrqSteps

  /** What `iicm_fsm` reads at one interrupt: the command register (whose top
      nibble is the response) and the data register. */
  datatype Irq = Irq(cmdReg: bv8, dpr: bv8)

  /** `iicm_fsm` called once per interrupt, the stores of all calls in order. */
  function Run(h: Handle, irqs: seq<Irq>): (r: StepResult)
    requires Consistent(h)
    ensures Consistent(r.next)
    decreases |irqs|, 0
  {
    if irqs == [] then StepResult(h, [])
    else Then(Step(h, irqs[0].cmdReg, irqs[0].dpr), irqs[1..])
  }

  /** The step `s`, followed by the run of `rest` from where it left the handle. */
  function Then(s: StepResult, rest: seq<Irq>): (r: StepResult)
    requires Consistent(s.next)
    ensures Consistent(r.next)
    decreases |rest|, 1
  {
    var t := Run(s.next, rest);
    StepResult(t.next, s.writes + t.writes)
  }

  /** An interrupt that reports DONE. */
  function Done(dpr: bv8): Irq { Irq(IICMB_RSP_DONE, dpr) }

  /** `k` interrupts that each report DONE. */
  function Dones(k: nat): (irqs: seq<Irq>)
    ensures |irqs| == k
  {
    if k == 0 then [] else [Done(0)] + Dones(k - 1)
  }

  /** One DONE interrupt per received byte, the byte waiting in the data register. */
  function ReadIrqs(data: seq<bv8>): (irqs: seq<Irq>)
    ensures |irqs| == |data|
  {
    if data == [] then [] else [Done(data[0])] + ReadIrqs(data[1..])
  }

  /** The stores that put `buf[from]` .. `buf[to - 1]` on the bus. */
  function SentBytes(buf: seq<bv8>, from: nat, to: nat): (ws: seq<RegWrite>)
    requires from <= to <= |buf|
    ensures |ws| == 2 * (to - from)
    decreases (to as int) - from
  {
    if from == to then []
    else [Param(buf[from]), Command(IICMB_CMD_WRITE)] + SentBytes(buf, from + 1, to)
  }

  /** The read commands for bytes `from` .. `len - 1`: acknowledge all but the last. */
  function ReadCommands(from: nat, len: nat): (ws: seq<RegWrite>)
    requires from <= len
    ensures |ws| == len - from
    decreases (len as int) - from
  {
    if from == len then []
    else [Command(if from == len - 1 then IICMB_CMD_READ_NAK else IICMB_CMD_READ_ACK)] + ReadCommands(from + 1, len)
  }

  /** `buf` with `data` stored from index `from` on, one cell at a time. */
  function Fill(buf: seq<bv8>, from: nat, data: seq<bv8>): (r: seq<bv8>)
    requires from + |data| <= |buf|
    ensures |r| == |buf|
    decreases |data|
  {
    if data == [] then buf else Fill(buf[from := data[0]], from + 1, data[1..])
  }

  /** Storing cell by cell leaves the data in place and the rest of the buffer as it was. */
  lemma {:induction false} FillIsSplice(buf: seq<bv8>, from: nat, data: seq<bv8>)
    requires from + |data| <= |buf|
    ensures Fill(buf, from, data) == buf[..from] + data + buf[from + |data|..]
    decreases |data|
  {
    if data != [] {
      var b1 := buf[from := data[0]];
      FillIsSplice(b1, from + 1, data[1..]);
      assert b1[..from + 1] == buf[..from] + [data[0]];
      assert b1[from + 1 + |data[1..]|..] == buf[from + |data|..];
      assert [data[0]] + data[1..] == data;
    }
  }

  /** Storing from the start: the data, then what the buffer held past it. */
  lemma FillFromStart(buf: seq<bv8>, data: seq<bv8>)
    requires |data| <= |buf|
    ensures Fill(buf, 0, data) == data + buf[|data|..]
  {
    FillIsSplice(buf, 0, data);
    assert buf[..0] + data == data;
  }

  /** Running a sequence that starts with `i` is the step for `i`, then the rest. */
  lemma RunCons(h: Handle, i: Irq, rest: seq<Irq>)
    requires Consistent(h)
    ensures Run(h, [i] + rest) == Then(Step(h, i.cmdReg, i.dpr), rest)
  {
    assert ([i] + rest)[0] == i;
    assert ([i] + rest)[1..] == rest;
  }

  /** `Then` spelled out: the stores of `acc`, then those of the run. */
  lemma ThenUnfold(acc: StepResult, rest: seq<Irq>)
    requires Consistent(acc.next)
    ensures var t := Run(acc.next, rest);
            Then(acc, rest) == StepResult(t.next, acc.writes + t.writes)
  {
  }

  /** An interrupt whose step is known: it adds that step's stores to the
      ones so far and moves on from the handle the step leaves. */
  lemma Advance(acc: StepResult, i: Irq, s: StepResult, rest: seq<Irq>)
    requires Consistent(acc.next) && Step(acc.next, i.cmdReg, i.dpr) == s
    ensures Consistent(s.next)
    ensures Then(acc, [i] + rest) == Then(StepResult(s.next, acc.writes + s.writes), rest)
  {
    RunCons(acc.next, i, rest);
    ThenUnfold(acc, [i] + rest);
    ThenUnfold(s, rest);
    ThenUnfold(StepResult(s.next, acc.writes + s.writes), rest);
    var t := Run(s.next, rest);
    assert acc.writes + (s.writes + t.writes) == (acc.writes + s.writes) + t.writes;
  }

  /** Nothing left to run. */
  lemma ThenNothing(acc: StepResult)
    requires Consistent(acc.next)
    ensures Then(acc, []) == acc
  {
    assert acc.writes + [] == acc.writes;
  }

  lemma DonesSplit(a: nat, b: nat)
    ensures Dones(a + b) == Dones(a) + Dones(b)
  {
    if a > 0 {
      DonesSplit(a - 1, b);
    }
  }


  /** Sending the data bytes: in WR_DAT, one DONE per byte still to go puts
      each of them on the bus and leaves the write index at the length. */
  lemma {:induction false} SendData(acc: StepResult, rest: seq<Irq>)
    requires Consistent(acc.next) && acc.next.fsm == IICMB_FSM_WR_DAT
    ensures
      var g := acc.next;
      Then(acc, Dones((g.wrLen - g.wrIs) as nat) + rest)
        == Then(StepResult(g.(wrIs := g.wrLen), acc.writes + SentBytes(g.wrBuf, g.wrIs as nat, g.wrLen as nat)), rest)
    decreases acc.next.wrLen - acc.next.wrIs
  {
    var g := acc.next;
    var k := (g.wrLen - g.wrIs) as nat;
    if k > 0 {
      var g1 := g.(wrIs := g.wrIs + 1);
      var sent := [Param(g.wrBuf[g.wrIs]), Command(IICMB_CMD_WRITE)];
      ByteSent(g, IICMB_RSP_DONE, 0);
      assert Dones(k) + rest == [Done(0)] + (Dones(k - 1) + rest);
      Advance(acc, Done(0), StepResult(g1, sent), Dones(k - 1) + rest);
      SendData(StepResult(g1, acc.writes + sent), rest);
      assert g1.(wrIs := g1.wrLen) == g.(wrIs := g.wrLen);
      assert acc.writes + sent + SentBytes(g.wrBuf, g1.wrIs as nat, g.wrLen as nat)
          == acc.writes + SentBytes(g.wrBuf, g.wrIs as nat, g.wrLen as nat);
    } else {
      assert Dones(k) + rest == rest;
      assert StepResult(g.(wrIs := g.wrLen), acc.writes + []) == acc;
    }
  }

  /** The address of a write acknowledged: the first byte goes out the same
      way, and the others follow from WR_DAT. */
  lemma SendAllData(acc: StepResult, rest: seq<Irq>)
    requires Consistent(acc.next) && acc.next.fsm == IICMB_FSM_WR_ADR_CHK
    requires acc.next.wrIs == 0 < acc.next.wrLen
    ensures
      var g := acc.next;
      Then(acc, Dones(g.wrLen as nat) + rest)
        == Then(StepResult(g.(fsm := IICMB_FSM_WR_DAT, wrIs := g.wrLen),
                           acc.writes + SentBytes(g.wrBuf, 0, g.wrLen as nat)), rest)
  {
    var g := acc.next;
    var n := g.wrLen as nat;
    var g1 := g.(fsm := IICMB_FSM_WR_DAT, wrIs := 1);
    var sent := [Param(g.wrBuf[0]), Command(IICMB_CMD_WRITE)];
    ByteSent(g, IICMB_RSP_DONE, 0);
    assert Dones(n) + rest == [Done(0)] + (Dones(n - 1) + rest);
    Advance(acc, Done(0), StepResult(g1, sent), Dones(n - 1) + rest);
    SendData(StepResult(g1, acc.writes + sent), rest);
    assert acc.writes + sent + SentBytes(g.wrBuf, 1, n) == acc.writes + SentBytes(g.wrBuf, 0, n);
  }

  /** The last byte acknowledged: STOP, or a repeated START when a read follows. */
  lemma WriteClosed(acc: StepResult, rest: seq<Irq>)
    requires Consistent(acc.next) && acc.next.fsm == IICMB_FSM_WR_DAT
    requires acc.next.wrIs == acc.next.wrLen
    ensures
      var g := acc.next;
      Then(acc, [Done(0)] + rest)
        == Then(StepResult(g.(fsm := if g.wrRd == 1 then IICMB_FSM_RD_ADR_SET else IICMB_FSM_WT_IDLE),
                           acc.writes + [Command(if g.wrRd == 1 then IICMB_CMD_START else IICMB_CMD_STOP)]), rest)
  {
    var g := acc.next;
    ByteSent(g, IICMB_RSP_DONE, 0);
    Advance(acc, Done(0), Step(g, IICMB_RSP_DONE, 0), rest);
  }

  /** The write half of a request: address phase, then every data byte. The
      last acknowledged byte is followed by a STOP, or by a repeated START when
      a read follows. */
  lemma WritePhase(acc: StepResult, rest: seq<Irq>)
    requires Consistent(acc.next) && acc.next.fsm == IICMB_FSM_WR_ADR_SET
    requires acc.next.wrIs == 0 < acc.next.wrLen
    ensures
      var g := acc.next;
      var done := g.(wrIs := g.wrLen,
                     fsm := if g.wrRd == 1 then IICMB_FSM_RD_ADR_SET else IICMB_FSM_WT_IDLE);
      Then(acc, Dones(g.wrLen as nat + 2) + rest)
        == Then(StepResult(done, acc.writes
                                 + [Param(g.adr | IICMB_I2C_WR), Command(IICMB_CMD_WRITE)]
                                 + SentBytes(g.wrBuf, 0, g.wrLen as nat)
                                 + [Command(if g.wrRd == 1 then IICMB_CMD_START else IICMB_CMD_STOP)]), rest)
  {
    var g := acc.next;
    var n := g.wrLen as nat;
    var adr := [Param(g.adr | IICMB_I2C_WR), Command(IICMB_CMD_WRITE)];
    var g1 := g.(fsm := IICMB_FSM_WR_ADR_CHK);
    DonesSplit(n, 1);
    assert Dones(n + 2) + rest == [Done(0)] + (Dones(n) + ([Done(0)] + rest));
    AddressSent(g, IICMB_RSP_DONE, 0);
    Advance(acc, Done(0), StepResult(g1, adr), Dones(n) + ([Done(0)] + rest));
    SendAllData(StepResult(g1, acc.writes + adr), [Done(0)] + rest);
    WriteClosed(StepResult(g.(fsm := IICMB_FSM_WR_DAT, wrIs := g.wrLen),
                           acc.writes + adr + SentBytes(g.wrBuf, 0, n)), rest);
  }

  /** One byte received in RD_BYTE, in accumulated form. */
  lemma ReceiveOne(acc: StepResult, d: bv8, rest: seq<Irq>)
    requires Consistent(acc.next) && acc.next.fsm == IICMB_FSM_RD_BYTE
    ensures
      var g := acc.next;
      var g1 := g.(rdBuf := g.rdBuf[g.rdIs := d], rdIs := g.rdIs + 1);
      Then(acc, [Done(d)] + rest)
        == Then(if g1.rdIs == g1.rdLen then StepResult(g1.(fsm := IICMB_FSM_WT_IDLE), acc.writes + [Command(IICMB_CMD_STOP)])
                else StepResult(g1, acc.writes + [Command(if g1.rdIs == g1.rdLen - 1 then IICMB_CMD_READ_NAK else IICMB_CMD_READ_ACK)]),
                rest)
  {
    ByteReceived(acc.next, IICMB_RSP_DONE, d);
    Advance(acc, Done(d), Step(acc.next, IICMB_RSP_DONE, d), rest);
  }

  /** The last byte received: it is stored and STOP is issued. */
  lemma ReceiveLast(acc: StepResult, d: bv8, rest: seq<Irq>)
    requires Consistent(acc.next) && acc.next.fsm == IICMB_FSM_RD_BYTE
    requires acc.next.rdLen - acc.next.rdIs == 1
    ensures
      var g := acc.next;
      Then(acc, ReadIrqs([d]) + rest)
        == Then(StepResult(g.(fsm := IICMB_FSM_WT_IDLE, rdIs := g.rdLen, rdBuf := Fill(g.rdBuf, g.rdIs as nat, [d])),
                           acc.writes + ReadCommands(g.rdIs as nat + 1, g.rdLen as nat) + [Command(IICMB_CMD_STOP)]), rest)
  {
    var g := acc.next;
    assert ReadIrqs([d]) + rest == [Done(d)] + rest;
    assert Fill(g.rdBuf, g.rdIs as nat, [d]) == g.rdBuf[g.rdIs := d];
    assert ReadCommands(g.rdIs as nat + 1, g.rdLen as nat) == [];
    ReceiveOne(acc, d, rest);
  }

  /** A byte received that is not the last: it is stored and the next one is asked for. */
  lemma ReceiveNext(acc: StepResult, data: seq<bv8>, rest: seq<Irq>)
    requires Consistent(acc.next) && acc.next.fsm == IICMB_FSM_RD_BYTE
    requires 2 <= |data| == (acc.next.rdLen - acc.next.rdIs) as int
    ensures
      var g := acc.next;
      var g1 := g.(rdBuf := g.rdBuf[g.rdIs := data[0]], rdIs := g.rdIs + 1);
      Then(acc, ReadIrqs(data) + rest)
        == Then(StepResult(g1, acc.writes + [Command(if g1.rdIs == g1.rdLen - 1 then IICMB_CMD_READ_NAK else IICMB_CMD_READ_ACK)]),
                ReadIrqs(data[1..]) + rest)
  {
    assert ReadIrqs(data) + rest == [Done(data[0])] + (ReadIrqs(data[1..]) + rest);
    ReceiveOne(acc, data[0], ReadIrqs(data[1..]) + rest);
  }

  /** Receiving the bytes: in RD_BYTE, one DONE per byte stores it, asks for
      the next one (acknowledging all but the last) and, after the last,
      issues STOP. */
  lemma {:induction false} ReceiveData(acc: StepResult, data: seq<bv8>, rest: seq<Irq>)
    requires Consistent(acc.next) && acc.next.fsm == IICMB_FSM_RD_BYTE
    requires |data| == (acc.next.rdLen - acc.next.rdIs) as int
    ensures
      var g := acc.next;
      Then(acc, ReadIrqs(data) + rest)
        == Then(StepResult(g.(fsm := IICMB_FSM_WT_IDLE, rdIs := g.rdLen, rdBuf := Fill(g.rdBuf, g.rdIs as nat, data)),
                           acc.writes + ReadCommands(g.rdIs as nat + 1, g.rdLen as nat) + [Command(IICMB_CMD_STOP)]), rest)
    decreases |data|
  {
    if |data| == 1 {
      assert data == [data[0]];
      ReceiveLast(acc, data[0], rest);
    } else {
      var g := acc.next;
      var g1 := g.(rdBuf := g.rdBuf[g.rdIs := data[0]], rdIs := g.rdIs + 1);
      var ask := [Command(if g1.rdIs == g1.rdLen - 1 then IICMB_CMD_READ_NAK else IICMB_CMD_READ_ACK)];
      ReceiveNext(acc, data, rest);
      ReceiveData(StepResult(g1, acc.writes + ask), data[1..], rest);
      assert acc.writes + ask + ReadCommands(g1.rdIs as nat + 1, g.rdLen as nat)
          == acc.writes + ReadCommands(g.rdIs as nat + 1, g.rdLen as nat);
    }
  }

  /** The read half of a request: address phase, every byte, then STOP. */
  lemma ReadPhase(acc: StepResult, data: seq<bv8>, rest: seq<Irq>)
    requires Consistent(acc.next) && acc.next.fsm == IICMB_FSM_RD_ADR_SET
    requires |data| == acc.next.rdLen as int
    ensures
      var g := acc.next;
      Then(acc, Dones(2) + (ReadIrqs(data) + rest))
        == Then(StepResult(g.(fsm := IICMB_FSM_WT_IDLE, rdIs := g.rdLen, rdBuf := Fill(g.rdBuf, 0, data)),
                           acc.writes + [Param(g.adr | IICMB_I2C_RD), Command(IICMB_CMD_WRITE)]
                           + ReadCommands(0, g.rdLen as nat) + [Command(IICMB_CMD_STOP)]), rest)
  {
    var g := acc.next;
    var adr := [Param(g.adr | IICMB_I2C_RD), Command(IICMB_CMD_WRITE)];
    var first := [Command(if g.rdLen == 1 then IICMB_CMD_READ_NAK else IICMB_CMD_READ_ACK)];
    var g1 := g.(fsm := IICMB_FSM_RD_ADR_CHK);
    var g2 := g.(fsm := IICMB_FSM_RD_BYTE);
    assert Dones(2) + (ReadIrqs(data) + rest) == [Done(0)] + ([Done(0)] + (ReadIrqs(data) + rest));
    AddressSent(g, IICMB_RSP_DONE, 0);
    Advance(acc, Done(0), StepResult(g1, adr), [Done(0)] + (ReadIrqs(data) + rest));
    ReadAddressAcked(g1, IICMB_RSP_DONE, 0);
    Advance(StepResult(g1, acc.writes + adr), Done(0), StepResult(g2, first), ReadIrqs(data) + rest);
    ReceiveData(StepResult(g2, acc.writes + adr + first), data, rest);
    assert acc.writes + adr + first + ReadCommands(1, g.rdLen as nat)
        == acc.writes + adr + ReadCommands(0, g.rdLen as nat);
  }

  /** The interrupt that answers STOP: back to IDLE, with "transfer incomplete"
      cleared when the write or the read index reached its length. */
  lemma Stopped(acc: StepResult, rest: seq<Irq>)
    requires Consistent(acc.next) && acc.next.fsm == IICMB_FSM_WT_IDLE
    ensures
      var g := acc.next;
      Then(acc, [Done(0)] + rest)
        == Then(StepResult(g.(fsm := IICMB_FSM_IDLE,
                              error := if g.wrLen == g.wrIs || g.rdLen == g.rdIs
                                       then g.error & !IICMB_ERO_TF_INC else g.error),
                           acc.writes), rest)
  {
    StopAnswered(acc.next, IICMB_RSP_DONE, 0);
    Advance(acc, Done(0), Step(acc.next, IICMB_RSP_DONE, 0), rest);
    assert acc.writes + [] == acc.writes;
  }

  /** A write request as `iicm_write` arms it, answered DONE throughout. */
  lemma WriteRequest(acc: StepResult)
    requires Consistent(acc.next) && acc.next.fsm == IICMB_FSM_WR_ADR_SET && acc.next.wrRd == 0
    requires acc.next.wrIs == 0 < acc.next.wrLen && acc.next.error == IICMB_ERO_TF_INC
    ensures
      var g := acc.next;
      Then(acc, Dones(g.wrLen as nat + 3))
        == StepResult(g.(wrIs := g.wrLen, fsm := IICMB_FSM_IDLE, error := 0),
                      acc.writes + [Param(g.adr | IICMB_I2C_WR), Command(IICMB_CMD_WRITE)]
                      + SentBytes(g.wrBuf, 0, g.wrLen as nat) + [Command(IICMB_CMD_STOP)])
  {
    var g := acc.next;
    var n := g.wrLen as nat;
    var done := g.(wrIs := g.wrLen, fsm := IICMB_FSM_WT_IDLE);
    var ws := acc.writes + [Param(g.adr | IICMB_I2C_WR), Command(IICMB_CMD_WRITE)]
              + SentBytes(g.wrBuf, 0, n) + [Command(IICMB_CMD_STOP)];
    DonesSplit(n + 2, 1);
    assert Dones(n + 3) == Dones(n + 2) + ([Done(0)] + []);
    WritePhase(acc, [Done(0)] + []);
    Stopped(StepResult(done, ws), []);
    ThenNothing(StepResult(g.(wrIs := g.wrLen, fsm := IICMB_FSM_IDLE, error := 0), ws));
  }

  /** A complete `iicm_write`: START, the address, every byte acknowledged,
      STOP; the request ends in IDLE with no error. */
  lemma WriteTransfer(h: Handle, adr7: bv8, buf: seq<bv8>, len: u16)
    requires h.fsm == IICMB_FSM_IDLE && 0 < len as int <= |buf|
    ensures
      var a := Write(h, adr7, buf, len);
      var r := Then(StepResult(a.next, a.writes), Dones(len as nat + 3));
      && a.ret == IICMB_OK
      && Busy(r.next) == IICMB_OKAY && Error(r.next) == 0 && r.next.wrIs == len
      && r.writes
         == [Command(IICMB_CMD_START)] + [Param(ShiftedAddress(adr7) | IICMB_I2C_WR), Command(IICMB_CMD_WRITE)]
            + SentBytes(buf, 0, len as nat) + [Command(IICMB_CMD_STOP)]
  {
    var a := Write(h, adr7, buf, len);
    WriteRequest(StepResult(a.next, a.writes));
  }

  /** A read request as `iicm_read` arms it, answered DONE throughout. */
  lemma ReadRequest(acc: StepResult, data: seq<bv8>)
    requires Consistent(acc.next) && acc.next.fsm == IICMB_FSM_RD_ADR_SET
    requires |data| == acc.next.rdLen as int && acc.next.error == IICMB_ERO_TF_INC
    ensures
      var g := acc.next;
      Then(acc, Dones(2) + (ReadIrqs(data) + Dones(1)))
        == StepResult(g.(fsm := IICMB_FSM_IDLE, rdIs := g.rdLen, rdBuf := Fill(g.rdBuf, 0, data), error := 0),
                      acc.writes + [Param(g.adr | IICMB_I2C_RD), Command(IICMB_CMD_WRITE)]
                      + ReadCommands(0, g.rdLen as nat) + [Command(IICMB_CMD_STOP)])
  {
    var g := acc.next;
    var done := g.(fsm := IICMB_FSM_WT_IDLE, rdIs := g.rdLen, rdBuf := Fill(g.rdBuf, 0, data));
    var ws := acc.writes + [Param(g.adr | IICMB_I2C_RD), Command(IICMB_CMD_WRITE)]
              + ReadCommands(0, g.rdLen as nat) + [Command(IICMB_CMD_STOP)];
    assert Dones(1) == [Done(0)] + [];
    ReadPhase(acc, data, Dones(1));
    Stopped(StepResult(done, ws), []);
    ThenNothing(StepResult(done.(fsm := IICMB_FSM_IDLE, error := 0), ws));
  }

  /** A complete `iicm_read`: START, the address with the read bit, every byte
      received (all but the last acknowledged), STOP; the bytes are in the
      buffer and the request ends in IDLE with no error. */
  lemma ReadTransfer(h: Handle, adr7: bv8, buf: seq<bv8>, len: u16, data: seq<bv8>)
    requires h.fsm == IICMB_FSM_IDLE && 0 < len as int <= |buf| && |data| == len as int
    ensures
      var a := Read(h, adr7, buf, len);
      var r := Then(StepResult(a.next, a.writes), Dones(2) + (ReadIrqs(data) + Dones(1)));
      && a.ret == IICMB_OK
      && Busy(r.next) == IICMB_OKAY && Error(r.next) == 0
      && r.next.rdIs == len && r.next.rdBuf == data + buf[len..]
      && r.writes
         == [Command(IICMB_CMD_START)] + [Param(ShiftedAddress(adr7) | IICMB_I2C_RD), Command(IICMB_CMD_WRITE)]
            + ReadCommands(0, len as nat) + [Command(IICMB_CMD_STOP)]
  {
    var a := Read(h, adr7, buf, len);
    ReadRequest(StepResult(a.next, a.writes), data);
    FillFromStart(buf, data);
  }

  /** A combined request as `iicm_wr_rd` arms it with both sides non-empty,
      answered DONE throughout. */
  lemma WriteReadRequest(acc: StepResult, data: seq<bv8>)
    requires Consistent(acc.next) && acc.next.fsm == IICMB_FSM_WR_ADR_SET && acc.next.wrRd == 1
    requires acc.next.wrIs == 0 < acc.next.wrLen && acc.next.error == IICMB_ERO_TF_INC
    requires |data| == acc.next.rdLen as int
    ensures
      var g := acc.next;
      Then(acc, Dones(g.wrLen as nat + 2) + (Dones(2) + (ReadIrqs(data) + Dones(1))))
        == StepResult(g.(wrIs := g.wrLen, fsm := IICMB_FSM_IDLE, rdIs := g.rdLen, rdBuf := Fill(g.rdBuf, 0, data), error := 0),
                      acc.writes + [Param(g.adr | IICMB_I2C_WR), Command(IICMB_CMD_WRITE)]
                      + SentBytes(g.wrBuf, 0, g.wrLen as nat) + [Command(IICMB_CMD_START)]
                      + [Param(g.adr | IICMB_I2C_RD), Command(IICMB_CMD_WRITE)]
                      + ReadCommands(0, g.rdLen as nat) + [Command(IICMB_CMD_STOP)])
  {
    var g := acc.next;
    var mid := g.(wrIs := g.wrLen, fsm := IICMB_FSM_RD_ADR_SET);
    WritePhase(acc, Dones(2) + (ReadIrqs(data) + Dones(1)));
    ReadRequest(StepResult(mid, acc.writes + [Param(g.adr | IICMB_I2C_WR), Command(IICMB_CMD_WRITE)]
                                + SentBytes(g.wrBuf, 0, g.wrLen as nat) + [Command(IICMB_CMD_START)]), data);
  }

  /** A complete `iicm_wr_rd`: the write half ends with a repeated START
      instead of a STOP, the read half follows, and one STOP ends both. */
  lemma WriteReadTransfer(h: Handle, adr7: bv8, wr: seq<bv8>, wrLen: u16,
                          rd: seq<bv8>, rdLen: u16, data: seq<bv8>)
    requires h.fsm == IICMB_FSM_IDLE
    requires 0 < wrLen as int <= |wr| && 0 < rdLen as int <= |rd| && |data| == rdLen as int
    ensures
      var a := WriteRead(h, adr7, wr, wrLen, rd, rdLen);
      var r := Then(StepResult(a.next, a.writes), Dones(wrLen as nat + 2) + (Dones(2) + (ReadIrqs(data) + Dones(1))));
      && a.ret == IICMB_OK
      && Busy(r.next) == IICMB_OKAY && Error(r.next) == 0
      && r.next.wrIs == wrLen && r.next.rdIs == rdLen && r.next.rdBuf == data + rd[rdLen..]
      && r.writes
         == [Command(IICMB_CMD_START)] + [Param(ShiftedAddress(adr7) | IICMB_I2C_WR), Command(IICMB_CMD_WRITE)]
            + SentBytes(wr, 0, wrLen as nat) + [Command(IICMB_CMD_START)]
            + [Param(ShiftedAddress(adr7) | IICMB_I2C_RD), Command(IICMB_CMD_WRITE)]
            + ReadCommands(0, rdLen as nat) + [Command(IICMB_CMD_STOP)]
  {
    var a := WriteRead(h, adr7, wr, wrLen, rd, rdLen);
    WriteReadRequest(StepResult(a.next, a.writes), data);
    FillFromStart(rd, data);
  }

  /** A lost arbitration in a write or read state, then the answer to the
      STOP it issues: one STOP in all, IDLE at the end, ARBLOST still latched,
      and the indices and buffers as they were. */
  lemma ArbitrationLostRun(h: Handle, cmdReg: bv8, dpr: bv8)
    requires Consistent(h)
    requires h.fsm & IICMB_FSM_CL == IICMB_FSM_CL_WR || h.fsm & IICMB_FSM_CL == IICMB_FSM_CL_RD
    requires cmdReg & IICMB_RSP == IICMB_RSP_ARB_LOST
    ensures
      var r := Run(h, [Irq(cmdReg, dpr), Done(0)]);
      && r.writes == [Command(IICMB_CMD_STOP)]
      && Busy(r.next) == IICMB_OKAY && r.next.error & IICMB_ERO_ARBLOST != 0
      && r.next.wrIs == h.wrIs && r.next.rdIs == h.rdIs && r.next.rdBuf == h.rdBuf
  {
    var s := Step(h, cmdReg, dpr);
    ArbitrationLost(h, cmdReg, dpr);
    RunCons(h, Irq(cmdReg, dpr), [Done(0)]);
    assert [Done(0)] + [] == [Done(0)];
    Stopped(s, []);
    var g := s.next;
    ThenNothing(StepResult(g.(fsm := IICMB_FSM_IDLE,
                              error := if g.wrLen == g.wrIs || g.rdLen == g.rdIs
                                       then g.error & !IICMB_ERO_TF_INC else g.error), s.writes));
  }

  /** A refused address, then the answer to the STOP it issues: one STOP in
      all, IDLE at the end, NOSLAVE still latched. */
  lemma AddressRefusedRun(h: Handle, cmdReg: bv8, dpr: bv8)
    requires Consistent(h) && (h.fsm == IICMB_FSM_WR_ADR_CHK || h.fsm == IICMB_FSM_RD_ADR_CHK)
    requires cmdReg & IICMB_RSP == IICMB_RSP_NAK
    ensures
      var r := Run(h, [Irq(cmdReg, dpr), Done(0)]);
      && r.writes == [Command(IICMB_CMD_STOP)]
      && Busy(r.next) == IICMB_OKAY && r.next.error & IICMB_ERO_NOSLAVE != 0
      && r.next.wrIs == h.wrIs && r.next.rdIs == h.rdIs && r.next.rdBuf == h.rdBuf
  {
    var s := Step(h, cmdReg, dpr);
    AddressRefused(h, cmdReg, dpr);
    RunCons(h, Irq(cmdReg, dpr), [Done(0)]);
    assert [Done(0)] + [] == [Done(0)];
    Stopped(s, []);
    var g := s.next;
    ThenNothing(StepResult(g.(fsm := IICMB_FSM_IDLE,
                              error := if g.wrLen == g.wrIs || g.rdLen == g.rdIs
                                       then g.error & !IICMB_ERO_TF_INC else g.error), s.writes));
  }
}
