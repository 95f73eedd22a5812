// The polling driver (software/poll/iicmb.c) as values: how a completed CMDR
// value is classified, which commands each bus transaction issues, and what
// follows when one of them fails. `Execute` is the reference semantics of a
// transaction; the imperative `Port` methods are proved against it.

module PollTransfer {

  import opened Registers
  import opened TrunkDefs

  /** `iicmb_wait_response` after the completion loop: the response a
      completed CMDR value reports. */
  function Classify(cmdr: bv8): (r: Rsp)
    ensures r == Done <==> cmdr & (IICMB_RSP_NAK | IICMB_RSP_ARB_LOST | IICMB_RSP_ERR) == 0
    ensures r != Done ==> cmdr & Flag(r) != 0
  {
    if cmdr & IICMB_RSP_NAK != 0 then Nak
    else if cmdr & IICMB_RSP_ARB_LOST != 0 then ArbLost
    else if cmdr & IICMB_RSP_ERR != 0 then Err
    else Done
  }

  /** NAK wins over ARB_LOST, ARB_LOST over ERR, and a value with none of the
      three is "done". */
  lemma ClassifyPriority(cmdr: bv8)
    ensures Classify(cmdr) == Nak <==> cmdr & IICMB_RSP_NAK != 0
    ensures Classify(cmdr) == ArbLost <==> cmdr & IICMB_RSP_NAK == 0 && cmdr & IICMB_RSP_ARB_LOST != 0
    ensures Classify(cmdr) == Err <==> cmdr & (IICMB_RSP_NAK | IICMB_RSP_ARB_LOST) == 0 && cmdr & IICMB_RSP_ERR != 0
    ensures Classify(cmdr) == Done <==> cmdr & (IICMB_RSP_NAK | IICMB_RSP_ARB_LOST | IICMB_RSP_ERR) == 0
  {
  }

  /** The CMDR response flag that reports each outcome. */
  function Flag(r: Rsp): bv8
  {
    match r
    case Done => IICMB_RSP_DONE
    case Nak => IICMB_RSP_NAK
    case ArbLost => IICMB_RSP_ARB_LOST
    case Err => IICMB_RSP_ERR
  }

  /** A CMDR value carrying a single response flag is classified as that
      flag's outcome, and each flag counts as a completed command. */
  lemma ClassifyFlag(r: Rsp)
    ensures Classify(Flag(r)) == r
    ensures Flag(r) & IICMB_RSP_COMPLETED == Flag(r) != 0
  {
  }

  /** A stray DONE next to a failure flag does not hide the failure. */
  lemma FailureWinsOverDone(cmdr: bv8)
    requires cmdr & (IICMB_RSP_NAK | IICMB_RSP_ARB_LOST | IICMB_RSP_ERR) != 0
    ensures Classify(cmdr) != Done
    ensures Classify(cmdr | IICMB_RSP_DONE) == Classify(cmdr)
  {
  }

  /** What the controller presents once a command completes: the CMDR value
      the completion loop finally reads, and the DPR contents. */
  datatype Reply = Reply(cmdr: bv8, dpr: bv8)

  /** A store into the data/parameter register. */
  function Param(v: bv8): RegWrite { RegWrite(IICMB_DPR, v) }

  /** A store of a command opcode into the command register. */
  function Command(op: bv8): RegWrite { RegWrite(IICMB_CMDR, op) }

  /** What a failed command leads to: return its response at once, or leave
      the `do { ... } while (0)` block and send STOP first. */
  datatype OnFail = ReturnAtOnce | BreakToStop

  /** One command of a bus transaction. */
  datatype Action =
    | StartCond(onFail: OnFail)
    | WriteByte(b: bv8, onFail: OnFail)
    | ReadByte(ack: bool, slot: nat, onFail: OnFail)

  /** The register stores that issue an action's command. */
  function Stores(act: Action): (w: seq<RegWrite>)
    ensures w != [] && w[|w| - 1] != Command(IICMB_CMD_STOP)
  {
    match act
    case StartCond(_) => [Command(IICMB_CMD_START)]
    case WriteByte(b, _) => [Param(b), Command(IICMB_CMD_WRITE)]
    case ReadByte(ack, _, _) => [Command(if ack then IICMB_CMD_READ_ACK else IICMB_CMD_READ_NAK)]
  }

  /** The stores of a whole sequence of actions, in order. */
  function Flatten(plan: seq<Action>): seq<RegWrite>
  {
    if plan == [] then [] else Stores(plan[0]) + Flatten(plan[1..])
  }

  /** Every read of the plan lands inside a buffer of length `len`. */
  predicate SlotsIn(plan: seq<Action>, len: nat)
  {
    forall i :: 0 <= i < |plan| && plan[i].ReadByte? ==> plan[i].slot < len
  }

  /** No two reads of the plan land in the same place. */
  predicate DistinctSlots(plan: seq<Action>)
  {
    forall i, j :: 0 <= i < j < |plan| && plan[i].ReadByte? && plan[j].ReadByte? ==> plan[i].slot != plan[j].slot
  }

  /** The buffer after an action completes: a read stores the DPR byte. */
  function Received(act: Action, dpr: bv8, buf: seq<bv8>): seq<bv8>
    requires act.ReadByte? ==> act.slot < |buf|
  {
    if act.ReadByte? then buf[act.slot := dpr] else buf
  }

  /** The outcome of a transaction: its return value, the register stores,
      the buffer, and how many replies (one per command, STOP included) it
      consumed. */
  datatype Outcome = Outcome(ret: Rsp, writes: seq<RegWrite>, buf: seq<bv8>, used: nat)

  /** A transaction run against the controller's replies: commands go out in
      order while each is answered DONE; a failure returns its response, after
      a STOP when the failed action says so; when all succeed, STOP goes out,
      its response is ignored and the last command's (DONE) is returned. */
  function Execute(plan: seq<Action>, rs: seq<Reply>, buf: seq<bv8>): (o: Outcome)
    requires |plan| < |rs| && SlotsIn(plan, |buf|)
    ensures |o.buf| == |buf| && 0 < o.used <= |plan| + 1
    decreases |plan|
  {
    if plan == [] then Outcome(Done, [Command(IICMB_CMD_STOP)], buf, 1)
    else
      var r := Classify(rs[0].cmdr);
      if r == Done then
        var o := Execute(plan[1..], rs[1..], Received(plan[0], rs[0].dpr, buf));
        Outcome(o.ret, Stores(plan[0]) + o.writes, o.buf, o.used + 1)
      else if plan[0].onFail == BreakToStop then
        Outcome(r, Stores(plan[0]) + [Command(IICMB_CMD_STOP)], buf, 2)
      else
        Outcome(r, Stores(plan[0]), buf, 1)
  }

  /** `o` ended with a STOP. */
  predicate Stopped(o: Outcome)
  {
    o.writes != [] && o.writes[|o.writes| - 1] == Command(IICMB_CMD_STOP)
  }

  // ---------------------------------------------------------------------
  // The transactions
  // ---------------------------------------------------------------------

  /** START, slave address with the write bit, byte address, repeated START,
      slave address with the read bit. `sa << 1` on a byte drops the top bit
      as the C conversion to `unsigned char` does. */
  function ReadHeader(sa: bv8, a: bv8): (p: seq<Action>)
    ensures |p| == 5 && p[..3] == WriteHeader(sa, a)
    ensures p[3] == StartCond(ReturnAtOnce) && p[4].WriteByte? && p[4].onFail == BreakToStop
    ensures p[4].b == p[1].b | 1 && p[4].b != p[1].b
  {
    [StartCond(ReturnAtOnce), WriteByte(sa << 1, BreakToStop), WriteByte(a, BreakToStop),
     StartCond(ReturnAtOnce), WriteByte((sa << 1) | 1, BreakToStop)]
  }

  /** The reads into slots `from` .. `count - 1`: with ACK, except the last
      one with NAK; a failed read returns at once. */
  function ReadTail(from: nat, count: nat): (p: seq<Action>)
    requires from <= count
    ensures |p| == count - from
    ensures forall k :: 0 <= k < |p| ==>
              && p[k].ReadByte? && p[k].slot == from + k && p[k].onFail == ReturnAtOnce
              && (p[k].ack <==> k < |p| - 1)
  {
    seq(count - from, k requires 0 <= k < count - from => ReadByte(from + k < count - 1, from + k, ReturnAtOnce))
  }

  /** The number of bytes `iicmb_read_bus_mul` reads for an argument `n`: the
      loop reads `n - 1` with ACK, then one more with NAK, so never fewer than one. */
  function Count(n: int): (c: nat)
    ensures c >= 1 && (n >= 1 ==> c == n)
  {
    if n > 1 then n else 1
  }

  /** The commands of `iicmb_read_bus_mul` for `count` bytes. */
  function ReadPlan(sa: bv8, a: bv8, count: nat): (p: seq<Action>)
    requires count >= 1
    ensures |p| == 5 + count
    ensures SlotsIn(p, count) && DistinctSlots(p)
  {
    ReadHeader(sa, a) + ReadTail(0, count)
  }

  /** START, slave address with the write bit, byte address: the head of
      both write transactions. */
  function WriteHeader(sa: bv8, a: bv8): (p: seq<Action>)
    ensures |p| == 3 && p[0] == StartCond(ReturnAtOnce)
    ensures forall k :: 1 <= k < 3 ==> p[k].WriteByte? && p[k].onFail == BreakToStop
    ensures p[1].b & 1 == 0 && p[1].b >> 1 == sa & 0x7F && p[2].b == a
  {
    [StartCond(ReturnAtOnce), WriteByte(sa << 1, BreakToStop), WriteByte(a, BreakToStop)]
  }

  /** One write per data byte; a refused byte ends the loop and goes to STOP. */
  function DataWrites(data: seq<bv8>): (p: seq<Action>)
    ensures |p| == |data|
    ensures forall k :: 0 <= k < |p| ==> p[k].WriteByte? && p[k].b == data[k] && p[k].onFail == BreakToStop
  {
    seq(|data|, k requires 0 <= k < |data| => WriteByte(data[k], BreakToStop))
  }

  /** The bytes `iicmb_write_bus_mul` sends for `n`: the first `n`, none when `n <= 0`. */
  function Sent(d: seq<bv8>, n: int): (s: seq<bv8>)
    requires n <= |d|
    ensures |s| == if n > 0 then n else 0
  {
    if n > 0 then d[..n] else []
  }

  /** The commands of `iicmb_write_bus_mul` for the given data bytes. */
  function WritePlan(sa: bv8, a: bv8, data: seq<bv8>): (p: seq<Action>)
    ensures |p| == 3 + |data|
    ensures SlotsIn(p, 0) && p[3..] == DataWrites(data)
  {
    WriteHeader(sa, a) + DataWrites(data)
  }

  /** The stores that issue the reads of `count` bytes: `count - 1` READ_ACK then READ_NAK. */
  function ReadCommands(count: nat): seq<RegWrite>
  {
    seq(count, k => Command(if k < count - 1 then IICMB_CMD_READ_ACK else IICMB_CMD_READ_NAK))
  }

  /** The stores that send data bytes: each byte into DPR, then WRITE. */
  function ByteWrites(data: seq<bv8>): seq<RegWrite>
  {
    if data == [] then [] else [Param(data[0]), Command(IICMB_CMD_WRITE)] + ByteWrites(data[1..])
  }

  // ---------------------------------------------------------------------
  // Execute in closed form
  // ---------------------------------------------------------------------

  lemma {:induction false} FlattenAppend(p: seq<Action>, q: seq<Action>)
    ensures Flatten(p + q) == Flatten(p) + Flatten(q)
    decreases |p|
  {
    if p == [] {
      assert p + q == q;
    } else {
      assert (p + q)[0] == p[0];
      assert (p + q)[1..] == p[1..] + q;
      FlattenAppend(p[1..], q);
    }
  }

  /** No sequence of actions ends its stores with STOP. */
  lemma {:induction false} FlattenLast(plan: seq<Action>)
    requires plan != []
    ensures var w := Flatten(plan); w != [] && w[|w| - 1] != Command(IICMB_CMD_STOP)
    decreases |plan|
  {
    if |plan| > 1 {
      FlattenLast(plan[1..]);
    } else {
      assert plan[1..] == [];
    }
  }

  /** Every command answered DONE: all stores go out followed by STOP, the
      result is DONE, and one reply per command and one for STOP are used. */
  lemma {:induction false} AllAcknowledged(plan: seq<Action>, rs: seq<Reply>, buf: seq<bv8>)
    requires |plan| < |rs| && SlotsIn(plan, |buf|)
    requires forall j :: 0 <= j < |plan| ==> Classify(rs[j].cmdr) == Done
    ensures var o := Execute(plan, rs, buf);
            o.ret == Done && o.writes == Flatten(plan) + [Command(IICMB_CMD_STOP)] && o.used == |plan| + 1
    decreases |plan|
  {
    if plan != [] {
      assert Classify(rs[0].cmdr) == Done;
      AllAcknowledged(plan[1..], rs[1..], Received(plan[0], rs[0].dpr, buf));
    }
  }

  /** The first command not answered DONE is number `k`: the stores up to and
      including it go out, then STOP exactly when that action breaks to STOP;
      its response is the result. */
  lemma {:induction false} FirstFailure(plan: seq<Action>, rs: seq<Reply>, buf: seq<bv8>, k: nat)
    requires |plan| < |rs| && SlotsIn(plan, |buf|) && k < |plan|
    requires forall j :: 0 <= j < k ==> Classify(rs[j].cmdr) == Done
    requires Classify(rs[k].cmdr) != Done
    ensures var o := Execute(plan, rs, buf);
            var stop := plan[k].onFail == BreakToStop;
            && o.ret == Classify(rs[k].cmdr)
            && o.writes == Flatten(plan[..k + 1]) + (if stop then [Command(IICMB_CMD_STOP)] else [])
            && o.used == k + 1 + (if stop then 1 else 0)
    decreases k
  {
    var o := Execute(plan, rs, buf);
    if k == 0 {
      assert Flatten(plan[..1]) == Stores(plan[0]) by { assert plan[..1][1..] == []; }
    } else {
      assert Classify(rs[0].cmdr) == Done;
      var buf' := Received(plan[0], rs[0].dpr, buf);
      var t := Execute(plan[1..], rs[1..], buf');
      assert o == Outcome(t.ret, Stores(plan[0]) + t.writes, t.buf, t.used + 1);
      FirstFailure(plan[1..], rs[1..], buf', k - 1);
      assert plan[1..][k - 1] == plan[k];
      assert Flatten(plan[..k + 1]) == Stores(plan[0]) + Flatten(plan[1..][..k]) by {
        assert plan[..k + 1][1..] == plan[1..][..k];
      }
    }
  }


  /** The result is the response of the last command before STOP: the reply
      to STOP itself never decides it. Without STOP, it is the response of the
      last command issued. */
  lemma {:induction false} LastResponse(plan: seq<Action>, rs: seq<Reply>, buf: seq<bv8>)
    requires |plan| < |rs| && SlotsIn(plan, |buf|) && plan != []
    ensures var o := Execute(plan, rs, buf);
            && (Stopped(o) ==> 2 <= o.used && o.ret == Classify(rs[o.used - 2].cmdr))
            && (!Stopped(o) ==> o.ret == Classify(rs[o.used - 1].cmdr))
    decreases |plan|
  {
    var o := Execute(plan, rs, buf);
    if Classify(rs[0].cmdr) == Done && |plan| > 1 {
      var t := Execute(plan[1..], rs[1..], Received(plan[0], rs[0].dpr, buf));
      LastResponse(plan[1..], rs[1..], Received(plan[0], rs[0].dpr, buf));
      assert o.writes == Stores(plan[0]) + t.writes;
      assert Stopped(o) == Stopped(t);
    }
  }

  /** With every command answered DONE, each read stores its reply's DPR byte
      in its slot, and a slot no read names keeps its contents. */
  lemma {:induction false} ReceivedBytes(plan: seq<Action>, rs: seq<Reply>, buf: seq<bv8>)
    requires |plan| < |rs| && SlotsIn(plan, |buf|) && DistinctSlots(plan)
    requires forall j :: 0 <= j < |plan| ==> Classify(rs[j].cmdr) == Done
    ensures var o := Execute(plan, rs, buf);
            && (forall j :: 0 <= j < |plan| && plan[j].ReadByte? ==> o.buf[plan[j].slot] == rs[j].dpr)
            && (forall s :: 0 <= s < |buf| && (forall j :: 0 <= j < |plan| && plan[j].ReadByte? ==> plan[j].slot != s)
                  ==> o.buf[s] == buf[s])
    decreases |plan|
  {
    if plan != [] {
      assert Classify(rs[0].cmdr) == Done;
      var buf' := Received(plan[0], rs[0].dpr, buf);
      var o := Execute(plan, rs, buf);
      assert o.buf == Execute(plan[1..], rs[1..], buf').buf;
      ReceivedBytes(plan[1..], rs[1..], buf');
      forall j | 0 <= j < |plan| && plan[j].ReadByte?
        ensures o.buf[plan[j].slot] == rs[j].dpr
      {
        if j == 0 {
          forall i | 0 <= i < |plan[1..]| && plan[1..][i].ReadByte?
            ensures plan[1..][i].slot != plan[0].slot
          {
            assert plan[1..][i] == plan[i + 1];
          }
        } else {
          assert plan[1..][j - 1] == plan[j];
        }
      }
      forall s | 0 <= s < |buf| && (forall j :: 0 <= j < |plan| && plan[j].ReadByte? ==> plan[j].slot != s)
        ensures o.buf[s] == buf[s]
      {
        forall i | 0 <= i < |plan[1..]| && plan[1..][i].ReadByte?
          ensures plan[1..][i].slot != s
        {
          assert plan[1..][i] == plan[i + 1];
        }
      }
    }
  }

  // ---------------------------------------------------------------------
  // The transactions' promises
  // ---------------------------------------------------------------------

  lemma {:induction false} FlattenReadTail(from: nat, count: nat)
    requires from <= count
    ensures Flatten(ReadTail(from, count)) == ReadCommands(count)[from..]
    decreases count - from
  {
    if from < count {
      assert ReadTail(from, count)[1..] == ReadTail(from + 1, count);
      FlattenReadTail(from + 1, count);
    }
  }

  lemma {:induction false} FlattenDataWrites(data: seq<bv8>)
    ensures Flatten(DataWrites(data)) == ByteWrites(data)
    decreases |data|
  {
    if data != [] {
      assert DataWrites(data)[1..] == DataWrites(data[1..]);
      FlattenDataWrites(data[1..]);
    }
  }

  /** The stores of the two transaction headers, written out. */
  lemma {:induction false} HeaderStores(sa: bv8, a: bv8)
    ensures Flatten(WriteHeader(sa, a))
         == [Command(IICMB_CMD_START), Param(sa << 1), Command(IICMB_CMD_WRITE), Param(a), Command(IICMB_CMD_WRITE)]
    ensures Flatten(ReadHeader(sa, a))
         == Flatten(WriteHeader(sa, a)) + [Command(IICMB_CMD_START), Param((sa << 1) | 1), Command(IICMB_CMD_WRITE)]
  {
    var w := WriteHeader(sa, a);
    assert Flatten(w[2..]) == Stores(w[2]) by { assert w[2..][1..] == []; }
    assert Flatten(w[1..]) == Stores(w[1]) + Flatten(w[2..]) by { assert w[1..][1..] == w[2..]; }
    var r := ReadHeader(sa, a);
    var t := r[3..];
    assert Flatten(t[1..]) == Stores(t[1]) by { assert t[1..][1..] == []; }
    assert r == w + t;
    FlattenAppend(w, t);
  }

  /** The read plan for `count` bytes stated action by action, in the order
      the driver issues them. */
  predicate IsReadPlan(p: seq<Action>, sa: bv8, a: bv8, count: nat)
  {
    && |p| == 5 + count
    && p[0] == StartCond(ReturnAtOnce)
    && p[1] == WriteByte(sa << 1, BreakToStop)
    && p[2] == WriteByte(a, BreakToStop)
    && p[3] == StartCond(ReturnAtOnce)
    && p[4] == WriteByte((sa << 1) | 1, BreakToStop)
    && (forall j :: 5 <= j < 5 + count ==> p[j] == ReadByte(j < 4 + count, j - 5, ReturnAtOnce))
  }

  /** `IsReadPlan` holds of the read plan and of nothing else; its reads go
      into slots 0 .. count - 1, one each. */
  lemma ReadPlanShape(p: seq<Action>, sa: bv8, a: bv8, count: nat)
    requires count >= 1
    ensures IsReadPlan(p, sa, a, count) <==> p == ReadPlan(sa, a, count)
    ensures p == ReadPlan(sa, a, count) ==> SlotsIn(p, count) && DistinctSlots(p)
  {
    var q := ReadPlan(sa, a, count);
    if IsReadPlan(p, sa, a, count) {
      assert forall j :: 0 <= j < |p| ==> p[j] == q[j];
    }
  }

  /** The write plan for `data` stated action by action, in the order the
      driver issues them. */
  predicate IsWritePlan(p: seq<Action>, sa: bv8, a: bv8, data: seq<bv8>)
  {
    && |p| == 3 + |data|
    && p[0] == StartCond(ReturnAtOnce)
    && p[1] == WriteByte(sa << 1, BreakToStop)
    && p[2] == WriteByte(a, BreakToStop)
    && (forall j :: 3 <= j < 3 + |data| ==> p[j] == WriteByte(data[j - 3], BreakToStop))
  }

  /** `IsWritePlan` holds of the write plan and of nothing else. */
  lemma WritePlanShape(p: seq<Action>, sa: bv8, a: bv8, data: seq<bv8>)
    ensures IsWritePlan(p, sa, a, data) <==> p == WritePlan(sa, a, data)
    ensures p == WritePlan(sa, a, data) ==> SlotsIn(p, 0)
  {
    var q := WritePlan(sa, a, data);
    if IsWritePlan(p, sa, a, data) {
      assert forall j :: 0 <= j < |p| ==> p[j] == q[j];
    }
  }

  /** `iicmb_read_bus_mul` with every command answered DONE: the eight header
      stores, `count - 1` READ_ACK, READ_NAK, STOP; result DONE. */
  lemma ReadAllAcknowledged(sa: bv8, a: bv8, count: nat, rs: seq<Reply>, buf: seq<bv8>)
    requires count >= 1 && 5 + count < |rs| && count <= |buf|
    requires forall j :: 0 <= j < 5 + count ==> Classify(rs[j].cmdr) == Done
    ensures var o := Execute(ReadPlan(sa, a, count), rs, buf);
            && o.ret == Done && o.used == 6 + count
            && o.writes == [Command(IICMB_CMD_START), Param(sa << 1), Command(IICMB_CMD_WRITE),
                            Param(a), Command(IICMB_CMD_WRITE), Command(IICMB_CMD_START),
                            Param((sa << 1) | 1), Command(IICMB_CMD_WRITE)]
                           + ReadCommands(count) + [Command(IICMB_CMD_STOP)]
  {
    ReadPlanShape(ReadPlan(sa, a, count), sa, a, count);
    AllAcknowledged(ReadPlan(sa, a, count), rs, buf);
    FlattenAppend(ReadHeader(sa, a), ReadTail(0, count));
    FlattenReadTail(0, count);
    HeaderStores(sa, a);
  }

  /** ... and byte `j` of the buffer is the DPR byte of reply `5 + j` for
      every `j < count`; the rest of the buffer is untouched. */
  lemma ReadAllStored(sa: bv8, a: bv8, count: nat, rs: seq<Reply>, buf: seq<bv8>)
    requires count >= 1 && 5 + count < |rs| && count <= |buf|
    requires forall j :: 0 <= j < 5 + count ==> Classify(rs[j].cmdr) == Done
    ensures var o := Execute(ReadPlan(sa, a, count), rs, buf);
            && (forall j :: 0 <= j < count ==> o.buf[j] == rs[5 + j].dpr)
            && (forall s :: count <= s < |buf| ==> o.buf[s] == buf[s])
  {
    var p := ReadPlan(sa, a, count);
    ReadPlanShape(ReadPlan(sa, a, count), sa, a, count);
    ReceivedBytes(p, rs, buf);
    var o := Execute(p, rs, buf);
    forall j | 0 <= j < count
      ensures o.buf[j] == rs[5 + j].dpr
    {
      assert p[5 + j].slot == j by { assert 5 <= 5 + j < 5 + count; }
    }
    forall s | count <= s < |buf|
      ensures o.buf[s] == buf[s]
    {
      assert forall j :: 0 <= j < |p| && p[j].ReadByte? ==> p[j].slot != s;
    }
  }

  /** A failed read transaction: a failure of the START, of the repeated
      START or of any read returns at once without STOP; a failure of either
      slave address or of the byte address sends STOP first. Either way the
      failed command's response is the result. */
  lemma ReadStopRule(sa: bv8, a: bv8, count: nat, rs: seq<Reply>, buf: seq<bv8>, k: nat)
    requires count >= 1 && 5 + count < |rs| && count <= |buf| && k < 5 + count
    requires forall j :: 0 <= j < k ==> Classify(rs[j].cmdr) == Done
    requires Classify(rs[k].cmdr) != Done
    ensures var o := Execute(ReadPlan(sa, a, count), rs, buf);
            var stop := k == 1 || k == 2 || k == 4;
            && o.ret == Classify(rs[k].cmdr)
            && o.writes == Flatten(ReadPlan(sa, a, count)[..k + 1]) + (if stop then [Command(IICMB_CMD_STOP)] else [])
            && Stopped(o) == stop
  {
    var p := ReadPlan(sa, a, count);
    ReadPlanShape(ReadPlan(sa, a, count), sa, a, count);
    FirstFailure(p, rs, buf, k);
    FlattenLast(p[..k + 1]);
    if k < 5 {
      assert p[k] == ReadHeader(sa, a)[k];
    } else {
      assert p[k].onFail == ReturnAtOnce;
    }
  }

  /** `iicmb_write_bus_mul` with every command answered DONE: START, the
      slave address, the byte address, every data byte in order, STOP;
      result DONE. */
  lemma WriteAllAcknowledged(sa: bv8, a: bv8, data: seq<bv8>, rs: seq<Reply>)
    requires 3 + |data| < |rs|
    requires forall j :: 0 <= j < 3 + |data| ==> Classify(rs[j].cmdr) == Done
    ensures var o := Execute(WritePlan(sa, a, data), rs, []);
            && o.ret == Done && o.used == 4 + |data|
            && o.writes == [Command(IICMB_CMD_START), Param(sa << 1), Command(IICMB_CMD_WRITE),
                            Param(a), Command(IICMB_CMD_WRITE)]
                           + ByteWrites(data) + [Command(IICMB_CMD_STOP)]
  {
    AllAcknowledged(WritePlan(sa, a, data), rs, []);
    WritePlanStores(sa, a, data);
  }

  /** A failed write transaction sends STOP exactly when the first START
      succeeded, and returns the failed command's response. */
  lemma WriteStopRule(sa: bv8, a: bv8, data: seq<bv8>, rs: seq<Reply>, k: nat)
    requires 3 + |data| < |rs| && k < 3 + |data|
    requires forall j :: 0 <= j < k ==> Classify(rs[j].cmdr) == Done
    requires Classify(rs[k].cmdr) != Done
    ensures var o := Execute(WritePlan(sa, a, data), rs, []);
            o.ret == Classify(rs[k].cmdr) && Stopped(o) == (k != 0)
  {
    var p := WritePlan(sa, a, data);
    FirstFailure(p, rs, [], k);
    FlattenLast(p[..k + 1]);
    if k < 3 {
      assert p[k] == WriteHeader(sa, a)[k];
    } else {
      assert p[k] == DataWrites(data)[k - 3];
    }
  }

  /** The stores of a write transaction, written out. */
  lemma WritePlanStores(sa: bv8, a: bv8, data: seq<bv8>)
    ensures Flatten(WritePlan(sa, a, data))
         == [Command(IICMB_CMD_START), Param(sa << 1), Command(IICMB_CMD_WRITE), Param(a), Command(IICMB_CMD_WRITE)]
            + ByteWrites(data)
  {
    FlattenAppend(WriteHeader(sa, a), DataWrites(data));
    FlattenDataWrites(data);
    HeaderStores(sa, a);
  }

  /** The first commands of a write transaction are the whole transaction
      for the first bytes. */
  lemma WritePlanPrefix(sa: bv8, a: bv8, data: seq<bv8>, m: nat)
    requires m <= |data|
    ensures WritePlan(sa, a, data)[..3 + m] == WritePlan(sa, a, data[..m])
  {
    var p := WritePlan(sa, a, data);
    var q := WritePlan(sa, a, data[..m]);
    forall i | 0 <= i < 3 + m
      ensures p[i] == q[i]
    {
      if i >= 3 {
        assert p[i] == DataWrites(data)[i - 3];
        assert q[i] == DataWrites(data[..m])[i - 3];
      }
    }
  }

  /** A refused data byte `j` ends the transfer: the bytes before it and it
      went out, then STOP; later bytes never do. */
  lemma WriteRefusedByte(sa: bv8, a: bv8, data: seq<bv8>, rs: seq<Reply>, j: nat)
    requires 3 + |data| < |rs| && j < |data|
    requires forall i :: 0 <= i < 3 + j ==> Classify(rs[i].cmdr) == Done
    requires Classify(rs[3 + j].cmdr) != Done
    ensures Execute(WritePlan(sa, a, data), rs, []).writes
         == [Command(IICMB_CMD_START), Param(sa << 1), Command(IICMB_CMD_WRITE), Param(a), Command(IICMB_CMD_WRITE)]
            + ByteWrites(data[..j + 1]) + [Command(IICMB_CMD_STOP)]
  {
    var p := WritePlan(sa, a, data);
    FirstFailure(p, rs, [], 3 + j);
    assert p[3 + j] == DataWrites(data)[j];
    WritePlanPrefix(sa, a, data, j + 1);
    WritePlanStores(sa, a, data[..j + 1]);
  }

  /** The single-byte transactions are the multi-byte ones for one byte, and
      a multi-byte read of `n <= 1` bytes reads exactly one, into slot 0. */
  lemma SingleByteTransfers(sa: bv8, a: bv8, d: bv8, n: int)
    requires n <= 1
    ensures ReadPlan(sa, a, Count(n)) == ReadPlan(sa, a, 1)
    ensures ReadPlan(sa, a, 1)[5..] == [ReadByte(false, 0, ReturnAtOnce)]
    ensures Sent([d], 1) == [d]
  {
  }
}
