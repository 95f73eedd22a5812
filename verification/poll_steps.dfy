// Following a transaction's plan one command at a time. `Follows` reads a
// plan as a relation between the driver's state now and its state when the
// transaction returns; it is proved to say exactly what
// `PollTransfer.Execute` says. A driver routine keeps `Follows` true between
// commands, so when it returns it has done what `Execute` says of the plan.

module PollSteps {

  import opened Registers
  import opened TrunkDefs
  import opened PollTransfer

  /** The driver's state when a transaction returns: the value returned, the
      register log, the replies not yet consumed, the buffer. */
  datatype Final = Final(ret: Rsp, log: seq<RegWrite>, replies: seq<Reply>, buf: seq<bv8>)

  /** Where performing `plan` from log `log`, replies `rs` and buffer `buf`
      ends, according to `Execute`. */
  ghost function Target(plan: seq<Action>, log: seq<RegWrite>, rs: seq<Reply>, buf: seq<bv8>): (f: Final)
    requires |plan| < |rs| && SlotsIn(plan, |buf|)
    ensures var o := Execute(plan, rs, buf);
            f.ret == o.ret && f.log == log + o.writes && f.replies == rs[o.used..] && f.buf == o.buf
  {
    var o := Execute(plan, rs, buf);
    Final(o.ret, log + o.writes, rs[o.used..], o.buf)
  }

  /** About to send the closing STOP and return `r`: its response is
      consumed and ignored. */
  ghost predicate Stopping(goal: Final, r: Rsp, log: seq<RegWrite>, rs: seq<Reply>, buf: seq<bv8>)
  {
    rs != [] && goal == Final(r, log + [Command(IICMB_CMD_STOP)], rs[1..], buf)
  }

  /** Performing `rest` from log `log`, replies `rs` and buffer `buf` ends in
      `goal`: the next command goes out; on DONE the rest follows from the
      new state, on a failure the transaction returns its response, after
      STOP when the action says so; when nothing is left, STOP goes out and
      DONE is returned. */
  ghost predicate Follows(goal: Final, rest: seq<Action>, log: seq<RegWrite>, rs: seq<Reply>, buf: seq<bv8>)
    decreases |rest|
  {
    |rest| < |rs| &&
    if rest == [] then
      Stopping(goal, Done, log, rs, buf)
    else
      var r := Classify(rs[0].cmdr);
      if r == Done then
        (rest[0].ReadByte? ==> rest[0].slot < |buf|)
        && Follows(goal, rest[1..], log + Stores(rest[0]), rs[1..], Received(rest[0], rs[0].dpr, buf))
      else if rest[0].onFail == BreakToStop then
        Stopping(goal, r, log + Stores(rest[0]), rs[1..], buf)
      else
        goal == Final(r, log + Stores(rest[0]), rs[1..], buf)
  }

  /** Where a failed command leaves the transaction: returned at once with
      response `r`, or about to send STOP and return `r`. */
  ghost predicate Ended(goal: Final, onFail: OnFail, r: Rsp, log: seq<RegWrite>, rs: seq<Reply>, buf: seq<bv8>)
  {
    if onFail == BreakToStop then Stopping(goal, r, log, rs, buf) else goal == Final(r, log, rs, buf)
  }

  /** The transaction's end as `Execute` computes it satisfies `Follows`. */
  lemma {:induction false} TargetFollows(plan: seq<Action>, log: seq<RegWrite>, rs: seq<Reply>, buf: seq<bv8>)
    requires |plan| < |rs| && SlotsIn(plan, |buf|)
    ensures Follows(Target(plan, log, rs, buf), plan, log, rs, buf)
  {
    if plan != [] && Classify(rs[0].cmdr) == Done {
      var log', buf' := log + Stores(plan[0]), Received(plan[0], rs[0].dpr, buf);
      assert SlotsIn(plan[1..], |buf'|) by {
        forall i | 0 <= i < |plan[1..]| && plan[1..][i].ReadByte?
          ensures plan[1..][i].slot < |buf'|
        {
          assert plan[1..][i] == plan[i + 1];
        }
      }
      TargetFollows(plan[1..], log', rs[1..], buf');
      TargetStep(plan, log, rs, buf);
    } else if plan != [] {
      assert rs[2..] == rs[1..][1..];
    }
  }

  /** One acknowledged command: the end of the whole plan is the end of the
      rest from the new state. */
  lemma TargetStep(plan: seq<Action>, log: seq<RegWrite>, rs: seq<Reply>, buf: seq<bv8>)
    requires |plan| < |rs| && SlotsIn(plan, |buf|) && plan != [] && Classify(rs[0].cmdr) == Done
    requires SlotsIn(plan[1..], |Received(plan[0], rs[0].dpr, buf)|)
    ensures Target(plan, log, rs, buf)
         == Target(plan[1..], log + Stores(plan[0]), rs[1..], Received(plan[0], rs[0].dpr, buf))
  {
    var buf' := Received(plan[0], rs[0].dpr, buf);
    var t := Execute(plan[1..], rs[1..], buf');
    assert log + (Stores(plan[0]) + t.writes) == (log + Stores(plan[0])) + t.writes;
    assert rs[t.used + 1..] == rs[1..][t.used..];
  }

  /** `Follows` allows no end but the one `Execute` computes. */
  lemma {:induction false} FollowsOnlyTarget(goal: Final, plan: seq<Action>, log: seq<RegWrite>, rs: seq<Reply>, buf: seq<bv8>)
    requires SlotsIn(plan, |buf|) && Follows(goal, plan, log, rs, buf)
    ensures goal == Target(plan, log, rs, buf)
  {
    TargetFollows(plan, log, rs, buf);
    FollowsUnique(goal, Target(plan, log, rs, buf), plan, log, rs, buf);
  }

  /** At most one end follows from a state. */
  lemma {:induction false} FollowsUnique(g: Final, h: Final, rest: seq<Action>, log: seq<RegWrite>, rs: seq<Reply>, buf: seq<bv8>)
    requires Follows(g, rest, log, rs, buf) && Follows(h, rest, log, rs, buf)
    ensures g == h
    decreases |rest|
  {
    if rest != [] && Classify(rs[0].cmdr) == Done {
      FollowsUnique(g, h, rest[1..], log + Stores(rest[0]), rs[1..], Received(rest[0], rs[0].dpr, buf));
    }
  }
}
