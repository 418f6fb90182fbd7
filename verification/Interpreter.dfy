/** The reference semantics: one instruction at a time over an instruction pointer and the shared
    loop counter, with the number of cycles each instruction takes. */
module Interpreter {
  import opened Isa
  import opened Executor
  import opened Wrappers

  datatype Status = Running(ip: nat, loop: nat) | Halted(loop: nat)

  function Quiet(n: nat): (bs: seq<Bus>)
    ensures |bs| == n && forall k :: 0 <= k < n ==> bs[k] == Inactive
  {
    seq(n, _ => Inactive)
  }

  predicate Halts(c: Config, ip: nat, loop: nat)
    requires ip < |c.mem|
  {
    var d := Decode(c.mem[ip]);
    (ip == |c.mem| - 1 || d.Stop()) && (d.op != LOOP || d.count == loop)
  }

  /** A command drives the bus in its first cycle; a timeslice of 0 counts as 1. */
  function CommandTrace(c: Config, d: Decoded): seq<Bus> {
    [Drive(c.geometry, d)] + Quiet(if d.timeslice == 0 then 0 else d.timeslice - 1)
  }

  predicate Sane(c: Config, st: Status) {
    st.loop < 4096 && (st.Running? ==> st.ip < |c.mem|)
  }

  /** One instruction: the next status and the bus in each of its cycles. */
  function Exec(c: Config, st: Status): (r: (Status, seq<Bus>))
    requires |c.mem| >= 2 && Sane(c, st)
    ensures Sane(c, r.0)
    ensures st.Running? ==> |r.1| >= 1
  {
    match st
    case Halted(_) => (st, [])
    case Running(ip, loop) =>
      var d := Decode(c.mem[ip]);
      if Halts(c, ip, loop) then (Halted(loop), Quiet(1))
      else if d.op == LOOP then
        if d.count != loop then
          (Running((ip - d.jump) % |c.mem|, (loop + 1) % 4096), Quiet(1 + PIPELINE_DELAY))
        else (Running(ip + 1, 0), Quiet(1))
      else (Running(ip + 1, loop), CommandTrace(c, d))
  }

  function ExecMany(c: Config, st: Status, n: nat): (r: (Status, seq<Bus>))
    requires |c.mem| >= 2 && Sane(c, st)
    ensures Sane(c, r.0)
    decreases n
  {
    if n == 0 then (st, [])
    else
      var first := Exec(c, st);
      var rest := ExecMany(c, first.0, n - 1);
      (rest.0, first.1 + rest.1)
  }

  /** Some number of instructions leads from one status to the other with this trace. */
  ghost predicate Runs(c: Config, st: Status, trace: seq<Bus>, st': Status)
    requires |c.mem| >= 2 && Sane(c, st)
  {
    exists n: nat :: ExecMany(c, st, n) == (st', trace)
  }

  lemma {:induction false} ExecManyCompose(c: Config, st: Status, m: nat, n: nat)
    requires |c.mem| >= 2 && Sane(c, st)
    ensures var a := ExecMany(c, st, m); var b := ExecMany(c, a.0, n);
            ExecMany(c, st, m + n) == (b.0, a.1 + b.1)
    decreases m
  {
    var whole := ExecMany(c, st, m + n);
    if m == 0 {
      assert [] + whole.1 == whole.1;
    } else {
      var first := Exec(c, st);
      ExecManyCompose(c, first.0, m - 1, n);
      var a := ExecMany(c, first.0, m - 1);
      Associate(first.1, a.1, ExecMany(c, a.0, n).1);
    }
  }

  lemma RunsTrans(c: Config, a: Status, s: seq<Bus>, b: Status, t: seq<Bus>, z: Status)
    requires |c.mem| >= 2 && Sane(c, a) && Sane(c, b)
    requires Runs(c, a, s, b) && Runs(c, b, t, z)
    ensures Runs(c, a, s + t, z)
  {
    var m: nat :| ExecMany(c, a, m) == (b, s);
    var n: nat :| ExecMany(c, b, n) == (z, t);
    ExecManyCompose(c, a, m, n);
  }

  lemma RunsOne(c: Config, st: Status)
    requires |c.mem| >= 2 && Sane(c, st)
    ensures Runs(c, st, Exec(c, st).1, Exec(c, st).0)
  {
    var next := Exec(c, st);
    assert ExecMany(c, next.0, 0) == (next.0, []);
    assert next.1 + [] == next.1;
    assert ExecMany(c, st, 1) == (next.0, next.1);
  }

  lemma RunsNone(c: Config, st: Status)
    requires |c.mem| >= 2 && Sane(c, st)
    ensures Runs(c, st, [], st)
  {
    assert ExecMany(c, st, 0) == (st, []);
  }
}
