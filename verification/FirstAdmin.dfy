/** server/src/first-admin-claim.ts: N callers race to become the first instance admin.

    Each call is a transaction that takes a self-conflicting table lock, looks for an admin, inserts one and runs
    a hook. The steps of the callers interleave freely; any transaction may fail at any point and rolls back. The
    interleaved protocol is proved to behave like calls made one at a time. */
module FirstAdmin {
  import opened Text

  datatype Row = Row(userId: string, role: string)

  const INSTANCE_ADMIN := "instance_admin"

  datatype ClaimResult =
    | Claimed(userId: string, value: Option<int>)
    | AlreadyClaimed(existingUserId: string)

  /** What the caller's `onClaim` does: there is none, it returns a value, or it throws. */
  datatype Hook = NoHook | Returns(value: int) | Throws

  /** The user ids of the admin rows, in table order. */
  function Admins(rows: seq<Row>): seq<string> {
    if rows == [] then []
    else Admins(rows[..|rows| - 1])
         + (if rows[|rows| - 1].role == INSTANCE_ADMIN then [rows[|rows| - 1].userId] else [])
  }

  lemma AdminsAppend(rows: seq<Row>, userId: string)
    ensures Admins(rows + [Row(userId, INSTANCE_ADMIN)]) == Admins(rows) + [userId]
  {
    var more := rows + [Row(userId, INSTANCE_ADMIN)];
    assert more[..|more| - 1] == rows;
  }

  // ---------- calls made one at a time ----------

  class RoleTable {
    var rows: seq<Row>

    constructor (rows: seq<Row>)
      ensures this.rows == rows
    {
      this.rows := rows;
    }

    /** One undisturbed call. None stands for the exception of a hook that throws: the insert is rolled back. */
    method ClaimFirstInstanceAdmin(userId: string, hook: Hook) returns (r: Option<ClaimResult>)
      modifies this
      ensures Admins(old(rows)) != [] ==> r == Some(AlreadyClaimed(Admins(old(rows))[0])) && rows == old(rows)
      ensures Admins(old(rows)) == [] && hook.Throws? ==> r == None && rows == old(rows)
      ensures Admins(old(rows)) == [] && !hook.Throws? ==>
                && r == Some(Claimed(userId, if hook.Returns? then Some(hook.value) else None))
                && rows == old(rows) + [Row(userId, INSTANCE_ADMIN)]
                && Admins(rows) == [userId]
    {
      var existing := Admins(rows);
      if existing != [] {
        return Some(AlreadyClaimed(existing[0]));
      }
      AdminsAppend(rows, userId);
      var snapshot := rows;
      rows := rows + [Row(userId, INSTANCE_ADMIN)];
      match hook {
        case NoHook => return Some(Claimed(userId, None));
        case Returns(v) => return Some(Claimed(userId, Some(v)));
        case Throws =>
          rows := snapshot;
          return None;
      }
    }
  }

  /** One finished transaction. */
  datatype Finish = Finish(caller: nat, result: ClaimResult)

  function AdminsAfter(admins: seq<string>, log: seq<Finish>): seq<string> {
    if log == [] then admins
    else
      var last := log[|log| - 1].result;
      AdminsAfter(admins, log[..|log| - 1]) + (if last.Claimed? then [last.userId] else [])
  }

  /** What a single call answers when it starts from these admins. */
  predicate Answers(admins: seq<string>, users: seq<string>, f: Finish) {
    && f.caller < |users|
    && match f.result
       case Claimed(u, _) => admins == [] && u == users[f.caller]
       case AlreadyClaimed(u) => u in admins
  }

  /** The log is one of calls made one after the other. */
  ghost predicate Serial(admins: seq<string>, users: seq<string>, log: seq<Finish>) {
    forall k :: 0 <= k < |log| ==> Answers(AdminsAfter(admins, log[..k]), users, log[k])
  }

  lemma {:induction false} AdminsOnlyGrow(admins: seq<string>, log: seq<Finish>, k: nat)
    requires k <= |log|
    ensures AdminsAfter(admins, log[..k]) <= AdminsAfter(admins, log)
  {
    if k == |log| {
      assert log[..k] == log;
    } else {
      AdminsOnlyGrow(admins, log[..|log| - 1], k);
      assert log[..|log| - 1][..k] == log[..k];
    }
  }

  lemma {:induction false} WinnerStays(users: seq<string>, log: seq<Finish>)
    requires Serial([], users, log) && log != []
    ensures log[0].result.Claimed? && AdminsAfter([], log) == [log[0].result.userId]
  {
    var n := |log| - 1;
    assert Answers(AdminsAfter([], log[..n]), users, log[n]);
    if n == 0 {
      assert log[..0] == [];
    } else {
      assert forall k :: 0 <= k < n ==> log[..n][..k] == log[..k];
      WinnerStays(users, log[..n]);
    }
  }

  /** Of calls made one at a time on an empty table, the first wins and every other one is told of it. */
  lemma FirstCallWins(users: seq<string>, log: seq<Finish>)
    requires Serial([], users, log) && log != []
    ensures log[0].result.Claimed? && log[0].result.userId == users[log[0].caller]
    ensures forall k :: 0 < k < |log| ==> log[k].result == AlreadyClaimed(log[0].result.userId)
  {
    assert log[..0] == [];
    assert Answers(AdminsAfter([], log[..0]), users, log[0]);
    WinnerStays(users, log);
    forall k | 0 < k < |log|
      ensures log[k].result == AlreadyClaimed(log[0].result.userId)
    {
      assert forall j :: 0 <= j < k ==> log[..k][..j] == log[..j];
      WinnerStays(users, log[..k]);
      assert Answers(AdminsAfter([], log[..k]), users, log[k]);
    }
  }

  // ---------- the interleaved protocol ----------

  datatype Pc =
    | Idle
    | Locked
    | Vacant
    | Inserted
    | Ready(result: ClaimResult)
    | Done(result: ClaimResult)
    | Failed

  /** Committed rows, the holder of the table lock, and where every caller is. Nobody sees an uncommitted row:
      the row of an Inserted or winning Ready caller reaches the table at its commit. The log is a history. */
  datatype State = State(rows: seq<Row>, lock: Option<nat>, pcs: seq<Pc>, log: seq<Finish>)

  datatype Step =
    | TakeLock(i: nat)
    | Check(i: nat, seen: string)
    | Insert(i: nat)
    | RunHook(i: nat, hook: Hook)
    | Commit(i: nat)
    | Abort(i: nat)
    | OtherWriter(rows: seq<Row>)

  predicate InTransaction(pc: Pc) {
    pc.Locked? || pc.Vacant? || pc.Inserted? || pc.Ready?
  }

  predicate Finished(pc: Pc) {
    pc.Done? || pc.Failed?
  }

  /** The transaction of caller i ends without effect: its row is gone and so is its lock. */
  function RolledBack(s: State, i: nat): State
    requires i < |s.pcs|
  {
    s.(lock := if s.lock == Some(i) then None else s.lock, pcs := s.pcs[i := Failed])
  }

  predicate Enabled(users: seq<string>, s: State, step: Step)
    requires |s.pcs| == |users|
  {
    match step
    case TakeLock(i) => i < |users| && s.pcs[i].Idle? && s.lock.None?
    case Check(i, seen) => i < |users| && s.pcs[i].Locked? && (Admins(s.rows) == [] || seen in Admins(s.rows))
    case Insert(i) => i < |users| && s.pcs[i].Vacant?
    case RunHook(i, _) => i < |users| && s.pcs[i].Inserted?
    case Commit(i) => i < |users| && s.pcs[i].Ready?
    case Abort(i) => i < |users| && !Finished(s.pcs[i])
    case OtherWriter(rows) => s.lock.None? && Admins(rows) == Admins(s.rows)
  }

  function Next(users: seq<string>, s: State, step: Step): State
    requires |s.pcs| == |users| && Enabled(users, s, step)
  {
    match step
    case TakeLock(i) => s.(lock := Some(i), pcs := s.pcs[i := Locked])
    case Check(i, seen) =>
      s.(pcs := s.pcs[i := if Admins(s.rows) == [] then Vacant else Ready(AlreadyClaimed(seen))])
    case Insert(i) => s.(pcs := s.pcs[i := Inserted])
    case RunHook(i, hook) =>
      if hook.Throws? then RolledBack(s, i)
      else s.(pcs := s.pcs[i := Ready(Claimed(users[i], if hook.Returns? then Some(hook.value) else None))])
    case Commit(i) =>
      var r := s.pcs[i].result;
      State(if r.Claimed? then s.rows + [Row(users[i], INSTANCE_ADMIN)] else s.rows, None,
            s.pcs[i := Done(r)], s.log + [Finish(i, r)])
    case Abort(i) => RolledBack(s, i)
    case OtherWriter(rows) => s.(rows := rows)
  }

  function Start(rows: seq<Row>, users: seq<string>): State {
    State(rows, None, seq(|users|, i => Idle), [])
  }

  /** These steps lead from one of these states to the next. */
  ghost predicate Leads(users: seq<string>, states: seq<State>, steps: seq<Step>) {
    && |states| == |steps| + 1
    && (forall k :: 0 <= k < |states| ==> |states[k].pcs| == |users|)
    && forall k :: 0 <= k < |steps| ==>
                     Enabled(users, states[k], steps[k]) && states[k + 1] == Next(users, states[k], steps[k])
  }

  ghost predicate IsRun(rows: seq<Row>, users: seq<string>, states: seq<State>, steps: seq<Step>) {
    Leads(users, states, steps) && states[0] == Start(rows, users)
  }

  /** What a caller inside its transaction may rely on, because it holds the lock. */
  ghost predicate CallerOk(users: seq<string>, s: State, i: nat)
    requires i < |s.pcs| == |users|
  {
    && (InTransaction(s.pcs[i]) <==> s.lock == Some(i))
    && (s.pcs[i].Vacant? || s.pcs[i].Inserted? ==> Admins(s.rows) == [])
    && (s.pcs[i].Ready? ==> Answers(Admins(s.rows), users, Finish(i, s.pcs[i].result)))
    && (forall r :: s.pcs[i] == Done(r) <==> Finish(i, r) in s.log)
  }

  ghost predicate Inv(admins: seq<string>, users: seq<string>, s: State) {
    && |s.pcs| == |users|
    && Serial(admins, users, s.log)
    && Admins(s.rows) == AdminsAfter(admins, s.log)
    && (s.lock.Some? ==> s.lock.value < |users|)
    && forall i :: 0 <= i < |users| ==> CallerOk(users, s, i)
  }

  lemma SerialAppend(admins: seq<string>, users: seq<string>, log: seq<Finish>, f: Finish)
    requires Serial(admins, users, log) && Answers(AdminsAfter(admins, log), users, f)
    ensures Serial(admins, users, log + [f])
    ensures AdminsAfter(admins, log + [f])
            == AdminsAfter(admins, log) + if f.result.Claimed? then [f.result.userId] else []
  {
    hide Answers;
    var more := log + [f];
    assert more[..|log|] == log;
    forall k | 0 <= k < |more|
      ensures Answers(AdminsAfter(admins, more[..k]), users, more[k])
    {
      assert more[..k] == log[..k];
    }
  }

  lemma LogAppend(log: seq<Finish>, f: Finish, g: Finish)
    ensures g in log + [f] <==> g in log || g == f
  {
  }

  lemma CommitKeepsCaller(users: seq<string>, s: State, i: nat, j: nat)
    requires |s.pcs| == |users| && Enabled(users, s, Commit(i)) && j < |users|
    requires CallerOk(users, s, i) && CallerOk(users, s, j)
    ensures CallerOk(users, Next(users, s, Commit(i)), j)
  {
    hide Admins, Answers;
    var t, f := Next(users, s, Commit(i)), Finish(i, s.pcs[i].result);
    forall r
      ensures t.pcs[j] == Done(r) <==> Finish(j, r) in t.log
    {
      LogAppend(s.log, f, Finish(j, r));
      assert s.pcs[j] == Done(r) <==> Finish(j, r) in s.log;
    }
  }

  lemma CommitKeepsInv(admins: seq<string>, users: seq<string>, s: State, i: nat)
    requires Inv(admins, users, s) && Enabled(users, s, Commit(i))
    ensures Inv(admins, users, Next(users, s, Commit(i)))
  {
    hide Admins, AdminsAfter, Serial, CallerOk;
    assert Answers(Admins(s.rows), users, Finish(i, s.pcs[i].result)) by {
      ReadyAnswers(users, s, i);
    }
    SerialAppend(admins, users, s.log, Finish(i, s.pcs[i].result));
    if s.pcs[i].result.Claimed? {
      AdminsAppend(s.rows, users[i]);
    }
    forall j | 0 <= j < |users|
      ensures CallerOk(users, Next(users, s, Commit(i)), j)
    {
      CommitKeepsCaller(users, s, i, j);
    }
  }

  lemma ReadyAnswers(users: seq<string>, s: State, i: nat)
    requires i < |s.pcs| == |users| && CallerOk(users, s, i) && s.pcs[i].Ready?
    ensures Answers(Admins(s.rows), users, Finish(i, s.pcs[i].result))
  {
  }

  lemma StepKeepsCaller(users: seq<string>, s: State, step: Step, j: nat)
    requires |s.pcs| == |users| && Enabled(users, s, step) && !step.Commit? && j < |users| && CallerOk(users, s, j)
    requires !step.OtherWriter? ==> CallerOk(users, s, step.i)
    ensures CallerOk(users, Next(users, s, step), j)
  {
    hide Admins;
  }

  lemma StepKeepsInv(admins: seq<string>, users: seq<string>, s: State, step: Step)
    requires Inv(admins, users, s) && Enabled(users, s, step)
    ensures Inv(admins, users, Next(users, s, step))
  {
    if step.Commit? {
      CommitKeepsInv(admins, users, s, step.i);
    } else {
      hide Serial, AdminsAfter, Admins, CallerOk;
      var t := Next(users, s, step);
      forall j | 0 <= j < |users|
        ensures CallerOk(users, t, j)
      {
        StepKeepsCaller(users, s, step, j);
      }
    }
  }

  lemma {:induction false} RunKeepsInv(rows: seq<Row>, users: seq<string>, states: seq<State>, steps: seq<Step>)
    requires IsRun(rows, users, states, steps)
    ensures forall k :: 0 <= k < |states| ==> Inv(Admins(rows), users, states[k])
  {
    var n := |steps|;
    if n > 0 {
      RunKeepsInv(rows, users, states[..n], steps[..n - 1]);
      assert forall k :: 0 <= k < n ==> states[..n][k] == states[k];
      assert Inv(Admins(rows), users, states[n - 1]);
      StepKeepsInv(Admins(rows), users, states[n - 1], steps[n - 1]);
    }
  }

  /** Under every interleaving the finished calls are those of a serial order, and the table holds exactly the
      admins that order leaves. */
  lemma InterleavingIsSerial(rows: seq<Row>, users: seq<string>, states: seq<State>, steps: seq<Step>, i: nat,
                             r: ClaimResult)
    requires IsRun(rows, users, states, steps) && i < |users|
    ensures var last := states[|steps|];
            && Serial(Admins(rows), users, last.log)
            && Admins(last.rows) == AdminsAfter(Admins(rows), last.log)
            && (last.pcs[i] == Done(r) <==> Finish(i, r) in last.log)
  {
    RunKeepsInv(rows, users, states, steps);
    assert CallerOk(users, states[|steps|], i);
  }

  /** Starting without an admin: at most one caller is ever told it claimed, everyone told otherwise is told of
      that caller, and that caller is the one admin in the table. */
  lemma AtMostOneFirstAdmin(rows: seq<Row>, users: seq<string>, states: seq<State>, steps: seq<Step>, i: nat, j: nat)
    requires IsRun(rows, users, states, steps) && Admins(rows) == []
    requires i < |users| && j < |users|
    ensures var last := states[|steps|];
            && |Admins(last.rows)| <= 1
            && (last.pcs[i].Done? && last.pcs[i].result.Claimed? ==> Admins(last.rows) == [users[i]])
            && (last.pcs[i].Done? && last.pcs[i].result.Claimed? && last.pcs[j].Done? && j != i ==>
                  last.pcs[j].result == AlreadyClaimed(users[i]))
            && (last.pcs[i].Done? ==> exists w :: 0 <= w < |users| && last.pcs[w].Done? && last.pcs[w].result.Claimed?)
  {
    var last := states[|steps|];
    RunKeepsInv(rows, users, states, steps);
    assert CallerOk(users, last, i) && CallerOk(users, last, j);
    if last.log != [] {
      FirstCallWins(users, last.log);
      WinnerStays(users, last.log);
      var w := last.log[0].caller;
      assert last.log[..0] == [];
      assert Answers(AdminsAfter([], last.log[..0]), users, last.log[0]);
      assert CallerOk(users, last, w);
      assert Finish(w, last.log[0].result) in last.log;
    }
    if last.pcs[i].Done? {
      assert Finish(i, last.pcs[i].result) in last.log;
    }
    if last.pcs[j].Done? {
      assert Finish(j, last.pcs[j].result) in last.log;
    }
  }

  /** Where there is an admin already, nobody ever claims. */
  lemma NoClaimBesideAnAdmin(rows: seq<Row>, users: seq<string>, states: seq<State>, steps: seq<Step>, i: nat)
    requires IsRun(rows, users, states, steps) && Admins(rows) != []
    requires i < |users| && states[|steps|].pcs[i].Done?
    ensures states[|steps|].pcs[i].result.AlreadyClaimed?
  {
    var last := states[|steps|];
    RunKeepsInv(rows, users, states, steps);
    assert CallerOk(users, last, i);
    var k :| 0 <= k < |last.log| && last.log[k] == Finish(i, last.pcs[i].result);
    AdminsOnlyGrow(Admins(rows), last.log[..k], 0);
    assert last.log[..k][..0] == [];
    assert Answers(AdminsAfter(Admins(rows), last.log[..k]), users, last.log[k]);
  }

  /** A failed transaction, be it by its hook or by anything else, leaves the table as it was and the lock free. */
  lemma FailureLeavesNoTrace(admins: seq<string>, users: seq<string>, s: State, step: Step)
    requires Inv(admins, users, s) && Enabled(users, s, step)
    requires step.Abort? || (step.RunHook? && step.hook.Throws?)
    ensures var t := Next(users, s, step);
            t.rows == s.rows && t.log == s.log && t.pcs[step.i].Failed? && t.lock != Some(step.i)
            && (InTransaction(s.pcs[step.i]) ==> t.lock.None?)
  {
    assert CallerOk(users, s, step.i);
  }

  lemma FreeLockWins(admins: seq<string>, users: seq<string>, s: State, i: nat)
    returns (states: seq<State>, steps: seq<Step>)
    requires Inv(admins, users, s) && i < |users|
    requires s.lock.None? && s.pcs[i].Idle? && Admins(s.rows) == []
    ensures Leads(users, states, steps) && states[0] == s
    ensures states[|steps|].pcs[i] == Done(Claimed(users[i], None)) && Admins(states[|steps|].rows) == [users[i]]
  {
    hide Serial, AdminsAfter, Admins, CallerOk;
    var s1 := Next(users, s, TakeLock(i));
    var s2 := Next(users, s1, Check(i, ""));
    var s3 := Next(users, s2, Insert(i));
    var s4 := Next(users, s3, RunHook(i, NoHook));
    var s5 := Next(users, s4, Commit(i));
    AdminsAppend(s.rows, users[i]);
    steps := [TakeLock(i), Check(i, ""), Insert(i), RunHook(i, NoHook), Commit(i)];
    states := [s, s1, s2, s3, s4, s5];
  }

  /** A transaction that holds the lock may fail, and then nothing stands in the way of another caller. */
  lemma HolderFails(admins: seq<string>, users: seq<string>, s: State, i: nat)
    requires Inv(admins, users, s) && i < |users| && s.lock.Some? && s.pcs[i].Idle?
    ensures s.lock.value < |users| && Enabled(users, s, Abort(s.lock.value))
    ensures var t := Next(users, s, Abort(s.lock.value));
            Inv(admins, users, t) && t.lock.None? && t.pcs[i].Idle? && t.rows == s.rows
  {
    hide Serial, AdminsAfter, Admins;
    assert CallerOk(users, s, s.lock.value) && CallerOk(users, s, i);
    assert s.lock.value < |users| && Enabled(users, s, Abort(s.lock.value));
    StepKeepsInv(admins, users, s, Abort(s.lock.value));
  }

  /** So long as nobody has claimed, any caller that has not begun can still win: at once if the lock is free, and
      after a failure of its holder if it is not. */
  lemma LaterCallerCanWin(admins: seq<string>, users: seq<string>, s: State, i: nat)
    returns (states: seq<State>, steps: seq<Step>)
    requires Inv(admins, users, s) && i < |users| && s.pcs[i].Idle? && Admins(s.rows) == []
    ensures Leads(users, states, steps) && states[0] == s
    ensures states[|steps|].pcs[i] == Done(Claimed(users[i], None)) && Admins(states[|steps|].rows) == [users[i]]
  {
    hide Inv, Admins, Enabled, Next;
    if s.lock.None? {
      states, steps := FreeLockWins(admins, users, s, i);
    } else {
      SizeOf(admins, users, s);
      HolderFails(admins, users, s, i);
      var abort := Abort(s.lock.value);
      var t := Next(users, s, abort);
      var states0, steps0 := FreeLockWins(admins, users, t, i);
      states, steps := [s] + states0, [abort] + steps0;
      forall k | 0 <= k < |steps|
        ensures Enabled(users, states[k], steps[k]) && states[k + 1] == Next(users, states[k], steps[k])
      {
        if k > 0 {
          assert states[k] == states0[k - 1] && steps[k] == steps0[k - 1] && states[k + 1] == states0[k];
        }
      }
    }
  }

  lemma SizeOf(admins: seq<string>, users: seq<string>, s: State)
    requires Inv(admins, users, s)
    ensures |s.pcs| == |users|
  {
  }

  // ---------- progress ----------

  function Distance(pc: Pc): nat {
    match pc
    case Idle => 5
    case Locked => 4
    case Vacant => 3
    case Inserted => 2
    case Ready(_) => 1
    case Done(_) => 0
    case Failed => 0
  }

  function TotalDistance(pcs: seq<Pc>): nat {
    if pcs == [] then 0 else TotalDistance(pcs[..|pcs| - 1]) + Distance(pcs[|pcs| - 1])
  }

  lemma {:induction false} CloserAt(pcs: seq<Pc>, i: nat, pc: Pc)
    requires i < |pcs| && Distance(pc) < Distance(pcs[i])
    ensures TotalDistance(pcs[i := pc]) < TotalDistance(pcs)
  {
    var n := |pcs| - 1;
    if i < n {
      CloserAt(pcs[..n], i, pc);
      assert pcs[i := pc][..n] == pcs[..n][i := pc];
    } else {
      assert pcs[i := pc][..n] == pcs[..n];
    }
  }

  /** The protocol never deadlocks and never spins: while a caller is unfinished some caller can take a step of
      its own, and every step of a caller brings the end nearer. */
  lemma NoDeadlock(admins: seq<string>, users: seq<string>, s: State, i: nat) returns (step: Step)
    requires Inv(admins, users, s) && i < |users| && !Finished(s.pcs[i])
    ensures !step.Abort? && !step.OtherWriter? && Enabled(users, s, step)
  {
    var j := if s.lock.Some? then s.lock.value else i;
    assert CallerOk(users, s, i) && CallerOk(users, s, j);
    step := match s.pcs[j]
      case Idle => TakeLock(j)
      case Locked => Check(j, if Admins(s.rows) == [] then "" else Admins(s.rows)[0])
      case Vacant => Insert(j)
      case Inserted => RunHook(j, NoHook)
      case Ready(_) => Commit(j);
  }

  lemma EveryStepIsProgress(admins: seq<string>, users: seq<string>, s: State, step: Step)
    requires Inv(admins, users, s) && Enabled(users, s, step) && !step.OtherWriter?
    ensures TotalDistance(Next(users, s, step).pcs) < TotalDistance(s.pcs)
  {
    CloserAt(s.pcs, step.i, Next(users, s, step).pcs[step.i]);
  }
}
