/** The decisions on one deposit as concurrent transactions. Approving locks the row before it reads it, rejecting
    writes only if the row is still pending, cancelling reads the row without locking it and then writes whatever that
    reading called for. */
module DepositRace {
  import opened Base

  datatype Status = Pending | Approved | Rejected | Cancelled | Reversed

  /** The row, with the two postings that can carry its reference; the unique index allows one of each. */
  datatype Row = Row(status: Status, linked: bool, credited: bool, debited: bool)

  /** `locksFirst`: it reads the row after it has locked it. `payable`: the account can give the amount back. */
  datatype Job = Approve | Reject | Cancel(locksFirst: bool, payable: bool)

  /** Where a transaction stands; `seen` is the row as it has read it. */
  datatype Local =
    | Waiting
    | Locking
    | Holding
    | Read(seen: Row)
    | Writing(seen: Row)
    | Ended

  datatype Config = Config(row: Row, lock: Option<nat>, locals: seq<Local>)

  function Goto(c: Config, j: nat, l: Local): Config
    requires j < |c.locals|
  {
    c.(locals := c.locals[j := l])
  }

  /** Takes the lock of the row, or waits for it. */
  function Take(c: Config, j: nat, l: Local): Config
    requires j < |c.locals|
  {
    if c.lock.Some? then c else Goto(c, j, l).(lock := Some(j))
  }

  function Finish(c: Config, j: nat, row: Row): Config
    requires j < |c.locals|
  {
    Config(row, if c.lock == Some(j) then None else c.lock, c.locals[j := Ended])
  }

  /** What approving makes of the row it has locked; throwing leaves it as it is. */
  function Approval(row: Row): Row {
    if row.linked || (row.status != Pending && row.status != Approved) || row.credited then row
    else row.(status := Approved, linked := true, credited := true)
  }

  /** What rejecting makes of it: the update names the status it expects. */
  function Rejection(row: Row): Row {
    if row.status == Pending then row.(status := Rejected) else row
  }

  /** What cancelling writes, having read `seen`. */
  function Cancellation(row: Row, seen: Row, payable: bool): Row {
    match seen.status
    case Pending | Rejected => row.(status := Cancelled)
    case Approved =>
      if !seen.linked then row.(status := Reversed)
      else if row.debited || !payable then row
      else row.(status := Reversed, debited := true)
    case Cancelled | Reversed => row
  }

  /** The next statement of job `j`. */
  function Next(c: Config, jobs: seq<Job>, j: nat): Config {
    if j < |jobs| == |c.locals| then
      match c.locals[j]
      case Waiting => if jobs[j].Cancel? && !jobs[j].locksFirst then Goto(c, j, Read(c.row)) else Goto(c, j, Locking)
      case Locking => Take(c, j, Holding)
      case Holding =>
        (match jobs[j]
         case Approve => Finish(c, j, Approval(c.row))
         case Reject => Finish(c, j, Rejection(c.row))
         case Cancel(_, payable) => Finish(c, j, Cancellation(c.row, c.row, payable)))
      case Read(seen) => Take(c, j, Writing(seen))
      case Writing(seen) => if jobs[j].Cancel? then Finish(c, j, Cancellation(c.row, seen, jobs[j].payable)) else c
      case Ended => c
    else c
  }

  function Start(row: Row, jobs: seq<Job>): Config {
    Config(row, None, seq(|jobs|, _ => Waiting))
  }

  /** Any schedule: at each point one job, whichever it is, executes its next statement. */
  function Exec(c: Config, jobs: seq<Job>, schedule: seq<nat>): Config {
    if schedule == [] then c else Next(Exec(c, jobs, schedule[..|schedule| - 1]), jobs, schedule[|schedule| - 1])
  }

  // ---------------------------------------------------------------- what should hold

  /** The deposit is credited, and points at its credit, exactly when it was approved, and debited exactly when that was
      reversed. */
  predicate Agrees(row: Row) {
    && (row.credited <==> row.status == Approved || row.status == Reversed)
    && (row.debited <==> row.status == Reversed)
    && row.linked == row.credited
  }

  /** Nothing is left to approve, or nobody approves, or whoever cancels has locked the row before reading it. */
  predicate Careful(row: Row, jobs: seq<Job>) {
    || row.status != Pending
    || Approve !in jobs
    || forall job <- jobs :: job.Cancel? ==> job.locksFirst
  }

  // ---------------------------------------------------------------- the invariant

  /** What a job has read is of the same kind as what is there: nobody can have approved the deposit in between. */
  predicate Fits(row: Row, job: Job, l: Local) {
    l.Read? || l.Writing? ==>
      && job.Cancel? && !job.locksFirst
      && Agrees(l.seen) && l.seen.credited == row.credited
  }

  /** The postings agree with the status, a deposit once decided is never pending again, and every reading is of the
      right kind. */
  ghost predicate Consistent(row: Row, c: Config, jobs: seq<Job>) {
    && |jobs| == |c.locals| && Agrees(c.row)
    && (c.row.status == Pending ==> row.status == Pending)
    && forall j: nat | j < |jobs| :: Fits(c.row, jobs[j], c.locals[j])
  }

  // ---------------------------------------------------------------- lemmas

  lemma GotoConsistent(row: Row, c: Config, jobs: seq<Job>, j: nat, l: Local)
    requires Consistent(row, c, jobs) && j < |jobs| && Fits(c.row, jobs[j], l)
    ensures Consistent(row, Goto(c, j, l), jobs) && Consistent(row, Take(c, j, l), jobs)
  {
    hide Fits, Agrees;
  }

  /** A job may write what does not change whether the deposit is credited; if it does, nobody has read it. */
  lemma FinishConsistent(row: Row, c: Config, jobs: seq<Job>, j: nat, row': Row)
    requires Consistent(row, c, jobs) && j < |jobs| && Agrees(row') &&
             (row'.status == Pending ==> c.row.status == Pending)
    requires row'.credited == c.row.credited || forall job <- jobs :: job.Cancel? ==> job.locksFirst
    ensures Consistent(row, Finish(c, j, row'), jobs)
  {
    hide Agrees;
    forall i: nat | i < |jobs| ensures Fits(row', jobs[i], c.locals[j := Ended][i]) {
      assert Fits(c.row, jobs[i], c.locals[i]);
    }
  }

  lemma NextConsistent(row: Row, c: Config, jobs: seq<Job>, j: nat)
    requires Consistent(row, c, jobs) && Careful(row, jobs)
    ensures Consistent(row, Next(c, jobs, j), jobs)
  {
    hide Consistent;
    if j < |jobs| {
      Current(row, c, jobs, j);
      match c.locals[j] {
        case Waiting =>
          if jobs[j].Cancel? && !jobs[j].locksFirst {
            GotoConsistent(row, c, jobs, j, Read(c.row));
          } else {
            GotoConsistent(row, c, jobs, j, Locking);
          }
        case Locking => GotoConsistent(row, c, jobs, j, Holding);
        case Holding =>
          var row' := match jobs[j] case Approve => Approval(c.row) case Reject => Rejection(c.row)
                      case Cancel(_, payable) => Cancellation(c.row, c.row, payable);
          FinishConsistent(row, c, jobs, j, row');
        case Read(seen) => GotoConsistent(row, c, jobs, j, Writing(seen));
        case Writing(seen) => FinishConsistent(row, c, jobs, j, Cancellation(c.row, seen, jobs[j].payable));
        case Ended =>
      }
    }
  }

  lemma Current(row: Row, c: Config, jobs: seq<Job>, j: nat)
    requires Consistent(row, c, jobs) && j < |jobs|
    ensures |jobs| == |c.locals| && Agrees(c.row) && Fits(c.row, jobs[j], c.locals[j])
    ensures c.row.status == Pending ==> row.status == Pending
  {
    hide Fits, Agrees;
  }

  lemma {:induction false} ExecConsistent(row: Row, jobs: seq<Job>, schedule: seq<nat>)
    requires Agrees(row) && Careful(row, jobs)
    ensures Consistent(row, Exec(Start(row, jobs), jobs, schedule), jobs)
  {
    hide Next, Careful, Agrees;
    if schedule != [] {
      ExecConsistent(row, jobs, schedule[..|schedule| - 1]);
      NextConsistent(row, Exec(Start(row, jobs), jobs, schedule[..|schedule| - 1]), jobs, schedule[|schedule| - 1]);
    }
  }

  // ---------------------------------------------------------------- cancelled with its credit still posted

  /** `i` reads, `j` runs from beginning to end, `i` goes on with what it has read. */
  function Race(i: nat, j: nat): seq<nat> {
    [i, j, j, j, i, i]
  }

  lemma ExecNext(c: Config, jobs: seq<Job>, schedule: seq<nat>, j: nat)
    ensures Exec(c, jobs, schedule + [j]) == Next(Exec(c, jobs, schedule), jobs, j)
  {
    hide Next;
    assert (schedule + [j])[..|schedule|] == schedule;
  }

  lemma ExecNone(c: Config, jobs: seq<Job>)
    ensures Exec(c, jobs, []) == c
  {
  }

  function Three(c: Config, jobs: seq<Job>, j: nat): Config {
    Next(Next(Next(c, jobs, j), jobs, j), jobs, j)
  }

  function Two(c: Config, jobs: seq<Job>, i: nat): Config {
    Next(Next(c, jobs, i), jobs, i)
  }

  lemma ExecRace(c: Config, jobs: seq<Job>, i: nat, j: nat)
    ensures Exec(c, jobs, Race(i, j)) == Two(Three(Next(c, jobs, i), jobs, j), jobs, i)
  {
    hide Next, Exec;
    ExecNone(c, jobs);
    ExecNext(c, jobs, [], i);
    assert [] + [i] == [i];
    ExecNext(c, jobs, [i], j);
    assert [i] + [j] == [i, j];
    ExecNext(c, jobs, [i, j], j);
    assert [i, j] + [j] == [i, j, j];
    ExecNext(c, jobs, [i, j, j], j);
    assert [i, j, j] + [j] == [i, j, j, j];
    ExecNext(c, jobs, [i, j, j, j], i);
    assert [i, j, j, j] + [i] == [i, j, j, j, i];
    ExecNext(c, jobs, [i, j, j, j, i], i);
    assert [i, j, j, j, i] + [i] == Race(i, j);
  }

  /** A cancellation that has read the deposit as pending, and an approval in between: cancelled, and the credit
      stays. */
  lemma CancelledCredited(row: Row, jobs: seq<Job>, i: nat, j: nat)
    requires Agrees(row) && row.status == Pending
    requires i < |jobs| && j < |jobs| && jobs[j].Approve? && jobs[i].Cancel? && !jobs[i].locksFirst
    ensures Exec(Start(row, jobs), jobs, Race(i, j)).row == Row(Cancelled, true, true, false)
  {
    hide Exec, Three, Two;
    var c0 := Start(row, jobs);
    ExecRace(c0, jobs, i, j);
    var c1 := Next(c0, jobs, i);
    assert c1 == Config(row, None, c0.locals[i := Read(row)]);
    var approved := Row(Approved, true, true, false);
    Approves(c1, jobs, j);
    var c2 := Three(c1, jobs, j);
    assert c2 == Config(approved, None, c1.locals[j := Ended]);
    CancelsAnyway(c2, jobs, i, row);
  }

  lemma Approves(c: Config, jobs: seq<Job>, j: nat)
    requires j < |jobs| == |c.locals| && jobs[j].Approve? && c.locals[j].Waiting? && c.lock.None?
    ensures Three(c, jobs, j) == Config(Approval(c.row), None, c.locals[j := Ended])
  {
    hide Approval;
    var c1 := Next(c, jobs, j);
    assert c1 == Config(c.row, None, c.locals[j := Locking]);
    assert Next(c1, jobs, j) == Config(c.row, Some(j), c.locals[j := Holding]);
  }

  lemma CancelsAnyway(c: Config, jobs: seq<Job>, i: nat, seen: Row)
    requires i < |jobs| == |c.locals| && jobs[i].Cancel? && c.locals[i] == Read(seen) && c.lock.None? &&
             seen.status == Pending
    ensures Two(c, jobs, i).row == c.row.(status := Cancelled)
  {
    assert Next(c, jobs, i) == Config(c.row, Some(i), c.locals[i := Writing(seen)]);
  }

  /** From a deposit whose postings agree with its status, they agree after every interleaving, whatever it is, exactly
      when it is not pending, or nobody approves it, or everybody who cancels it locks it before reading it. As the
      service never does, cancelling a deposit while it is being approved can leave its credit posted. */
  lemma PostingsAgreeIff(row: Row, jobs: seq<Job>)
    requires Agrees(row)
    ensures (forall schedule :: Agrees(Exec(Start(row, jobs), jobs, schedule).row)) <==> Careful(row, jobs)
  {
    hide Exec, Start, Race;
    if Careful(row, jobs) {
      forall schedule ensures Agrees(Exec(Start(row, jobs), jobs, schedule).row) {
        ExecConsistent(row, jobs, schedule);
      }
    } else {
      var j :| 0 <= j < |jobs| && jobs[j] == Approve;
      var i :| 0 <= i < |jobs| && jobs[i].Cancel? && !jobs[i].locksFirst;
      CancelledCredited(row, jobs, i, j);
      assert !Agrees(Exec(Start(row, jobs), jobs, Race(i, j)).row);
    }
  }
}
