/** The stored totals of P2P requests under concurrent transactions. Assigning reads the requests after it has locked
    them; settling, cancelling and expiring read them before, together with the allocation, and add to what they have
    read. */
module TotalsRace {
  import opened Base

  /** The row of a withdrawal or of a deposit. */
  datatype Row = OfWithdrawal(id: Id) | OfDeposit(id: Id)

  datatype Field = AssignedTotal | SettledTotal

  datatype Cell = Cell(row: Row, field: Field)

  /** A transaction on one allocation: it adds `delta` to a total of the withdrawal and to the same total of the
      deposit. `locksFirst`: it reads them after it has locked them. */
  datatype Job = Job(withdrawal: Id, deposit: Id, field: Field, delta: int, locksFirst: bool) {
    function First(): Cell {
      Cell(OfWithdrawal(withdrawal), field)
    }

    function Second(): Cell {
      Cell(OfDeposit(deposit), field)
    }

    predicate On(cell: Cell) {
      cell == First() || cell == Second()
    }
  }

  type Totals = map<Cell, int>

  /** Where a transaction stands; `x` and `y` are the totals it has read. */
  datatype Local =
    | Waiting
    | Read(x: int, y: int)
    | HasFirst(x: int, y: int)
    | HasBoth(x: int, y: int)
    | Ready(x: int, y: int)
    | Ended

  datatype Config = Config(totals: Totals, locks: map<Row, nat>, locals: seq<Local>)

  function Goto(c: Config, j: nat, l: Local): Config
    requires j < |c.locals|
  {
    c.(locals := c.locals[j := l])
  }

  /** Takes the lock of a row, or waits for it. */
  function Take(c: Config, j: nat, row: Row, l: Local): Config
    requires j < |c.locals|
  {
    if row in c.locks then c else Goto(c, j, l).(locks := c.locks[row := j])
  }

  function Write(totals: Totals, job: Job, x: int, y: int): Totals {
    totals[job.First() := x + job.delta][job.Second() := y + job.delta]
  }

  function Commit(c: Config, job: Job, j: nat, x: int, y: int): Config
    requires j < |c.locals|
  {
    Config(Write(c.totals, job, x, y), map r | r in c.locks && c.locks[r] != j :: c.locks[r], c.locals[j := Ended])
  }

  predicate Present(totals: Totals, job: Job) {
    job.First() in totals && job.Second() in totals
  }

  /** The next statement of job `j`. */
  function Next(c: Config, jobs: seq<Job>, j: nat): Config {
    if j < |jobs| == |c.locals| && Present(c.totals, jobs[j]) then
      var job := jobs[j];
      match c.locals[j]
      case Waiting =>
        if job.locksFirst then Take(c, j, job.First().row, HasFirst(0, 0))
        else Goto(c, j, Read(c.totals[job.First()], c.totals[job.Second()]))
      case Read(x, y) => Take(c, j, job.First().row, HasFirst(x, y))
      case HasFirst(x, y) => Take(c, j, job.Second().row, HasBoth(x, y))
      case HasBoth(x, y) =>
        if job.locksFirst then Goto(c, j, Ready(c.totals[job.First()], c.totals[job.Second()]))
        else Commit(c, job, j, x, y)
      case Ready(x, y) => Commit(c, job, j, x, y)
      case Ended => c
    else c
  }

  function Start(totals: Totals, jobs: seq<Job>): Config {
    Config(totals, map[], seq(|jobs|, _ => Waiting))
  }

  /** Any schedule: at each point one job, whichever it is, executes its next statement. */
  function Exec(c: Config, jobs: seq<Job>, schedule: seq<nat>): Config {
    if schedule == [] then c else Next(Exec(c, jobs, schedule[..|schedule| - 1]), jobs, schedule[|schedule| - 1])
  }

  // ---------------------------------------------------------------- what the totals should be

  /** What the first `n` jobs have added to a total, those of them that have ended. */
  function Added(jobs: seq<Job>, locals: seq<Local>, cell: Cell, n: nat): int
    requires n <= |jobs| == |locals|
  {
    if n == 0 then 0 else
      Added(jobs, locals, cell, n - 1) + if locals[n - 1].Ended? && jobs[n - 1].On(cell) then jobs[n - 1].delta else 0
  }

  /** Every total is what it was, and what the jobs that have ended have added to it. */
  ghost predicate Agrees(totals: Totals, c: Config, jobs: seq<Job>) {
    && |jobs| == |c.locals| && c.totals.Keys == totals.Keys
    && forall cell <- totals :: c.totals[cell] == totals[cell] + Added(jobs, c.locals, cell, |jobs|)
  }

  // ---------------------------------------------------------------- the invariant

  predicate Shares(a: Job, b: Job) {
    a.First() == b.First() || a.Second() == b.Second()
  }

  /** Jobs that add to the same total both read it under its lock. */
  predicate Careful(jobs: seq<Job>) {
    forall i, j | 0 <= i < j < |jobs| && Shares(jobs[i], jobs[j]) :: jobs[i].locksFirst && jobs[j].locksFirst
  }

  predicate Locked(l: Local) {
    l.HasBoth? || l.Ready?
  }

  predicate LocksFit(c: Config, jobs: seq<Job>) {
    forall j: nat | j < |c.locals| && j < |jobs| ::
      && (c.locals[j].HasFirst? || Locked(c.locals[j]) ==>
          jobs[j].First().row in c.locks && c.locks[jobs[j].First().row] == j)
      && (Locked(c.locals[j]) ==> jobs[j].Second().row in c.locks && c.locks[jobs[j].Second().row] == j)
  }

  /** The job has read its totals. */
  predicate Knows(job: Job, l: Local) {
    if job.locksFirst then l.Ready? else l.Read? || l.HasFirst? || l.HasBoth?
  }

  predicate UpToDate(totals: Totals, job: Job, l: Local) {
    && Present(totals, job)
    && (if job.locksFirst then !l.Read? else !l.Ready?)
    && (Knows(job, l) ==> l.x == totals[job.First()] && l.y == totals[job.Second()])
  }

  ghost predicate Consistent(totals: Totals, c: Config, jobs: seq<Job>) {
    && Agrees(totals, c, jobs) && LocksFit(c, jobs)
    && forall j: nat | j < |jobs| :: UpToDate(c.totals, jobs[j], c.locals[j])
  }

  // ---------------------------------------------------------------- lemmas

  lemma {:induction false} AddedSame(jobs: seq<Job>, locals: seq<Local>, locals': seq<Local>, cell: Cell, n: nat)
    requires n <= |jobs| == |locals| == |locals'|
    requires forall j: nat | j < n :: locals[j].Ended? <==> locals'[j].Ended?
    ensures Added(jobs, locals', cell, n) == Added(jobs, locals, cell, n)
  {
    if n > 0 {
      AddedSame(jobs, locals, locals', cell, n - 1);
    }
  }

  lemma {:induction false} AddedOne(jobs: seq<Job>, locals: seq<Local>, cell: Cell, j: nat, n: nat)
    requires j < n <= |jobs| == |locals| && !locals[j].Ended?
    ensures Added(jobs, locals[j := Ended], cell, n) == Added(jobs, locals, cell, n) +
            if jobs[j].On(cell) then jobs[j].delta else 0
  {
    if n - 1 == j {
      AddedSame(jobs, locals, locals[j := Ended], cell, j);
    } else {
      AddedOne(jobs, locals, cell, j, n - 1);
    }
  }

  lemma GotoConsistent(totals: Totals, c: Config, jobs: seq<Job>, j: nat, l: Local)
    requires Consistent(totals, c, jobs) && j < |jobs| && !c.locals[j].Ended? && !l.Ended? &&
             UpToDate(c.totals, jobs[j], l)
    requires l.HasFirst? || Locked(l) ==> c.locals[j].HasFirst? || Locked(c.locals[j])
    requires Locked(l) ==> Locked(c.locals[j])
    ensures Consistent(totals, Goto(c, j, l), jobs)
  {
    hide Added, UpToDate;
    forall cell {
      AddedSame(jobs, c.locals, c.locals[j := l], cell, |jobs|);
    }
  }

  lemma TakeConsistent(totals: Totals, c: Config, jobs: seq<Job>, j: nat, row: Row, l: Local)
    requires Consistent(totals, c, jobs) && j < |jobs| && !c.locals[j].Ended? && !l.Ended? &&
             UpToDate(c.totals, jobs[j], l)
    requires || (l.HasFirst? && row == jobs[j].First().row)
             || (l.HasBoth? && c.locals[j].HasFirst? && row == jobs[j].Second().row)
    ensures Consistent(totals, Take(c, j, row, l), jobs)
  {
    hide Added, UpToDate;
    forall cell {
      AddedSame(jobs, c.locals, c.locals[j := l], cell, |jobs|);
    }
  }

  /** What one job writes, no other has read, or is to write: it would have to hold the same lock. */
  lemma Undisturbed(c: Config, jobs: seq<Job>, j: nat, i: nat)
    requires |jobs| == |c.locals| && i < |jobs| && j < |jobs| && i != j && Careful(jobs) && LocksFit(c, jobs)
    requires UpToDate(c.totals, jobs[i], c.locals[i]) && UpToDate(c.totals, jobs[j], c.locals[j])
    requires Locked(c.locals[j]) && Knows(jobs[j], c.locals[j])
    ensures UpToDate(Write(c.totals, jobs[j], c.locals[j].x, c.locals[j].y), jobs[i], c.locals[i])
  {
    if Shares(jobs[i], jobs[j]) {
      assert jobs[i].locksFirst && jobs[j].locksFirst;
    }
  }

  lemma CommitConsistent(totals: Totals, c: Config, jobs: seq<Job>, j: nat)
    requires Consistent(totals, c, jobs) && Careful(jobs) && j < |jobs| == |c.locals| && Locked(c.locals[j]) &&
             Knows(jobs[j], c.locals[j])
    ensures Consistent(totals, Commit(c, jobs[j], j, c.locals[j].x, c.locals[j].y), jobs)
  {
    hide Added, Careful, Knows;
    var c' := Commit(c, jobs[j], j, c.locals[j].x, c.locals[j].y);
    assert UpToDate(c.totals, jobs[j], c.locals[j]);
    forall cell <- totals ensures c'.totals[cell] == totals[cell] + Added(jobs, c'.locals, cell, |jobs|) {
      AddedOne(jobs, c.locals, cell, j, |jobs|);
    }
    forall i: nat | i < |jobs| ensures UpToDate(c'.totals, jobs[i], c'.locals[i]) {
      if i != j {
        Undisturbed(c, jobs, j, i);
      } else {
        NothingKnown(c'.totals, jobs[j]);
      }
    }
  }

  lemma NothingKnown(totals: Totals, job: Job)
    requires Present(totals, job)
    ensures UpToDate(totals, job, Ended)
  {
  }

  lemma NextConsistent(totals: Totals, c: Config, jobs: seq<Job>, j: nat)
    requires Consistent(totals, c, jobs) && Careful(jobs)
    ensures Consistent(totals, Next(c, jobs, j), jobs)
  {
    hide Consistent, Careful, Goto, Take, Commit;
    if j < |jobs| {
      Current(totals, c, jobs, j);
      var job := jobs[j];
      match c.locals[j] {
        case Waiting =>
          if job.locksFirst {
            TakeConsistent(totals, c, jobs, j, job.First().row, HasFirst(0, 0));
          } else {
            GotoConsistent(totals, c, jobs, j, Read(c.totals[job.First()], c.totals[job.Second()]));
          }
        case Read(x, y) => TakeConsistent(totals, c, jobs, j, job.First().row, HasFirst(x, y));
        case HasFirst(x, y) => TakeConsistent(totals, c, jobs, j, job.Second().row, HasBoth(x, y));
        case HasBoth(x, y) =>
          if job.locksFirst {
            GotoConsistent(totals, c, jobs, j, Ready(c.totals[job.First()], c.totals[job.Second()]));
          } else {
            CommitConsistent(totals, c, jobs, j);
          }
        case Ready(_, _) => CommitConsistent(totals, c, jobs, j);
        case Ended =>
      }
    }
  }

  lemma Current(totals: Totals, c: Config, jobs: seq<Job>, j: nat)
    requires Consistent(totals, c, jobs) && j < |jobs|
    ensures |jobs| == |c.locals| && UpToDate(c.totals, jobs[j], c.locals[j])
  {
    hide UpToDate;
  }

  lemma StartConsistent(totals: Totals, jobs: seq<Job>)
    requires forall j | 0 <= j < |jobs| :: Present(totals, jobs[j])
    ensures Consistent(totals, Start(totals, jobs), jobs)
  {
    hide Added, Present;
    forall cell <- totals {
      NothingAdded(jobs, cell, |jobs|);
    }
  }

  lemma {:induction false} NothingAdded(jobs: seq<Job>, cell: Cell, n: nat)
    requires n <= |jobs|
    ensures Added(jobs, seq(|jobs|, _ => Waiting), cell, n) == 0
  {
    if n > 0 {
      NothingAdded(jobs, cell, n - 1);
    }
  }

  lemma {:induction false} ExecConsistent(totals: Totals, jobs: seq<Job>, schedule: seq<nat>)
    requires Careful(jobs) && forall j | 0 <= j < |jobs| :: Present(totals, jobs[j])
    ensures Consistent(totals, Exec(Start(totals, jobs), jobs, schedule), jobs)
  {
    hide Next, Consistent, Careful, Present;
    if schedule == [] {
      StartConsistent(totals, jobs);
    } else {
      ExecConsistent(totals, jobs, schedule[..|schedule| - 1]);
      NextConsistent(totals, Exec(Start(totals, jobs), jobs, schedule[..|schedule| - 1]), jobs,
                     schedule[|schedule| - 1]);
    }
  }

  // ---------------------------------------------------------------- the lost update

  /** `i` reads, `j` runs from beginning to end, `i` goes on with what it has read. */
  function Race(i: nat, j: nat): seq<nat> {
    [i, j, j, j, j, i, i, i]
  }

  lemma ExecNext(c: Config, jobs: seq<Job>, schedule: seq<nat>, j: nat)
    ensures Exec(c, jobs, schedule + [j]) == Next(Exec(c, jobs, schedule), jobs, j)
  {
    hide Next;
    assert (schedule + [j])[..|schedule|] == schedule;
  }

  function Four(c: Config, jobs: seq<Job>, j: nat): Config {
    Next(Next(Next(Next(c, jobs, j), jobs, j), jobs, j), jobs, j)
  }

  function Three(c: Config, jobs: seq<Job>, i: nat): Config {
    Next(Next(Next(c, jobs, i), jobs, i), jobs, i)
  }

  lemma ExecRace(c: Config, jobs: seq<Job>, i: nat, j: nat)
    ensures Exec(c, jobs, Race(i, j)) == Three(Four(Next(c, jobs, i), jobs, j), jobs, i)
  {
    hide Next, Exec;
    ExecNext(c, jobs, [], i);
    assert Exec(c, jobs, []) == c by {
      ExecNone(c, jobs);
    }
    assert [] + [i] == [i];
    ExecNext(c, jobs, [i], j);
    assert [i] + [j] == [i, j];
    ExecNext(c, jobs, [i, j], j);
    assert [i, j] + [j] == [i, j, j];
    ExecNext(c, jobs, [i, j, j], j);
    assert [i, j, j] + [j] == [i, j, j, j];
    ExecNext(c, jobs, [i, j, j, j], j);
    assert [i, j, j, j] + [j] == [i, j, j, j, j];
    ExecNext(c, jobs, [i, j, j, j, j], i);
    assert [i, j, j, j, j] + [i] == [i, j, j, j, j, i];
    ExecNext(c, jobs, [i, j, j, j, j, i], i);
    assert [i, j, j, j, j, i] + [i] == [i, j, j, j, j, i, i];
    ExecNext(c, jobs, [i, j, j, j, j, i, i], i);
    assert [i, j, j, j, j, i, i] + [i] == Race(i, j);
  }

  lemma ExecNone(c: Config, jobs: seq<Job>)
    ensures Exec(c, jobs, []) == c
  {
  }

  /** A job that nobody is in the way of runs through in four statements. */
  lemma RunsThrough(c: Config, jobs: seq<Job>, j: nat)
    requires j < |jobs| == |c.locals| && Present(c.totals, jobs[j]) && c.locals[j].Waiting? && c.locks == map[]
    ensures var (c', job) := (Four(c, jobs, j), jobs[j]);
            && c'.totals == Write(c.totals, job, c.totals[job.First()], c.totals[job.Second()])
            && c'.locals == c.locals[j := Ended] && c'.locks == map[]
  {
    hide Write;
    var (job, x, y) := (jobs[j], c.totals[jobs[j].First()], c.totals[jobs[j].Second()]);
    var c1 := Next(c, jobs, j);
    var c2 := Next(c1, jobs, j);
    var c3 := Next(c2, jobs, j);
    if job.locksFirst {
      assert c1 == Goto(c, j, HasFirst(0, 0)).(locks := map[job.First().row := j]);
      assert c2 == Goto(c, j, HasBoth(0, 0)).(locks := map[job.First().row := j, job.Second().row := j]);
      assert c3 == Goto(c, j, Ready(x, y)).(locks := map[job.First().row := j, job.Second().row := j]);
    } else {
      assert c1 == Goto(c, j, Read(x, y));
      assert c2 == Goto(c, j, HasFirst(x, y)).(locks := map[job.First().row := j]);
      assert c3 == Goto(c, j, HasBoth(x, y)).(locks := map[job.First().row := j, job.Second().row := j]);
    }
  }

  /** A job that has read before it locks writes what it has read, whatever has been written since. */
  lemma GoesOn(c: Config, jobs: seq<Job>, i: nat, x: int, y: int)
    requires i < |jobs| == |c.locals| && Present(c.totals, jobs[i]) && !jobs[i].locksFirst &&
             c.locals[i] == Read(x, y) && c.locks == map[]
    ensures Three(c, jobs, i).totals == Write(c.totals, jobs[i], x, y) &&
            Three(c, jobs, i).locals == c.locals[i := Ended]
  {
    hide Write;
    var job := jobs[i];
    var c1 := Next(c, jobs, i);
    assert c1 == Goto(c, i, HasFirst(x, y)).(locks := map[job.First().row := i]);
    var c2 := Next(c1, jobs, i);
    assert c2 == Goto(c, i, HasBoth(x, y)).(locks := map[job.First().row := i, job.Second().row := i]);
  }

  lemma {:induction false} AddedTwo(jobs: seq<Job>, locals: seq<Local>, cell: Cell, i: nat, j: nat, n: nat)
    requires n <= |jobs| == |locals| && i < |jobs| && j < |jobs| && i != j
    requires forall k: nat | k < |jobs| :: locals[k].Ended? <==> k == i || k == j
    ensures Added(jobs, locals, cell, n) ==
              (if i < n && jobs[i].On(cell) then jobs[i].delta else 0) +
              if j < n && jobs[j].On(cell) then jobs[j].delta else 0
  {
    if n > 0 {
      AddedTwo(jobs, locals, cell, i, j, n - 1);
    }
  }

  /** The update of `j` is lost: the total that both add to has only what `i` added. */
  lemma {:induction false} UpdateLost(totals: Totals, jobs: seq<Job>, i: nat, j: nat)
    requires i < |jobs| && j < |jobs| && i != j && Shares(jobs[i], jobs[j]) && !jobs[i].locksFirst && jobs[j].delta != 0
    requires forall k | 0 <= k < |jobs| :: Present(totals, jobs[k])
    ensures !Agrees(totals, Exec(Start(totals, jobs), jobs, Race(i, j)), jobs)
  {
    hide Exec, Four, Three, Added;
    var (c0, a, b) := (Start(totals, jobs), jobs[i], jobs[j]);
    var (x, y) := (totals[a.First()], totals[a.Second()]);
    ExecRace(c0, jobs, i, j);
    var c1 := Next(c0, jobs, i);
    assert c1 == Goto(c0, i, Read(x, y));
    RunsThrough(c1, jobs, j);
    var c2 := Four(c1, jobs, j);
    GoesOn(c2, jobs, i, x, y);
    var c3 := Three(c2, jobs, i);
    var cell := if a.First() == b.First() then a.First() else a.Second();
    AddedTwo(jobs, c3.locals, cell, i, j, |jobs|);
    assert c3.totals[cell] == totals[cell] + a.delta;
  }

  /** The totals are right after every interleaving, whatever it is, exactly when all transactions that share a total
      read it after locking it. So settling, cancelling and expiring keep them only one at a time on each request. */
  lemma TotalsKeptIff(totals: Totals, jobs: seq<Job>)
    requires forall k | 0 <= k < |jobs| :: Present(totals, jobs[k]) && jobs[k].delta != 0
    ensures (forall schedule :: Agrees(totals, Exec(Start(totals, jobs), jobs, schedule), jobs)) <==> Careful(jobs)
  {
    hide Exec, Start, Agrees, Race, Present;
    if Careful(jobs) {
      forall schedule ensures Agrees(totals, Exec(Start(totals, jobs), jobs, schedule), jobs) {
        ExecConsistent(totals, jobs, schedule);
      }
    } else {
      var i, j :| 0 <= i < j < |jobs| && Shares(jobs[i], jobs[j]) && !(jobs[i].locksFirst && jobs[j].locksFirst);
      if !jobs[i].locksFirst {
        UpdateLost(totals, jobs, i, j);
        assert !Agrees(totals, Exec(Start(totals, jobs), jobs, Race(i, j)), jobs);
      } else {
        UpdateLost(totals, jobs, j, i);
        assert !Agrees(totals, Exec(Start(totals, jobs), jobs, Race(j, i)), jobs);
      }
    }
  }
}
