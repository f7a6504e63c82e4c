/** Groups of remittances that settle the same earlier ones, as concurrent transactions. A group reads its sources
    and what is linked into them without locking them, checks its settlements against what it has read, and adds its
    links. */
module SettlementRace {
  import opened Base

  /** A remittance to settle: its amount, what is linked into it, and whether it is marked completed. */
  datatype Source = Source(amount: int, settled: int, completed: bool)

  /** A group: what it settles of each source. `locksFirst`: it reads the sources after it has locked them. */
  datatype Job = Job(wants: map<Id, int>, locksFirst: bool)

  /** Where a transaction stands; `seen` is what it has read as settled of its sources. */
  datatype Local =
    | Waiting
    | Locked
    | Checked(seen: map<Id, int>)
    | Writing(seen: map<Id, int>)
    | Ended

  type Table = map<Id, Source>

  datatype Config = Config(table: Table, locks: map<Id, nat>, locals: seq<Local>)

  predicate Present(table: Table, job: Job) {
    forall s <- job.wants :: s in table
  }

  function Goto(c: Config, j: nat, l: Local): Config
    requires j < |c.locals|
  {
    c.(locals := c.locals[j := l])
  }

  function Unlocked(locks: map<Id, nat>, j: nat): map<Id, nat> {
    map s | s in locks && locks[s] != j :: locks[s]
  }

  /** A transaction that throws leaves nothing behind. */
  function Throw(c: Config, j: nat): Config
    requires j < |c.locals|
  {
    Config(c.table, Unlocked(c.locks, j), c.locals[j := Ended])
  }

  /** Takes the locks of all sources of the job, or waits for them. */
  function Take(c: Config, job: Job, j: nat, l: Local): Config
    requires j < |c.locals|
  {
    if exists s <- job.wants :: s in c.locks then c
    else Goto(c, j, l).(locks := map s | s in c.locks.Keys + job.wants.Keys :: if s in job.wants then j else c.locks[s])
  }

  /** Nothing is settled of a source beyond its amount, as far as the job can see. */
  predicate Fits(table: Table, job: Job)
    requires Present(table, job)
  {
    forall s <- job.wants :: table[s].settled + job.wants[s] <= table[s].amount
  }

  function Seen(table: Table, job: Job): map<Id, int>
    requires Present(table, job)
  {
    map s | s in job.wants :: table[s].settled
  }

  function Read(c: Config, job: Job, j: nat, l: Local): Config
    requires j < |c.locals| && Present(c.table, job)
  {
    if Fits(c.table, job) then Goto(c, j, l) else Throw(c, j)
  }

  /** The links are added to those that are there; the status is that of the sum the job has worked out. */
  function Settle(table: Table, job: Job, seen: map<Id, int>): Table {
    map s | s in table ::
      if s in job.wants && s in seen
      then table[s].(settled := table[s].settled + job.wants[s], completed := seen[s] + job.wants[s] == table[s].amount)
      else table[s]
  }

  function Commit(c: Config, job: Job, j: nat, seen: map<Id, int>): Config
    requires j < |c.locals|
  {
    Config(Settle(c.table, job, seen), Unlocked(c.locks, j), c.locals[j := Ended])
  }

  /** The next statement of job `j`. */
  function Next(c: Config, jobs: seq<Job>, j: nat): Config {
    if j < |jobs| == |c.locals| && Present(c.table, jobs[j]) then
      var job := jobs[j];
      match c.locals[j]
      case Waiting => if job.locksFirst then Take(c, job, j, Locked) else Read(c, job, j, Checked(Seen(c.table, job)))
      case Locked => Read(c, job, j, Writing(Seen(c.table, job)))
      case Checked(seen) => Take(c, job, j, Writing(seen))
      case Writing(seen) => Commit(c, job, j, seen)
      case Ended => c
    else c
  }

  function Start(table: Table, jobs: seq<Job>): Config {
    Config(table, map[], seq(|jobs|, _ => Waiting))
  }

  /** Any schedule: at each point one job, whichever it is, executes its next statement. */
  function Exec(c: Config, jobs: seq<Job>, schedule: seq<nat>): Config {
    if schedule == [] then c else Next(Exec(c, jobs, schedule[..|schedule| - 1]), jobs, schedule[|schedule| - 1])
  }

  // ---------------------------------------------------------------- what should hold

  /** Links stay within the amount, and once there are any, the status says whether they cover it. */
  predicate SourceSound(s: Source) {
    0 <= s.settled <= s.amount && (s.settled > 0 ==> (s.completed <==> s.settled == s.amount))
  }

  predicate TableSound(table: Table) {
    forall s <- table :: SourceSound(table[s])
  }

  predicate Shares(a: Job, b: Job) {
    exists s <- a.wants :: s in b.wants
  }

  /** Groups that share a source both read it under its lock. */
  predicate Careful(jobs: seq<Job>) {
    forall i, j | 0 <= i < j < |jobs| && Shares(jobs[i], jobs[j]) :: jobs[i].locksFirst && jobs[j].locksFirst
  }

  predicate Positive(job: Job) {
    forall s <- job.wants :: job.wants[s] > 0
  }

  predicate Wellformed(table: Table, jobs: seq<Job>) {
    forall j | 0 <= j < |jobs| :: Present(table, jobs[j]) && Positive(jobs[j])
  }

  // ---------------------------------------------------------------- the invariant

  predicate Holds(c: Config, job: Job, j: nat) {
    forall s <- job.wants :: s in c.locks && c.locks[s] == j
  }

  predicate LocalFits(c: Config, job: Job, j: nat, l: Local) {
    && (l.Locked? || l.Writing? ==> Holds(c, job, j))
    && (l.Locked? ==> job.locksFirst) && (l.Checked? ==> !job.locksFirst)
  }

  /** What the job has read is still so, and fits. */
  predicate UpToDate(table: Table, job: Job, l: Local) {
    && Present(table, job) && Positive(job)
    && (l.Checked? || l.Writing? ==> l.seen == Seen(table, job) && Fits(table, job))
  }

  ghost predicate Consistent(c: Config, jobs: seq<Job>) {
    && |jobs| == |c.locals| && TableSound(c.table)
    && (forall j: nat | j < |jobs| :: LocalFits(c, jobs[j], j, c.locals[j]))
    && (forall j: nat | j < |jobs| :: UpToDate(c.table, jobs[j], c.locals[j]))
  }

  // ---------------------------------------------------------------- lemmas

  lemma GotoConsistent(c: Config, jobs: seq<Job>, j: nat, l: Local)
    requires Consistent(c, jobs) && j < |jobs| && LocalFits(c, jobs[j], j, l) && UpToDate(c.table, jobs[j], l)
    ensures Consistent(Goto(c, j, l), jobs)
  {
    hide UpToDate, TableSound;
  }

  lemma TakeConsistent(c: Config, jobs: seq<Job>, j: nat, l: Local)
    requires Consistent(c, jobs) && j < |jobs| && UpToDate(c.table, jobs[j], l)
    requires (l.Locked? ==> jobs[j].locksFirst) && (l.Checked? ==> !jobs[j].locksFirst)
    ensures Consistent(Take(c, jobs[j], j, l), jobs)
  {
    hide UpToDate, TableSound;
    var c' := Take(c, jobs[j], j, l);
    forall i: nat | i < |jobs| ensures LocalFits(c', jobs[i], i, c'.locals[i]) {
      assert LocalFits(c, jobs[i], i, c.locals[i]);
    }
    forall i: nat | i < |jobs| ensures UpToDate(c'.table, jobs[i], c'.locals[i]) {
      assert UpToDate(c.table, jobs[i], c.locals[i]);
    }
  }

  /** Giving up one's own locks disturbs nobody. */
  lemma OthersHold(c: Config, c': Config, jobs: seq<Job>, j: nat, i: nat)
    requires |jobs| == |c.locals| && i < |jobs| && i != j && j < |jobs| && LocalFits(c, jobs[i], i, c.locals[i])
    requires c'.locks == Unlocked(c.locks, j) && c'.locals == c.locals[j := Ended]
    ensures LocalFits(c', jobs[i], i, c'.locals[i])
  {
  }

  lemma ThrowConsistent(c: Config, jobs: seq<Job>, j: nat)
    requires Consistent(c, jobs) && j < |jobs|
    ensures Consistent(Throw(c, j), jobs)
  {
    hide LocalFits, UpToDate, TableSound, Unlocked;
    var c' := Throw(c, j);
    forall i: nat | i < |jobs| ensures LocalFits(c', jobs[i], i, c'.locals[i]) &&
           UpToDate(c'.table, jobs[i], c'.locals[i]) {
      assert UpToDate(c.table, jobs[i], c.locals[i]);
      if i != j {
        OthersHold(c, c', jobs, j, i);
      } else {
        NothingKnown(c', jobs[j], j);
      }
    }
  }

  lemma NothingKnown(c: Config, job: Job, j: nat)
    ensures LocalFits(c, job, j, Ended)
    ensures forall l :: UpToDate(c.table, job, l) ==> UpToDate(c.table, job, Ended)
  {
  }

  lemma SharesBack(a: Job, b: Job)
    requires Shares(a, b)
    ensures Shares(b, a)
  {
  }

  lemma BothCareful(jobs: seq<Job>, i: nat, j: nat)
    requires Careful(jobs) && i < |jobs| && j < |jobs| && i != j
    ensures Shares(jobs[i], jobs[j]) ==> jobs[i].locksFirst && jobs[j].locksFirst
  {
    hide Shares;
    if Shares(jobs[i], jobs[j]) {
      SharesBack(jobs[i], jobs[j]);
    }
  }

  /** What one job writes, no other has read: it would have to hold the same lock. */
  lemma Undisturbed(c: Config, jobs: seq<Job>, j: nat, i: nat)
    requires Consistent(c, jobs) && Careful(jobs) && i < |jobs| && j < |jobs| && i != j && c.locals[j].Writing?
    ensures UpToDate(Settle(c.table, jobs[j], c.locals[j].seen), jobs[i], c.locals[i])
  {
    hide TableSound, Careful;
    BothCareful(jobs, i, j);
    var table' := Settle(c.table, jobs[j], c.locals[j].seen);
    assert UpToDate(c.table, jobs[i], c.locals[i]);
    if c.locals[i].Checked? || c.locals[i].Writing? {
      assert LocalFits(c, jobs[i], i, c.locals[i]) && LocalFits(c, jobs[j], j, c.locals[j]);
      assert forall s <- jobs[i].wants :: table'[s] == c.table[s];
    }
  }

  lemma SettledSound(table: Table, job: Job, l: Local)
    requires TableSound(table) && UpToDate(table, job, l) && l.Writing?
    ensures TableSound(Settle(table, job, l.seen))
  {
  }

  lemma CommitConsistent(c: Config, jobs: seq<Job>, j: nat)
    requires Consistent(c, jobs) && Careful(jobs) && j < |jobs| && c.locals[j].Writing?
    ensures Consistent(Commit(c, jobs[j], j, c.locals[j].seen), jobs)
  {
    hide LocalFits, UpToDate, TableSound, Unlocked, Careful, Settle;
    var (c', job) := (Commit(c, jobs[j], j, c.locals[j].seen), jobs[j]);
    SettledSound(c.table, job, c.locals[j]);
    forall i: nat | i < |jobs| ensures LocalFits(c', jobs[i], i, c'.locals[i]) &&
           UpToDate(c'.table, jobs[i], c'.locals[i]) {
      if i != j {
        Undisturbed(c, jobs, j, i);
        OthersHold(c, c', jobs, j, i);
      } else {
        NothingKnown(c', job, j);
        StillThere(c.table, job, c.locals[j], c.locals[j].seen);
      }
    }
  }

  lemma StillThere(table: Table, job: Job, l: Local, seen: map<Id, int>)
    requires UpToDate(table, job, l)
    ensures UpToDate(Settle(table, job, seen), job, Ended)
  {
  }

  lemma ReadConsistent(c: Config, jobs: seq<Job>, j: nat, l: Local)
    requires Consistent(c, jobs) && j < |jobs| && LocalFits(c, jobs[j], j, l)
    requires Present(c.table, jobs[j]) && (l.Checked? || l.Writing?) && l.seen == Seen(c.table, jobs[j])
    ensures Consistent(Read(c, jobs[j], j, l), jobs)
  {
    hide LocalFits, TableSound;
    assert UpToDate(c.table, jobs[j], c.locals[j]);
    if Fits(c.table, jobs[j]) {
      GotoConsistent(c, jobs, j, l);
    } else {
      ThrowConsistent(c, jobs, j);
    }
  }

  lemma NextConsistent(c: Config, jobs: seq<Job>, j: nat)
    requires Consistent(c, jobs) && Careful(jobs)
    ensures Consistent(Next(c, jobs, j), jobs)
  {
    hide Careful, TableSound, Seen, Fits, Read, Take, Commit, Positive, Holds;
    if j < |jobs| {
      var job := jobs[j];
      assert UpToDate(c.table, job, c.locals[j]) && LocalFits(c, job, j, c.locals[j]);
      match c.locals[j] {
        case Waiting =>
          if job.locksFirst {
            TakeConsistent(c, jobs, j, Locked);
          } else {
            ReadConsistent(c, jobs, j, Checked(Seen(c.table, job)));
          }
        case Locked => ReadConsistent(c, jobs, j, Writing(Seen(c.table, job)));
        case Checked(seen) => TakeConsistent(c, jobs, j, Writing(seen));
        case Writing(_) => CommitConsistent(c, jobs, j);
        case Ended =>
      }
    }
  }

  lemma {:induction false} ExecConsistent(table: Table, jobs: seq<Job>, schedule: seq<nat>)
    requires Careful(jobs) && TableSound(table) && Wellformed(table, jobs)
    ensures Consistent(Exec(Start(table, jobs), jobs, schedule), jobs)
  {
    hide Next, Careful, TableSound, Present, Positive;
    if schedule != [] {
      hide Consistent;
      ExecConsistent(table, jobs, schedule[..|schedule| - 1]);
      NextConsistent(Exec(Start(table, jobs), jobs, schedule[..|schedule| - 1]), jobs, schedule[|schedule| - 1]);
    }
  }

  // ---------------------------------------------------------------- settled twice

  function Want(job: Job, s: Id): int {
    if s in job.wants then job.wants[s] else 0
  }

  function Max(a: int, b: int): int {
    if a < b then b else a
  }

  function SourcesOf(jobs: seq<Job>): set<Id> {
    if jobs == [] then {} else SourcesOf(jobs[..|jobs| - 1]) + jobs[|jobs| - 1].wants.Keys
  }

  /** Nothing is settled yet, and each source has just enough for either of the two groups. */
  function Tight(jobs: seq<Job>, a: Job, b: Job): Table {
    map s | s in SourcesOf(jobs) :: Source(Max(0, Max(Want(a, s), Want(b, s))), 0, false)
  }

  lemma {:induction false} SourceListed(jobs: seq<Job>, j: nat)
    requires j < |jobs|
    ensures jobs[j].wants.Keys <= SourcesOf(jobs)
  {
    if j < |jobs| - 1 {
      SourceListed(jobs[..|jobs| - 1], j);
    }
  }

  /** `i` reads, `j` runs from beginning to end, `i` goes on with what it has read. */
  function Race(i: nat, j: nat): seq<nat> {
    [i, j, j, j, i, i]
  }

  lemma ExecNext(c: Config, jobs: seq<Job>, schedule: seq<nat>, j: nat)
    ensures Exec(c, jobs, schedule + [j]) == Next(Exec(c, jobs, schedule), jobs, j)
  {
    hide Next;
    assert (schedule + [j])[..|schedule|] == schedule;
  }

  lemma ExecNone(c: Config, jobs: seq<Job>)
    ensures Exec(c, jobs, []) == c
  {
  }

  function Three(c: Config, jobs: seq<Job>, j: nat): Config {
    Next(Next(Next(c, jobs, j), jobs, j), jobs, j)
  }

  function Two(c: Config, jobs: seq<Job>, i: nat): Config {
    Next(Next(c, jobs, i), jobs, i)
  }

  lemma ExecRace(c: Config, jobs: seq<Job>, i: nat, j: nat)
    ensures Exec(c, jobs, Race(i, j)) == Two(Three(Next(c, jobs, i), jobs, j), jobs, i)
  {
    hide Next, Exec;
    ExecNone(c, jobs);
    ExecNext(c, jobs, [], i);
    assert [] + [i] == [i];
    ExecNext(c, jobs, [i], j);
    assert [i] + [j] == [i, j];
    ExecNext(c, jobs, [i, j], j);
    assert [i, j] + [j] == [i, j, j];
    ExecNext(c, jobs, [i, j, j], j);
    assert [i, j, j] + [j] == [i, j, j, j];
    ExecNext(c, jobs, [i, j, j, j], i);
    assert [i, j, j, j] + [i] == [i, j, j, j, i];
    ExecNext(c, jobs, [i, j, j, j, i], i);
    assert [i, j, j, j, i] + [i] == Race(i, j);
  }

  /** A job that nobody is in the way of, and that fits, runs through in three statements. */
  lemma RunsThrough(c: Config, jobs: seq<Job>, j: nat)
    requires j < |jobs| == |c.locals| && Present(c.table, jobs[j]) && c.locals[j].Waiting? && c.locks == map[] &&
             Fits(c.table, jobs[j])
    ensures Three(c, jobs, j) == Config(Settle(c.table, jobs[j], Seen(c.table, jobs[j])), map[], c.locals[j := Ended])
  {
    hide Fits, Seen, Settle;
    var (job, seen) := (jobs[j], Seen(c.table, jobs[j]));
    var locks := map s | s in job.wants :: j;
    var c1 := Next(c, jobs, j);
    var c2 := Next(c1, jobs, j);
    if job.locksFirst {
      assert c1 == Config(c.table, locks, c.locals[j := Locked]);
    } else {
      assert c1 == Goto(c, j, Checked(seen));
    }
    assert c2 == Config(c.table, locks, c.locals[j := Writing(seen)]);
  }

  /** A job that has read before it locks adds its links, whatever has been added since. */
  lemma GoesOn(c: Config, jobs: seq<Job>, i: nat, seen: map<Id, int>)
    requires i < |jobs| == |c.locals| && Present(c.table, jobs[i]) && c.locals[i] == Checked(seen) && c.locks == map[]
    ensures Two(c, jobs, i) == Config(Settle(c.table, jobs[i], seen), map[], c.locals[i := Ended])
  {
    hide Settle;
    var locks := map s | s in jobs[i].wants :: i;
    assert Next(c, jobs, i) == Config(c.table, locks, c.locals[i := Writing(seen)]);
  }

  /** Two groups settle one source beyond its amount: each had just enough left to settle. */
  lemma SettledTwice(jobs: seq<Job>, i: nat, j: nat)
    requires i < |jobs| && j < |jobs| && i != j && Shares(jobs[i], jobs[j]) && !jobs[i].locksFirst
    requires forall k | 0 <= k < |jobs| :: Positive(jobs[k])
    ensures var table := Tight(jobs, jobs[i], jobs[j]);
            && TableSound(table) && Wellformed(table, jobs)
            && exists s <- table :: s in Exec(Start(table, jobs), jobs, Race(i, j)).table
                 && Exec(Start(table, jobs), jobs, Race(i, j)).table[s].settled > table[s].amount
  {
    hide Exec, Two, Three, SourcesOf;
    var (table, a, b) := (Tight(jobs, jobs[i], jobs[j]), jobs[i], jobs[j]);
    forall k | 0 <= k < |jobs| ensures Present(table, jobs[k]) {
      SourceListed(jobs, k);
    }
    var c0 := Start(table, jobs);
    ExecRace(c0, jobs, i, j);
    var c1 := Next(c0, jobs, i);
    assert c1 == Goto(c0, i, Checked(Seen(table, a)));
    RunsThrough(c1, jobs, j);
    var c2 := Three(c1, jobs, j);
    GoesOn(c2, jobs, i, Seen(table, a));
    var s :| s in a.wants && s in b.wants;
    assert Two(c2, jobs, i).table[s].settled == a.wants[s] + b.wants[s];
  }

  /** From every sound table, links stay within amounts and statuses right after every interleaving, whatever it is,
      exactly when groups that share a source all read it after locking it. As no group locks its sources before it
      reads them, that is: when no two groups at work at once share any. */
  lemma BoundsKeptIff(jobs: seq<Job>)
    requires forall k | 0 <= k < |jobs| :: Positive(jobs[k])
    ensures (forall table: Table, schedule | TableSound(table) && Wellformed(table, jobs) ::
               TableSound(Exec(Start(table, jobs), jobs, schedule).table))
       <==> Careful(jobs)
  {
    hide Exec, Start, Race, Positive, Wellformed, TableSound;
    if Careful(jobs) {
      forall table: Table, schedule | TableSound(table) && Wellformed(table, jobs)
        ensures TableSound(Exec(Start(table, jobs), jobs, schedule).table)
      {
        ExecConsistent(table, jobs, schedule);
      }
    } else {
      var i, j :| 0 <= i < j < |jobs| && Shares(jobs[i], jobs[j]) && !(jobs[i].locksFirst && jobs[j].locksFirst);
      if !jobs[i].locksFirst {
        BeyondBound(jobs, i, j);
      } else {
        SharesBack(jobs[i], jobs[j]);
        BeyondBound(jobs, j, i);
      }
    }
  }

  lemma BeyondBound(jobs: seq<Job>, i: nat, j: nat)
    requires i < |jobs| && j < |jobs| && i != j && Shares(jobs[i], jobs[j]) && !jobs[i].locksFirst
    requires forall k | 0 <= k < |jobs| :: Positive(jobs[k])
    ensures var table := Tight(jobs, jobs[i], jobs[j]);
            && TableSound(table) && Wellformed(table, jobs)
            && !TableSound(Exec(Start(table, jobs), jobs, Race(i, j)).table)
  {
    hide Exec, Race, Positive, Wellformed, Shares, Tight;
    SettledTwice(jobs, i, j);
    var table := Tight(jobs, jobs[i], jobs[j]);
    AmountsKept(Start(table, jobs), jobs, Race(i, j));
    assert Start(table, jobs).table == table;
  }

  lemma {:induction false} AmountsKept(c: Config, jobs: seq<Job>, schedule: seq<nat>)
    ensures var c' := Exec(c, jobs, schedule);
            forall s <- c.table :: s in c'.table && c'.table[s].amount == c.table[s].amount
  {
    hide Fits, Seen, Unlocked, Present;
    if schedule != [] {
      AmountsKept(c, jobs, schedule[..|schedule| - 1]);
    }
  }
}
