/** Reservations, their settlement, and postings as concurrent transactions, statement by statement, with row locks held
    to commit. Releasing and consuming read the reservation before they lock the account; what keeps them apart is the
    lock that their callers take on the row of the request first. */
module Interleaving {
  import opened Base
  import opened Accounts
  import opened Guarantee

  /** `guarded`: the caller has locked the row of the request that `ref` names. */
  datatype Job =
    | Reserving(acct: Acct, ref: Ref, amount: nat)
    | Applying(acct: Acct, ref: Ref, delta: Signed)
    | Settling(acct: Acct, ref: Ref, consume: bool, guarded: bool)

  /** Where a transaction stands: what it has read, and what it has written but not committed. */
  datatype Local =
    | Waiting
    | Locked
    | Loaded(row: Account)
    | Checked(row: Account)
    | Inserted(row: Account)
    | Updated(row: Account, written: Account)
    | Guarding
    | Read(hold: Base.Hold)
    | Held(hold: Base.Hold)
    | Fetched(row: Account, hold: Base.Hold)
    | Marked(row: Account, hold: Base.Hold)
    | Rewritten(row: Account, written: Account, hold: Base.Hold)
    | Ended(error: Option<Error>)

  datatype Lock = OnAccount(acct: Acct) | OnRequest(ref: Ref)

  /** The committed database, the row locks, and the jobs in the order in which they ended. */
  datatype Config = Config(db: Wallet, locks: map<Lock, nat>, locals: seq<Local>, order: seq<nat>)

  function Key(job: Job): HoldKey {
    HoldKey(job.ref, job.acct)
  }

  function Finish(c: Config, j: nat, db: Wallet, error: Option<Error>): Config
    requires j < |c.locals|
  {
    Config(db, map l | l in c.locks && c.locks[l] != j :: c.locks[l], c.locals[j := Ended(error)], c.order + [j])
  }

  function Goto(c: Config, j: nat, l: Local): Config
    requires j < |c.locals|
  {
    c.(locals := c.locals[j := l])
  }

  /** Takes a lock, or waits for the job that holds it. */
  function Take(c: Config, j: nat, lock: Lock, l: Local): Config
    requires j < |c.locals|
  {
    if lock in c.locks then c else Goto(c, j, l).(locks := c.locks[lock := j])
  }

  /** What a job makes of the account row it has read. */
  function NewRow(job: Job, row: Account, hold: Base.Hold): Account {
    match job
    case Reserving(_, _, amount) => row.(blocked := row.blocked + amount)
    case Applying(_, _, delta) => row.(balance := row.balance + delta.value)
    case Settling(_, _, _, _) => row.(blocked := row.blocked - hold.amount)
  }

  function Fate(job: Job): HoldStatus
    requires job.Settling?
  {
    if job.consume then Consumed else Released
  }

  /** The rows that a job inserts or marks, applied to the committed database with its update of the account. */
  function Commit(db: Wallet, job: Job, written: Account): Wallet {
    match job
    case Reserving(a, ref, amount) =>
      SetHold(db, HoldKey(ref, a), Base.Hold(amount, Reserved)).(accounts := db.accounts[a := written])
    case Applying(a, ref, delta) =>
      db.(accounts := db.accounts[a := written],
          ledger := db.ledger + [Posting(a, delta.value, delta.EntrySide(), ref, None)])
    case Settling(a, _, _, _) =>
      var marked := if Key(job) in db.holds then SetHold(db, Key(job), db.holds[Key(job)].(status := Fate(job)))
          else db;
      marked.(accounts := db.accounts[a := written])
  }

  /** The reservation is read before the account is locked. */
  function ReadHold(c: Config, job: Job, j: nat): Config
    requires j < |c.locals| && job.Settling?
  {
    if Key(job) !in c.db.holds then Finish(c, j, c.db, None) else
      var hold := c.db.holds[Key(job)];
      if job.consume && hold.status == Released then Finish(c, j, c.db, Some(AlreadyReleased))
      else if hold.status == Fate(job) then Finish(c, j, c.db, None)
      else Goto(c, j, Read(hold))
  }

  function NextReserving(c: Config, job: Job, j: nat): Config
    requires j < |c.locals| && job.Reserving? && job.acct in c.db.accounts
  {
    var a := job.acct;
    match c.locals[j]
    case Waiting => Take(c, j, OnAccount(a), Locked)
    case Locked => Goto(c, j, Loaded(c.db.accounts[a]))
    case Loaded(row) =>
      if Key(job) !in c.db.holds then Goto(c, j, Checked(row))
      else Finish(c, j, c.db, if c.db.holds[Key(job)].status == Released then Some(AlreadyReleased) else None)
    case Checked(row) =>
      if UsableCapacity(row) < job.amount then Finish(c, j, c.db, Some(InsufficientCredit))
      else Goto(c, j, Inserted(row))
    case Inserted(row) => Goto(c, j, Updated(row, NewRow(job, row, NOHOLD)))
    case Updated(_, written) => Finish(c, j, Commit(c.db, job, written), None)
    case _ => c
  }

  const NOHOLD := Base.Hold(0, Reserved)

  function NextApplying(c: Config, job: Job, j: nat): Config
    requires j < |c.locals| && job.Applying? && job.acct in c.db.accounts
  {
    var (a, delta) := (job.acct, job.delta);
    match c.locals[j]
    case Waiting => Take(c, j, OnAccount(a), Locked)
    case Locked => Goto(c, j, Loaded(c.db.accounts[a]))
    case Loaded(row) =>
      if row.balance + delta.value < row.blocked + row.min then Finish(c, j, c.db, Some(InsufficientCredit))
      else Goto(c, j, Checked(row))
    case Checked(row) =>
      if Taken(c.db.ledger, job.ref, a, delta.EntrySide()) then Finish(c, j, c.db, Some(DuplicatePosting))
      else Goto(c, j, Inserted(row))
    case Inserted(row) => Goto(c, j, Updated(row, NewRow(job, row, NOHOLD)))
    case Updated(_, written) => Finish(c, j, Commit(c.db, job, written), None)
    case _ => c
  }

  function NextSettling(c: Config, job: Job, j: nat): Config
    requires j < |c.locals| && job.Settling? && job.acct in c.db.accounts
  {
    match c.locals[j]
    case Waiting => if job.guarded then Take(c, j, OnRequest(job.ref), Guarding) else ReadHold(c, job, j)
    case Guarding => ReadHold(c, job, j)
    case Read(hold) => Take(c, j, OnAccount(job.acct), Held(hold))
    case Held(hold) => Goto(c, j, Fetched(c.db.accounts[job.acct], hold))
    case Fetched(row, hold) =>
      if hold.status == Consumed then Finish(c, j, c.db, None)
      else if row.blocked - hold.amount < 0 then Finish(c, j, c.db, Some(NegativeBlocked))
      else Goto(c, j, Marked(row, hold))
    case Marked(row, hold) => Goto(c, j, Rewritten(row, NewRow(job, row, hold), hold))
    case Rewritten(_, written, _) => Finish(c, j, Commit(c.db, job, written), None)
    case _ => c
  }

  /** The next statement of job `j`. A job that waits for a lock, or has ended, does nothing. */
  function Next(c: Config, jobs: seq<Job>, j: nat): Config {
    if j < |jobs| == |c.locals| && jobs[j].acct in c.db.accounts then
      match jobs[j]
      case Reserving(_, _, _) => NextReserving(c, jobs[j], j)
      case Applying(_, _, _) => NextApplying(c, jobs[j], j)
      case Settling(_, _, _, _) => NextSettling(c, jobs[j], j)
    else c
  }

  // ---------------------------------------------------------------- serial execution

  function Alone(w: Wallet, job: Job): Result<Wallet> {
    match job
    case Reserving(a, ref, amount) => ReserveFunds(w, a, ref, amount)
    case Applying(a, ref, delta) => ApplyTransaction(w, a, delta, ref, None)
    case Settling(a, ref, consume, _) => if consume then ConsumeFunds(w, a, ref) else ReleaseFunds(w, a, ref)
  }

  predicate InRange(jobs: seq<Job>, order: seq<nat>) {
    forall k | 0 <= k < |order| :: order[k] < |jobs|
  }

  function Serial(w: Wallet, jobs: seq<Job>, order: seq<nat>): Wallet
    requires InRange(jobs, order)
  {
    if order == [] then w else
      Kept(Serial(w, jobs, order[..|order| - 1]),
           Alone(Serial(w, jobs, order[..|order| - 1]), jobs[order[|order| - 1]]))
  }

  function ErrorOf(r: Result<Wallet>): Option<Error> {
    if r.Ok? then None else Some(r.error)
  }

  /** Every job that has ended reported what it reports when the jobs run one after the other in this order. */
  ghost predicate Reported(w0: Wallet, locals: seq<Local>, jobs: seq<Job>, order: seq<nat>)
    requires InRange(jobs, order) && |jobs| == |locals|
  {
    forall k | 0 <= k < |order| ::
           locals[order[k]] == Ended(ErrorOf(Alone(Serial(w0, jobs, order[..k]), jobs[order[k]])))
  }

  /** The order takes in the jobs that have ended, each once. */
  predicate OrderFits(locals: seq<Local>, order: seq<nat>) {
    && (forall j: nat | j < |locals| :: locals[j].Ended? <==> j in order)
    && (forall k, l | 0 <= k < l < |order| :: order[k] != order[l])
  }

  /** What is committed and what is reported is as if the jobs that have ended had run one after the other in some
      order. */
  ghost predicate Serializable(w0: Wallet, c: Config, jobs: seq<Job>) {
    |jobs| == |c.locals| && exists order :: SerialIn(w0, c, jobs, order)
  }

  ghost predicate SerialIn(w0: Wallet, c: Config, jobs: seq<Job>, order: seq<nat>)
    requires |jobs| == |c.locals|
  {
    InRange(jobs, order) && OrderFits(c.locals, order) && c.db == Serial(w0, jobs, order) &&
    Reported(w0, c.locals, jobs, order)
  }

  // ---------------------------------------------------------------- the invariant

  /** Two jobs that settle the same reservation both hold the row of its request. */
  predicate Exclusive(jobs: seq<Job>) {
    forall i, j | 0 <= i < j < |jobs| && jobs[i].Settling? && jobs[j].Settling? && Key(jobs[i]) == Key(jobs[j]) ::
      jobs[i].guarded && jobs[j].guarded
  }

  predicate HasAccount(l: Local) {
    !l.Waiting? && !l.Ended? && !l.Guarding? && !l.Read?
  }

  predicate HasRequest(job: Job, l: Local) {
    job.Settling? && job.guarded && !l.Waiting? && !l.Ended?
  }

  /** The states a job of its kind goes through. */
  predicate Own(job: Job, l: Local) {
    match l
    case Waiting | Ended(_) => true
    case Locked | Loaded(_) | Checked(_) | Inserted(_) | Updated(_, _) => !job.Settling?
    case _ => job.Settling? && (l.Guarding? ==> job.guarded)
  }

  /** The reservation that a settling job has read is still as it read it, and was there to be settled. */
  predicate Fresh(db: Wallet, job: Job, hold: Base.Hold)
    requires job.Settling?
  {
    Key(job) in db.holds && db.holds[Key(job)] == hold && hold.status != Released &&
    (job.consume ==> hold.status == Reserved)
  }

  /** What a job has read still holds, and what it will write is what it would write alone. */
  predicate UpToDate(db: Wallet, job: Job, l: Local) {
    job.acct in db.accounts && Own(job, l) &&
    var now := db.accounts[job.acct];
    match l
    case Waiting | Locked | Guarding | Ended(_) => true
    case Loaded(row) => row == now
    case Checked(row) => row == now && Checks(db, job, 1)
    case Inserted(row) => row == now && Checks(db, job, 2)
    case Updated(row, written) => row == now && Checks(db, job, 2) && written == NewRow(job, row, NOHOLD)
    case Read(hold) => Fresh(db, job, hold)
    case Held(hold) => Fresh(db, job, hold)
    case Fetched(row, hold) => row == now && Fresh(db, job, hold)
    case Marked(row, hold) => row == now && Fresh(db, job, hold) && hold.status == Reserved &&
      row.blocked >= hold.amount
    case Rewritten(row, written, hold) =>
      row == now && Fresh(db, job, hold) && hold.status == Reserved && row.blocked >= hold.amount &&
      written == NewRow(job, row, hold)
  }

  /** The checks passed so far: of the reservation then the capacity, or of the balance then the unique index. */
  predicate Checks(db: Wallet, job: Job, count: nat)
    requires job.acct in db.accounts && !job.Settling?
  {
    var (a, row) := (job.acct, db.accounts[job.acct]);
    match job
    case Reserving(_, ref, amount) => HoldKey(ref, a) !in db.holds && (count > 1 ==> UsableCapacity(row) >= amount)
    case Applying(_, ref, delta) =>
      && row.balance + delta.value >= row.blocked + row.min
      && (count > 1 ==> !Taken(db.ledger, ref, a, delta.EntrySide()))
  }

  predicate LocksFit(c: Config, jobs: seq<Job>) {
    forall j: nat | j < |c.locals| && j < |jobs| ::
      && (HasAccount(c.locals[j]) ==> OnAccount(jobs[j].acct) in c.locks && c.locks[OnAccount(jobs[j].acct)] == j)
      && (HasRequest(jobs[j], c.locals[j]) ==>
          OnRequest(jobs[j].ref) in c.locks && c.locks[OnRequest(jobs[j].ref)] == j)
  }

  ghost predicate Consistent(w0: Wallet, c: Config, jobs: seq<Job>) {
    && |jobs| == |c.locals| && InRange(jobs, c.order)
    && c.db == Serial(w0, jobs, c.order)
    && LocksFit(c, jobs) && OrderFits(c.locals, c.order)
    && (forall j: nat | j < |jobs| :: UpToDate(c.db, jobs[j], c.locals[j]))
    && Reported(w0, c.locals, jobs, c.order)
  }

  // ---------------------------------------------------------------- lemmas

  /** What a commit leaves alone: everything on other accounts, and every other reservation. */
  lemma Undisturbed(db: Wallet, job: Job, l: Local, written: Account, other: Job, l': Local)
    requires UpToDate(db, other, l') && UpToDate(db, job, l) && (l.Updated? || l.Rewritten?)
    requires HasAccount(l') ==> other.acct != job.acct
    requires l'.Read? && job.Settling? ==> Key(other) != Key(job)
    ensures UpToDate(Commit(db, job, written), other, l')
  {
    hide UsableCapacity, MovesOf, Taken;
    if job.Applying? && other.Applying? {
      TakenAfter(db.ledger, Posting(job.acct, job.delta.value, job.delta.EntrySide(), job.ref, None), other.ref,
                 other.acct, other.delta.EntrySide());
    }
  }

  lemma SerialNext(w0: Wallet, jobs: seq<Job>, order: seq<nat>, j: nat)
    requires InRange(jobs, order) && j < |jobs|
    ensures InRange(jobs, order + [j])
    ensures Serial(w0, jobs, order + [j]) == Kept(Serial(w0, jobs, order), Alone(Serial(w0, jobs, order), jobs[j]))
    ensures forall k | 0 <= k <= |order| :: (order + [j])[..k] == order[..k]
  {
    assert (order + [j])[..|order|] == order;
  }

  /** The database a job leaves when it ends: what it commits, or what there was. */
  ghost predicate Leaves(c: Config, job: Job, l: Local, db: Wallet) {
    db == c.db || ((l.Updated? || l.Rewritten?) && db == Commit(c.db, job, l.written))
  }

  /** A job that ends has done what it does alone in the database of that moment. */
  lemma FinishConsistent(w0: Wallet, c: Config, jobs: seq<Job>, j: nat, db: Wallet, error: Option<Error>)
    requires Consistent(w0, c, jobs) && Exclusive(jobs) && j < |jobs| && !c.locals[j].Ended?
    requires db == Kept(c.db, Alone(c.db, jobs[j])) && error == ErrorOf(Alone(c.db, jobs[j]))
    requires Leaves(c, jobs[j], c.locals[j], db)
    ensures Consistent(w0, Finish(c, j, db, error), jobs)
  {
    hide Alone, Serial, Commit, UpToDate, Kept, Leaves, Exclusive;
    var c' := Finish(c, j, db, error);
    SerialNext(w0, jobs, c.order, j);
    forall i: nat | i < |jobs| ensures UpToDate(c'.db, jobs[i], c'.locals[i]) {
      StillUpToDate(c, jobs, j, db, error, i);
    }
    assert j !in c.order;
  }

  lemma StillUpToDate(c: Config, jobs: seq<Job>, j: nat, db: Wallet, error: Option<Error>, i: nat)
    requires |jobs| == |c.locals| && j < |jobs| && i < |jobs| && LocksFit(c, jobs) && Exclusive(jobs)
    requires UpToDate(c.db, jobs[i], c.locals[i]) && UpToDate(c.db, jobs[j], c.locals[j])
    requires Leaves(c, jobs[j], c.locals[j], db)
    ensures UpToDate(db, jobs[i], Finish(c, j, db, error).locals[i])
  {
    hide Checks, Alone, Taken, UsableCapacity, NewRow;
    if db != c.db {
      if i == j {
        OpenAfter(c.db, jobs[j], c.locals[j].written, jobs[j].acct);
      } else {
        Apart(c, jobs, j, i);
        hide UpToDate, LocksFit, Exclusive, Commit;
        Undisturbed(c.db, jobs[j], c.locals[j], c.locals[j].written, jobs[i], c.locals[i]);
      }
    }
  }

  lemma OpenAfter(db: Wallet, job: Job, written: Account, a: Acct)
    requires a in db.accounts
    ensures a in Commit(db, job, written).accounts
  {
  }

  /** Two jobs are never about to write and holding what is written. */
  lemma Apart(c: Config, jobs: seq<Job>, j: nat, i: nat)
    requires |jobs| == |c.locals| && j < |jobs| && i < |jobs| && i != j && LocksFit(c, jobs) && Exclusive(jobs)
    requires UpToDate(c.db, jobs[i], c.locals[i]) && UpToDate(c.db, jobs[j], c.locals[j])
    requires c.locals[j].Updated? || c.locals[j].Rewritten?
    ensures HasAccount(c.locals[i]) ==> jobs[i].acct != jobs[j].acct
    ensures c.locals[i].Read? && jobs[j].Settling? ==> Key(jobs[i]) != Key(jobs[j])
  {
    hide Checks, Taken, UsableCapacity, NewRow, Fresh;
    assert HasAccount(c.locals[j]);
  }

  lemma GotoConsistent(w0: Wallet, c: Config, jobs: seq<Job>, j: nat, l: Local)
    requires Consistent(w0, c, jobs) && j < |jobs| && !c.locals[j].Ended? && !l.Ended? && UpToDate(c.db, jobs[j], l)
    requires HasAccount(l) ==> HasAccount(c.locals[j])
    requires HasRequest(jobs[j], l) ==> HasRequest(jobs[j], c.locals[j])
    ensures Consistent(w0, Goto(c, j, l), jobs)
  {
    hide Alone, Serial, UpToDate;
  }

  lemma TakeConsistent(w0: Wallet, c: Config, jobs: seq<Job>, j: nat, lock: Lock, l: Local)
    requires Consistent(w0, c, jobs) && j < |jobs| && !c.locals[j].Ended? && !l.Ended? && UpToDate(c.db, jobs[j], l)
    requires HasAccount(l) ==> HasAccount(c.locals[j]) || lock == OnAccount(jobs[j].acct)
    requires HasRequest(jobs[j], l) ==> HasRequest(jobs[j], c.locals[j]) || lock == OnRequest(jobs[j].ref)
    ensures Consistent(w0, Take(c, j, lock, l), jobs)
  {
    hide Alone, Serial, UpToDate;
  }

  /** What reserving and posting come to alone, from the checks they have passed. */
  lemma AloneAs(db: Wallet, job: Job)
    requires job.acct in db.accounts && !job.Settling?
    ensures job.Reserving? && Key(job) in db.holds ==>
              Alone(db, job) == if db.holds[Key(job)].status == Released then Err(AlreadyReleased) else Ok(db)
    ensures job.Reserving? && Checks(db, job, 1) && !Checks(db, job, 2) ==> Alone(db, job) == Err(InsufficientCredit)
    ensures job.Applying? && !Checks(db, job, 1) ==> Alone(db, job) == Err(InsufficientCredit)
    ensures job.Applying? && Checks(db, job, 1) && !Checks(db, job, 2) ==> Alone(db, job) == Err(DuplicatePosting)
    ensures Checks(db, job, 2) ==> Alone(db, job) == Ok(Commit(db, job, NewRow(job, db.accounts[job.acct], NOHOLD)))
  {
    hide Taken;
  }

  /** What settling comes to alone. */
  lemma SettlesAs(db: Wallet, job: Job)
    requires job.acct in db.accounts && job.Settling?
    ensures Key(job) !in db.holds ==> Alone(db, job) == Ok(db)
    ensures Key(job) in db.holds ==>
              var (hold, row) := (db.holds[Key(job)], db.accounts[job.acct]);
              Alone(db, job) ==
                if hold.status == Released then if job.consume then Err(AlreadyReleased) else Ok(db)
                else if hold.status == Consumed then Ok(db)
                else if row.blocked - hold.amount < 0 then Err(NegativeBlocked)
                else Ok(Commit(db, job, NewRow(job, row, hold)))
  {
  }

  lemma ReservingConsistent(w0: Wallet, c: Config, jobs: seq<Job>, j: nat)
    requires Consistent(w0, c, jobs) && Exclusive(jobs) && j < |jobs| && jobs[j].Reserving?
    ensures Consistent(w0, Next(c, jobs, j), jobs)
  {
    hide Alone, Serial, Taken, UsableCapacity, Commit, LocksFit, OrderFits, Reported, Exclusive, NewRow, Consistent,
         Finish, Goto, Take;
    Current(w0, c, jobs, j);
    var (job, l) := (jobs[j], c.locals[j]);
    AloneAs(c.db, job);
    match l {
      case Waiting => TakeConsistent(w0, c, jobs, j, OnAccount(job.acct), Locked);
      case Locked => GotoConsistent(w0, c, jobs, j, Loaded(c.db.accounts[job.acct]));
      case Loaded(row) =>
        if Key(job) !in c.db.holds {
          GotoConsistent(w0, c, jobs, j, Checked(row));
        } else {
          FinishConsistent(w0, c, jobs, j, c.db,
                           if c.db.holds[Key(job)].status == Released then Some(AlreadyReleased) else None);
        }
      case Checked(row) =>
        if UsableCapacity(row) < job.amount {
          FinishConsistent(w0, c, jobs, j, c.db, Some(InsufficientCredit));
        } else {
          GotoConsistent(w0, c, jobs, j, Inserted(row));
        }
      case Inserted(row) => GotoConsistent(w0, c, jobs, j, Updated(row, NewRow(job, row, NOHOLD)));
      case Updated(_, written) => FinishConsistent(w0, c, jobs, j, Commit(c.db, job, written), None);
      case _ =>
    }
  }

  lemma Current(w0: Wallet, c: Config, jobs: seq<Job>, j: nat)
    requires Consistent(w0, c, jobs) && j < |jobs|
    ensures |jobs| == |c.locals| && UpToDate(c.db, jobs[j], c.locals[j])
  {
    hide UpToDate, Serial, Reported;
  }

  lemma ApplyingConsistent(w0: Wallet, c: Config, jobs: seq<Job>, j: nat)
    requires Consistent(w0, c, jobs) && Exclusive(jobs) && j < |jobs| && jobs[j].Applying?
    ensures Consistent(w0, Next(c, jobs, j), jobs)
  {
    hide Alone, Serial, Taken, UsableCapacity, Commit, LocksFit, OrderFits, Reported, Exclusive, NewRow, Consistent,
         Finish, Goto, Take;
    Current(w0, c, jobs, j);
    var (job, l) := (jobs[j], c.locals[j]);
    AloneAs(c.db, job);
    match l {
      case Waiting => TakeConsistent(w0, c, jobs, j, OnAccount(job.acct), Locked);
      case Locked => GotoConsistent(w0, c, jobs, j, Loaded(c.db.accounts[job.acct]));
      case Loaded(row) =>
        if row.balance + job.delta.value < row.blocked + row.min {
          FinishConsistent(w0, c, jobs, j, c.db, Some(InsufficientCredit));
        } else {
          GotoConsistent(w0, c, jobs, j, Checked(row));
        }
      case Checked(row) =>
        if Taken(c.db.ledger, job.ref, job.acct, job.delta.EntrySide()) {
          FinishConsistent(w0, c, jobs, j, c.db, Some(DuplicatePosting));
        } else {
          GotoConsistent(w0, c, jobs, j, Inserted(row));
        }
      case Inserted(row) => GotoConsistent(w0, c, jobs, j, Updated(row, NewRow(job, row, NOHOLD)));
      case Updated(_, written) => FinishConsistent(w0, c, jobs, j, Commit(c.db, job, written), None);
      case _ =>
    }
  }

  lemma ReadConsistent(w0: Wallet, c: Config, jobs: seq<Job>, j: nat)
    requires Consistent(w0, c, jobs) && Exclusive(jobs) && j < |jobs| == |c.locals| && jobs[j].Settling?
    requires if jobs[j].guarded then c.locals[j].Guarding? else c.locals[j].Waiting?
    ensures Consistent(w0, ReadHold(c, jobs[j], j), jobs)
  {
    hide Alone, Serial, Commit, LocksFit, OrderFits, Reported, Exclusive, NewRow, Consistent, Finish, Goto;
    Current(w0, c, jobs, j);
    var job := jobs[j];
    SettlesAs(c.db, job);
    if Key(job) !in c.db.holds || c.db.holds[Key(job)].status == Fate(job) {
      FinishConsistent(w0, c, jobs, j, c.db, None);
    } else if job.consume && c.db.holds[Key(job)].status == Released {
      FinishConsistent(w0, c, jobs, j, c.db, Some(AlreadyReleased));
    } else {
      GotoConsistent(w0, c, jobs, j, Read(c.db.holds[Key(job)]));
    }
  }

  lemma SettlingConsistent(w0: Wallet, c: Config, jobs: seq<Job>, j: nat)
    requires Consistent(w0, c, jobs) && Exclusive(jobs) && j < |jobs| && jobs[j].Settling?
    ensures Consistent(w0, Next(c, jobs, j), jobs)
  {
    hide Alone, Serial, Commit, LocksFit, OrderFits, Reported, Exclusive, NewRow, Consistent, Finish, Goto, Take,
         ReadHold;
    Current(w0, c, jobs, j);
    var (job, l) := (jobs[j], c.locals[j]);
    SettlesAs(c.db, job);
    match l {
      case Waiting =>
        if job.guarded {
          TakeConsistent(w0, c, jobs, j, OnRequest(job.ref), Guarding);
        } else {
          ReadConsistent(w0, c, jobs, j);
        }
      case Guarding => ReadConsistent(w0, c, jobs, j);
      case Read(hold) => TakeConsistent(w0, c, jobs, j, OnAccount(job.acct), Held(hold));
      case Held(hold) => GotoConsistent(w0, c, jobs, j, Fetched(c.db.accounts[job.acct], hold));
      case Fetched(row, hold) =>
        if hold.status == Consumed {
          FinishConsistent(w0, c, jobs, j, c.db, None);
        } else if row.blocked - hold.amount < 0 {
          FinishConsistent(w0, c, jobs, j, c.db, Some(NegativeBlocked));
        } else {
          GotoConsistent(w0, c, jobs, j, Marked(row, hold));
        }
      case Marked(row, hold) => GotoConsistent(w0, c, jobs, j, Rewritten(row, NewRow(job, row, hold), hold));
      case Rewritten(_, written, _) => FinishConsistent(w0, c, jobs, j, Commit(c.db, job, written), None);
      case _ =>
    }
  }

  /** No statement of any job disturbs another, and each job that ends has done what it does alone. */
  lemma NextConsistent(w0: Wallet, c: Config, jobs: seq<Job>, j: nat)
    requires Consistent(w0, c, jobs) && Exclusive(jobs)
    ensures Consistent(w0, Next(c, jobs, j), jobs)
  {
    hide Consistent, Exclusive, NextReserving, NextApplying, NextSettling;
    if j < |jobs| {
      match jobs[j] {
        case Reserving(_, _, _) => ReservingConsistent(w0, c, jobs, j);
        case Applying(_, _, _) => ApplyingConsistent(w0, c, jobs, j);
        case Settling(_, _, _, _) => SettlingConsistent(w0, c, jobs, j);
      }
    }
  }

  // ---------------------------------------------------------------- schedules

  function Start(w0: Wallet, jobs: seq<Job>): Config {
    Config(w0, map[], seq(|jobs|, _ => Waiting), [])
  }

  /** Any schedule: at each point one job, whichever it is, executes its next statement. */
  function Exec(c: Config, jobs: seq<Job>, schedule: seq<nat>): Config {
    if schedule == [] then c else Next(Exec(c, jobs, schedule[..|schedule| - 1]), jobs, schedule[|schedule| - 1])
  }

  lemma {:induction false} ExecConsistent(w0: Wallet, jobs: seq<Job>, schedule: seq<nat>)
    requires Exclusive(jobs) && forall j | 0 <= j < |jobs| :: jobs[j].acct in w0.accounts
    ensures Consistent(w0, Exec(Start(w0, jobs), jobs, schedule), jobs)
  {
    hide Next, Consistent, Exclusive;
    if schedule == [] {
      StartConsistent(w0, jobs);
    } else {
      ExecConsistent(w0, jobs, schedule[..|schedule| - 1]);
      NextConsistent(w0, Exec(Start(w0, jobs), jobs, schedule[..|schedule| - 1]), jobs, schedule[|schedule| - 1]);
    }
  }

  lemma StartConsistent(w0: Wallet, jobs: seq<Job>)
    requires forall j | 0 <= j < |jobs| :: jobs[j].acct in w0.accounts
    ensures Consistent(w0, Start(w0, jobs), jobs)
  {
  }

  lemma {:induction false} SerialSound(w0: Wallet, jobs: seq<Job>, order: seq<nat>)
    requires Sound(w0) && InRange(jobs, order)
    ensures Sound(Serial(w0, jobs, order))
  {
    hide Sound, ReserveFunds, ApplyTransaction, ReleaseFunds, ConsumeFunds, SameFunds;
    if order != [] {
      var (w, job) := (Serial(w0, jobs, order[..|order| - 1]), jobs[order[|order| - 1]]);
      SerialSound(w0, jobs, order[..|order| - 1]);
      match job {
        case Reserving(a, ref, amount) => HoldKeeps(w, a, ref, amount, Other(ref));
        case Applying(a, ref, delta) => PostKeeps(w, a, ref, delta, Other(ref));
        case Settling(a, ref, consume, _) =>
          LetGoKeeps(w, a, ref, Other(ref));
          UseKeeps(w, a, ref, Other(ref));
      }
    }
  }

  function Other(ref: Ref): (other: Ref)
    ensures other != ref
  {
    if ref.Adjustment? then Withdraw(0) else Adjustment(0)
  }

  /** When jobs that settle the same reservation both hold the row of its request, then whatever the interleaving, the
      committed database is that of the jobs run one after the other in the order in which they ended, each reports what
      it reports there, and no account is overdrawn or promised twice. */
  lemma EveryInterleavingIsSerial(w0: Wallet, jobs: seq<Job>, schedule: seq<nat>)
    requires Sound(w0) && Exclusive(jobs) && forall j | 0 <= j < |jobs| :: jobs[j].acct in w0.accounts
    ensures var c := Exec(Start(w0, jobs), jobs, schedule);
            && |jobs| == |c.locals| && SerialIn(w0, c, jobs, c.order)
            && Sound(c.db)
  {
    hide Sound, Exec, Serial;
    ExecConsistent(w0, jobs, schedule);
    SerialSound(w0, jobs, Exec(Start(w0, jobs), jobs, schedule).order);
  }

  // ---------------------------------------------------------------- without the callers' lock

  /** Both settle one reservation, which is held. */
  predicate Contested(w0: Wallet, jobs: seq<Job>, g: nat, u: nat) {
    && g < |jobs| && u < |jobs| && g != u && jobs[g].Settling? && jobs[u].Settling? && Key(jobs[g]) == Key(jobs[u])
    && Key(jobs[g]) in w0.holds && w0.holds[Key(jobs[g])].status == Reserved && w0.holds[Key(jobs[g])].amount > 0
    && jobs[g].acct in w0.accounts
  }

  /** Job `j` runs `n` statements on end. */
  function Steps(c: Config, jobs: seq<Job>, j: nat, n: nat): Config
    decreases n
  {
    if n == 0 then c else Steps(Next(c, jobs, j), jobs, j, n - 1)
  }

  function Often(j: nat, n: nat): seq<nat> {
    seq(n, _ => j)
  }

  lemma {:induction false} ExecAppend(c: Config, jobs: seq<Job>, s: seq<nat>, t: seq<nat>)
    ensures Exec(c, jobs, s + t) == Exec(Exec(c, jobs, s), jobs, t)
  {
    hide Next;
    if t == [] {
      assert s + t == s;
    } else {
      ExecAppend(c, jobs, s, t[..|t| - 1]);
      assert (s + t)[..|s + t| - 1] == s + t[..|t| - 1];
    }
  }

  lemma ExecOne(c: Config, jobs: seq<Job>, j: nat)
    ensures Exec(c, jobs, [j]) == Next(c, jobs, j)
  {
    hide Next;
    assert [j][..0] == [] && Exec(c, jobs, []) == c;
  }

  lemma {:induction false} ExecOften(c: Config, jobs: seq<Job>, j: nat, n: nat)
    ensures Exec(c, jobs, Often(j, n)) == Steps(c, jobs, j, n)
    decreases n
  {
    hide Next;
    if n > 0 {
      ExecOften(Next(c, jobs, j), jobs, j, n - 1);
      ExecOne(c, jobs, j);
      ExecAppend(c, jobs, [j], Often(j, n - 1));
      assert Often(j, n) == [j] + Often(j, n - 1);
    }
  }

  /** The race: `u` reads the reservation, `g` settles it, `u` goes on with what it has read. */
  function Race(g: nat, u: nat): seq<nat> {
    [u] + Often(g, 7) + Often(u, 5)
  }

  lemma ExecRace(c: Config, jobs: seq<Job>, g: nat, u: nat)
    ensures Exec(c, jobs, Race(g, u)) == Steps(Steps(Next(c, jobs, u), jobs, g, 7), jobs, u, 5)
  {
    hide Next, Exec, Steps, Often;
    ExecAppend(c, jobs, [u] + Often(g, 7), Often(u, 5));
    ExecAppend(c, jobs, [u], Often(g, 7));
    ExecOne(c, jobs, u);
    ExecOften(Next(c, jobs, u), jobs, g, 7);
    ExecOften(Steps(Next(c, jobs, u), jobs, g, 7), jobs, u, 5);
  }

  predicate Unlocked(c: Config, job: Job) {
    OnAccount(job.acct) !in c.locks && OnRequest(job.ref) !in c.locks
  }

  predicate Able(c: Config, jobs: seq<Job>, j: nat) {
    |jobs| == |c.locals| && j < |jobs| && jobs[j].Settling? && jobs[j].acct in c.db.accounts
  }

  /** From the reservation it has read, a job settles it, or finds too little blocked. */
  lemma FromRead(c: Config, jobs: seq<Job>, j: nat, hold: Base.Hold)
    requires Able(c, jobs, j) && c.locals[j] == Read(hold) && hold.status == Reserved &&
             OnAccount(jobs[j].acct) !in c.locks
    ensures var (c', row) := (Steps(c, jobs, j, 5), c.db.accounts[jobs[j].acct]);
            if row.blocked - hold.amount < 0 then
              c'.db == c.db && c'.locals == c.locals[j := Ended(Some(NegativeBlocked))]
            else
              c'.db == Commit(c.db, jobs[j], NewRow(jobs[j], row, hold)) && c'.locals == c.locals[j := Ended(None)]
    ensures forall l <- Steps(c, jobs, j, 5).locks :: l in c.locks && c.locks[l] != j
  {
    hide Commit, NewRow;
    var (a, row) := (jobs[j].acct, c.db.accounts[jobs[j].acct]);
    var c1 := Next(c, jobs, j);
    assert c1 == Goto(c, j, Held(hold)).(locks := c.locks[OnAccount(a) := j]);
    var c2 := Next(c1, jobs, j);
    assert c2 == Goto(c1, j, Fetched(row, hold));
    var c3 := Next(c2, jobs, j);
    var c4 := Next(c3, jobs, j);
    var c5 := Next(c4, jobs, j);
    FiveSteps(c, c1, c2, c3, c4, c5, jobs, j);
    if row.blocked - hold.amount < 0 {
      assert c3 == Finish(c2, j, c.db, Some(NegativeBlocked));
      assert c5 == c3;
    } else {
      assert c3 == Goto(c2, j, Marked(row, hold));
      assert c4 == Goto(c3, j, Rewritten(row, NewRow(jobs[j], row, hold), hold));
    }
  }

  lemma FiveSteps(c: Config, c1: Config, c2: Config, c3: Config, c4: Config, c5: Config, jobs: seq<Job>, j: nat)
    requires c1 == Next(c, jobs, j) && c2 == Next(c1, jobs, j) && c3 == Next(c2, jobs, j) && c4 == Next(c3, jobs, j) &&
             c5 == Next(c4, jobs, j)
    ensures Steps(c, jobs, j, 5) == c5
  {
    hide Next;
    assert Steps(c3, jobs, j, 2) == Steps(c4, jobs, j, 1) == c5;
    assert Steps(c, jobs, j, 5) == Steps(c1, jobs, j, 4) == Steps(c2, jobs, j, 3);
  }

  /** A settlement that nobody is in the way of. */
  lemma SettlesThrough(c: Config, jobs: seq<Job>, j: nat)
    requires Able(c, jobs, j) && c.locals[j].Waiting? && Unlocked(c, jobs[j])
    requires Key(jobs[j]) in c.db.holds && c.db.holds[Key(jobs[j])].status == Reserved
    requires c.db.accounts[jobs[j].acct].blocked >= c.db.holds[Key(jobs[j])].amount
    ensures var (c', hold) := (Steps(c, jobs, j, 7), c.db.holds[Key(jobs[j])]);
            && c'.db == Commit(c.db, jobs[j], NewRow(jobs[j], c.db.accounts[jobs[j].acct], hold))
            && c'.locals == c.locals[j := Ended(None)]
            && forall l <- c'.locks :: l in c.locks && c.locks[l] != j
  {
    hide Commit, NewRow, Steps;
    var hold := c.db.holds[Key(jobs[j])];
    if jobs[j].guarded {
      var c1 := Next(c, jobs, j);
      assert c1 == Goto(c, j, Guarding).(locks := c.locks[OnRequest(jobs[j].ref) := j]);
      var c2 := Next(c1, jobs, j);
      assert c2 == Goto(c1, j, Read(hold));
      StepsTwo(c, c1, c2, jobs, j);
      FromRead(c2, jobs, j, hold);
    } else {
      var c1 := Next(c, jobs, j);
      assert c1 == Goto(c, j, Read(hold));
      FromRead(c1, jobs, j, hold);
      var c6 := Steps(c1, jobs, j, 5);
      assert Next(c6, jobs, j) == c6;
      StepsSeven(c, c1, c6, jobs, j);
    }
  }

  lemma StepsTwo(c: Config, c1: Config, c2: Config, jobs: seq<Job>, j: nat)
    requires c1 == Next(c, jobs, j) && c2 == Next(c1, jobs, j)
    ensures Steps(c, jobs, j, 7) == Steps(c2, jobs, j, 5)
  {
    hide Next;
    assert Steps(c, jobs, j, 7) == Steps(c1, jobs, j, 6);
  }

  lemma StepsSeven(c: Config, c1: Config, c6: Config, jobs: seq<Job>, j: nat)
    requires c1 == Next(c, jobs, j) && c6 == Steps(c1, jobs, j, 5) && Next(c6, jobs, j) == c6
    ensures Steps(c, jobs, j, 7) == c6
  {
    hide Next;
    StepsAppend(c1, jobs, j, 5, 1);
    assert Steps(c6, jobs, j, 1) == Steps(c6, jobs, j, 0);
  }

  lemma {:induction false} StepsAppend(c: Config, jobs: seq<Job>, j: nat, m: nat, n: nat)
    ensures Steps(c, jobs, j, m + n) == Steps(Steps(c, jobs, j, m), jobs, j, n)
    decreases m
  {
    hide Next;
    if m > 0 {
      StepsAppend(Next(c, jobs, j), jobs, j, m - 1, n);
    }
  }

  /** What the race comes to: unblocked twice, or stopped by the guard. */
  lemma RaceOutcome(w0: Wallet, jobs: seq<Job>, g: nat, u: nat)
    requires Contested(w0, jobs, g, u) && !jobs[u].guarded &&
             w0.accounts[jobs[g].acct].blocked >= w0.holds[Key(jobs[g])].amount
    ensures var (c, a, amount) :=
            (Exec(Start(w0, jobs), jobs, Race(g, u)), jobs[g].acct, w0.holds[Key(jobs[g])].amount);
            && |c.locals| == |jobs| && a in c.db.accounts
            && (forall j: nat | j < |jobs| :: c.locals[j].Ended? <==> j == g || j == u)
            && (c.locals[u] == Ended(Some(NegativeBlocked)) ||
                c.db.accounts[a].blocked == w0.accounts[a].blocked - 2 * amount)
  {
    hide Exec, Steps, Next;
    var (c0, hold, a) := (Start(w0, jobs), w0.holds[Key(jobs[g])], jobs[g].acct);
    ExecRace(c0, jobs, g, u);
    var c1 := Next(c0, jobs, u);
    FirstReads(w0, jobs, g, u);
    SettlesThrough(c1, jobs, g);
    var c2 := Steps(c1, jobs, g, 7);
    assert forall l <- c2.locks :: l in c1.locks;
    FromRead(c2, jobs, u, hold);
  }

  lemma FirstReads(w0: Wallet, jobs: seq<Job>, g: nat, u: nat)
    requires Contested(w0, jobs, g, u) && !jobs[u].guarded
    ensures Next(Start(w0, jobs), jobs, u) == Goto(Start(w0, jobs), u, Read(w0.holds[Key(jobs[g])]))
  {
  }

  /** One after the other, two settlements of one reservation unblock it once, and the guard does not fire. */
  lemma SerialOnce(w0: Wallet, jobs: seq<Job>, x: nat, y: nat)
    requires Contested(w0, jobs, x, y) && w0.accounts[jobs[x].acct].blocked >= w0.holds[Key(jobs[x])].amount
    ensures var (a, amount, w) := (jobs[x].acct, w0.holds[Key(jobs[x])].amount, Serial(w0, jobs, [x, y]));
            && a in w.accounts && w.accounts[a].blocked == w0.accounts[a].blocked - amount
            && Serial(w0, jobs, []) == w0 && Alone(w0, jobs[x]).Ok?
            && Alone(Serial(w0, jobs, [x]), jobs[y]) != Err(NegativeBlocked)
  {
    hide Alone;
    assert [] + [x] == [x] && [x] + [y] == [x, y];
    SettlesAs(w0, jobs[x]);
    SerialNext(w0, jobs, [], x);
    SerialNext(w0, jobs, [x], y);
    SettlesAs(Serial(w0, jobs, [x]), jobs[y]);
  }

  predicate OneOf(m: nat, j: nat, k: nat) {
    m == j || m == k
  }

  lemma TwoInOrder(order: seq<nat>, g: nat, u: nat)
    requires g != u && forall j :: j in order <==> j == g || j == u
    requires forall k, l | 0 <= k < l < |order| :: order[k] != order[l]
    ensures order == [g, u] || order == [u, g]
  {
    assert g in order && u in order;
    var k: nat :| k < |order| && order[k] == g;
    var l: nat :| l < |order| && order[l] == u;
    forall m: nat | m < |order| ensures OneOf(m, k, l) {
      assert order[m] in order;
    }
    assert |order| > 2 ==> OneOf(0, k, l) && OneOf(1, k, l) && OneOf(2, k, l);
  }

  lemma OutcomeOnce(w0: Wallet, c: Config, jobs: seq<Job>, order: seq<nat>, g: nat, u: nat)
    requires Contested(w0, jobs, g, u) && w0.accounts[jobs[g].acct].blocked >= w0.holds[Key(jobs[g])].amount
    requires |jobs| == |c.locals| && SerialIn(w0, c, jobs, order)
    requires forall j: nat | j < |jobs| :: c.locals[j].Ended? <==> j == g || j == u
    ensures var a := jobs[g].acct;
            a in c.db.accounts && c.db.accounts[a].blocked == w0.accounts[a].blocked - w0.holds[Key(jobs[g])].amount
    ensures c.locals[u] != Ended(Some(NegativeBlocked))
  {
    hide Alone, Serial;
    forall j | j in order ensures j == g || j == u {
      assert j < |jobs|;
    }
    TwoInOrder(order, g, u);
    assert order[..1] == [order[0]] && order[..0] == [];
    SerialOnce(w0, jobs, order[0], order[1]);
    assert Reported(w0, c.locals, jobs, [order[0], order[1]]);
  }

  /** Without the callers' lock on one of them, two jobs that settle one held reservation can leave the platform as no
      serial run leaves it, whatever other jobs there are. */
  lemma UnguardedRace(w0: Wallet, jobs: seq<Job>, g: nat, u: nat)
    requires Sound(w0) && Contested(w0, jobs, g, u) && !jobs[u].guarded
    ensures !Serializable(w0, Exec(Start(w0, jobs), jobs, Race(g, u)), jobs)
  {
    hide Sound, Exec, SerialIn, Race, Start;
    var c := Exec(Start(w0, jobs), jobs, Race(g, u));
    BlockedCovers(w0, Key(jobs[g]));
    RaceOutcome(w0, jobs, g, u);
    forall order {
      NoSuchOrder(w0, c, jobs, order, g, u);
    }
  }

  lemma NoSuchOrder(w0: Wallet, c: Config, jobs: seq<Job>, order: seq<nat>, g: nat, u: nat)
    requires Contested(w0, jobs, g, u) && w0.accounts[jobs[g].acct].blocked >= w0.holds[Key(jobs[g])].amount
    requires |jobs| == |c.locals| && jobs[g].acct in c.db.accounts
    requires forall j: nat | j < |jobs| :: c.locals[j].Ended? <==> j == g || j == u
    requires || c.locals[u] == Ended(Some(NegativeBlocked))
             || c.db.accounts[jobs[g].acct].blocked ==
                w0.accounts[jobs[g].acct].blocked - 2 * w0.holds[Key(jobs[g])].amount
    ensures !SerialIn(w0, c, jobs, order)
  {
    hide SerialIn;
    if SerialIn(w0, c, jobs, order) {
      OutcomeOnce(w0, c, jobs, order, g, u);
    }
  }

  /** Where the reservations that are settled more than once are held, every interleaving is serial exactly when the
      callers of those settlements hold the rows of the requests. */
  lemma SerialIffExclusive(w0: Wallet, jobs: seq<Job>)
    requires Sound(w0) && forall j | 0 <= j < |jobs| :: jobs[j].acct in w0.accounts
    requires forall i, j | 0 <= i < j < |jobs| && jobs[i].Settling? && jobs[j].Settling? &&
             Key(jobs[i]) == Key(jobs[j]) :: Contested(w0, jobs, i, j)
    ensures (forall schedule :: Serializable(w0, Exec(Start(w0, jobs), jobs, schedule), jobs)) <==> Exclusive(jobs)
  {
    hide Sound, Exec, Start, Serializable, Race;
    if Exclusive(jobs) {
      forall schedule ensures Serializable(w0, Exec(Start(w0, jobs), jobs, schedule), jobs) {
        EveryInterleavingIsSerial(w0, jobs, schedule);
        InOwnOrder(w0, Exec(Start(w0, jobs), jobs, schedule), jobs);
      }
    } else {
      var i, j :| 0 <= i < j < |jobs| && jobs[i].Settling? && jobs[j].Settling? && Key(jobs[i]) == Key(jobs[j])
                  && !(jobs[i].guarded && jobs[j].guarded);
      assert Contested(w0, jobs, i, j);
      if !jobs[j].guarded {
        UnguardedRace(w0, jobs, i, j);
        assert !Serializable(w0, Exec(Start(w0, jobs), jobs, Race(i, j)), jobs);
      } else {
        UnguardedRace(w0, jobs, j, i);
        assert !Serializable(w0, Exec(Start(w0, jobs), jobs, Race(j, i)), jobs);
      }
    }
  }

  lemma InOwnOrder(w0: Wallet, c: Config, jobs: seq<Job>)
    requires |jobs| == |c.locals| && SerialIn(w0, c, jobs, c.order)
    ensures Serializable(w0, c, jobs)
  {
  }
}
