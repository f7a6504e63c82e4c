/** The concurrent models and the transactions they stand for: a job that runs alone, statement by statement, writes
    what its transaction writes of the same rows. */
module Alone {
  import opened Base
  import opened Accounts
  import opened Limits
  import opened State
  import opened Frames
  import P2P
  import P2PInvariant
  import P2PProtocol
  import Deposits
  import Remittances
  import Groups
  import Asked
  import Decisions
  import Records
  import DepositRace
  import SettlementRace
  import TotalsRace

  // ---------------------------------------------------------------- decisions on a deposit

  /** The statuses a direct deposit can have. */
  function StatusSeen(status: RequestStatus): Option<DepositRace.Status> {
    match status
    case Pending => Some(DepositRace.Pending)
    case Approved => Some(DepositRace.Approved)
    case Rejected => Some(DepositRace.Rejected)
    case Cancelled => Some(DepositRace.Cancelled)
    case Reversed => Some(DepositRace.Reversed)
    case _ => None
  }

  /** `row` is what the database has on the deposit. */
  predicate ShowsDeposit(db: Db, id: Id, row: DepositRace.Row) {
    && id in db.deposits && db.deposits[id].purpose.Direct?
    && var (d, ref) := (db.deposits[id], Ref.Deposit(id));
       && StatusSeen(d.status) == Some(row.status)
       && row.linked == d.tx.Some?
       && row.credited == Taken(db.wallet.ledger, ref, Acct(d.user, IRR), Plus(d.amount).EntrySide())
       && row.debited == Taken(db.wallet.ledger, ref, Acct(d.user, IRR), Minus(d.amount).EntrySide())
  }

  /** A transaction that throws leaves everything as it is. */
  function Committed(db: Db, r: Result<Db>): Db {
    if r.Ok? then r.value else db
  }

  /** In a sound state the status says what the row is and what is posted. */
  lemma DepositShown(db: Db, id: Id, row: DepositRace.Row)
    requires Inv(db) && id in db.deposits && db.deposits[id].purpose.Direct?
    requires StatusSeen(db.deposits[id].status) == Some(row.status)
    ensures ShowsDeposit(db, id, row) <==> DepositRace.Agrees(row)
  {
    hide Inv, MovesOf;
    Asked.DepositMoves(db, id);
    Decisions.DepositStatus(db, id);
    var (d, ref) := (db.deposits[id], Ref.Deposit(id));
    var (credit, debit) := (MoveOf(Acct(d.user, IRR), Plus(d.amount)), MoveOf(Acct(d.user, IRR), Minus(d.amount)));
    assert d.status.Approved? ==> credit in MovesOf(db.wallet.ledger, ref);
    assert d.status.Reversed? ==> credit in MovesOf(db.wallet.ledger, ref) && debit in MovesOf(db.wallet.ledger, ref);
  }

  lemma Decided(job: DepositRace.Job, row: DepositRace.Row)
    ensures DepositRace.Three(DepositRace.Start(row, [job]), [job], 0).row ==
              match job case Approve => DepositRace.Approval(row) case Reject => DepositRace.Rejection(row)
              case Cancel(_, payable) => DepositRace.Cancellation(row, row, payable)
  {
    hide DepositRace.Approval, DepositRace.Rejection, DepositRace.Cancellation;
    var c := DepositRace.Start(row, [job]);
    var c1 := DepositRace.Next(c, [job], 0);
    var c2 := DepositRace.Next(c1, [job], 0);
    if job.Cancel? && !job.locksFirst {
      assert c1 == DepositRace.Config(row, None, [DepositRace.Read(row)]);
      assert c2 == DepositRace.Config(row, Some(0), [DepositRace.Writing(row)]);
    } else {
      assert c1 == DepositRace.Config(row, None, [DepositRace.Locking]);
      assert c2 == DepositRace.Config(row, Some(0), [DepositRace.Holding]);
    }
  }

  /** The transaction that a job stands for. */
  function Decision(db: Db, id: Id, job: DepositRace.Job): Result<Db> {
    match job
    case Approve => Deposits.Approve(db, id)
    case Reject => Deposits.Reject(db, id)
    case Cancel(_, _) => Deposits.Cancel(db, id)
  }

  lemma DecisionKeepsInv(db: Db, id: Id, job: DepositRace.Job)
    requires Inv(db)
    ensures Inv(Committed(db, Decision(db, id, job)))
  {
    hide Inv, Deposits.Approve, Deposits.Reject, Deposits.Cancel, OnlyOn;
    if Decision(db, id, job).Ok? {
      match job {
        case Approve => Deposits.ApproveKeepsInv(db, id);
        case Reject => Deposits.RejectKeepsInv(db, id);
        case Cancel(_, _) => Deposits.CancelKeepsInv(db, id);
      }
    }
  }

  /** The status a decision leaves, and that it leaves the terms. */
  lemma DecisionStatus(db: Db, id: Id, job: DepositRace.Job)
    requires Inv(db) && id in db.deposits && db.deposits[id].amount >= 0
    requires job.Cancel? ==>
               (job.payable <==>
                UsableCapacity(Row(db.wallet, Acct(db.deposits[id].user, IRR))) >= db.deposits[id].amount)
    ensures var db' := Committed(db, Decision(db, id, job));
            && id in db'.deposits && db'.deposits[id].purpose == db.deposits[id].purpose
            && var s := db.deposits[id].status;
               db'.deposits[id].status == match job
                 case Approve => if s.Pending? then RequestStatus.Approved else s
                 case Reject => if s.Pending? then RequestStatus.Rejected else s
                 case Cancel(_, payable) =>
                   if s.Pending? || s.Rejected? then RequestStatus.Cancelled
                   else if s.Approved? && payable then Reversed else s
  {
    hide Inv, Deposits.Approve, Deposits.Reject, Deposits.Cancel, UsableCapacity, Row, Sound, QuotaSound, IdsSound,
         RowsSound, TotalsSound, LinksSound, ReversalsSound, Explained;
    Known(db, Ref.Deposit(id));
    UsableAt(db.wallet, Acct(db.deposits[id].user, IRR));
    Decisions.OnDeposit(db, id);
    if Decision(db, id, job).Ok? {
      match job {
        case Approve => Records.DepositApproved(db, id);
        case Reject => Records.DepositRejected(db, id);
        case Cancel(_, _) => Records.DepositCancelled(db, id);
      }
    }
  }

  /** A decision on a direct deposit, run alone from its first statement to its last, leaves the row and the postings
      that its transaction leaves. */
  lemma DepositAlone(db: Db, id: Id, job: DepositRace.Job, row: DepositRace.Row)
    requires Inv(db) && ShowsDeposit(db, id, row) && db.deposits[id].amount >= 0
    requires job.Cancel? ==>
               (job.payable <==>
                UsableCapacity(Row(db.wallet, Acct(db.deposits[id].user, IRR))) >= db.deposits[id].amount)
    ensures ShowsDeposit(Committed(db, Decision(db, id, job)), id,
                         DepositRace.Three(DepositRace.Start(row, [job]), [job], 0).row)
  {
    hide Inv, Decision, UsableCapacity, Row, ShowsDeposit, DepositRace.Three;
    var db' := Committed(db, Decision(db, id, job));
    ShownStatus(db, id, row);
    DepositShown(db, id, row);
    Decided(job, row);
    DecisionKeepsInv(db, id, job);
    DecisionStatus(db, id, job);
    DepositShown(db', id, DepositRace.Three(DepositRace.Start(row, [job]), [job], 0).row);
  }

  lemma ShownStatus(db: Db, id: Id, row: DepositRace.Row)
    requires ShowsDeposit(db, id, row)
    ensures id in db.deposits && db.deposits[id].purpose.Direct?
    ensures StatusSeen(db.deposits[id].status) == Some(row.status)
  {
    hide Taken;
  }

  // ---------------------------------------------------------------- totals of P2P requests

  function TotalAt(db: Db, cell: TotalsRace.Cell): Option<int> {
    match cell.row
    case OfWithdrawal(w) =>
      if w !in db.withdrawals then None
      else Some(if cell.field.AssignedTotal? then db.withdrawals[w].assignedTotal else db.withdrawals[w].settledTotal)
    case OfDeposit(d) =>
      if d !in db.deposits then None
      else Some(if cell.field.AssignedTotal? then db.deposits[d].assignedTotal else db.deposits[d].settledTotal)
  }

  /** `totals` are those that the database has on its requests. */
  ghost predicate ShowsTotals(db: Db, totals: TotalsRace.Totals) {
    forall cell :: if cell in totals then TotalAt(db, cell) == Some(totals[cell]) else TotalAt(db, cell).None?
  }

  function TotalsAlone(totals: TotalsRace.Totals, job: TotalsRace.Job): TotalsRace.Totals {
    TotalsRace.Four(TotalsRace.Start(totals, [job]), [job], 0).totals
  }

  lemma TotalsWritten(totals: TotalsRace.Totals, job: TotalsRace.Job)
    requires TotalsRace.Present(totals, job)
    ensures TotalsAlone(totals, job) == TotalsRace.Write(totals, job, totals[job.First()], totals[job.Second()])
  {
    hide TotalsRace.Four, TotalsRace.Write;
    TotalsRace.RunsThrough(TotalsRace.Start(totals, [job]), [job], 0);
  }

  /** What one allocation moves is what the job adds. */
  lemma MovedTotals(db: Db, db': Db, id: Id, job: TotalsRace.Job, totals: TotalsRace.Totals)
    requires P2PInvariant.Moves(db, db', id) && ShowsTotals(db, totals)
    requires job.withdrawal == db'.allocations[id].withdrawal && job.deposit == db'.allocations[id].deposit
    requires P2PInvariant.LiveAmount(db'.allocations, id) - P2PInvariant.LiveAmount(db.allocations, id) ==
             if job.field.AssignedTotal? then job.delta else 0
    requires P2PInvariant.SettledAmount(db'.allocations, id) - P2PInvariant.SettledAmount(db.allocations, id) ==
             if job.field.SettledTotal? then job.delta else 0
    ensures ShowsTotals(db', TotalsAlone(totals, job))
  {
    hide TotalsAlone, DeriveStatus;
    var (first, second) := (job.First(), job.Second());
    assert TotalAt(db, first).Some? && TotalAt(db, second).Some?;
    assert TotalsRace.Present(totals, job);
    TotalsWritten(totals, job);
    forall cell
      ensures if cell in TotalsAlone(totals, job) then TotalAt(db', cell) == Some(TotalsAlone(totals, job)[cell])
              else TotalAt(db', cell).None? {
      assert if cell in totals then TotalAt(db, cell) == Some(totals[cell]) else TotalAt(db, cell).None?;
    }
  }

  /** Assigning an item, settling, cancelling and expiring an allocation, each run alone, leave the totals that their
      transactions leave. Only assigning reads them under its locks. */
  lemma AssignmentAlone(db: Db, w: Id, item: P2P.Item, expiresAt: int, totals: TotalsRace.Totals)
    requires Inv(db) && ShowsTotals(db, totals)
    requires w in db.withdrawals && db.withdrawals[w].purpose.P2P? && item.amount > 0
    requires item.amount <= db.withdrawals[w].amount - db.withdrawals[w].assignedTotal
    requires P2P.AssignOne(db, w, item, expiresAt).Ok?
    ensures ShowsTotals(P2P.AssignOne(db, w, item, expiresAt).value,
                        TotalsAlone(totals,
                                    TotalsRace.Job(w, item.deposit, TotalsRace.AssignedTotal, item.amount, true)))
  {
    hide Inv, ShowsTotals, TotalsAlone, DeriveStatus, SplitHold, Split;
    P2PInvariant.AssignOneMoves(db, w, item, expiresAt);
    MovedTotals(db, P2P.AssignOne(db, w, item, expiresAt).value, db.nextId,
                TotalsRace.Job(w, item.deposit, TotalsRace.AssignedTotal, item.amount, true), totals);
  }

  lemma SettlementAlone(db: Db, id: Id, mode: P2P.Mode, now: int, totals: TotalsRace.Totals)
    requires Inv(db) && ShowsTotals(db, totals) && P2P.Finalize(db, id, mode, now).Ok?
    requires id in db.allocations && !db.allocations[id].status.Settled?
    ensures var al := db.allocations[id];
            ShowsTotals(P2P.Finalize(db, id, mode, now).value,
                        TotalsAlone(totals, TotalsRace.Job(al.withdrawal, al.deposit, TotalsRace.SettledTotal,
                                                           al.amount, false)))
  {
    hide Inv, ShowsTotals, TotalsAlone, P2P.Finalize;
    var (db', al) := (P2P.Finalize(db, id, mode, now).value, db.allocations[id]);
    P2PInvariant.FinalizeSucceedsIff(db, id, mode, now);
    P2PProtocol.SoundAt(db, id);
    P2PInvariant.FinalizeMoves(db, id, mode, now);
    P2PInvariant.FinalizeSettles(db, id, mode, now);
    SettledAmountKept(db, id, mode, now);
    MovedTotals(db, db', id, TotalsRace.Job(al.withdrawal, al.deposit, TotalsRace.SettledTotal, al.amount, false),
                totals);
  }

  lemma SettledAmountKept(db: Db, id: Id, mode: P2P.Mode, now: int)
    requires P2P.Finalize(db, id, mode, now).Ok?
    ensures var db' := P2P.Finalize(db, id, mode, now).value;
            id in db.allocations && id in db'.allocations && db'.allocations[id].amount == db.allocations[id].amount
  {
    hide ConsumeFunds, OpenAll, PostAll, Consume, DeriveStatus, Stays, RemittancesAside, Decides;
  }

  lemma GivingBackAlone(db: Db, id: Id, status: AllocationStatus, totals: TotalsRace.Totals)
    requires Inv(db) && ShowsTotals(db, totals) && P2P.Loaded(db, id)
    requires Live(db.allocations[id].status) && !db.allocations[id].status.Settled?
    requires status.Cancelled? || (status.Expired? && db.allocations[id].status.Assigned?)
    ensures var al := db.allocations[id];
            ShowsTotals(P2P.GiveBack(db, id, status),
                        TotalsAlone(totals, TotalsRace.Job(al.withdrawal, al.deposit, TotalsRace.AssignedTotal,
                                                           -al.amount, false)))
  {
    hide Inv, ShowsTotals, TotalsAlone, DeriveStatus, MergeHold, Merge;
    var al := db.allocations[id];
    P2PInvariant.GiveBackMoves(db, id, status);
    MovedTotals(db, P2P.GiveBack(db, id, status), id,
                TotalsRace.Job(al.withdrawal, al.deposit, TotalsRace.AssignedTotal, -al.amount, false), totals);
  }

  // ---------------------------------------------------------------- groups that settle

  /** `table` is what the database has on the remittances made so far. */
  ghost predicate ShowsSources(db: Db, table: SettlementRace.Table, until: Id) {
    forall id :: (id in table <==> id in db.remittances && id < until) &&
      (id in table ==>
       var r := db.remittances[id];
       table[id] == SettlementRace.Source(r.amount, LinkedInto(db.links, id), r.status.Completed?))
  }

  /** What the job wants is what the legs ask of remittances made before. */
  ghost predicate Wants(db: Db, legs: seq<Remittances.LegInput>, job: SettlementRace.Job) {
    forall id :: (id in job.wants <==> id in db.remittances && Groups.AskedInto(legs, id) != 0) &&
      (id in job.wants ==> job.wants[id] == Groups.AskedInto(legs, id))
  }

  lemma SourceSettled(db: Db, sender: UserId, legs: seq<Remittances.LegInput>, at: Stamp, id: Id)
    requires Inv(db) && Remittances.CreateGroup(db, sender, legs, at).Ok? && id in db.remittances
    ensures var db' := Remittances.CreateGroup(db, sender, legs, at).value;
            var (now, asked) := (LinkedInto(db.links, id), Groups.AskedInto(legs, id));
            && id < db.nextId && id in db'.remittances
            && var (r, r') := (db.remittances[id], db'.remittances[id]);
               && r'.amount == r.amount && now + asked <= r.amount && LinkedInto(db'.links, id) == now + asked
               && (r'.status.Completed? <==> if asked == 0 then r.status.Completed? else now + asked == r.amount)
  {
    hide Inv, Sound, QuotaSound, RowsSound, TotalsSound, LinksSound, ReversalsSound, Explained, Remittances.CreateGroup,
         LinkedInto, LinkedFrom, Groups.AskedInto, Groups.Asked, Remittances.LegRows, Groups.LegsGood,
         Groups.SettlementsGood;
    Known(db, Ref.Remittance(0));
    Remittances.LegsInRows(db.remittances, sender, legs, db.nextId, at);
    Groups.GroupSettles(db, sender, legs, at, id);
    Groups.GroupBounded(db, sender, legs, at, id);
    HasLegs(db, sender, legs, at);
    Groups.GroupLinks(db, sender, legs, at, 0, id);
  }

  lemma HasLegs(db: Db, sender: UserId, legs: seq<Remittances.LegInput>, at: Stamp)
    requires Inv(db) && Remittances.CreateGroup(db, sender, legs, at).Ok?
    ensures legs != []
  {
    hide Inv, Remittances.CreateGroup, Groups.SettlementsGood;
    Groups.GroupAccepted(db, sender, legs, at);
  }

  /** Before a group is made and after, the remittances made before are the same ones. */
  lemma SameSources(db: Db, sender: UserId, legs: seq<Remittances.LegInput>, at: Stamp, id: Id)
    requires Inv(db) && Remittances.CreateGroup(db, sender, legs, at).Ok?
    ensures id in db.remittances <==>
            id in Remittances.CreateGroup(db, sender, legs, at).value.remittances && id < db.nextId
  {
    hide Inv, Sound, QuotaSound, RowsSound, TotalsSound, LinksSound, ReversalsSound, Explained, Remittances.CreateGroup,
         Remittances.LegRows, Remittances.Inputs;
    Known(db, Ref.Remittance(0));
    Remittances.LegsInRows(db.remittances, sender, legs, db.nextId, at);
    Groups.GroupTables(db, sender, legs, at);
  }

  /** A group run alone fits what it reads, and leaves of the remittances made before what its transaction leaves. */
  lemma GroupAlone(db: Db, sender: UserId, legs: seq<Remittances.LegInput>, at: Stamp, table: SettlementRace.Table,
                   job: SettlementRace.Job)
    requires Inv(db) && Remittances.CreateGroup(db, sender, legs, at).Ok?
    requires ShowsSources(db, table, db.nextId) && Wants(db, legs, job)
    ensures SettlementRace.Present(table, job) && SettlementRace.Fits(table, job)
    ensures ShowsSources(Remittances.CreateGroup(db, sender, legs, at).value,
                         SettlementRace.Three(SettlementRace.Start(table, [job]), [job], 0).table, db.nextId)
  {
    hide Inv, Remittances.CreateGroup, LinkedInto, Groups.AskedInto, SettlementRace.Three;
    var db' := Remittances.CreateGroup(db, sender, legs, at).value;
    forall id <- job.wants
      ensures id in table && table[id].settled + job.wants[id] <= table[id].amount {
      SourceSettled(db, sender, legs, at, id);
    }
    SettlementRace.RunsThrough(SettlementRace.Start(table, [job]), [job], 0);
    var after := SettlementRace.Settle(table, job, SettlementRace.Seen(table, job));
    forall id: Id
      ensures id in after <==> id in db'.remittances && id < db.nextId
      ensures id in after ==>
                var r := db'.remittances[id];
                after[id] == SettlementRace.Source(r.amount, LinkedInto(db'.links, id), r.status.Completed?) {
      SameSources(db, sender, legs, at, id);
      if id in db.remittances {
        SourceSettled(db, sender, legs, at, id);
      }
    }
  }
}
