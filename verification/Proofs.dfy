/** Proofs of payment over every run: how many submissions succeed, how many files stay attached, and what deleting
    files does. */
module Proofs {
  import opened Base
  import opened Accounts
  import opened Limits
  import opened State
  import opened Frames
  import opened Machine
  import Withdrawals
  import P2P
  import P2PInvariant
  import P2PProtocol
  import Files
  import Runs

  // ---------------------------------------------------------------- what a run does to the proofs of one allocation

  predicate Submits(mode: P2P.Mode, db: Db, e: Event, id: Id) {
    e.step.SubmitProof? && e.step.id == id && Next(mode, db, e).Ok?
  }

  /** Attachments to the allocation that one step drops with a file. */
  function Drops(mode: P2P.Mode, db: Db, e: Event, id: Id): nat {
    if e.step.DeleteFile? && e.step.force && Next(mode, db, e).Ok? then Files.Copies(db.proofs, id, e.step.file) else 0
  }

  /** Successful submissions along a run. */
  function Submitted(mode: P2P.Mode, db: Db, events: seq<Event>, id: Id): nat {
    if events == [] then 0 else
      var (front, e) := (events[..|events| - 1], events[|events| - 1]);
      Submitted(mode, db, front, id) + if Submits(mode, Run(mode, db, front), e, id) then 1 else 0
  }

  /** Files attached by them. */
  function Attached(mode: P2P.Mode, db: Db, events: seq<Event>, id: Id): nat {
    if events == [] then 0 else
      var (front, e) := (events[..|events| - 1], events[|events| - 1]);
      Attached(mode, db, front, id) + if Submits(mode, Run(mode, db, front), e, id) then |e.step.files| else 0
  }

  /** Attachments dropped along a run. */
  function Dropped(mode: P2P.Mode, db: Db, events: seq<Event>, id: Id): nat {
    if events == [] then 0 else
      var (front, e) := (events[..|events| - 1], events[|events| - 1]);
      Dropped(mode, db, front, id) + Drops(mode, Run(mode, db, front), e, id)
  }

  lemma SubmissionCounts(db: Db, step: Step, id: Id)
    requires step.SubmitProof?
    requires P2P.SubmitProof(db, step.id, step.user, step.files, step.filesFound, step.filesOwned, step.now).Ok?
    ensures var db' := P2P.SubmitProof(db, step.id, step.user, step.files, step.filesFound, step.filesOwned,
                                       step.now).value;
            ProofsOf(db'.proofs, id) == ProofsOf(db.proofs, id) + if step.id == id then |step.files| else 0
    ensures ProofsOf(db.proofs, step.id) < 2 && |step.files| > 0
  {
    hide ProofsOf, P2P.ProofsFor, Stays, RemittancesAside;
    Files.ProofsAppend(db.proofs, P2P.ProofsFor(step.id, step.files), id);
    Files.ProofsForCount(step.id, step.files, id);
  }

  lemma DeletionCounts(db: Db, step: Step, id: Id)
    requires step.DeleteFile? && Files.DeleteAsAdmin(db, step.file, step.force, step.found, step.elsewhere).Ok?
    ensures var db' := Files.DeleteAsAdmin(db, step.file, step.force, step.found, step.elsewhere).value;
            ProofsOf(db'.proofs, id) ==
            ProofsOf(db.proofs, id) - if step.force then Files.Copies(db.proofs, id, step.file) else 0
  {
    hide ProofsOf, Files.WithoutFile, Files.Copies, Files.Attached, Stays, RemittancesAside;
    Files.WithoutFileCount(db.proofs, step.file, id);
  }

  lemma StepCounts(mode: P2P.Mode, db: Db, e: Event, id: Id)
    ensures ProofsOf(After(mode, db, e).proofs, id)
         == ProofsOf(db.proofs, id) + (if Submits(mode, db, e, id) then |e.step.files| else 0) - Drops(mode, db, e, id)
    ensures Submits(mode, db, e, id) ==> ProofsOf(db.proofs, id) < 2 && |e.step.files| > 0
  {
    hide ProofsOf, P2P.SubmitProof, Files.DeleteAsAdmin, Files.Copies, Stays, RemittancesAside;
    if Next(mode, db, e).Ok? {
      if e.step.SubmitProof? {
        SubmissionCounts(db, e.step, id);
      } else if e.step.DeleteFile? {
        DeletionCounts(db, e.step, id);
      } else {
        StepStays(mode, db, e);
      }
    }
  }

  /** Over any run the proofs of an allocation are those it had, with what was attached, without what was dropped.
      However often files are deleted, no more submissions succeed than two for which nothing had to be dropped, and one
      for each drop. */
  lemma {:induction false} SubmissionsBounded(mode: P2P.Mode, db: Db, events: seq<Event>, id: Id)
    ensures ProofsOf(Run(mode, db, events).proofs, id)
         == ProofsOf(db.proofs, id) + Attached(mode, db, events, id) - Dropped(mode, db, events, id)
    ensures Submitted(mode, db, events, id) <= Attached(mode, db, events, id)
    ensures Submitted(mode, db, events, id) <= 2 + Dropped(mode, db, events, id)
  {
    hide ProofsOf, After, Submits, Drops;
    if events != [] {
      var (front, e) := (events[..|events| - 1], events[|events| - 1]);
      SubmissionsBounded(mode, db, front, id);
      StepCounts(mode, Run(mode, db, front), e, id);
    }
  }

  // ---------------------------------------------------------------- what a settlement rests on

  /** The allocation carries the time at which proof was submitted. */
  predicate Marked(db: Db, id: Id) {
    id in db.allocations && db.allocations[id].proofSubmitted
  }

  lemma StepMarks(mode: P2P.Mode, db: Db, e: Event, id: Id)
    requires P2PProtocol.ProtocolSound(db)
    ensures Marked(After(mode, db, e), id) <==> Marked(db, id) || Submits(mode, db, e, id)
  {
    hide P2PProtocol.ProtocolSound, P2P.SubmitProof, Stays, P2P.ProofsFor, ProofsOf;
    StepEvolves(mode, db, e);
    var db' := After(mode, db, e);
    if id in db.allocations {
      assert P2PProtocol.Evolved(db.allocations[id], db'.allocations[id], mode);
    }
    if e.step.SubmitProof? && Next(mode, db, e).Ok? {
      var step := e.step;
      P2PProtocol.SubmitProofEvolves(db, step.id, step.user, step.files, step.filesFound, step.filesOwned, step.now,
                                     mode);
    }
  }

  lemma {:induction false} RunMarks(mode: P2P.Mode, db: Db, events: seq<Event>, id: Id)
    requires P2PProtocol.ProtocolSound(db)
    ensures Marked(Run(mode, db, events), id) <==> Marked(db, id) || Submitted(mode, db, events, id) > 0
  {
    hide P2PProtocol.ProtocolSound, After, Marked, Submits;
    if events != [] {
      var (front, e) := (events[..|events| - 1], events[|events| - 1]);
      RunMarks(mode, db, front, id);
      Runs.ProtocolRun(mode, db, front);
      StepMarks(mode, Run(mode, db, front), e, id);
    }
  }

  /** With a fixed confirmation mode, in every reachable state a settled allocation has exactly the confirmations of the
      mode, and proof was submitted to it. What is still attached of that is all of it less what was dropped: something,
      exactly when not everything was dropped. */
  lemma SettledOnEvidence(mode: P2P.Mode, events: seq<Event>, id: Id)
    requires var db := Run(mode, EMPTY, events); id in db.allocations && db.allocations[id].status.Settled?
    ensures var db := Run(mode, EMPTY, events);
            && P2PProtocol.Evidence(db.allocations[id], mode)
            && Submitted(mode, EMPTY, events, id) > 0
            && (ProofsOf(db.proofs, id) > 0 <==> Dropped(mode, EMPTY, events, id) < Attached(mode, EMPTY, events, id))
  {
    hide P2PProtocol.ProtocolSound, Run, Submitted, Attached, Dropped;
    Runs.EmptySound(mode);
    Runs.SettledHaveEvidence(mode, events);
    RunMarks(mode, EMPTY, events, id);
    SubmissionsBounded(mode, EMPTY, events, id);
  }

  // ---------------------------------------------------------------- from an empty platform

  const AT := Stamp(0, 0)

  function Do(step: Step): Event {
    Event(step, AT, map[])
  }

  /** User 1 has ten and asks for a payout of it; user 2 is to pay it: allocation 2. */
  function Opening(): seq<Event> {
    [Do(OpenAccount(1, IRR)), Do(Adjust(1, IRR, 10, 0)), Do(CreateWithdrawal(1, 10, Purpose.P2P, None, true)),
     Do(CreateDeposit(2, 10, Purpose.P2P)), Do(Assign(0, [P2P.Item(1, 10)], None, true, 100))]
  }

  function Submission(file: Id): Event {
    Do(SubmitProof(2, 2, [file], true, true, 0))
  }

  function Deletion(file: Id): Event {
    Do(DeleteFile(file, true, true, false))
  }

  lemma Snoc(mode: P2P.Mode, db: Db, front: seq<Event>, e: Event)
    ensures Run(mode, db, front + [e]) == After(mode, Run(mode, db, front), e)
  {
    hide After;
    assert (front + [e])[..|front|] == front;
  }

  lemma RunNothing(mode: P2P.Mode, db: Db)
    ensures Run(mode, db, []) == db
  {
  }

  lemma OpenEvent(mode: P2P.Mode, db: Db)
    ensures After(mode, db, Do(OpenAccount(1, IRR))) == db.(wallet := GetOrCreate(db.wallet, Acct(1, IRR)))
  {
    hide GetOrCreate;
  }

  lemma AdjustEvent(mode: P2P.Mode, db: Db)
    ensures var r := Machine.Adjustment(db, Acct(1, IRR), 10, 0);
            After(mode, db, Do(Adjust(1, IRR, 10, 0))) == if r.Ok? then r.value else db
  {
    hide Machine.Adjustment;
  }

  lemma FundedRow()
    ensures var (a, db) := (Acct(1, IRR), EMPTY.(wallet := GetOrCreate(EMPTY.wallet, Acct(1, IRR))));
            var r := Machine.Adjustment(db, a, 10, 0);
            r.Ok? && r.value == EMPTY.(wallet := r.value.wallet) && UsableCapacity(Row(r.value.wallet, a)) == 10
  {
    assert MovesOf([], Ref.Adjustment(0)) == [];
  }

  lemma Funded(mode: P2P.Mode)
    ensures var db := After(mode, After(mode, EMPTY, Do(OpenAccount(1, IRR))), Do(Adjust(1, IRR, 10, 0)));
            db == EMPTY.(wallet := db.wallet) && UsableCapacity(Row(db.wallet, Acct(1, IRR))) == 10
  {
    hide After, GetOrCreate, Machine.Adjustment, UsableCapacity, Row;
    OpenEvent(mode, EMPTY);
    AdjustEvent(mode, EMPTY.(wallet := GetOrCreate(EMPTY.wallet, Acct(1, IRR))));
    FundedRow();
  }

  lemma Asked(mode: P2P.Mode, db: Db)
    requires Inv(db) && UsableCapacity(Row(db.wallet, Acct(1, IRR))) >= 10
    ensures var db' := After(mode, db, Do(CreateWithdrawal(1, 10, Purpose.P2P, None, true)));
            && db' == db.(wallet := db'.wallet, quota := db'.quota, withdrawals := db'.withdrawals,
                          nextId := db.nextId + 1)
            && db'.withdrawals ==
               db.withdrawals[db.nextId := Withdrawal(1, 10, Purpose.P2P, WaitingAssignment, 0, 0, None, AT)]
  {
    hide Inv, After, GetOrCreate, UsableCapacity, Row, ReserveFunds, ReserveBoth, HoldsOf, DayKey, MonthKey;
    Withdrawals.MakeSucceedsIff(db, 1, 10, Purpose.P2P, true, AT, map[]);
    AskEvent(mode, db);
  }

  lemma AskEvent(mode: P2P.Mode, db: Db)
    ensures var r := Withdrawals.Create(db, 1, 10, Purpose.P2P, None, true, AT, map[]);
            After(mode, db, Do(CreateWithdrawal(1, 10, Purpose.P2P, None, true))) == if r.Ok? then r.value.0 else db
  {
    hide Withdrawals.Create;
  }

  lemma Offered(mode: P2P.Mode, db: Db)
    ensures var db' := After(mode, db, Do(CreateDeposit(2, 10, Purpose.P2P)));
            && db' == db.(deposits := db'.deposits, nextId := db.nextId + 1)
            && db'.deposits == db.deposits[db.nextId :=
                                           DepositRequest(2, 10, Purpose.P2P, WaitingAssignment, Some(10), 0, 0, None)]
  {
  }

  /** Allocation 2 is `al`, of a payout to user 1 that user 2 is to pay. */
  predicate Payable(db: Db, al: Allocation) {
    && P2P.Loaded(db, 2) && db.allocations[2] == al
    && db.deposits[al.deposit].user == 2 && db.withdrawals[al.withdrawal].user == 1
  }

  lemma Allocated(mode: P2P.Mode, db: Db)
    requires Inv(db) && db.nextId == 2 && 0 in db.withdrawals && 1 in db.deposits
    requires db.withdrawals[0] == Withdrawal(1, 10, Purpose.P2P, WaitingAssignment, 0, 0, None, AT)
    requires db.deposits[1] == DepositRequest(2, 10, Purpose.P2P, WaitingAssignment, Some(10), 0, 0, None)
    ensures var db' := After(mode, db, Do(Assign(0, [P2P.Item(1, 10)], None, true, 100)));
            Payable(db', P2P.NewAllocation(0, P2P.Item(1, 10), 100)) && db'.proofs == db.proofs
  {
    hide Inv, SplitHold, Split, DeriveStatus, Stays, RemittancesAside;
    var item := P2P.Item(1, 10);
    assert [item][..0] == [];
    P2PInvariant.AssignOneIff(db, 0, item, 100);
    assert P2P.AssignAll(db, 0, [], 100) == Ok(db);
    assert P2P.Sum([item]) == 10;
  }

  lemma Opened(mode: P2P.Mode)
    ensures var db := Run(mode, EMPTY, Opening());
            Inv(db) && Payable(db, P2P.NewAllocation(0, P2P.Item(1, 10), 100)) && db.proofs == []
  {
    hide Inv, After, Payable, UsableCapacity, Row, Run;
    var all := Opening();
    Runs.EmptySound(mode);
    assert all[..0] == [] && all[..1] == all[..0] + [all[0]] && all[..2] == all[..1] + [all[1]] &&
           all[..3] == all[..2] + [all[2]]
           && all[..4] == all[..3] + [all[3]] && all == all[..4] + [all[4]];
    Snoc(mode, EMPTY, all[..0], all[0]);
    Snoc(mode, EMPTY, all[..1], all[1]);
    Snoc(mode, EMPTY, all[..2], all[2]);
    Snoc(mode, EMPTY, all[..3], all[3]);
    Snoc(mode, EMPTY, all[..4], all[4]);
    RunNothing(mode, EMPTY);
    Runs.RunSound(mode, EMPTY, all[..2]);
    Runs.RunSound(mode, EMPTY, all[..4]);
    Runs.RunSound(mode, EMPTY, all);
    Funded(mode);
    Asked(mode, Run(mode, EMPTY, all[..2]));
    Offered(mode, Run(mode, EMPTY, all[..3]));
    Allocated(mode, Run(mode, EMPTY, all[..4]));
  }

  // ---------------------------------------------------------------- one more submission for each deletion

  /** Two submissions, and then time and again a file is deleted and another one is submitted. */
  function Resubmitting(times: nat): seq<Event> {
    if times == 0 then Opening() + [Submission(0)] + [Submission(1)]
    else Resubmitting(times - 1) + [Deletion(times)] + [Submission(times + 1)]
  }

  /** The payer has submitted, and nobody has confirmed. */
  predicate Waiting(db: Db, proofs: seq<Proof>) {
    && P2P.Loaded(db, 2) && db.deposits[db.allocations[2].deposit].user == 2
    && db.withdrawals[db.allocations[2].withdrawal].user == 1
    && db.allocations[2].status.ProofSubmitted? && !db.allocations[2].receiverConfirmed &&
       !db.allocations[2].adminVerified
    && db.proofs == proofs
  }

  lemma {:induction false} NoMoreThanAll(proofs: seq<Proof>, id: Id)
    ensures ProofsOf(proofs, id) <= |proofs|
  {
    if proofs != [] {
      NoMoreThanAll(proofs[..|proofs| - 1], id);
    }
  }

  lemma SubmissionEvent(mode: P2P.Mode, db: Db, file: Id)
    ensures var r := P2P.SubmitProof(db, 2, 2, [file], true, true, 0);
            && Submits(mode, db, Submission(file), 2) == r.Ok? && Drops(mode, db, Submission(file), 2) == 0
            && After(mode, db, Submission(file)) == if r.Ok? then r.value else db
  {
    hide P2P.SubmitProof;
  }

  lemma SubmittedNext(mode: P2P.Mode, db: Db, file: Id)
    requires Waiting(db, db.proofs) && |db.proofs| <= 1
    ensures Submits(mode, db, Submission(file), 2) && Drops(mode, db, Submission(file), 2) == 0
    ensures Waiting(After(mode, db, Submission(file)), db.proofs + [Proof(2, file)])
  {
    hide Stays, RemittancesAside, After, Submits, Drops, ProofsOf;
    assert P2P.ProofsFor(2, [file]) == [Proof(2, file)];
    NoMoreThanAll(db.proofs, 2);
    SubmissionEvent(mode, db, file);
  }

  lemma SubmittedFirst(mode: P2P.Mode, db: Db, file: Id)
    requires Payable(db, P2P.NewAllocation(0, P2P.Item(1, 10), 100)) && db.proofs == []
    ensures Submits(mode, db, Submission(file), 2) && Drops(mode, db, Submission(file), 2) == 0
    ensures Waiting(After(mode, db, Submission(file)), [Proof(2, file)])
  {
    hide Stays, RemittancesAside, After, Submits, Drops;
    assert P2P.ProofsFor(2, [file]) == [Proof(2, file)];
    SubmissionEvent(mode, db, file);
  }

  lemma DeletionEvent(mode: P2P.Mode, db: Db, file: Id)
    ensures !Submits(mode, db, Deletion(file), 2) &&
            Drops(mode, db, Deletion(file), 2) == Files.Copies(db.proofs, 2, file)
    ensures After(mode, db, Deletion(file)) == db.(proofs := Files.WithoutFile(db.proofs, file))
  {
    hide Files.WithoutFile, Files.Copies, Files.Attached;
  }

  lemma OneOfTwo(first: Proof, second: Proof)
    requires first.file != second.file
    ensures Files.WithoutFile([first, second], second.file) == [first]
    ensures Files.Copies([first, second], second.allocation, second.file) == 1
  {
    assert [first, second][..1] == [first] && [first][..0] == [];
    assert Files.WithoutFile([first], second.file) == [] + [first];
    assert Files.Copies([first], second.allocation, second.file) == 0;
    assert Files.WithoutFile([first, second], second.file) == [first] + [];
  }

  lemma DeletedNext(mode: P2P.Mode, db: Db, file: Id)
    requires file > 0 && Waiting(db, [Proof(2, 0), Proof(2, file)])
    ensures !Submits(mode, db, Deletion(file), 2) && Drops(mode, db, Deletion(file), 2) == 1
    ensures Waiting(After(mode, db, Deletion(file)), [Proof(2, 0)])
  {
    hide After, Submits, Drops, Files.WithoutFile, Files.Copies;
    OneOfTwo(Proof(2, 0), Proof(2, file));
    DeletionEvent(mode, db, file);
  }

  lemma SubmittedSnoc(mode: P2P.Mode, db: Db, front: seq<Event>, e: Event, id: Id)
    ensures Submitted(mode, db, front + [e], id)
         == Submitted(mode, db, front, id) + if Submits(mode, Run(mode, db, front), e, id) then 1 else 0
    ensures Dropped(mode, db, front + [e], id) ==
            Dropped(mode, db, front, id) + Drops(mode, Run(mode, db, front), e, id)
    ensures Run(mode, db, front + [e]) == After(mode, Run(mode, db, front), e)
  {
    hide Submits, Drops;
    assert (front + [e])[..|front|] == front;
    Snoc(mode, db, front, e);
  }

  lemma OpeningCounts(mode: P2P.Mode)
    ensures Submitted(mode, EMPTY, Opening(), 2) == 0 == Dropped(mode, EMPTY, Opening(), 2)
  {
    hide Next, Run;
    var all := Opening();
    assert all[..0] == [] && all[..1][..0] == [] && all[..2][..1] == all[..1] && all[..3][..2] == all[..2] &&
           all[..4][..3] == all[..3];
    assert Submitted(mode, EMPTY, all[..1], 2) == 0 == Dropped(mode, EMPTY, all[..1], 2);
    assert Submitted(mode, EMPTY, all[..2], 2) == 0 == Dropped(mode, EMPTY, all[..2], 2);
    assert Submitted(mode, EMPTY, all[..3], 2) == 0 == Dropped(mode, EMPTY, all[..3], 2);
    assert Submitted(mode, EMPTY, all[..4], 2) == 0 == Dropped(mode, EMPTY, all[..4], 2);
  }

  /** The bound is met: however many attachments are dropped, two submissions more than that can succeed. With one file
      deleted, three do. */
  lemma {:induction false} BoundMet(mode: P2P.Mode, times: nat)
    ensures Submitted(mode, EMPTY, Resubmitting(times), 2) == times + 2
    ensures Dropped(mode, EMPTY, Resubmitting(times), 2) == times
    ensures Waiting(Run(mode, EMPTY, Resubmitting(times)), [Proof(2, 0), Proof(2, times + 1)])
  {
    hide Submitted, Dropped, Run, Submits, Drops, After, Waiting, Payable;
    if times == 0 {
      Opened(mode);
      OpeningCounts(mode);
      var one := Opening() + [Submission(0)];
      SubmittedFirst(mode, Run(mode, EMPTY, Opening()), 0);
      SubmittedSnoc(mode, EMPTY, Opening(), Submission(0), 2);
      WaitingProofs(Run(mode, EMPTY, one), [Proof(2, 0)]);
      SubmittedNext(mode, Run(mode, EMPTY, one), 1);
      SubmittedSnoc(mode, EMPTY, one, Submission(1), 2);
      assert [Proof(2, 0)] + [Proof(2, 1)] == [Proof(2, 0), Proof(2, 1)];
    } else {
      BoundMet(mode, times - 1);
      var front := Resubmitting(times - 1);
      DeletedNext(mode, Run(mode, EMPTY, front), times);
      SubmittedSnoc(mode, EMPTY, front, Deletion(times), 2);
      var one := front + [Deletion(times)];
      WaitingProofs(Run(mode, EMPTY, one), [Proof(2, 0)]);
      SubmittedNext(mode, Run(mode, EMPTY, one), times + 1);
      SubmittedSnoc(mode, EMPTY, one, Submission(times + 1), 2);
      assert [Proof(2, 0)] + [Proof(2, times + 1)] == [Proof(2, 0), Proof(2, times + 1)];
    }
  }

  lemma WaitingProofs(db: Db, proofs: seq<Proof>)
    requires Waiting(db, proofs)
    ensures db.proofs == proofs
  {
  }

  // ---------------------------------------------------------------- settled with nothing to show for it

  /** Proof is submitted, its file is deleted, and whoever has to confirms. */
  function Confirmations(mode: P2P.Mode): seq<Event> {
    match mode
    case ReceiverOnly | ReceiverOrAdmin => [Do(ReceiverConfirm(2, 1, true))]
    case AdminOnly => [Do(AdminVerify(2, true))]
    case ReceiverAndAdmin => [Do(ReceiverConfirm(2, 1, true)), Do(AdminVerify(2, true))]
  }

  function Unproved(mode: P2P.Mode): seq<Event> {
    Opening() + [Submission(0)] + [Deletion(0)] + Confirmations(mode) + [Do(Finalize(2, 0))]
  }

  lemma ReceiverConfirms(mode: P2P.Mode, db: Db)
    requires P2P.Loaded(db, 2) && db.withdrawals[db.allocations[2].withdrawal].user == 1
    requires db.allocations[2].status.ProofSubmitted? && !mode.AdminOnly?
    ensures var db' := After(mode, db, Do(ReceiverConfirm(2, 1, true)));
            && P2P.Loaded(db', 2) && db'.proofs == db.proofs
            && db'.allocations[2] == db.allocations[2].(status := ReceiverConfirmed, receiverConfirmed := true)
  {
    hide Stays, RemittancesAside;
  }

  lemma AdminVerifies(mode: P2P.Mode, db: Db)
    requires P2P.Loaded(db, 2) &&
             (db.allocations[2].status.ProofSubmitted? || db.allocations[2].status.ReceiverConfirmed?)
    ensures var db' := After(mode, db, Do(AdminVerify(2, true)));
            && P2P.Loaded(db', 2) && db'.proofs == db.proofs
            && db'.allocations[2] == db.allocations[2].(status := AdminVerified, adminVerified := true)
  {
    hide Stays, RemittancesAside;
  }

  lemma AllConfirm(mode: P2P.Mode, db: Db)
    requires Waiting(db, [])
    ensures var db' := Run(mode, db, Confirmations(mode));
            && P2P.Loaded(db', 2) && db'.proofs == [] && P2P.Finalizable(db'.allocations[2], mode)
            && Live(db'.allocations[2].status) && !db'.allocations[2].status.Settled?
  {
    hide After, Run;
    var all := Confirmations(mode);
    RunNothing(mode, db);
    assert all[..1] == [] + [all[0]];
    Snoc(mode, db, [], all[0]);
    if mode.AdminOnly? {
      AdminVerifies(mode, db);
    } else {
      ReceiverConfirms(mode, db);
    }
    if mode.ReceiverAndAdmin? {
      Snoc(mode, db, all[..1], all[1]);
      assert all == all[..1] + [all[1]];
      AdminVerifies(mode, Run(mode, db, all[..1]));
    } else {
      assert all == all[..1];
    }
  }

  lemma {:induction false} RunOn(mode: P2P.Mode, db: Db, front: seq<Event>, more: seq<Event>)
    ensures Run(mode, db, front + more) == Run(mode, Run(mode, db, front), more)
  {
    hide After;
    if more == [] {
      assert front + more == front;
    } else {
      var (all, last) := (front + more, |more| - 1);
      assert all[..|all| - 1] == front + more[..last];
      RunOn(mode, db, front, more[..last]);
    }
  }

  lemma SettledNext(mode: P2P.Mode, db: Db)
    requires Inv(db) && P2P.Loaded(db, 2) && db.proofs == [] && P2P.Finalizable(db.allocations[2], mode)
    requires Live(db.allocations[2].status) && !db.allocations[2].status.Settled?
    ensures var db' := After(mode, db, Do(Finalize(2, 0)));
            2 in db'.allocations && db'.allocations[2].status.Settled? && db'.proofs == []
  {
    hide Inv, P2P.Finalize, P2P.Finalizable, Stays, RemittancesAside;
    P2PInvariant.FinalizeSucceedsIff(db, 2, mode, 0);
    P2PInvariant.FinalizeSettles(db, 2, mode, 0);
  }

  /** In every mode an allocation can settle with no proof attached any more: nothing looks at the attachments after
      they were made. */
  lemma SettledUnproved(mode: P2P.Mode)
    ensures var db := Run(mode, EMPTY, Unproved(mode));
            2 in db.allocations && db.allocations[2].status.Settled? && ProofsOf(db.proofs, 2) == 0
  {
    hide Inv, After, Payable, Waiting, Run, Confirmations, P2P.Finalizable, Submits, Drops;
    var one := Opening() + [Submission(0)];
    var two := one + [Deletion(0)];
    Opened(mode);
    SubmittedFirst(mode, Run(mode, EMPTY, Opening()), 0);
    Snoc(mode, EMPTY, Opening(), Submission(0));
    WaitingDropped(mode, Run(mode, EMPTY, one));
    Snoc(mode, EMPTY, one, Deletion(0));
    AllConfirm(mode, Run(mode, EMPTY, two));
    RunOn(mode, EMPTY, two, Confirmations(mode));
    AllAllowed(mode);
    Runs.RunSound(mode, EMPTY, two + Confirmations(mode)) by {
      Runs.EmptySound(mode);
    }
    SettledNext(mode, Run(mode, EMPTY, two + Confirmations(mode)));
    Snoc(mode, EMPTY, two + Confirmations(mode), Do(Finalize(2, 0)));
  }

  lemma AllAllowed(mode: P2P.Mode)
    ensures AllAdmissible(Opening() + [Submission(0)] + [Deletion(0)] + Confirmations(mode))
  {
  }

  lemma WaitingDropped(mode: P2P.Mode, db: Db)
    requires Waiting(db, [Proof(2, 0)])
    ensures Waiting(After(mode, db, Deletion(0)), [])
  {
    hide After, Drops, Submits;
    DeletionEvent(mode, db, 0);
    assert [Proof(2, 0)][..0] == [];
    assert Files.WithoutFile([Proof(2, 0)], 0) == [] + [];
  }
}
