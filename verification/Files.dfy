/** FilesService: deleting a stored file, and with it the proofs it stood for. */
module Files {
  import opened Base
  import opened Accounts
  import opened Limits
  import opened State
  import opened Frames
  import P2P
  import P2PInvariant
  import P2PProtocol

  /** Every attachment of the file is dropped, to whichever allocation. */
  function WithoutFile(proofs: seq<Proof>, file: Id): seq<Proof> {
    if proofs == [] then [] else
      var last := proofs[|proofs| - 1];
      WithoutFile(proofs[..|proofs| - 1], file) + if last.file == file then [] else [last]
  }

  predicate Attached(proofs: seq<Proof>, file: Id) {
    exists p <- proofs :: p.file == file
  }

  /** `found`: the file is stored; `elsewhere`: something other than an allocation refers to it. */
  function DeleteAsAdmin(db: Db, file: Id, force: bool, found: bool, elsewhere: bool): (r: Result<Db>)
    ensures r.Ok? ==>
            Stays(db, r.value) && RemittancesAside(db, r.value) && r.value.quota == db.quota &&
            r.value.requests == db.requests
  {
    if !found then Err(NotFound)
    else if (Attached(db.proofs, file) || elsewhere) && !force then Err(StillAttached)
    else Ok(if force then db.(proofs := WithoutFile(db.proofs, file)) else db)
  }

  /** How often the file is attached to the allocation. */
  function Copies(proofs: seq<Proof>, allocation: Id, file: Id): nat {
    if proofs == [] then 0 else
      var last := proofs[|proofs| - 1];
      Copies(proofs[..|proofs| - 1], allocation, file) + if last == Proof(allocation, file) then 1 else 0
  }

  // ---------------------------------------------------------------- lemmas

  /** What is left are the attachments of other files. */
  lemma {:induction false} WithoutFileKeeps(proofs: seq<Proof>, file: Id, p: Proof)
    ensures p in WithoutFile(proofs, file) <==> p in proofs && p.file != file
  {
    if proofs != [] {
      var (front, last) := (proofs[..|proofs| - 1], proofs[|proofs| - 1]);
      WithoutFileKeeps(front, file, p);
      assert proofs == front + [last];
      assert p in proofs <==> p in front || p == last;
    }
  }

  /** Each allocation loses what the file stood for. */
  lemma {:induction false} WithoutFileCount(proofs: seq<Proof>, file: Id, allocation: Id)
    ensures ProofsOf(WithoutFile(proofs, file), allocation) ==
            ProofsOf(proofs, allocation) - Copies(proofs, allocation, file)
  {
    if proofs != [] {
      var (front, last) := (proofs[..|proofs| - 1], proofs[|proofs| - 1]);
      WithoutFileCount(front, file, allocation);
      var kept := if last.file == file then [] else [last];
      ProofsAppend(WithoutFile(front, file), kept, allocation);
      assert [last][..0] == [];
      assert last.file == file && last.allocation == allocation <==> last == Proof(allocation, file);
    }
  }

  lemma {:induction false} ProofsAppend(proofs: seq<Proof>, more: seq<Proof>, allocation: Id)
    ensures ProofsOf(proofs + more, allocation) == ProofsOf(proofs, allocation) + ProofsOf(more, allocation)
  {
    if more == [] {
      assert proofs + more == proofs;
    } else {
      var (all, front) := (proofs + more, more[..|more| - 1]);
      assert all[..|all| - 1] == proofs + front;
      ProofsAppend(proofs, front, allocation);
    }
  }

  /** A submission attaches each of its files, to its own allocation only. */
  lemma {:induction false} ProofsForCount(id: Id, files: seq<Id>, allocation: Id)
    ensures ProofsOf(P2P.ProofsFor(id, files), allocation) == if allocation == id then |files| else 0
  {
    if files != [] {
      var front := files[..|files| - 1];
      ProofsForCount(id, front, allocation);
      assert P2P.ProofsFor(id, files)[..|files| - 1] == P2P.ProofsFor(id, front);
    }
  }

  /** A file is deleted exactly when it is there and, unless forced, nothing refers to it, no allocation and nothing
      else; without force nothing changes with it. */
  lemma DeleteAccepted(db: Db, file: Id, force: bool, found: bool, elsewhere: bool)
    ensures var r := DeleteAsAdmin(db, file, force, found, elsewhere);
            && (r.Ok? <==> found && (force || (!elsewhere && forall p <- db.proofs :: p.file != file)))
            && (r.Ok? && !force ==> r.value == db)
            && (r.Err? ==> r.error == if found then StillAttached else NotFound)
  {
    hide WithoutFile, Stays, RemittancesAside;
  }

  lemma StillSound(proofs: seq<Proof>, allocations: map<Id, Allocation>, file: Id)
    requires ProofsSound(proofs, allocations)
    ensures ProofsSound(WithoutFile(proofs, file), allocations)
  {
    hide WithoutFile;
    forall p <- WithoutFile(proofs, file) ensures p in proofs {
      WithoutFileKeeps(proofs, file, p);
    }
  }

  lemma DeleteKeepsInv(db: Db, file: Id, force: bool, found: bool, elsewhere: bool)
    requires Inv(db) && DeleteAsAdmin(db, file, force, found, elsewhere).Ok?
    ensures var db' := DeleteAsAdmin(db, file, force, found, elsewhere).value; Inv(db') && P2PInvariant.P2POnly(db, db')
  {
    hide Inv, P2PInvariant.P2POnly, Attached, WithoutFile, ProofsSound, Sound, QuotaSound, Explained, IdsSound,
         TotalsSound, LinksSound, ReversalsSound, WithdrawalsSound, DepositsSound, AllocationsSound, TradesSound,
         MovementsSound;
    Known(db, Withdraw(0));
    StillSound(db.proofs, db.allocations, file);
    P2PInvariant.ProofsKeepInv(db, DeleteAsAdmin(db, file, force, found, elsewhere).value);
  }
  /** Statuses, timestamps and everything else about the allocations stay as they are. */
  lemma DeleteEvolves(db: Db, file: Id, force: bool, found: bool, elsewhere: bool, mode: P2P.Mode)
    requires P2PProtocol.ProtocolSound(db) && DeleteAsAdmin(db, file, force, found, elsewhere).Ok?
    ensures var db' := DeleteAsAdmin(db, file, force, found, elsewhere).value;
            P2PProtocol.Evolves(db, db', mode) && P2PProtocol.ProtocolSound(db') && P2PProtocol.NoneMarked(db, db')
  {
    hide P2PProtocol.Evolves, P2PProtocol.ProtocolSound, WithoutFile, Attached;
    var db' := DeleteAsAdmin(db, file, force, found, elsewhere).value;
    forall p <- db'.proofs ensures p in db.proofs {
      WithoutFileKeeps(db.proofs, file, p);
    }
    P2PProtocol.Unmoved(db, db', mode);
  }
}
