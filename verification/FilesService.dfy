/** FilesService, statement by statement. */
module FilesService {
  import opened Base
  import opened State
  import opened Store
  import Files

  method DeleteFileAsAdmin(tx: Database, file: Id, force: bool, found: bool, elsewhere: bool) returns (r: Outcome)
    modifies tx`proofs
    ensures Committed(old(tx.State()), tx.State(), Files.DeleteAsAdmin(old(tx.State()), file, force, found, elsewhere),
                      r)
    ensures Inv(old(tx.State())) ==> Inv(tx.State())
  {
    hide Inv, Files.WithoutFile;
    if Inv(tx.State()) && Files.DeleteAsAdmin(tx.State(), file, force, found, elsewhere).Ok? {
      Files.DeleteKeepsInv(tx.State(), file, force, found, elsewhere);
    }
    if !found {
      return Failed(NotFound);
    }
    var attached := exists p <- tx.proofs :: p.file == file;
    if (attached || elsewhere) && !force {
      return Failed(StillAttached);
    }
    if force {
      tx.proofs := Files.WithoutFile(tx.proofs, file);
    }
    return Done;
  }
}
