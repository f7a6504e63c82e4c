/** The database as transactions see it: one table a field, rewritten in place. */
module Store {
  import opened Base
  import opened Accounts
  import opened Limits
  import opened State

  /** How a transaction body ends. */
  datatype Outcome = Done | Failed(error: Error) {
    predicate IsFailure() {
      Failed?
    }

    function PropagateFailure(): Outcome
      requires Failed?
    {
      this
    }
  }

  class Database {
    var accounts: map<Acct, Account>
    var holds: map<HoldKey, Hold>
    var ledger: seq<Posting>
    var usages: map<UsageKey, Usage>
    var limits: map<LimitKey, Hold>
    var withdrawals: map<Id, Withdrawal>
    var deposits: map<Id, DepositRequest>
    var allocations: map<Id, Allocation>
    var assignments: map<AssignKey, seq<Id>>
    var requests: map<RequestKey, Id>
    var trades: map<Id, TradeRow>
    var movements: map<Id, Movement>
    var remittances: map<Id, RemittanceRow>
    var links: seq<Link>
    var proofs: seq<Proof>
    var nextId: Id

    function Books(): Wallet
      reads `accounts, `holds, `ledger
    {
      Wallet(accounts, holds, ledger)
    }

    function Counters(): Quota
      reads `usages, `limits
    {
      Quota(usages, limits)
    }

    function State(): Db
      reads this
    {
      Db(Books(), Counters(), withdrawals, deposits, allocations, assignments, requests, trades, movements, remittances,
         links, proofs, nextId)
    }

    constructor ()
      ensures State() == EMPTY
    {
      accounts, holds, ledger, usages, limits := map[], map[], [], map[], map[];
      withdrawals, deposits, allocations, assignments, requests := map[], map[], map[], map[], map[];
      trades, movements, remittances, links, proofs, nextId := map[], map[], map[], [], [], 0;
    }

    method RestoreBooks(wallet: Wallet, quota: Quota)
      modifies `accounts, `holds, `ledger, `usages, `limits
      ensures Books() == wallet && Counters() == quota
    {
      accounts, holds, ledger := wallet.accounts, wallet.holds, wallet.ledger;
      usages, limits := quota.usages, quota.limits;
    }

    method RestoreRequests(db: Db)
      modifies `withdrawals, `deposits, `allocations, `assignments, `requests, `trades
      ensures withdrawals == db.withdrawals && deposits == db.deposits && allocations == db.allocations
      ensures assignments == db.assignments && requests == db.requests && trades == db.trades
    {
      withdrawals, deposits, allocations := db.withdrawals, db.deposits, db.allocations;
      assignments, requests, trades := db.assignments, db.requests, db.trades;
    }

    method RestoreRest(db: Db)
      modifies `movements, `remittances, `links, `proofs, `nextId
      ensures movements == db.movements && remittances == db.remittances
      ensures links == db.links && proofs == db.proofs && nextId == db.nextId
    {
      movements, remittances := db.movements, db.remittances;
      links, proofs, nextId := db.links, db.proofs, db.nextId;
    }

    /** Rolls back to a state seen before. */
    method Restore(db: Db)
      modifies this
      ensures State() == db
    {
      RestoreBooks(db.wallet, db.quota);
      RestoreRequests(db);
      RestoreRest(db);
    }
  }

  /** A body did what `spec` says: on success it wrote the new state, otherwise it threw the same error.
      What it wrote before throwing is left open, because the transaction rolls it back. */
  ghost predicate Wrote<T>(after: T, spec: Result<T>, r: Outcome) {
    match spec
    case Ok(v) => r.Done? && after == v
    case Err(e) => r == Failed(e)
  }

  /** The same for a body that creates a request, or finds the one it repeats, and returns its identifier. */
  ghost predicate WroteNew(after: Db, spec: Result<(Db, Id)>, r: Outcome, id: Id) {
    match spec
    case Ok(v) => r.Done? && after == v.0 && id == v.1
    case Err(e) => r == Failed(e)
  }

  /** A body that makes a new request wrote what `made` says, and the index of requests. */
  ghost predicate WroteIndexed(after: Db, made: Result<Db>, requests: map<RequestKey, Id>, r: Outcome) {
    match made
    case Ok(db) => r.Done? && after == db.(requests := requests)
    case Err(e) => r == Failed(e)
  }

  ghost predicate CommittedNew(before: Db, after: Db, spec: Result<(Db, Id)>, r: Outcome, id: Id) {
    match spec
    case Ok(v) => r.Done? && after == v.0 && id == v.1
    case Err(e) => r == Failed(e) && after == before
  }

  /** A transaction did what `spec` says, and nothing at all when that is an error. */
  ghost predicate Committed(before: Db, after: Db, spec: Result<Db>, r: Outcome) {
    match spec
    case Ok(v) => r.Done? && after == v
    case Err(e) => r == Failed(e) && after == before
  }
}
