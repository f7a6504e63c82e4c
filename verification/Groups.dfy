/** Groups of remittances in the words of their legs: which are accepted, what rows, links and postings they make. */
module Groups {
  import opened Base
  import opened Accounts
  import opened Limits
  import opened State
  import opened Frames
  import opened Remittances

  // ---------------------------------------------------------------- what the legs ask to be settled

  /** What one leg settles altogether. */
  function Asked(settlements: seq<SettlementInput>): int {
    if settlements == [] then 0
    else Asked(settlements[..|settlements| - 1]) + settlements[|settlements| - 1].amount
  }

  /** And of one source. */
  function AskedOf(settlements: seq<SettlementInput>, source: Id): int {
    if settlements == [] then 0 else
      var last := settlements[|settlements| - 1];
      AskedOf(settlements[..|settlements| - 1], source) + if last.source == source then last.amount else 0
  }

  /** What all legs together settle of one source. */
  function AskedInto(legs: seq<LegInput>, source: Id): int {
    if legs == [] then 0
    else AskedInto(legs[..|legs| - 1], source) + AskedOf(legs[|legs| - 1].settlements, source)
  }

  lemma {:induction false} LinksOfSums(id: Id, settlements: seq<SettlementInput>, leg: Id, source: Id)
    ensures LinkedFrom(LinksOf(id, settlements), leg) == if leg == id then Asked(settlements) else 0
    ensures LinkedInto(LinksOf(id, settlements), source) == AskedOf(settlements, source)
  {
    if settlements != [] {
      var front := settlements[..|settlements| - 1];
      LinksOfSums(id, front, leg, source);
      assert LinksOf(id, settlements)[..|settlements| - 1] == LinksOf(id, front);
    }
  }

  lemma {:induction false} InputSums(legs: seq<LegInput>, first: Id, k: nat, source: Id)
    ensures k < |legs| ==> LinkedFrom(Inputs(legs, first), first + k) == Asked(legs[k].settlements)
    ensures k >= |legs| ==> LinkedFrom(Inputs(legs, first), first + k) == 0
    ensures LinkedInto(Inputs(legs, first), source) == AskedInto(legs, source)
  {
    hide Asked, AskedOf, LinksOf, LinkedFrom, LinkedInto;
    if legs == [] {
      NoLink(first + k, source);
    } else {
      var last := |legs| - 1;
      InputSums(legs[..last], first, k, source);
      LinksOfSums(first + last, legs[last].settlements, first + k, source);
      LinkedAppend(Inputs(legs[..last], first), LinksOf(first + last, legs[last].settlements), first + k);
      LinkedAppend(Inputs(legs[..last], first), LinksOf(first + last, legs[last].settlements), source);
    }
  }

  lemma NoLink(leg: Id, source: Id)
    ensures LinkedFrom([], leg) == 0 == LinkedInto([], source)
  {
  }

  predicate Listed(legs: seq<LegInput>, first: Id, l: Link) {
    exists k: nat, j: nat | k < |legs| && j < |legs[k].settlements| ::
      l == Link(first + k, legs[k].settlements[j].source, legs[k].settlements[j].amount)
  }

  /** The links of a group are its settlements, each from its own leg. */
  lemma {:induction false} InputsListed(legs: seq<LegInput>, first: Id, l: Link)
    ensures l in Inputs(legs, first) <==> Listed(legs, first, l)
  {
    hide Listed;
    if legs == [] {
      NoneListed(first, l);
    } else {
      var last := |legs| - 1;
      InputsListed(legs[..last], first, l);
      ListedNext(legs, first, l);
    }
  }

  lemma NoneListed(first: Id, l: Link)
    ensures !Listed([], first, l)
  {
  }

  lemma ListedNext(legs: seq<LegInput>, first: Id, l: Link)
    requires legs != []
    ensures var last := |legs| - 1;
            Listed(legs, first, l) <==>
            Listed(legs[..last], first, l) || l in LinksOf(first + last, legs[last].settlements)
  {
    var (front, last) := (legs[..|legs| - 1], |legs| - 1);
    var links := LinksOf(first + last, legs[last].settlements);
    if Listed(legs, first, l) {
      var k: nat, j: nat :| k < |legs| && j < |legs[k].settlements| &&
        l == Link(first + k, legs[k].settlements[j].source, legs[k].settlements[j].amount);
      if k == last {
        assert links[j] == l;
      } else {
        assert front[k] == legs[k];
      }
    }
    if Listed(front, first, l) {
      var k: nat, j: nat :| k < |front| && j < |front[k].settlements| &&
        l == Link(first + k, front[k].settlements[j].source, front[k].settlements[j].amount);
      assert legs[k] == front[k];
    }
    if l in links {
      var j: nat :| j < |links| && links[j] == l;
      assert l == Link(first + last, legs[last].settlements[j].source, legs[last].settlements[j].amount);
    }
  }

  // ---------------------------------------------------------------- when a group is accepted

  /** What a leg says of money: enough of it, and for somebody else. */
  predicate LegsGood(db: Db, sender: UserId, legs: seq<LegInput>) {
    && legs != []
    && forall k: nat | k < |legs| ::
         && legs[k].amount > 0 && legs[k].receiver != sender
         && UsableCapacity(Row(db.wallet, Acct(sender, legs[k].instr))) >= TotalFor(legs, legs[k].instr)
  }

  /** The amount and the instrument of a source: a remittance made before, or a leg of the group itself. */
  predicate Source(db: Db, legs: seq<LegInput>, source: Id, instr: Instrument, amount: int) {
    || (db.nextId <= source < db.nextId + |legs|
        && legs[source - db.nextId].instr == instr && legs[source - db.nextId].amount == amount)
    || (!(db.nextId <= source < db.nextId + |legs|) && source in db.remittances
        && db.remittances[source].instr == instr && db.remittances[source].amount == amount)
  }

  ghost predicate SettlementFits(db: Db, legs: seq<LegInput>, leg: LegInput, s: SettlementInput) {
    && s.amount > 0
    && exists amount :: Source(db, legs, s.source, leg.instr, amount)
         && LinkedInto(db.links, s.source) + AskedInto(legs, s.source) <= amount
  }

  /** What a leg says of settling: positive amounts, no more than its own amount altogether, of sources in its own
      instrument that all legs together leave within what they have left. */
  ghost predicate SettlementsGood(db: Db, legs: seq<LegInput>) {
    forall k: nat | k < |legs| ::
      && (legs[k].settlements == [] || Asked(legs[k].settlements) <= legs[k].amount)
      && forall s <- legs[k].settlements :: SettlementFits(db, legs, legs[k], s)
  }

  lemma RowOfSource(db: Db, sender: UserId, legs: seq<LegInput>, at: Stamp, id: Id)
    requires IdsSound(db)
    ensures var rows := LegRows(db.remittances, sender, legs, db.nextId, at);
            && (id in rows <==> exists instr, amount :: Source(db, legs, id, instr, amount))
            && (id in rows ==> forall instr, amount ::
                  Source(db, legs, id, instr, amount) <==> rows[id].instr == instr && rows[id].amount == amount)
  {
    hide LegRows;
    var rows := LegRows(db.remittances, sender, legs, db.nextId, at);
    LegsInRows(db.remittances, sender, legs, db.nextId, at);
    if id in rows {
      if db.nextId <= id < db.nextId + |legs| {
        assert rows[db.nextId + (id - db.nextId)] == LegRow(sender, legs[id - db.nextId], at);
      }
      assert Source(db, legs, id, rows[id].instr, rows[id].amount);
    }
  }

  /** What the loop checks of one settlement is what fits. */
  lemma InputFits(db: Db, sender: UserId, legs: seq<LegInput>, at: Stamp, k: nat, s: SettlementInput)
    requires IdsSound(db) && k < |legs| && s in legs[k].settlements
    ensures var (rows, inputs) := (LegRows(db.remittances, sender, legs, db.nextId, at), Inputs(legs, db.nextId));
            var l := Link(db.nextId + k, s.source, s.amount);
            && l in inputs
            && l.leg in rows
            && (&& s.source in rows && s.amount > 0 && rows[s.source].instr == rows[l.leg].instr
                && LinkedFrom(inputs, l.leg) <= rows[l.leg].amount
                && LinkedInto(db.links, s.source) + LinkedInto(inputs, s.source) <= rows[s.source].amount
                <==> SettlementFits(db, legs, legs[k], s) && Asked(legs[k].settlements) <= legs[k].amount)
  {
    hide LegRows, Inputs, LinkedFrom, LinkedInto, Asked, AskedInto, Source;
    var (rows, inputs) := (LegRows(db.remittances, sender, legs, db.nextId, at), Inputs(legs, db.nextId));
    var l := Link(db.nextId + k, s.source, s.amount);
    LegsInRows(db.remittances, sender, legs, db.nextId, at);
    RowOfSource(db, sender, legs, at, s.source);
    InputSums(legs, db.nextId, k, s.source);
    var j: nat :| j < |legs[k].settlements| && legs[k].settlements[j] == s;
    assert Listed(legs, db.nextId, l);
    InputsListed(legs, db.nextId, l);
    if s.source in rows {
      assert Source(db, legs, s.source, legs[k].instr, rows[s.source].amount) <==>
             rows[s.source].instr == legs[k].instr;
    }
  }

  lemma SettlementsAccepted(db: Db, sender: UserId, legs: seq<LegInput>, at: Stamp)
    requires IdsSound(db)
    ensures var (rows, inputs) := (LegRows(db.remittances, sender, legs, db.nextId, at), Inputs(legs, db.nextId));
            Resolved(rows, inputs) && Acceptable(rows, db.links, inputs) <==> SettlementsGood(db, legs)
  {
    hide LegRows, Inputs, LinkedFrom, LinkedInto, Asked, SettlementFits;
    var (rows, inputs) := (LegRows(db.remittances, sender, legs, db.nextId, at), Inputs(legs, db.nextId));
    forall k: nat, s | k < |legs| && s in legs[k].settlements {
      InputFits(db, sender, legs, at, k, s);
    }
    if Resolved(rows, inputs) && Acceptable(rows, db.links, inputs) {
      forall k: nat | k < |legs|
        ensures legs[k].settlements == [] || Asked(legs[k].settlements) <= legs[k].amount
        ensures forall s <- legs[k].settlements :: SettlementFits(db, legs, legs[k], s)
      {
        forall s <- legs[k].settlements
          ensures SettlementFits(db, legs, legs[k], s) && Asked(legs[k].settlements) <= legs[k].amount
        {
          InputFits(db, sender, legs, at, k, s);
          assert Link(db.nextId + k, s.source, s.amount) in inputs;
        }
        if legs[k].settlements != [] {
          assert legs[k].settlements[0] in legs[k].settlements;
        }
      }
    }
    if SettlementsGood(db, legs) {
      forall l <- inputs
        ensures l.leg in rows && l.source in rows && l.amount > 0 && rows[l.source].instr == rows[l.leg].instr
        ensures LinkedFrom(inputs, l.leg) <= rows[l.leg].amount
        ensures LinkedInto(db.links, l.source) + LinkedInto(inputs, l.source) <= rows[l.source].amount
      {
        InputsListed(legs, db.nextId, l);
        var k: nat, j: nat :| k < |legs| && j < |legs[k].settlements| &&
          l == Link(db.nextId + k, legs[k].settlements[j].source, legs[k].settlements[j].amount);
        InputFits(db, sender, legs, at, k, legs[k].settlements[j]);
      }
    }
  }

  /** A group is accepted exactly when its legs are good and what they settle may be settled. */
  lemma GroupAccepted(db: Db, sender: UserId, legs: seq<LegInput>, at: Stamp)
    requires Inv(db)
    ensures CreateGroup(db, sender, legs, at).Ok? <==> LegsGood(db, sender, legs) && SettlementsGood(db, legs)
  {
    hide Inv, Sound, QuotaSound, IdsSound, RowsSound, TotalsSound, LinksSound, ReversalsSound, Explained, CreateGroup,
         SettlementsGood, LegRows, Inputs, Acceptable, Resolved, Row, UsableCapacity, TotalFor;
    Known(db, Ref.Remittance(0));
    CreateGroupSucceedsIff(db, sender, legs, at);
    SettlementsAccepted(db, sender, legs, at);
    GoodLegsMean(db, sender, legs);
  }

  lemma GoodLegsMean(db: Db, sender: UserId, legs: seq<LegInput>)
    ensures LegsGood(db, sender, legs) <==> legs != [] && GoodLegs(sender, legs) && Affordable(db.wallet, sender, legs)
  {
    hide Row, UsableCapacity, TotalFor;
    if LegsGood(db, sender, legs) {
      forall leg <- legs
        ensures leg.amount > 0 && leg.receiver != sender
        ensures UsableCapacity(Row(db.wallet, Acct(sender, leg.instr))) >= TotalFor(legs, leg.instr)
      {
        var k: nat :| k < |legs| && legs[k] == leg;
      }
    }
  }

  // ---------------------------------------------------------------- what a group leaves behind

  /** A group adds a row for every leg and settles; nothing else of the remittances is touched. */
  lemma GroupTables(db: Db, sender: UserId, legs: seq<LegInput>, at: Stamp)
    requires Inv(db) && CreateGroup(db, sender, legs, at).Ok?
    ensures var (db', rows) := (CreateGroup(db, sender, legs, at).value,
                                LegRows(db.remittances, sender, legs, db.nextId, at));
            && db'.links == db.links + Inputs(legs, db.nextId)
            && db'.remittances.Keys == rows.Keys
            && forall id <- rows :: db'.remittances[id] == SettledRow(rows[id], db.links, Inputs(legs, db.nextId), id)
  {
    hide Inv, LegRows, Inputs, PostLegs, OpenAll, GroupAccounts, Affordable, SettledRow, SettleAll;
    var (rows, inputs) := (LegRows(db.remittances, sender, legs, db.nextId, at), Inputs(legs, db.nextId));
    SettleAllIff(rows, db.links, inputs);
    SettledRead(rows, db.links, inputs);
  }

  /** What is linked afterwards is what was linked before, and what the legs ask for. */
  lemma GroupLinks(db: Db, sender: UserId, legs: seq<LegInput>, at: Stamp, k: nat, source: Id)
    requires Inv(db) && CreateGroup(db, sender, legs, at).Ok? && k < |legs|
    ensures var links := CreateGroup(db, sender, legs, at).value.links;
            && LinkedFrom(links, db.nextId + k) == Asked(legs[k].settlements)
            && LinkedInto(links, source) == LinkedInto(db.links, source) + AskedInto(legs, source)
  {
    hide Inv, Sound, QuotaSound, RowsSound, TotalsSound, LinksSound, ReversalsSound, Explained, CreateGroup, LegRows,
         Inputs, LinkedFrom, LinkedInto, Asked, AskedInto, SettledRow;
    GroupTables(db, sender, legs, at);
    InputSums(legs, db.nextId, k, source);
    LinkedAppend(db.links, Inputs(legs, db.nextId), db.nextId + k);
    LinkedAppend(db.links, Inputs(legs, db.nextId), source);
    Known(db, Ref.Remittance(db.nextId + k));
    NoLinksKnown(db, db.nextId + k);
  }

  /** The status of a row that a group leaves, given what it was before, or what a new leg starts with. */
  predicate StatusSettled(before: RemittanceStatus, amount: int, settled: int, asked: int, after: RemittanceStatus) {
    if asked == 0 then after == before
    else (after.Completed? <==> settled + asked == amount) && (after.Partial? <==> settled + asked < amount)
  }

  lemma RowSettled(r: RemittanceRow, links: seq<Link>, inputs: seq<Link>, id: Id)
    requires LinkedInto(inputs, id) != 0 ==> LinkedInto(links, id) + LinkedInto(inputs, id) <= r.amount
    ensures var r' := SettledRow(r, links, inputs, id);
            && r' == r.(status := r'.status)
            && StatusSettled(r.status, r.amount, LinkedInto(links, id), LinkedInto(inputs, id), r'.status)
  {
    hide LinkedInto;
  }

  /** Not even a group takes what is settled of a remittance over its amount. */
  lemma GroupBounded(db: Db, sender: UserId, legs: seq<LegInput>, at: Stamp, id: Id)
    requires Inv(db) && CreateGroup(db, sender, legs, at).Ok?
    requires id in LegRows(db.remittances, sender, legs, db.nextId, at)
    ensures LinkedInto(db.links, id) + AskedInto(legs, id) <=
            LegRows(db.remittances, sender, legs, db.nextId, at)[id].amount
    ensures id >= db.nextId ==> LinkedInto(db.links, id) == 0
  {
    hide Inv, Sound, QuotaSound, RowsSound, TotalsSound, LinksSound, ReversalsSound, Explained, CreateGroup, LegRows,
         Inputs, LinkedFrom, LinkedInto, AskedInto, NewOnly, SameHeld;
    var db' := CreateGroup(db, sender, legs, at).value;
    CreateGroupSucceedsIff(db, sender, legs, at);
    GroupTables(db, sender, legs, at);
    InputSums(legs, db.nextId, 0, id);
    LinkedAppend(db.links, Inputs(legs, db.nextId), id);
    LinksBounded(db', id);
    Known(db, Ref.Remittance(id));
    if id >= db.nextId {
      LinksKnown(db, id);
    }
  }

  lemma LinksKnown(db: Db, id: Id)
    requires LinksSound(db.remittances, db.links) && id !in db.remittances
    ensures LinkedInto(db.links, id) == 0
  {
    NoLinks(db.remittances, db.links, id);
  }

  lemma GroupStatus(db: Db, sender: UserId, legs: seq<LegInput>, at: Stamp, id: Id)
    requires Inv(db) && CreateGroup(db, sender, legs, at).Ok?
    requires id in LegRows(db.remittances, sender, legs, db.nextId, at)
    ensures var (db', rows) := (CreateGroup(db, sender, legs, at).value,
                                LegRows(db.remittances, sender, legs, db.nextId, at));
            && id in db'.remittances
            && db'.remittances[id] == rows[id].(status := db'.remittances[id].status)
            && StatusSettled(rows[id].status, rows[id].amount, LinkedInto(db.links, id), AskedInto(legs, id),
                             db'.remittances[id].status)
            && (id >= db.nextId ==> LinkedInto(db.links, id) == 0)
  {
    hide Inv, CreateGroup, LegRows, Inputs, LinkedFrom, LinkedInto, AskedInto, SettledRow, StatusSettled;
    GroupTables(db, sender, legs, at);
    InputSums(legs, db.nextId, 0, id);
    GroupBounded(db, sender, legs, at, id);
    RowSettled(LegRows(db.remittances, sender, legs, db.nextId, at)[id], db.links, Inputs(legs, db.nextId), id);
  }

  /** Leg `k` leaves a row that says what was asked for and is posted at once: it takes the amount from the sender and
      gives it to the receiver. */
  lemma GroupPays(db: Db, sender: UserId, legs: seq<LegInput>, at: Stamp, k: nat)
    requires Inv(db) && CreateGroup(db, sender, legs, at).Ok? && k < |legs|
    ensures var (db', id, leg) := (CreateGroup(db, sender, legs, at).value, db.nextId + k, legs[k]);
            && id in db'.remittances
            && db'.remittances[id] == RemittanceRow(sender, leg.receiver, leg.onBehalfOf, leg.instr, leg.amount,
                                                    db'.remittances[id].status, true, true, at)
            && StatusSettled(Completed, leg.amount, 0, AskedInto(legs, id), db'.remittances[id].status)
            && NetOn(MovesOf(db'.wallet.ledger, Ref.Remittance(id)), Acct(sender, leg.instr)) == -leg.amount
            && NetOn(MovesOf(db'.wallet.ledger, Ref.Remittance(id)), Acct(leg.receiver, leg.instr)) == leg.amount
  {
    hide Inv, CreateGroup, LegRows, Inputs, LinkedFrom, LinkedInto, AskedInto, MovesOf, NetOn, SettledRow;
    var (db', id) := (CreateGroup(db, sender, legs, at).value, db.nextId + k);
    CreateGroupSucceedsIff(db, sender, legs, at);
    GroupTables(db, sender, legs, at);
    LegsInRows(db.remittances, sender, legs, db.nextId, at);
    assert LegRows(db.remittances, sender, legs, db.nextId, at)[id] == LegRow(sender, legs[k], at);
    GroupStatus(db, sender, legs, at, id);
    PostedNets(db', id);
  }

  /** A remittance made before keeps everything but its status, and that too unless it is settled. */
  lemma GroupSettles(db: Db, sender: UserId, legs: seq<LegInput>, at: Stamp, id: Id)
    requires Inv(db) && CreateGroup(db, sender, legs, at).Ok? && id in db.remittances
    ensures var (db', r) := (CreateGroup(db, sender, legs, at).value, db.remittances[id]);
            && id in db'.remittances
            && db'.remittances[id] == r.(status := db'.remittances[id].status)
            && StatusSettled(r.status, r.amount, LinkedInto(db.links, id), AskedInto(legs, id),
                             db'.remittances[id].status)
  {
    hide Inv, Sound, QuotaSound, RowsSound, TotalsSound, LinksSound, ReversalsSound, Explained, CreateGroup, LegRows,
         Inputs, LinkedFrom, LinkedInto, AskedInto, SettledRow;
    Known(db, Ref.Remittance(id));
    GroupTables(db, sender, legs, at);
    LegsInRows(db.remittances, sender, legs, db.nextId, at);
    GroupStatus(db, sender, legs, at, id);
  }
}
