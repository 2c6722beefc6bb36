// The storage of one brigade as its operations see it: the record in main, whether a session
// can still read it, and the API address calls go to. What a session can leave behind is what
// every session of the file database leaves behind, see SessionLeavesStored.

module BrigadeStorage {
  import opened Brigade
  import opened Endpoint
  import opened FileDb

  // The record main held last, and what the database is worth.
  datatype Stored = Stored(rec: BrigadeRec, worth: Worth)

  // The record is there for the next session to read.
  function InOrder(rec: BrigadeRec): Stored {
    Stored(rec, Readable)
  }

  // How a session that failed can leave the storage: as it was; a doomed main emptied by the
  // open; main lost in the commit, or holding the new record but doomed.
  predicate Spoilt(was: Stored, wanted: BrigadeRec, now: Stored) {
    || now == was
    || (was.worth.Doomed? && now == was.(worth := Gone))
    || (was.worth.Readable? && (now == Stored(was.rec, Gone) || now == Stored(wanted, Doomed)))
  }

  // The same for a session that did not get as far as a commit.
  predicate NotOpened(was: Stored, now: Stored) {
    now == was || (was.worth.Doomed? && now == was.(worth := Gone))
  }

  // The files as a storage: every version stands for a record.
  ghost function StoredOf(s: State, versions: nat -> BrigadeRec): Stored {
    Stored(versions(s.newest), WorthOf(Crashed(s)))
  }

  // Every session on the files, wherever it dies, is one of the ends allowed here. One that
  // stands after its commit has stored the next record. One that never decoded was not opened.
  lemma SessionLeavesStored(run: seq<State>, acts: seq<Act>, versions: nat -> BrigadeRec)
    requires IsSession(run, acts) && Inv(run[0])
    ensures var last := run[|acts|];
      var was, wanted, now := StoredOf(run[0], versions), versions(run[0].newest + 1), StoredOf(last, versions);
      && (Spoilt(was, wanted, now) || (was.worth.Readable? && now == InOrder(wanted)))
      && (last.stage.Committed? ==> was.worth.Readable? && now == InOrder(wanted))
      && (last.stage.Decoded? ==> was.worth.Readable? && now == was)
      && ((forall i :: 0 <= i < |run| ==> !run[i].stage.Decoded?) ==> NotOpened(was, now))
  {
    hide Inv, WorthOf, Step;
    SessionLeaves(run, acts);
    if forall i :: 0 <= i < |run| ==> !run[i].stage.Decoded? {
      UnopenedSessionLeaves(run, acts);
    }
  }

  class Storage {
    var rec: BrigadeRec
    var worth: Worth
    var address: IPv6
    ghost var faults: nat  // how many times opening or committing failed

    constructor (rec: BrigadeRec, address: IPv6)
      ensures Now() == InOrder(rec) && this.address == address && faults == 0
    {
      this.rec, this.worth, this.address, this.faults := rec, Readable, address, 0;
    }

    function Now(): Stored
      reads this
    {
      Stored(rec, worth)
    }

    // Opens the files and decodes main. What spoils a readable main is the commit only.
    method Open() returns (ok: bool)
      modifies this`worth, this`faults
      ensures faults == old(faults) + if ok then 0 else 1
      ensures ok ==> old(worth).Readable? && worth.Readable?
      ensures !ok ==> NotOpened(old(Now()), Now())
    {
      var emptied: bool := *;
      ok := *;
      if worth == Doomed && emptied {
        worth := Gone;
      }
      ok := ok && worth == Readable;
      faults := faults + if ok then 0 else 1;
    }

    // Encodes and commits the record of an open session.
    method Commit(info: BrigadeInfo, users: seq<User>) returns (ok: bool)
      requires worth.Readable?
      modifies this`rec, this`worth, this`faults
      ensures faults == old(faults) + if ok then 0 else 1
      ensures ok ==> Now() == InOrder(BrigadeRec(info, Recs(users)))
      ensures !ok ==> Spoilt(old(Now()), BrigadeRec(info, Recs(users)), Now())
    {
      var reached: nat := *;
      ok := reached > 2;
      if reached == 1 {
        worth := Gone;
      } else if reached == 2 {
        rec, worth := BrigadeRec(info, Recs(users)), Doomed;
      } else if ok {
        rec := BrigadeRec(info, Recs(users));
      }
      faults := faults + if ok then 0 else 1;
    }

    // Fixes the address all calls of this process go to: the one given, or by default the one
    // that the record leads to as it is stored now.
    method SelfCheckAndInit(given: Option<IPv6>) returns (ok: bool)
      modifies this`worth, this`address, this`faults
      ensures faults == old(faults) + if ok then 0 else 1
      ensures ok ==> old(worth).Readable? && worth.Readable?
      ensures ok ==> address == match given case Some(a) => a case None => Home(rec.info).address
      ensures !ok ==> NotOpened(old(Now()), Now()) && address == old(address)
    {
      ok := Open();
      if ok {
        address := match given case Some(a) => a case None => CalcAPIAddr(rec.info.endpointIPv4);
      }
    }
  }
}
