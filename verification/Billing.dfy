/** The archives as bills: what was billed to a user is what the archive files say, date by
    date, as long as no guard is lost between a reset's stats write and its guard write. */
module Billing {
  import opened Calendar
  import opened Accounting
  import opened AccountingProofs
  import opened AccountingRuns

  /** A reset whose zeroing reached the disk: its date and its snapshot. */
  datatype Bill = Bill(date: Date, snap: Counts)

  function Bills(day: nat, s: State, es: seq<Event>): seq<Bill>
    requires Legal(day, s, es)
    decreases |es|
  {
    if es == [] then []
    else
      var front, e := es[..|es| - 1], es[|es| - 1];
      var pc := After(day, s, front).pc;
      Bills(day, s, front) + if e == Persist(true) then [Bill(pc.today, pc.snap)] else []
  }

  /** No guard save fails, and the process does not die before it. */
  ghost predicate Careful(day: nat, s: State, es: seq<Event>)
    requires Legal(day, s, es)
    decreases |es|
  {
    es == [] ||
    (var front, e := es[..|es| - 1], es[|es| - 1];
     Careful(day, s, front) && e != SaveGuard(false) && !(e == Crash && After(day, s, front).pc.SavingGuard?))
  }

  predicate OnFile(archive: map<Date, ArchiveFile>, b: Bill) {
    b.date in archive && archive[b.date] == Archived(b.snap)
  }

  /** The archive of the bill is complete, and the guard file has its date or a later one. */
  predicate Settled(s: State, b: Bill) {
    s.disk.guard.Some? && Leq(b.date, s.disk.guard.value) && OnFile(s.disk.archive, b)
  }

  /** The bill of the reset that has yet to save its guard. */
  predicate Unsettled(s: State, b: Bill) {
    s.pc.SavingGuard? && b.date == s.pc.today && OnFile(s.disk.archive, b)
  }

  ghost predicate BillsInv(s: State, bs: seq<Bill>) {
    && (forall i, j :: 0 <= i < j < |bs| ==> Leq(bs[i].date, bs[j].date) && bs[i].date != bs[j].date)
    && if s.pc.SavingGuard? then
         bs != [] && Unsettled(s, bs[|bs| - 1]) && forall i :: 0 <= i < |bs| - 1 ==> Settled(s, bs[i])
       else forall i :: 0 <= i < |bs| ==> Settled(s, bs[i])
  }

  lemma SettledStep(day: nat, s: State, e: Event, b: Bill)
    requires Enabled(s, e) && GuardInv(s) && Settled(s, b)
    ensures Settled(Apply(day, s, e), b)
  {
    hide GuardInv;
    PastArchiveStep(day, s, e, b.date);
  }

  lemma OpenBillStep(day: nat, s: State, e: Event, b: Bill)
    requires Enabled(s, e) && Unsettled(s, b) && e != SaveGuard(false) && e != Crash
    ensures var t := Apply(day, s, e);
            if e == SaveGuard(true) then !t.pc.SavingGuard? && Settled(t, b) else Unsettled(t, b)
  {
  }

  /** A new bill is for a later date than all before it. */
  lemma NewBill(day: nat, s: State, b: Bill)
    requires Enabled(s, Persist(true)) && GuardInv(s) && ArchiveInv(s)
    ensures var t := Apply(day, s, Persist(true));
            Unsettled(t, Bill(s.pc.today, s.pc.snap)) &&
            (Settled(s, b) ==> Leq(b.date, s.pc.today) && b.date != s.pc.today)
  {
    hide Plus, Only, AddLost;
  }

  lemma OnlyPersistOpens(day: nat, s: State, e: Event)
    requires Enabled(s, e) && e != Persist(true) && !s.pc.SavingGuard?
    ensures !Apply(day, s, e).pc.SavingGuard?
  {
  }

  lemma OpenIsSaving(s: State, b: Bill)
    requires Unsettled(s, b)
    ensures s.pc.SavingGuard?
  {
  }

  lemma BillsStep(day: nat, s: State, e: Event, bs: seq<Bill>)
    requires Enabled(s, e) && GuardInv(s) && ArchiveInv(s) && BillsInv(s, bs)
    requires e != SaveGuard(false) && !(e == Crash && s.pc.SavingGuard?)
    ensures BillsInv(Apply(day, s, e), bs + if e == Persist(true) then [Bill(s.pc.today, s.pc.snap)] else [])
  {
    hide Apply, GuardInv, ArchiveInv, Settled, Unsettled;
    var t := Apply(day, s, e);
    forall i | 0 <= i < |bs| && Settled(s, bs[i]) ensures Settled(t, bs[i]) {
      SettledStep(day, s, e, bs[i]);
    }
    if s.pc.SavingGuard? {
      OpenBillStep(day, s, e, bs[|bs| - 1]);
      if e != SaveGuard(true) {
        OpenIsSaving(t, bs[|bs| - 1]);
      }
      assert bs + [] == bs;
    } else if e == Persist(true) {
      NewBill(day, s, Bill(s.pc.today, s.pc.snap));
      forall i | 0 <= i < |bs| ensures Leq(bs[i].date, s.pc.today) && bs[i].date != s.pc.today {
        NewBill(day, s, bs[i]);
      }
      OpenIsSaving(t, Bill(s.pc.today, s.pc.snap));
    } else {
      OnlyPersistOpens(day, s, e);
      assert bs + [] == bs;
    }
  }

  lemma NoBills(s: State)
    requires !s.pc.SavingGuard?
    ensures BillsInv(s, [])
  {
  }

  lemma InvFiles(s: State)
    requires Inv(s)
    ensures GuardInv(s) && ArchiveInv(s)
  {
    hide GuardInv, ArchiveInv;
  }

  lemma {:induction false} BillsRun(day: nat, s: State, es: seq<Event>)
    requires Inv(s) && !s.pc.SavingGuard? && Legal(day, s, es) && Careful(day, s, es)
    ensures BillsInv(After(day, s, es), Bills(day, s, es))
    decreases |es|
  {
    hide Enabled, Apply, Inv, GuardInv, ArchiveInv, BillsInv;
    if es == [] {
      NoBills(s);
    } else {
      var front := es[..|es| - 1];
      BillsRun(day, s, front);
      InvRun(day, s, front);
      InvFiles(After(day, s, front));
      BillsStep(day, After(day, s, front), es[|es| - 1], Bills(day, s, front));
    }
  }

  // ---------------------------------------------------------------- the sum

  /** What the archive files of these dates hold for the user. */
  function OnArchives(archive: map<Date, ArchiveFile>, bs: seq<Bill>, u: User): nat {
    if bs == [] then 0
    else
      var d := bs[|bs| - 1].date;
      OnArchives(archive, bs[..|bs| - 1], u) +
      if d in archive && archive[d].Archived? then Get(archive[d].counts, u) else 0
  }

  function OnBills(bs: seq<Bill>, u: User): nat {
    if bs == [] then 0 else OnBills(bs[..|bs| - 1], u) + Get(bs[|bs| - 1].snap, u)
  }

  lemma {:induction false} FilesSayTheBills(archive: map<Date, ArchiveFile>, bs: seq<Bill>, u: User)
    requires forall i :: 0 <= i < |bs| ==> OnFile(archive, bs[i])
    ensures OnArchives(archive, bs, u) == OnBills(bs, u)
  {
    if bs != [] {
      FilesSayTheBills(archive, bs[..|bs| - 1], u);
      assert OnFile(archive, bs[|bs| - 1]);
    }
  }

  lemma BilledStep(day: nat, s: State, e: Event, u: User)
    requires Enabled(s, e)
    ensures e == Persist(true) ==> s.pc.Persisting?
    ensures Get(Apply(day, s, e).ledger.billed, u) ==
            Get(s.ledger.billed, u) + if e == Persist(true) then Get(s.pc.snap, u) else 0
  {
  }

  lemma BillsSnoc(bs: seq<Bill>, b: Bill, u: User)
    ensures OnBills(bs + [b], u) == OnBills(bs, u) + Get(b.snap, u)
  {
    assert (bs + [b])[..|bs + [b]| - 1] == bs;
  }

  lemma {:induction false} BilledIsBills(day: nat, s: State, es: seq<Event>, u: User)
    requires Legal(day, s, es)
    ensures Get(After(day, s, es).ledger.billed, u) == Get(s.ledger.billed, u) + OnBills(Bills(day, s, es), u)
    decreases |es|
  {
    hide Enabled, Apply, Get;
    if es != [] {
      var front, e := es[..|es| - 1], es[|es| - 1];
      BilledIsBills(day, s, front, u);
      BilledStep(day, After(day, s, front), e, u);
      var pc := After(day, s, front).pc;
      if e == Persist(true) {
        BillsSnoc(Bills(day, s, front), Bill(pc.today, pc.snap), u);
      } else {
        assert Bills(day, s, front) + [] == Bills(day, s, front);
      }
    }
  }

  lemma StartsDown(s: State, u: User)
    requires Initial(s)
    ensures s.pc == Down && Get(s.ledger.billed, u) == 0
  {
  }

  /** Over every such run, with crashes, restarts, failing resets and rollbacks: the bills
      are for different dates, each is the archive file of its date, and every byte counted
      for a user is in exactly one of those files, in the counter, in flight, or lost. */
  lemma ArchivesHoldTheBill(day: nat, s: State, es: seq<Event>, u: User)
    requires Initial(s) && Legal(day, s, es) && Careful(day, s, es) && After(day, s, es).pc != Down
    ensures var t, bs := After(day, s, es), Bills(day, s, es);
            (forall i :: 0 <= i < |bs| ==> OnFile(t.disk.archive, bs[i])) &&
            (forall i, j :: 0 <= i < j < |bs| ==> bs[i].date != bs[j].date) &&
            Earned(t, u) == OnArchives(t.disk.archive, bs, u) + Live(t, u) + InFlight(t, u) + GetInt(t.ledger.lost, u)
  {
    hide Initial, Legal, After, Bills, Careful, Inv, Earned, Live, InFlight, Get, GetInt;
    var t, bs := After(day, s, es), Bills(day, s, es);
    InitialInv(s);
    StartsDown(s, u);
    BillsRun(day, s, es);
    assert forall i :: 0 <= i < |bs| ==> OnFile(t.disk.archive, bs[i]);
    FilesSayTheBills(t.disk.archive, bs, u);
    BilledIsBills(day, s, es, u);
    Conservation(day, s, es, u);
  }
}
