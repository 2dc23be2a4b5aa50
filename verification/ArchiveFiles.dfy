/** The archive directory against the bills, over every run: which files are bills, and the
    exact sum of what the files hold. */
module ArchiveFiles {
  import opened Wrappers
  import opened Calendar
  import opened Accounting
  import opened AccountingProofs
  import opened AccountingRuns
  import opened Billing
  import opened Overwriting

  // ---------------------------------------------------------------- where a file comes from

  /** The last reset that opened the file: it has not completed it, or has completed it and
      not persisted, or has done both. */
  datatype Origin = Opened | Unbilled(snap: Counts) | Billed(snap: Counts)

  type Origins = map<Date, Origin>

  function Note(o: Origins, pc: Pc, e: Event): Origins {
    if e == OpenArchive && pc.Opening? then o[pc.today := Opened]
    else if e == FillArchive(true) && pc.Filling? then o[pc.today := Unbilled(pc.snap)]
    else if e == Persist(true) && pc.Persisting? then o[pc.today := Billed(pc.snap)]
    else o
  }

  /** The files a run has opened, and where each comes from. */
  function Written(day: nat, s: State, es: seq<Event>): Origins
    requires Legal(day, s, es)
    decreases |es|
  {
    if es == [] then map[]
    else
      var front := es[..|es| - 1];
      Note(Written(day, s, front), After(day, s, front).pc, es[|es| - 1])
  }

  /** Their dates, in the order in which they were first opened. */
  function Dates(day: nat, s: State, es: seq<Event>): seq<Date>
    requires Legal(day, s, es)
    decreases |es|
  {
    if es == [] then []
    else
      var front, pc := es[..|es| - 1], After(day, s, es[..|es| - 1]).pc;
      var ds := Dates(day, s, front);
      if es[|es| - 1] == OpenArchive && pc.Opening? && pc.today !in ds then ds + [pc.today] else ds
  }

  /** What the file of the date holds for the user, if it is a bill, or if it is none. */
  function Amount(o: Origins, d: Date, bill: bool, u: User): nat {
    if d in o && ((bill && o[d].Billed?) || (!bill && o[d].Unbilled?)) then Get(o[d].snap, u) else 0
  }

  /** What the user had in files that were bills and were opened again. */
  function Torn(day: nat, s: State, es: seq<Event>, u: User): nat
    requires Legal(day, s, es)
    decreases |es|
  {
    if es == [] then 0
    else
      var front, pc := es[..|es| - 1], After(day, s, es[..|es| - 1]).pc;
      var o := Written(day, s, front);
      Torn(day, s, front, u) +
      if es[|es| - 1] == OpenArchive && pc.Opening? then Amount(o, pc.today, true, u) else 0
  }

  predicate AgreesAt(archive: map<Date, ArchiveFile>, o: Origins, d: Date) {
    d in o ==> d in archive && archive[d] == if o[d].Opened? then Partial else Archived(o[d].snap)
  }

  /** Every opened file holds what its origin says; the file of a reset under way is open, or
      complete and not yet a bill. */
  ghost predicate OriginsInv(t: State, o: Origins) {
    && (forall d :: AgreesAt(t.disk.archive, o, d))
    && (t.pc.Filling? ==> t.pc.today in o && o[t.pc.today] == Opened)
    && (t.pc.Zeroing? || t.pc.Persisting? ==> t.pc.today in o && o[t.pc.today] == Unbilled(t.pc.snap))
  }

  lemma AgreesStep(day: nat, t: State, e: Event, o: Origins, d: Date)
    requires Enabled(t, e) && OriginsInv(t, o)
    ensures AgreesAt(Apply(day, t, e).disk.archive, Note(o, t.pc, e), d)
  {
    assert AgreesAt(t.disk.archive, o, d);
    hide Plus, Only, AddLost, LostAtBoot;
  }

  lemma OriginOfReset(day: nat, t: State, e: Event, o: Origins)
    requires Enabled(t, e) && OriginsInv(t, o)
    ensures var v, o' := Apply(day, t, e), Note(o, t.pc, e);
            (v.pc.Filling? ==> v.pc.today in o' && o'[v.pc.today] == Opened) &&
            (v.pc.Zeroing? || v.pc.Persisting? ==> v.pc.today in o' && o'[v.pc.today] == Unbilled(v.pc.snap))
  {
    hide AgreesAt, Plus, Only, AddLost, LostAtBoot;
  }

  predicate Resting(pc: Pc) { pc == Down || pc == Idle }

  lemma NoOrigins(s: State)
    requires Resting(s.pc)
    ensures OriginsInv(s, map[])
  {
  }

  lemma {:induction false} OriginsRun(day: nat, s: State, es: seq<Event>)
    requires Resting(s.pc) && Legal(day, s, es)
    ensures OriginsInv(After(day, s, es), Written(day, s, es))
    decreases |es|
  {
    hide Enabled, Apply, Note, AgreesAt;
    if es == [] {
      NoOrigins(s);
    } else {
      var front, e := es[..|es| - 1], es[|es| - 1];
      var t, o := After(day, s, front), Written(day, s, front);
      OriginsRun(day, s, front);
      OriginOfReset(day, t, e, o);
      forall d ensures AgreesAt(Apply(day, t, e).disk.archive, Note(o, t.pc, e), d) {
        AgreesStep(day, t, e, o, d);
      }
    }
  }

  // ---------------------------------------------------------------- the sum

  function Sum(ds: seq<Date>, o: Origins, bill: bool, u: User): nat {
    if ds == [] then 0 else Sum(ds[..|ds| - 1], o, bill, u) + Amount(o, ds[|ds| - 1], bill, u)
  }

  /** What the completed archive files of these dates hold for the user. */
  function OnFiles(archive: map<Date, ArchiveFile>, ds: seq<Date>, u: User): nat {
    if ds == [] then 0
    else
      var d := ds[|ds| - 1];
      OnFiles(archive, ds[..|ds| - 1], u) +
      if d in archive && archive[d].Archived? then Get(archive[d].counts, u) else 0
  }

  lemma {:induction false} FilesAreSums(archive: map<Date, ArchiveFile>, ds: seq<Date>, o: Origins, u: User)
    requires forall d :: AgreesAt(archive, o, d)
    requires forall i :: 0 <= i < |ds| ==> ds[i] in o
    ensures OnFiles(archive, ds, u) == Sum(ds, o, true, u) + Sum(ds, o, false, u)
  {
    if ds != [] {
      FilesAreSums(archive, ds[..|ds| - 1], o, u);
      assert AgreesAt(archive, o, ds[|ds| - 1]);
    }
  }

  /** A file of no listed date does not matter to the sum. */
  lemma {:induction false} SumOfOthers(ds: seq<Date>, o: Origins, d: Date, v: Origin, bill: bool, u: User)
    requires d !in ds
    ensures Sum(ds, o[d := v], bill, u) == Sum(ds, o, bill, u)
  {
    if ds != [] {
      assert ds[|ds| - 1] in ds;
      SumOfOthers(ds[..|ds| - 1], o, d, v, bill, u);
    }
  }

  ghost predicate Distinct(ds: seq<Date>) { forall i, j :: 0 <= i < j < |ds| ==> ds[i] != ds[j] }

  /** The file of a listed date changes the sum by its own change. */
  lemma {:induction false} SumUpdate(ds: seq<Date>, o: Origins, d: Date, v: Origin, bill: bool, u: User)
    requires Distinct(ds) && d in ds
    ensures Sum(ds, o[d := v], bill, u) + Amount(o, d, bill, u) ==
            Sum(ds, o, bill, u) + Amount(o[d := v], d, bill, u)
  {
    var front, last := ds[..|ds| - 1], ds[|ds| - 1];
    if last == d {
      SumOfOthers(front, o, d, v, bill, u);
    } else {
      SumUpdate(front, o, d, v, bill, u);
    }
  }

  lemma SumSnoc(ds: seq<Date>, d: Date, o: Origins, bill: bool, u: User)
    ensures Sum(ds + [d], o, bill, u) == Sum(ds, o, bill, u) + Amount(o, d, bill, u)
  {
    assert (ds + [d])[..|ds + [d]| - 1] == ds;
  }

  /** The dates are those of the opened files, each once. */
  ghost predicate Lists(ds: seq<Date>, o: Origins) {
    Distinct(ds) && forall d :: d in ds <==> d in o
  }

  /** One event: the bills on file and those torn up grow by what is billed. */
  lemma SumStep(day: nat, t: State, e: Event, o: Origins, ds: seq<Date>, u: User)
    requires Enabled(t, e) && OriginsInv(t, o) && Lists(ds, o)
    ensures var o' := Note(o, t.pc, e);
            var ds' := if e == OpenArchive && t.pc.today !in ds then ds + [t.pc.today] else ds;
            Lists(ds', o') &&
            Sum(ds', o', true, u) + (if e == OpenArchive then Amount(o, t.pc.today, true, u) else 0) ==
            Sum(ds, o, true, u) + if e == Persist(true) then Get(t.pc.snap, u) else 0
  {
    hide AgreesAt, Sum, Get;
    var o' := Note(o, t.pc, e);
    if e == OpenArchive && t.pc.today !in ds {
      SumOfOthers(ds, o, t.pc.today, Opened, true, u);
      SumSnoc(ds, t.pc.today, o', true, u);
    } else if e == OpenArchive || e == FillArchive(true) || e == Persist(true) {
      SumUpdate(ds, o, t.pc.today, o'[t.pc.today], true, u);
    }
  }

  lemma NoDates(u: User)
    ensures Lists([], map[]) && Sum([], map[], true, u) == 0
  {
  }

  lemma {:induction false} SumRun(day: nat, s: State, es: seq<Event>, u: User)
    requires Resting(s.pc) && Legal(day, s, es)
    ensures Lists(Dates(day, s, es), Written(day, s, es))
    ensures Sum(Dates(day, s, es), Written(day, s, es), true, u) + Torn(day, s, es, u) ==
            OnBills(Bills(day, s, es), u)
    decreases |es|
  {
    hide Apply, Note, Amount, Sum, Lists, Get, OriginsInv;
    if es == [] {
      NoDates(u);
    } else {
      var front, e := es[..|es| - 1], es[|es| - 1];
      var t := After(day, s, front);
      SumRun(day, s, front, u);
      OriginsRun(day, s, front);
      SumStep(day, t, e, Written(day, s, front), Dates(day, s, front), u);
      if e == Persist(true) {
        BillsSnoc(Bills(day, s, front), Bill(t.pc.today, t.pc.snap), u);
      } else {
        assert Bills(day, s, front) + [] == Bills(day, s, front);
      }
    }
  }

  /** Over every run, whatever fails and dies: the files hold, for each user, what was billed
      since the start, less the bills that were torn up, and more by what resets completed
      and did not persist. So they add up to the bills exactly when those two are equal. */
  lemma FilesAgainstBills(day: nat, s: State, es: seq<Event>, u: User)
    requires Resting(s.pc) && Legal(day, s, es)
    ensures var t, ds, o := After(day, s, es), Dates(day, s, es), Written(day, s, es);
            OnFiles(t.disk.archive, ds, u) + Torn(day, s, es, u) + Get(s.ledger.billed, u) ==
            Get(t.ledger.billed, u) + Sum(ds, o, false, u)
    ensures var t, ds, o := After(day, s, es), Dates(day, s, es), Written(day, s, es);
            OnFiles(t.disk.archive, ds, u) == Get(t.ledger.billed, u) - Get(s.ledger.billed, u) <==>
            Torn(day, s, es, u) == Sum(ds, o, false, u)
  {
    hide Enabled, Apply, Legal, After, Written, Dates, Torn, Sum, OnFiles, AgreesAt, Get;
    OriginsRun(day, s, es);
    SumRun(day, s, es, u);
    BilledIsBills(day, s, es, u);
    FilesAreSums(After(day, s, es).disk.archive, Dates(day, s, es), Written(day, s, es), u);
  }

  // ---------------------------------------------------------------- which files are bills

  /** How often the date was billed. */
  function BillsFor(bs: seq<Bill>, d: Date): nat {
    if bs == [] then 0 else BillsFor(bs[..|bs| - 1], d) + if bs[|bs| - 1].date == d then 1 else 0
  }

  /** How often a bill of the date was opened again. */
  function TornFor(day: nat, s: State, es: seq<Event>, d: Date): nat
    requires Legal(day, s, es)
    decreases |es|
  {
    if es == [] then 0
    else
      var front, pc := es[..|es| - 1], After(day, s, es[..|es| - 1]).pc;
      var o := Written(day, s, front);
      TornFor(day, s, front, d) +
      if es[|es| - 1] == OpenArchive && pc.Opening? && pc.today == d && d in o && o[d].Billed? then 1 else 0
  }

  predicate IsBilled(o: Origins, d: Date) { d in o && o[d].Billed? }

  lemma BillsForSnoc(bs: seq<Bill>, b: Bill, d: Date)
    ensures BillsFor(bs + [b], d) == BillsFor(bs, d) + if b.date == d then 1 else 0
  {
    assert (bs + [b])[..|bs + [b]| - 1] == bs;
  }

  /** How an event changes whether the file of the date is a bill, and which. */
  lemma IsBilledStep(day: nat, t: State, e: Event, o: Origins, d: Date)
    requires Enabled(t, e) && OriginsInv(t, o)
    ensures var o' := Note(o, t.pc, e);
            (e == OpenArchive && t.pc.today == d ==> !IsBilled(o', d)) &&
            (e == Persist(true) && t.pc.today == d ==> !IsBilled(o, d) && d in o' && o'[d] == Billed(t.pc.snap)) &&
            (!(e == OpenArchive && t.pc.today == d) && !(e == Persist(true) && t.pc.today == d) ==>
               (IsBilled(o', d) <==> IsBilled(o, d)) && (IsBilled(o, d) ==> d in o && d in o' && o'[d] == o[d]))
  {
    hide AgreesAt;
  }

  lemma NothingBilled(d: Date)
    ensures !IsBilled(map[], d)
  {
  }

  lemma BilledMeans(o: Origins, d: Date)
    ensures IsBilled(o, d) <==> d in o && o[d].Billed?
  {
  }

  lemma {:induction false} BilledRun(day: nat, s: State, es: seq<Event>, d: Date)
    requires Resting(s.pc) && Legal(day, s, es)
    ensures var o, bs := Written(day, s, es), Bills(day, s, es);
            BillsFor(bs, d) == TornFor(day, s, es, d) + (if IsBilled(o, d) then 1 else 0) &&
            (IsBilled(o, d) ==> Bill(d, o[d].snap) in bs)
    decreases |es|
  {
    hide Apply, Note, IsBilled, OriginsInv;
    if es == [] {
      assert !IsBilled(map[], d) by { NothingBilled(d); }
    } else {
      var front, e := es[..|es| - 1], es[|es| - 1];
      var t, o := After(day, s, front), Written(day, s, front);
      BilledRun(day, s, front, d);
      OriginsRun(day, s, front);
      IsBilledStep(day, t, e, o, d);
      BilledMeans(o, d);
      BilledMeans(Note(o, t.pc, e), d);
      if e == Persist(true) {
        BillsForSnoc(Bills(day, s, front), Bill(t.pc.today, t.pc.snap), d);
      } else {
        assert Bills(day, s, front) + [] == Bills(day, s, front);
      }
    }
  }

  /** A completed file is a bill exactly when the last reset that completed it also persisted:
      then one more bill was made for its date than was torn up, and the file is that bill;
      otherwise all were torn up. */
  lemma FileIsBillExactly(day: nat, s: State, es: seq<Event>, d: Date)
    requires Resting(s.pc) && Legal(day, s, es) && d in Written(day, s, es)
    ensures var t, o, bs := After(day, s, es), Written(day, s, es), Bills(day, s, es);
            (o[d].Billed? <==> BillsFor(bs, d) == TornFor(day, s, es, d) + 1) &&
            (!o[d].Billed? <==> BillsFor(bs, d) == TornFor(day, s, es, d)) &&
            (o[d].Billed? ==> Bill(d, o[d].snap) in bs && OnFile(t.disk.archive, Bill(d, o[d].snap))) &&
            (d in t.disk.archive && (t.disk.archive[d].Archived? <==> !o[d].Opened?))
  {
    hide Apply, Enabled, Legal, After;
    BilledRun(day, s, es, d);
    OriginsRun(day, s, es);
    assert AgreesAt(After(day, s, es).disk.archive, Written(day, s, es), d);
  }

  // ---------------------------------------------------------------- when they are all bills

  /** No persist fails, and the process does not die between a completed archive and it. */
  ghost predicate Committing(day: nat, s: State, es: seq<Event>)
    requires Legal(day, s, es)
    decreases |es|
  {
    es == [] ||
    (var front, e := es[..|es| - 1], es[|es| - 1];
     var pc := After(day, s, front).pc;
     Committing(day, s, front) && e != Persist(false) && !(e == Crash && (pc.Zeroing? || pc.Persisting?)))
  }

  /** The file is of the reset under way, archived and not yet persisted. */
  predicate NotYetBilled(pc: Pc, d: Date) { (pc.Zeroing? || pc.Persisting?) && pc.today == d }

  lemma UnbilledStep(day: nat, t: State, e: Event, o: Origins, d: Date)
    requires Enabled(t, e) && OriginsInv(t, o)
    requires e != Persist(false) && !(e == Crash && (t.pc.Zeroing? || t.pc.Persisting?))
    requires d in o && o[d].Unbilled? ==> NotYetBilled(t.pc, d)
    ensures var o' := Note(o, t.pc, e);
            d in o' && o'[d].Unbilled? ==> NotYetBilled(Apply(day, t, e).pc, d)
  {
    hide AgreesAt, Plus, Only, AddLost, LostAtBoot;
  }

  /** Then every completed file is a bill, but for that of the reset under way. */
  lemma {:induction false} AllAreBills(day: nat, s: State, es: seq<Event>, d: Date)
    requires Resting(s.pc) && Legal(day, s, es) && Committing(day, s, es)
    ensures d in Written(day, s, es) && Written(day, s, es)[d].Unbilled? ==> NotYetBilled(After(day, s, es).pc, d)
    decreases |es|
  {
    hide Enabled, Apply, Note, OriginsInv, NotYetBilled;
    if es != [] {
      var front := es[..|es| - 1];
      AllAreBills(day, s, front, d);
      OriginsRun(day, s, front);
      UnbilledStep(day, After(day, s, front), es[|es| - 1], Written(day, s, front), d);
    }
  }

  /** Of the listed dates at most the one of the reset under way contributes. */
  lemma {:induction false} SumOfAtMost(ds: seq<Date>, o: Origins, pc: Pc, u: User)
    requires Distinct(ds) && forall d :: d in o && o[d].Unbilled? ==> NotYetBilled(pc, d)
    requires pc.Zeroing? || pc.Persisting? ==> pc.today in o && o[pc.today] == Unbilled(pc.snap)
    ensures Sum(ds, o, false, u) ==
            if (pc.Zeroing? || pc.Persisting?) && pc.today in ds then Get(pc.snap, u) else 0
  {
    if ds != [] {
      var front, last := ds[..|ds| - 1], ds[|ds| - 1];
      SumOfAtMost(front, o, pc, u);
      assert ds == front + [last];
    }
  }

  lemma SumOfOne(ds: seq<Date>, o: Origins, pc: Pc, u: User)
    requires Lists(ds, o) && forall d :: d in o && o[d].Unbilled? ==> NotYetBilled(pc, d)
    requires pc.Zeroing? || pc.Persisting? ==> pc.today in o && o[pc.today] == Unbilled(pc.snap)
    ensures Sum(ds, o, false, u) == if pc.Zeroing? || pc.Persisting? then Get(pc.snap, u) else 0
  {
    SumOfAtMost(ds, o, pc, u);
  }

  lemma SettledIsEarlier(t: State, b: Bill, bs: seq<Bill>)
    requires t.pc.Opening? && GuardInv(t) && BillsInv(t, bs) && b in bs
    ensures b.date != t.pc.today
  {
    var i :| 0 <= i < |bs| && bs[i] == b;
    assert Settled(t, bs[i]);
  }

  /** A bill whose guard was saved, or is being saved, is never opened again. */
  lemma NotTorn(day: nat, s: State, front: seq<Event>, u: User)
    requires Inv(s) && Resting(s.pc) && Legal(day, s, front) && Careful(day, s, front)
    requires After(day, s, front).pc.Opening?
    ensures Amount(Written(day, s, front), After(day, s, front).pc.today, true, u) == 0
  {
    hide Enabled, Apply, Legal, After, Inv, Written, Bills, Careful;
    var t, o := After(day, s, front), Written(day, s, front);
    InvRun(day, s, front);
    InvGuard(t);
    BillsRun(day, s, front);
    BilledRun(day, s, front, t.pc.today);
    forall b | b in Bills(day, s, front) ensures b.date != t.pc.today {
      SettledIsEarlier(t, b, Bills(day, s, front));
    }
    BilledMeans(o, t.pc.today);
  }

  lemma {:induction false} NothingTorn(day: nat, s: State, es: seq<Event>, u: User)
    requires Inv(s) && Resting(s.pc) && Legal(day, s, es) && Careful(day, s, es)
    ensures Torn(day, s, es, u) == 0
    decreases |es|
  {
    hide Enabled, Apply, Inv, Amount, Written;
    if es != [] {
      var front := es[..|es| - 1];
      NothingTorn(day, s, front, u);
      if After(day, s, front).pc.Opening? {
        NotTorn(day, s, front, u);
      }
    }
  }

  /** With no guard lost and no persist failing, the files add up to the bills, and to the
      archive of the reset under way. */
  lemma FilesAreTheBills(day: nat, s: State, es: seq<Event>, u: User)
    requires Initial(s) && Legal(day, s, es) && Careful(day, s, es) && Committing(day, s, es)
    ensures var t, ds := After(day, s, es), Dates(day, s, es);
            OnFiles(t.disk.archive, ds, u) ==
            Get(t.ledger.billed, u) +
            if t.pc.Zeroing? || t.pc.Persisting? then Get(t.pc.snap, u) else 0
  {
    hide Apply, Legal, After, Written, Dates, Torn, Sum, OnFiles, Get, Inv, Careful, Committing, NotYetBilled, Lists,
      AgreesAt;
    StartsDown(s, u);
    InitialInv(s);
    var t, o := After(day, s, es), Written(day, s, es);
    FilesAgainstBills(day, s, es, u);
    NothingTorn(day, s, es, u);
    OriginsRun(day, s, es);
    SumRun(day, s, es, u);
    forall d | d in o && o[d].Unbilled? ensures NotYetBilled(t.pc, d) {
      AllAreBills(day, s, es, d);
    }
    SumOfOne(Dates(day, s, es), o, t.pc, u);
  }

  // ---------------------------------------------------------------- ... and when they are not

  lemma {:induction false} NoMoreOnFiles(before: map<Date, ArchiveFile>, after: map<Date, ArchiveFile>, ds: seq<Date>,
      d: Date, zeros: Counts, u: User)
    requires after == before[d := Archived(zeros)] && Get(zeros, u) == 0
    ensures OnFiles(after, ds, u) <= OnFiles(before, ds, u)
  {
    if ds != [] {
      NoMoreOnFiles(before, after, ds[..|ds| - 1], d, zeros, u);
    }
  }

  /** After a lost guard the bill has grown, and the files of no dates whatever hold more than
      before: what was billed to the user is on no file. */
  lemma LostGuardBreaksTheBill(day: nat, s: State, u: User) returns (es: seq<Event>)
    requires IsDue(day, s) && s.disk.guard.Some? && s.disk.guard != Some(s.clock) && Get(s.counters, u) > 0
    ensures Legal(day, s, es)
    ensures var t := After(day, s, es);
            Get(t.ledger.billed, u) == Get(s.ledger.billed, u) + Get(s.counters, u) > Get(s.ledger.billed, u) &&
            forall ds :: OnFiles(t.disk.archive, ds, u) <= OnFiles(s.disk.archive, ds, u)
  {
    hide Legal, After, IsDue;
    var a, b := UnguardedArchiveCanBeOverwritten(day, s);
    es := a + b;
    forall ds ensures OnFiles(After(day, s, es).disk.archive, ds, u) <= OnFiles(s.disk.archive, ds, u) {
      NoMoreOnFiles(s.disk.archive, After(day, s, es).disk.archive, ds, s.clock, Zeros(s.counters.Keys), u);
    }
  }

  /** After a reset that was rolled back the files hold the user's bytes twice, and the bill
      has not grown at all. */
  lemma RollbackBreaksTheBill(day: nat, s: State, d: Date, u: User) returns (es: seq<Event>)
    requires IsDue(day, s) && Before(s.clock, d) && d.d == day && s.last != Some(d)
    ensures Legal(day, s, es)
    ensures var t := After(day, s, es);
            OnFiles(t.disk.archive, [s.clock, d], u) == 2 * Get(s.counters, u) &&
            Get(t.ledger.billed, u) == Get(s.ledger.billed, u) && Earned(t, u) == Earned(s, u)
  {
    hide Legal, After, IsDue;
    es := ArchivedTwice(day, s, d);
    var archive := After(day, s, es).disk.archive;
    assert [s.clock, d][..1] == [s.clock] && [s.clock][..0] == [];
    assert OnFiles(archive, [], u) == 0 && OnFiles(archive, [s.clock], u) == Get(s.counters, u);
  }
}
