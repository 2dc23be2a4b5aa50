/** When a completed archive can still be changed: runs that lead back to an idle writer, runs
    that reset again on the same day, and the exact condition under which there is none. */
module Overwriting {
  import opened Wrappers
  import opened Calendar
  import opened Accounting
  import opened AccountingProofs
  import opened AccountingRuns

  // ---------------------------------------------------------------- one step

  /** A step, and a run from where it leads. */
  lemma Then(day: nat, s: State, e: Event, es: seq<Event>) returns (all: seq<Event>)
    requires Enabled(s, e) && Legal(day, Apply(day, s, e), es)
    ensures Legal(day, s, all) && After(day, s, all) == After(day, Apply(day, s, e), es)
  {
    all := [e] + es;
    hide Enabled, Apply;
    Cons(day, s, e, es);
  }

  /** Nothing was earned and nothing was billed. */
  predicate SameSums(a: Ledger, b: Ledger) { a.earned == b.earned && a.billed == b.billed }

  lemma VisitStep(day: nat, s: State, u: User)
    requires Enabled(s, Visit(u))
    ensures var t := Apply(day, s, Visit(u));
            t == s.(pc := WithSeen(s.pc, Seen(s.pc)[u := s.counters[u]]), ledger := t.ledger) &&
            SameSums(s.ledger, t.ledger)
  {
  }

  lemma ZeroStep(day: nat, s: State, u: User)
    requires Enabled(s, Zero(u))
    ensures var t := Apply(day, s, Zero(u));
            t == s.(pc := s.pc.(zeroed := s.pc.zeroed + {u}), counters := s.counters[u := 0], ledger := t.ledger) &&
            SameSums(s.ledger, t.ledger)
  {
  }

  lemma RestoreStep(day: nat, s: State, u: User)
    requires Enabled(s, Restore(u))
    ensures var t := Apply(day, s, Restore(u));
            t == s.(pc := s.pc.(restored := s.pc.restored + {u}), counters := s.counters[u := s.pc.snap[u]],
                    ledger := t.ledger) &&
            SameSums(s.ledger, t.ledger)
  {
  }

  // ---------------------------------------------------------------- one loop

  /** What a `Range` has loaded at its end, when nothing interferes. */
  function Loaded(s: State): Counts
    requires Must(s.pc) <= s.counters.Keys
  {
    map u | u in Seen(s.pc).Keys + Must(s.pc) :: if u in Seen(s.pc) then Seen(s.pc)[u] else s.counters[u]
  }

  lemma {:induction false} VisitAll(day: nat, s: State) returns (es: seq<Event>)
    requires Ranging(s.pc) && Must(s.pc) <= s.counters.Keys
    ensures Legal(day, s, es)
    ensures After(day, s, es) == s.(pc := WithSeen(s.pc, Loaded(s)), ledger := After(day, s, es).ledger)
    ensures SameSums(s.ledger, After(day, s, es).ledger)
    decreases Must(s.pc) - Seen(s.pc).Keys
  {
    hide Apply, Legal, After;
    if Must(s.pc) <= Seen(s.pc).Keys {
      es := [];
      Nothing(day, s);
      assert Loaded(s) == Seen(s.pc);
    } else {
      var u :| u in Must(s.pc) && u !in Seen(s.pc);
      var t := Apply(day, s, Visit(u));
      VisitStep(day, s, u);
      assert Loaded(t) == Loaded(s);
      assert u in Must(s.pc) - Seen(s.pc).Keys && u !in Must(t.pc) - Seen(t.pc).Keys;
      es := VisitAll(day, t);
      es := Then(day, s, Visit(u), es);
    }
  }

  function Replaced(counters: Counts, snap: Counts, done: set<User>, zero: bool): Counts {
    map u | u in counters :: if u in snap && u !in done then if zero then 0 else snap[u] else counters[u]
  }

  lemma {:induction false} ZeroAll(day: nat, s: State) returns (es: seq<Event>)
    requires s.pc.Zeroing? && s.pc.snap.Keys <= s.counters.Keys
    ensures Legal(day, s, es)
    ensures After(day, s, es) ==
            s.(pc := s.pc.(zeroed := s.pc.zeroed + s.pc.snap.Keys),
               counters := Replaced(s.counters, s.pc.snap, s.pc.zeroed, true), ledger := After(day, s, es).ledger)
    ensures SameSums(s.ledger, After(day, s, es).ledger)
    decreases s.pc.snap.Keys - s.pc.zeroed
  {
    hide Apply, Legal, After;
    if s.pc.snap.Keys <= s.pc.zeroed {
      es := [];
      Nothing(day, s);
      assert s.pc.zeroed + s.pc.snap.Keys == s.pc.zeroed;
      assert Replaced(s.counters, s.pc.snap, s.pc.zeroed, true) == s.counters;
    } else {
      var u :| u in s.pc.snap && u !in s.pc.zeroed;
      var t := Apply(day, s, Zero(u));
      ZeroStep(day, s, u);
      assert t.pc.zeroed + t.pc.snap.Keys == s.pc.zeroed + s.pc.snap.Keys;
      assert Replaced(t.counters, t.pc.snap, t.pc.zeroed, true) == Replaced(s.counters, s.pc.snap, s.pc.zeroed, true);
      es := ZeroAll(day, t);
      es := Then(day, s, Zero(u), es);
    }
  }

  lemma {:induction false} RestoreAll(day: nat, s: State) returns (es: seq<Event>)
    requires s.pc.RollingBack? && s.pc.snap.Keys <= s.counters.Keys
    ensures Legal(day, s, es)
    ensures After(day, s, es) ==
            s.(pc := s.pc.(restored := s.pc.restored + s.pc.snap.Keys),
               counters := Replaced(s.counters, s.pc.snap, s.pc.restored, false), ledger := After(day, s, es).ledger)
    ensures SameSums(s.ledger, After(day, s, es).ledger)
    decreases s.pc.snap.Keys - s.pc.restored
  {
    hide Apply, Legal, After;
    if s.pc.snap.Keys <= s.pc.restored {
      es := [];
      Nothing(day, s);
      assert s.pc.restored + s.pc.snap.Keys == s.pc.restored;
      assert Replaced(s.counters, s.pc.snap, s.pc.restored, false) == s.counters;
    } else {
      var u :| u in s.pc.snap && u !in s.pc.restored;
      var t := Apply(day, s, Restore(u));
      RestoreStep(day, s, u);
      assert t.pc.restored + t.pc.snap.Keys == s.pc.restored + s.pc.snap.Keys;
      assert Replaced(t.counters, t.pc.snap, t.pc.restored, false) ==
             Replaced(s.counters, s.pc.snap, s.pc.restored, false);
      es := RestoreAll(day, t);
      es := Then(day, s, Restore(u), es);
    }
  }

  // ---------------------------------------------------------------- back to an idle writer

  /** The guard in memory when the turn under way is over, if every write that can still
      fail does. */
  function Standing(s: State): Option<Date> {
    if s.pc.SavingGuard? || s.pc.Marking? then Some(s.pc.today) else s.last
  }

  /** Every key the writer still has to touch is there. */
  predicate Runnable(s: State) {
    Must(s.pc) <= s.counters.Keys && (!s.pc.SavingGuard? ==> Snap(s.pc).Keys <= s.counters.Keys)
  }

  predicate AtRest(s: State, t: State) {
    t.pc == Idle && t.clock == s.clock && t.last == Standing(s) && t.disk == s.disk && SameSums(s.ledger, t.ledger)
  }

  lemma FromWriting(day: nat, s: State) returns (es: seq<Event>)
    requires s.pc.Writing? && Runnable(s)
    ensures Legal(day, s, es) && AtRest(s, After(day, s, es))
    ensures After(day, s, es).counters == s.counters
  {
    hide Legal, After;
    var a := VisitAll(day, s);
    var t := After(day, s, a);
    Nothing(day, Apply(day, t, WriteStats(false)));
    var b := Then(day, t, WriteStats(false), []);
    Join(day, s, a, b);
    es := a + b;
  }

  lemma FromRollingBack(day: nat, s: State) returns (es: seq<Event>)
    requires s.pc.RollingBack? && Runnable(s)
    ensures Legal(day, s, es) && AtRest(s, After(day, s, es))
    ensures After(day, s, es).counters == Replaced(s.counters, s.pc.snap, s.pc.restored, false)
  {
    hide Legal, After;
    var a := RestoreAll(day, s);
    var t := After(day, s, a);
    var b := FromWriting(day, Apply(day, t, RestoreDone));
    b := Then(day, t, RestoreDone, b);
    Join(day, s, a, b);
    es := a + b;
  }

  lemma FromPersisting(day: nat, s: State) returns (es: seq<Event>)
    requires s.pc.Persisting? && Runnable(s)
    ensures Legal(day, s, es) && AtRest(s, After(day, s, es))
    ensures After(day, s, es).counters == Replaced(s.counters, s.pc.snap, {}, false)
  {
    hide Legal, After;
    var a := VisitAll(day, s);
    var t := After(day, s, a);
    var b := FromRollingBack(day, Apply(day, t, Persist(false)));
    b := Then(day, t, Persist(false), b);
    Join(day, s, a, b);
    es := a + b;
  }

  lemma FromZeroing(day: nat, s: State) returns (es: seq<Event>)
    requires s.pc.Zeroing? && Runnable(s)
    ensures Legal(day, s, es) && AtRest(s, After(day, s, es))
    ensures After(day, s, es).counters ==
            Replaced(Replaced(s.counters, s.pc.snap, s.pc.zeroed, true), s.pc.snap, {}, false)
  {
    hide Legal, After;
    var a := ZeroAll(day, s);
    var t := After(day, s, a);
    var b := FromPersisting(day, Apply(day, t, ZeroDone));
    b := Then(day, t, ZeroDone, b);
    Join(day, s, a, b);
    es := a + b;
  }

  /** The places from which one failing write, or none, leads to the last write of the turn. */
  lemma FromStep(day: nat, s: State, e: Event) returns (es: seq<Event>)
    requires Enabled(s, e) && e in {Abort, FillArchive(false), SaveFirst(false), Mark}
    ensures Legal(day, s, es) && AtRest(s, After(day, s, es))
  {
    hide Legal, After;
    es := FromWriting(day, Apply(day, s, e));
    es := Then(day, s, e, es);
  }

  lemma FromSnapshotting(day: nat, s: State) returns (es: seq<Event>)
    requires s.pc.Snapshotting? && Runnable(s)
    ensures Legal(day, s, es) && AtRest(s, After(day, s, es))
  {
    hide Legal, After;
    var a := VisitAll(day, s);
    var t := After(day, s, a);
    var b := FromStep(day, Apply(day, t, SnapshotDone), Abort);
    b := Then(day, t, SnapshotDone, b);
    Join(day, s, a, b);
    es := a + b;
  }

  lemma FromSavingGuard(day: nat, s: State) returns (es: seq<Event>)
    requires s.pc.SavingGuard?
    ensures Legal(day, s, es) && AtRest(s, After(day, s, es))
  {
    hide Legal, After;
    es := FromStep(day, Apply(day, s, SaveGuard(false)), Mark);
    es := Then(day, s, SaveGuard(false), es);
  }

  /** From anywhere, with every write failing, the turn comes to its end. */
  lemma ToIdle(day: nat, s: State) returns (es: seq<Event>)
    requires s.pc != Down && Runnable(s)
    ensures Legal(day, s, es) && AtRest(s, After(day, s, es))
  {
    hide Legal, After, Apply, Runnable;
    match s.pc
    case Idle => es := []; Nothing(day, s);
    case SavingFirst(_) => es := FromStep(day, s, SaveFirst(false));
    case Snapshotting(_, _, _) => es := FromSnapshotting(day, s);
    case Opening(_, _) => es := FromStep(day, s, Abort);
    case Filling(_, _) => es := FromStep(day, s, FillArchive(false));
    case Zeroing(_, _, _) => es := FromZeroing(day, s);
    case Persisting(_, _, _, _) => es := FromPersisting(day, s);
    case RollingBack(_, _, _) => es := FromRollingBack(day, s);
    case SavingGuard(_, _) => es := FromSavingGuard(day, s);
    case Marking(_) => es := FromStep(day, s, Mark);
    case Writing(_, _) => es := FromWriting(day, s);
  }

  // ---------------------------------------------------------------- a reset, and a restart

  predicate IsDue(day: nat, s: State) {
    s.pc == Idle && day > 0 && s.clock.d == day && s.last.Some? && s.last != Some(s.clock)
  }

  lemma TickDue(day: nat, s: State)
    requires IsDue(day, s)
    ensures Enabled(s, Tick)
    ensures var t := Apply(day, s, Tick);
            t == s.(pc := Snapshotting(s.clock, s.counters.Keys, map[]), ledger := t.ledger) &&
            SameSums(s.ledger, t.ledger)
  {
  }

  /** The first half of a reset, for any number of users: to the opening of the archive. */
  lemma ToOpening(day: nat, s: State) returns (es: seq<Event>)
    requires IsDue(day, s)
    ensures Legal(day, s, es)
    ensures After(day, s, es) == s.(pc := Opening(s.clock, s.counters), ledger := After(day, s, es).ledger)
    ensures SameSums(s.ledger, After(day, s, es).ledger)
  {
    hide Legal, After, IsDue;
    TickDue(day, s);
    var s1 := Apply(day, s, Tick);
    var a := VisitAll(day, s1);
    var s2 := After(day, s1, a);
    assert Loaded(s1) == s.counters;
    Nothing(day, Apply(day, s2, SnapshotDone));
    var b := Then(day, s2, SnapshotDone, []);
    Join(day, s1, a, b);
    es := Then(day, s, Tick, a + b);
  }

  lemma FirstTickFails(day: nat, s: State) returns (es: seq<Event>)
    requires s.pc == Idle && day > 0 && s.last == None && s.counters == map[]
    ensures Legal(day, s, es)
    ensures var t := After(day, s, es);
            t.pc == Down && t.clock == s.clock && t.disk == s.disk.(stats := Saved(map[]))
  {
    hide Legal, After;
    var s1 := Apply(day, s, Tick);
    var s2 := Apply(day, s1, SaveFirst(false));
    var s3 := Apply(day, s2, WriteStats(true));
    Nothing(day, Apply(day, s3, Crash));
    es := Then(day, s3, Crash, []);
    es := Then(day, s2, WriteStats(true), es);
    es := Then(day, s1, SaveFirst(false), es);
    es := Then(day, s, Tick, es);
  }

  /** Without a stats file: a start, a first tick whose guard save fails, an empty stats file,
      and the end of the process. */
  lemma WritesNothing(day: nat, s: State) returns (es: seq<Event>)
    requires s.pc == Down && day > 0 && !s.disk.stats.Saved?
    ensures Legal(day, s, es)
    ensures var t := After(day, s, es);
            t.pc == Down && t.clock == s.clock && t.disk == s.disk.(stats := Saved(map[]))
  {
    hide Legal, After, LostAtBoot;
    var s1 := Apply(day, s, Boot(false, false));
    assert s1.pc == Idle && s1.last == None && s1.counters == map[];
    es := FirstTickFails(day, s1);
    es := Then(day, s, Boot(false, false), es);
  }

  lemma RestartedDown(day: nat, s: State) returns (es: seq<Event>)
    requires s.pc == Down && s.disk.guard.Some? && day > 0
    ensures Legal(day, s, es)
    ensures var t := After(day, s, es);
            t.pc == Idle && t.clock == s.clock && t.last == s.disk.guard && t.disk.archive == s.disk.archive
  {
    hide Legal, After, LostAtBoot;
    if s.disk.stats.Saved? {
      Nothing(day, Apply(day, s, Boot(true, true)));
      es := Then(day, s, Boot(true, true), []);
    } else {
      var a := WritesNothing(day, s);
      var t := After(day, s, a);
      Nothing(day, Apply(day, t, Boot(true, true)));
      var b := Then(day, t, Boot(true, true), []);
      Join(day, s, a, b);
      es := a + b;
    }
  }

  /** After a crash the process comes up with the guard file's date, be the stats file
      readable or not: a first tick that only writes it makes it so. */
  lemma Restarted(day: nat, s: State) returns (es: seq<Event>)
    requires s.disk.guard.Some? && day > 0
    ensures Legal(day, s, es)
    ensures var t := After(day, s, es);
            t.pc == Idle && t.clock == s.clock && t.last == s.disk.guard && t.disk.archive == s.disk.archive
  {
    hide Legal, After;
    if s.pc != Down {
      es := RestartedDown(day, Apply(day, s, Crash));
      es := Then(day, s, Crash, es);
    } else {
      es := RestartedDown(day, s);
    }
  }

  // ---------------------------------------------------------------- the exact condition

  /** A guard of another date stands in the file, for the next start to load, or in the memory
      of the running process. */
  predicate Exposed(s: State) {
    || (s.disk.guard.Some? && s.disk.guard != Some(s.clock))
    || (s.pc != Down && Standing(s).Some? && Standing(s) != Some(s.clock))
  }

  predicate Before(a: Date, b: Date) { Leq(a, b) && a != b }

  /** Has a reset for this date yet to open its archive? */
  predicate ToOpen(pc: Pc, d: Date) { (pc.Snapshotting? || pc.Opening?) && pc.today == d }

  /** Can the archive of the date be written again? By a reset under way; on a reset day that
      is today, while another date is remembered; on a reset day to come. */
  predicate Reopens(day: nat, s: State, d: Date) {
    || ToOpen(s.pc, d)
    || (day > 0 && d.d == day && ((d == s.clock && Exposed(s)) || Before(s.clock, d)))
  }

  ghost predicate Truncates(day: nat, s: State, es: seq<Event>, d: Date) {
    Legal(day, s, es) && d in After(day, s, es).disk.archive && After(day, s, es).disk.archive[d] == Partial
  }

  lemma OpenNow(day: nat, s: State) returns (es: seq<Event>)
    requires s.pc.Opening?
    ensures Truncates(day, s, es, s.pc.today)
  {
    hide Legal, After;
    Nothing(day, Apply(day, s, OpenArchive));
    es := Then(day, s, OpenArchive, []);
  }

  /** A run, and one from where it leads that truncates the archive. */
  lemma TruncatesLater(day: nat, s: State, a: seq<Event>, b: seq<Event>, d: Date)
    requires Legal(day, s, a) && Truncates(day, After(day, s, a), b, d)
    ensures Truncates(day, s, a + b, d)
  {
    hide Legal, After;
    Join(day, s, a, b);
  }

  lemma OpenDue(day: nat, s: State) returns (es: seq<Event>)
    requires IsDue(day, s)
    ensures Truncates(day, s, es, s.clock)
  {
    hide Legal, After, Truncates;
    var a := ToOpening(day, s);
    var b := OpenNow(day, After(day, s, a));
    TruncatesLater(day, s, a, b, s.clock);
    es := a + b;
  }

  lemma OpenSnapshot(day: nat, s: State) returns (es: seq<Event>)
    requires s.pc.Snapshotting? && Runnable(s)
    ensures Truncates(day, s, es, s.pc.today)
  {
    hide Legal, After, Truncates;
    var a := VisitAll(day, s);
    var t := After(day, s, a);
    Nothing(day, Apply(day, t, SnapshotDone));
    var b := Then(day, t, SnapshotDone, []);
    var c := OpenNow(day, Apply(day, t, SnapshotDone));
    TruncatesLater(day, t, b, c, s.pc.today);
    TruncatesLater(day, s, a, b + c, s.pc.today);
    es := a + (b + c);
  }

  /** While another date is remembered, today's archive is opened again, for any users. */
  lemma OpenToday(day: nat, s: State) returns (es: seq<Event>)
    requires Runnable(s) && day > 0 && s.clock.d == day && Exposed(s)
    ensures Truncates(day, s, es, s.clock)
  {
    hide Legal, After, Runnable, Truncates;
    var a;
    if s.disk.guard.Some? && s.disk.guard != Some(s.clock) {
      a := Restarted(day, s);
    } else {
      a := ToIdle(day, s);
    }
    var b := OpenDue(day, After(day, s, a));
    TruncatesLater(day, s, a, b, s.clock);
    es := a + b;
  }

  /** A first tick, on any day, with the guard save failing. */
  lemma FirstTick(day: nat, s: State) returns (es: seq<Event>)
    requires s.pc == Idle && day > 0 && s.last == None
    ensures Legal(day, s, es)
    ensures var t := After(day, s, es); t.pc == Idle && t.clock == s.clock && t.last == Some(s.clock)
  {
    hide Legal, After;
    es := ToIdle(day, Apply(day, s, Tick));
    es := Then(day, s, Tick, es);
  }

  /** From anywhere, a process that runs, rests, and remembers some date. */
  lemma Remembers(day: nat, s: State) returns (es: seq<Event>)
    requires Runnable(s) && GuardInv(s) && day > 0
    ensures Legal(day, s, es)
    ensures var t := After(day, s, es);
            t.pc == Idle && t.clock == s.clock && t.last.Some? && Leq(t.last.value, s.clock)
  {
    hide Legal, After, Runnable, LostAtBoot;
    if s.disk.guard.Some? {
      es := Restarted(day, s);
    } else {
      var a;
      if s.pc == Down {
        Nothing(day, Apply(day, s, Boot(false, false)));
        a := Then(day, s, Boot(false, false), []);
      } else {
        a := ToIdle(day, s);
      }
      var t := After(day, s, a);
      if t.last == None {
        var b := FirstTick(day, t);
        Join(day, s, a, b);
        es := a + b;
      } else {
        es := a;
      }
    }
  }

  /** A reset day to come is reached by some run that resets on it. */
  lemma OpenToCome(day: nat, s: State, d: Date) returns (es: seq<Event>)
    requires Runnable(s) && GuardInv(s) && day > 0 && d.d == day && Before(s.clock, d)
    ensures Truncates(day, s, es, d)
  {
    hide Legal, After, Runnable, Truncates, GuardInv;
    var a := Remembers(day, s);
    var t := After(day, s, a);
    Nothing(day, Apply(day, t, Advance(d)));
    var b := Then(day, t, Advance(d), []);
    var c := OpenDue(day, Apply(day, t, Advance(d)));
    TruncatesLater(day, t, b, c, d);
    TruncatesLater(day, s, a, b + c, d);
    es := a + (b + c);
  }

  lemma InvRunnable(s: State)
    requires Inv(s)
    ensures Runnable(s)
  {
    forall u | u in Must(s.pc) ensures u in s.counters.Keys {
      assert UserInv(s, u);
    }
    forall u | u in Snap(s.pc).Keys && !s.pc.SavingGuard? ensures u in s.counters.Keys {
      assert UserInv(s, u);
    }
  }

  lemma ArchiveIsTruncated(day: nat, s: State, d: Date) returns (es: seq<Event>)
    requires Inv(s) && Reopens(day, s, d)
    ensures Truncates(day, s, es, d)
  {
    hide Inv, Runnable, Truncates, GuardInv, Exposed;
    InvRunnable(s);
    InvGuard(s);
    if ToOpen(s.pc, d) {
      if s.pc.Snapshotting? {
        es := OpenSnapshot(day, s);
      } else {
        es := OpenNow(day, s);
      }
    } else if d == s.clock {
      es := OpenToday(day, s);
    } else {
      es := OpenToCome(day, s, d);
    }
  }

  // ---------------------------------------------------------------- ... and its other half

  /** No reset for the date is under way up to its archive, and none can begin: the date is
      past, or no reset day, or today's with no guard, in the file or in memory, before it. */
  ghost predicate Frozen(day: nat, s: State, d: Date) {
    && !ToOpen(s.pc, d) && !(s.pc.Filling? && s.pc.today == d)
    && (|| Before(d, s.clock) || day == 0 || d.d != day
        || (Leq(d, s.clock) && (s.disk.guard.Some? ==> Leq(d, s.disk.guard.value)) &&
            (s.pc != Down && Standing(s).Some? ==> Leq(d, Standing(s).value))))
  }

  lemma FrozenStep(day: nat, s: State, e: Event, d: Date)
    requires Enabled(s, e) && GuardInv(s) && Frozen(day, s, d)
    ensures var t := Apply(day, s, e);
            Frozen(day, t, d) && (d in s.disk.archive <==> d in t.disk.archive) &&
            (d in s.disk.archive ==> s.disk.archive[d] == t.disk.archive[d])
  {
    hide Plus, Only, AddLost, LostAtBoot;
  }

  lemma {:induction false} FrozenRun(day: nat, s: State, es: seq<Event>, d: Date)
    requires Inv(s) && Frozen(day, s, d) && Legal(day, s, es)
    ensures var t := After(day, s, es);
            Frozen(day, t, d) && (d in s.disk.archive <==> d in t.disk.archive) &&
            (d in s.disk.archive ==> s.disk.archive[d] == t.disk.archive[d])
    decreases |es|
  {
    hide Enabled, Apply, Inv, Frozen, GuardInv;
    if es != [] {
      var front := es[..|es| - 1];
      FrozenRun(day, s, front, d);
      InvRun(day, s, front);
      InvGuard(After(day, s, front));
      FrozenStep(day, After(day, s, front), es[|es| - 1], d);
    }
  }

  lemma CompleteIsFrozen(day: nat, s: State, d: Date)
    requires Inv(s) && d in s.disk.archive && s.disk.archive[d].Archived? && !Reopens(day, s, d)
    ensures Frozen(day, s, d)
  {
    assert GuardInv(s) && ArchiveInv(s);
    hide Inv;
  }

  /** Does the archive of the date stay as it is in this run? */
  ghost predicate Stays(day: nat, s: State, es: seq<Event>, d: Date)
    requires Legal(day, s, es) && d in s.disk.archive
  {
    var a := After(day, s, es).disk.archive;
    d in a && a[d] == s.disk.archive[d]
  }

  ghost predicate AlwaysStays(day: nat, s: State, d: Date)
    requires d in s.disk.archive
  {
    forall es :: Legal(day, s, es) ==> Stays(day, s, es, d)
  }

  /** A completed archive of any date, with any number of users, wherever the writer is and
      whatever is on the disk: it stays in every continuation exactly when no reset under way
      has yet to open it, it is not that of a reset day to come, and, if it is that of a reset
      day which is today, no other date stands in the guard file or in the memory of the
      running process. */
  lemma ArchiveStaysExactly(day: nat, s: State, d: Date)
    requires Inv(s) && d in s.disk.archive && s.disk.archive[d].Archived?
    ensures AlwaysStays(day, s, d) <==> !Reopens(day, s, d)
  {
    hide Inv, Legal, After, Reopens;
    if Reopens(day, s, d) {
      var es := ArchiveIsTruncated(day, s, d);
      assert !Stays(day, s, es, d);
    } else {
      CompleteIsFrozen(day, s, d);
      forall es | Legal(day, s, es) ensures Stays(day, s, es, d) {
        FrozenRun(day, s, es, d);
      }
    }
  }

  /** In particular, on a reset day: with a date in the guard file it is that date which
      decides over the archive of the day; without one, whether the process still runs and
      remembers another, as it does before the guard is saved or after a reset that was
      rolled back. */
  lemma ArchiveStaysByGuard(day: nat, s: State)
    requires Inv(s) && day > 0 && s.clock.d == day && s.clock in s.disk.archive && s.disk.archive[s.clock].Archived?
    ensures s.disk.guard.Some? ==> (AlwaysStays(day, s, s.clock) <==> s.disk.guard == Some(s.clock))
    ensures s.disk.guard == None ==>
              (AlwaysStays(day, s, s.clock) <==> s.pc == Down || Standing(s) in {None, Some(s.clock)})
  {
    ArchiveStaysExactly(day, s, s.clock);
    assert GuardInv(s);
    hide AlwaysStays, Inv;
  }

  /** And of a day that is past: the guards do not matter, only a reset that was begun then. */
  lemma PastArchiveStays(day: nat, s: State, d: Date)
    requires Inv(s) && d in s.disk.archive && s.disk.archive[d].Archived? && Before(d, s.clock)
    ensures AlwaysStays(day, s, d) <==> !ToOpen(s.pc, d)
  {
    ArchiveStaysExactly(day, s, d);
    hide AlwaysStays, Inv, ToOpen;
  }

  // ---------------------------------------------------------------- a month overwritten

  lemma ArchiveWritten(day: nat, s: State)
    requires s.pc.Opening?
    ensures var es := [OpenArchive, FillArchive(true)];
            Legal(day, s, es) &&
            After(day, s, es) == s.(pc := Zeroing(s.pc.today, s.pc.snap, {}),
                                    disk := s.disk.(archive := s.disk.archive[s.pc.today := Archived(s.pc.snap)]))
  {
    var s1 := Apply(day, s, OpenArchive);
    var s2 := Apply(day, s1, FillArchive(true));
    assert s2.disk.archive == s.disk.archive[s.pc.today := Archived(s.pc.snap)];
    hide Legal, After, Apply, Enabled;
    Nothing(day, s2);
    Cons(day, s1, FillArchive(true), []);
    Cons(day, s, OpenArchive, [FillArchive(true)] + []);
    assert [OpenArchive] + ([FillArchive(true)] + []) == [OpenArchive, FillArchive(true)];
  }

  function Zeros(users: set<User>): Counts { map u | u in users :: 0 }

  /** The archive of a due day, for any number of users. */
  lemma Archives(day: nat, s: State) returns (es: seq<Event>)
    requires IsDue(day, s)
    ensures Legal(day, s, es)
    ensures var t := After(day, s, es);
            t == s.(pc := Zeroing(s.clock, s.counters, {}), ledger := t.ledger,
                    disk := s.disk.(archive := s.disk.archive[s.clock := Archived(s.counters)])) &&
            SameSums(s.ledger, t.ledger)
  {
    hide Legal, After, Apply, Enabled, IsDue;
    var a := ToOpening(day, s);
    var b := [OpenArchive, FillArchive(true)];
    ArchiveWritten(day, After(day, s, a));
    Join(day, s, a, b);
    es := a + b;
  }

  /** The zeroing, persisted. */
  lemma Zeroes(day: nat, s: State) returns (es: seq<Event>)
    requires s.pc.Zeroing? && s.pc.zeroed == {} && s.counters == s.pc.snap
    ensures Legal(day, s, es)
    ensures var t := After(day, s, es);
            t.pc == SavingGuard(s.pc.today, s.pc.snap) && t.clock == s.clock &&
            t.disk == s.disk.(stats := Saved(Zeros(s.counters.Keys))) && t.ledger.earned == s.ledger.earned &&
            forall u :: Get(t.ledger.billed, u) == Get(s.ledger.billed, u) + Get(s.counters, u)
  {
    hide Legal, After, Plus, Only, AddLost, Get;
    var a := ZeroAll(day, s);
    var s1 := After(day, s, a);
    assert s1.counters == Zeros(s.counters.Keys);
    var s2 := Apply(day, s1, ZeroDone);
    var b := VisitAll(day, s2);
    var s3 := After(day, s2, b);
    assert Loaded(s2) == Zeros(s.counters.Keys);
    Nothing(day, Apply(day, s3, Persist(true)));
    var c := Then(day, s3, Persist(true), []);
    Join(day, s2, b, c);
    var d := Then(day, s1, ZeroDone, b + c);
    Join(day, s, a, d);
    es := a + d;
  }

  /** The guard is not saved, the process dies, and is started again. */
  lemma LosesTheGuard(day: nat, s: State) returns (es: seq<Event>)
    requires s.pc.SavingGuard? && s.disk.stats.Saved?
    ensures Legal(day, s, es)
    ensures var t := After(day, s, es);
            t.pc == Idle && t.counters == s.disk.stats.counts && t.last == s.disk.guard && t.clock == s.clock &&
            t.disk == s.disk && SameSums(s.ledger, t.ledger)
  {
    hide Legal, After, LostAtBoot;
    var s1 := Apply(day, s, SaveGuard(false));
    var s2 := Apply(day, s1, Crash);
    Nothing(day, Apply(day, s2, Boot(true, true)));
    es := Then(day, s2, Boot(true, true), []);
    es := Then(day, s1, Crash, es);
    es := Then(day, s, SaveGuard(false), es);
  }

  /** A whole month can go that way: a reset that archives, zeroes and bills, a guard save
      that fails, a restart on the same day, and a second reset whose archive of the day has
      nothing but zeros. What was billed is then in no file. */
  lemma UnguardedArchiveCanBeOverwritten(day: nat, s: State) returns (es: seq<Event>, later: seq<Event>)
    requires IsDue(day, s) && s.disk.guard.Some? && s.disk.guard != Some(s.clock)
    ensures Legal(day, s, es) && Legal(day, s, es + later)
    ensures s.clock in After(day, s, es).disk.archive &&
            After(day, s, es).disk.archive[s.clock] == Archived(s.counters)
    ensures var t := After(day, s, es + later);
            t.disk.archive == s.disk.archive[s.clock := Archived(Zeros(s.counters.Keys))] &&
            t.ledger.earned == s.ledger.earned &&
            forall u :: Get(t.ledger.billed, u) == Get(s.ledger.billed, u) + Get(s.counters, u)
  {
    hide Legal, After, Apply, Enabled, Get;
    var a := Archives(day, s);
    var s1 := After(day, s, a);
    var b := Zeroes(day, s1);
    var s2 := After(day, s1, b);
    var c := LosesTheGuard(day, s2);
    var s3 := After(day, s2, c);
    var d := Archives(day, s3);
    es, later := a + b, c + d;
    Join(day, s, a, b);
    Join(day, s2, c, d);
    Join(day, s, es, later);
  }

  lemma MayAdvance(s: State, d: Date)
    requires Leq(s.clock, d)
    ensures Enabled(s, Advance(d))
  {
  }

  /** A reset that is rolled back leaves its archive behind: a reset on a later day archives the
      same bytes once more, with nothing earned and nothing billed in between. */
  lemma ArchivedTwice(day: nat, s: State, d: Date) returns (es: seq<Event>)
    requires IsDue(day, s) && Before(s.clock, d) && d.d == day && s.last != Some(d)
    ensures Legal(day, s, es)
    ensures var t := After(day, s, es);
            t.disk.archive == s.disk.archive[s.clock := Archived(s.counters)][d := Archived(s.counters)] &&
            SameSums(s.ledger, t.ledger)
  {
    hide Legal, After, Enabled;
    var a := Archives(day, s);
    var s1 := After(day, s, a);
    var b := FromZeroing(day, s1);
    var s2 := After(day, s1, b);
    assert s2.counters == s.counters;
    MayAdvance(s2, d);
    Nothing(day, Apply(day, s2, Advance(d)));
    var c := Then(day, s2, Advance(d), []);
    var s3 := Apply(day, s2, Advance(d));
    var e := Archives(day, s3);
    Join(day, s2, c, e);
    Join(day, s1, b, c + e);
    Join(day, s, a, b + (c + e));
    es := a + (b + (c + e));
  }
}
