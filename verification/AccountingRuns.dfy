/** Theorems about whole runs of the accounting machine. */
module AccountingRuns {
  import opened Wrappers
  import opened Calendar
  import opened Accounting
  import opened AccountingProofs

  ghost predicate Inv(s: State) {
    && (forall u :: UserInv(s, u))
    && (forall u :: SealInv(s, u))
    && GuardInv(s) && ArchiveInv(s)
  }

  lemma InitialInv(s: State)
    requires Initial(s)
    ensures Inv(s)
  {
  }

  lemma InvStep(day: nat, s: State, e: Event)
    requires Inv(s) && Enabled(s, e)
    ensures Inv(Apply(day, s, e))
  {
    hide Enabled, Apply, UserInv, SealInv, GuardInv, ArchiveInv;
    forall u ensures UserInv(Apply(day, s, e), u) {
      UserStep(day, s, e, u);
    }
    forall u ensures SealInv(Apply(day, s, e), u) {
      SealStep(day, s, e, u);
    }
    GuardStep(day, s, e);
    ArchiveStep(day, s, e);
  }

  lemma {:induction false} InvRun(day: nat, s: State, es: seq<Event>)
    requires Inv(s) && Legal(day, s, es)
    ensures Inv(After(day, s, es))
    decreases |es|
  {
    hide Enabled, Apply, Inv;
    if es != [] {
      InvRun(day, s, es[..|es| - 1]);
      InvStep(day, After(day, s, es[..|es| - 1]), es[|es| - 1]);
    }
  }

  /** A run grows by one event at its end. */
  lemma Extend(day: nat, s: State, es: seq<Event>, e: Event)
    requires Legal(day, s, es) && Enabled(After(day, s, es), e)
    ensures Legal(day, s, es + [e]) && After(day, s, es + [e]) == Apply(day, After(day, s, es), e)
  {
    hide Enabled, Apply;
    assert (es + [e])[..|es + [e]| - 1] == es;
  }

  // ---------------------------------------------------------------- archives and resurrection

  lemma InvGuard(s: State)
    requires Inv(s)
    ensures GuardInv(s)
  {
    hide GuardInv;
  }

  lemma PastArchiveStep(day: nat, s: State, e: Event, d: Date)
    requires Enabled(s, e) && GuardInv(s) && s.disk.guard.Some? && Leq(d, s.disk.guard.value)
    ensures var t := Apply(day, s, e);
            t.disk.guard.Some? && Leq(d, t.disk.guard.value) &&
            (d in s.disk.archive <==> d in t.disk.archive) &&
            (d in s.disk.archive ==> s.disk.archive[d] == t.disk.archive[d])
  {
  }

  /** No continuation changes the archive of a date up to the one in the guard file, which
      never goes back. */
  lemma {:induction false} PastArchive(day: nat, s: State, es: seq<Event>, d: Date)
    requires Inv(s) && s.disk.guard.Some? && Leq(d, s.disk.guard.value) && Legal(day, s, es)
    ensures var t := After(day, s, es);
            t.disk.guard.Some? && Leq(d, t.disk.guard.value) &&
            (d in s.disk.archive <==> d in t.disk.archive) &&
            (d in s.disk.archive ==> s.disk.archive[d] == t.disk.archive[d])
    decreases |es|
  {
    hide Enabled, Apply, Inv;
    if es != [] {
      var front := es[..|es| - 1];
      PastArchive(day, s, front, d);
      InvRun(day, s, front);
      InvGuard(After(day, s, front));
      PastArchiveStep(day, After(day, s, front), es[|es| - 1], d);
    }
  }

  /** In particular, once the guard file holds a date, that of the date itself. */
  lemma GuardedArchiveIsImmutable(day: nat, s: State, es: seq<Event>)
    requires Inv(s) && s.disk.guard.Some? && Legal(day, s, es)
    ensures var d, a, b := s.disk.guard.value, s.disk.archive, After(day, s, es).disk.archive;
            (d in a <==> d in b) && (d in a ==> a[d] == b[d])
  {
    PastArchive(day, s, es, s.disk.guard.value);
  }

  function Base(s: State, u: User): nat { Get(s.ledger.base, u) }

  lemma BaseStep(day: nat, s: State, e: Event, u: User)
    requires Enabled(s, e) && UserInv(s, u)
    ensures Base(Apply(day, s, e), u) >= Base(s, u)
  {
    hide KeysInv, Conserved, WindowInv, FreshCounts, NothingTwice;
  }

  lemma {:induction false} BaseGrows(day: nat, s: State, es: seq<Event>, u: User)
    requires Inv(s) && Legal(day, s, es)
    ensures Base(After(day, s, es), u) >= Base(s, u)
    decreases |es|
  {
    hide Enabled, Apply, UserInv, Base;
    if es != [] {
      var front := es[..|es| - 1];
      BaseGrows(day, s, front, u);
      InvRun(day, s, front);
      BaseStep(day, After(day, s, front), es[|es| - 1], u);
    }
  }

  /** Crash ordering: when a reset has put its date in the guard file, its archive is on disk
      and complete, and the zeroing of every archived user has reached the stats file. */
  lemma GuardComesLast(s: State, u: User)
    requires Inv(s) && s.ledger.sealed.Some?
    ensures var seal := s.ledger.sealed.value;
            s.disk.guard == Some(seal.date) &&
            seal.date in s.disk.archive && s.disk.archive[seal.date] == Archived(seal.snap) &&
            (u in seal.snap ==>
               seal.snap[u] <= Get(seal.mark, u) &&
               (s.disk.stats.Saved? ==> Get(s.disk.stats.counts, u) + Get(seal.mark, u) <= Earned(s, u)))
  {
    assert UserInv(s, u) && SealInv(s, u);
  }

  /** No resurrection: bytes counted before such a zeroing are never in a counter or in the
      stats file again, whatever crashes, restarts and failing writes follow. */
  lemma NoResurrection(day: nat, s: State, es: seq<Event>, u: User)
    requires Inv(s) && s.ledger.sealed.Some? && u in s.ledger.sealed.value.snap && Legal(day, s, es)
    ensures var t, mark := After(day, s, es), Get(s.ledger.sealed.value.mark, u);
            (s.ledger.sealed.value.snap[u] <= mark) &&
            Live(t, u) + mark <= Earned(t, u) &&
            (t.disk.stats.Saved? ==> Get(t.disk.stats.counts, u) + mark <= Earned(t, u))
  {
    assert SealInv(s, u);
    BaseGrows(day, s, es, u);
    InvRun(day, s, es);
    assert UserInv(After(day, s, es), u);
  }

  // ---------------------------------------------------------------- conservation

  /** In every reachable state every byte counted is in exactly one place, none of them
      twice: in a billed snapshot, in the live counter, in flight, or lost. */
  lemma Conservation(day: nat, s: State, es: seq<Event>, u: User)
    requires Initial(s) && Legal(day, s, es) && After(day, s, es).pc != Down
    ensures var t := After(day, s, es);
            Earned(t, u) == Get(t.ledger.billed, u) + Live(t, u) + InFlight(t, u) + GetInt(t.ledger.lost, u) &&
            GetInt(t.ledger.lost, u) >= 0
  {
    InitialInv(s);
    InvRun(day, s, es);
    assert UserInv(After(day, s, es), u);
  }

  function Lost(s: State, u: User): int { GetInt(s.ledger.lost, u) }

  function Win(s: State, u: User): nat { Get(s.ledger.win, u) }

  function Drop(s: State, u: User): nat { Get(s.ledger.drop, u) }

  function AddsOf(u: User, es: seq<Event>): nat {
    if es == [] then 0
    else
      var e := es[|es| - 1];
      AddsOf(u, es[..|es| - 1]) + if e.Add? && e.user == u then e.n else 0
  }

  /** The user's window is open before, between and after the events. */
  ghost predicate OpenThroughout(day: nat, s: State, es: seq<Event>, u: User)
    requires Legal(day, s, es)
  {
    Open(After(day, s, es).pc, u) && (es == [] || OpenThroughout(day, s, es[..|es| - 1], u))
  }

  lemma OpenStep(day: nat, s: State, e: Event, u: User)
    requires Enabled(s, e) && UserInv(s, u) && Open(s.pc, u) && Open(Apply(day, s, e).pc, u)
    ensures var t := Apply(day, s, e);
            Win(t, u) == Win(s, u) + (if e.Add? && e.user == u then e.n else 0) &&
            Lost(t, u) == Lost(s, u) &&
            Get(Snap(t.pc), u) == Get(Snap(s.pc), u) &&
            (Zeroed(s.pc, u) ==> Zeroed(t.pc, u) && Drop(t, u) == Drop(s, u))
  {
    hide Conserved, WindowInv, FreshCounts, BilledBelow, NothingTwice;
  }

  /** While a window is open it counts exactly the adds of its user, and nothing is lost. */
  lemma {:induction false} WindowCountsAdds(day: nat, s: State, es: seq<Event>, u: User)
    requires Inv(s) && Legal(day, s, es) && OpenThroughout(day, s, es, u)
    ensures var t := After(day, s, es);
            Win(t, u) == Win(s, u) + AddsOf(u, es) && Lost(t, u) == Lost(s, u) &&
            Get(Snap(t.pc), u) == Get(Snap(s.pc), u) &&
            (Zeroed(s.pc, u) ==> Zeroed(t.pc, u) && Drop(t, u) == Drop(s, u))
    decreases |es|
  {
    hide Enabled, Apply, UserInv, Open, Zeroed, Win, Lost, Drop, Snap;
    if es != [] {
      var front := es[..|es| - 1];
      WindowCountsAdds(day, s, front, u);
      InvRun(day, s, front);
      OpenStep(day, After(day, s, front), es[|es| - 1], u);
    }
  }

  /** The run of one reset, as user `u` sees it: its snapshot load, `es1`, its zeroing
      store, `es2`, and the attempt to persist. */
  ghost predicate ResetOf(day: nat, s: State, u: User, es1: seq<Event>, es2: seq<Event>, ok: bool)
  {
    && s.pc.Snapshotting? && Enabled(s, Visit(u))
    && var s1 := Apply(day, s, Visit(u));
    && Legal(day, s1, es1) && OpenThroughout(day, s1, es1, u)
    && Enabled(After(day, s1, es1), Zero(u))
    && var s2 := Apply(day, After(day, s1, es1), Zero(u));
    && Legal(day, s2, es2) && OpenThroughout(day, s2, es2, u)
    && Enabled(After(day, s2, es2), Persist(ok))
  }

  function BeforePersist(day: nat, s: State, u: User, es1: seq<Event>, es2: seq<Event>): State
    requires ResetOf(day, s, u, es1, es2, true) || ResetOf(day, s, u, es1, es2, false)
  {
    After(day, Apply(day, After(day, Apply(day, s, Visit(u)), es1), Zero(u)), es2)
  }

  lemma VisitOpens(day: nat, s: State, u: User)
    requires s.pc.Snapshotting? && Enabled(s, Visit(u))
    ensures var t := Apply(day, s, Visit(u));
            Win(t, u) == 0 && Lost(t, u) == Lost(s, u) && Get(Snap(t.pc), u) == Live(s, u)
  {
  }

  lemma ZeroDrops(day: nat, s: State, u: User)
    requires Enabled(s, Zero(u))
    ensures var t := Apply(day, s, Zero(u));
            Drop(t, u) == Win(s, u) == Win(t, u) && Lost(t, u) == Lost(s, u) && Zeroed(t.pc, u) &&
            Get(Snap(t.pc), u) == Get(Snap(s.pc), u)
  {
  }

  lemma ResetBookkeeping(day: nat, s: State, u: User, es1: seq<Event>, es2: seq<Event>, ok: bool)
    requires Inv(s) && ResetOf(day, s, u, es1, es2, ok)
    ensures var t := BeforePersist(day, s, u, es1, es2);
            Inv(t) && Zeroed(t.pc, u) && Drop(t, u) == AddsOf(u, es1) && Win(t, u) == AddsOf(u, es1) + AddsOf(u, es2) &&
            Lost(t, u) == Lost(s, u) && Get(Snap(t.pc), u) == Live(s, u)
  {
    hide Enabled, Apply, UserInv, Open, Zeroed, Win, Lost, Drop, Snap, Inv;
    var s1 := Apply(day, s, Visit(u));
    VisitOpens(day, s, u);
    InvStep(day, s, Visit(u));
    WindowCountsAdds(day, s1, es1, u);
    InvRun(day, s1, es1);
    var s2 := After(day, s1, es1);
    ZeroDrops(day, s2, u);
    InvStep(day, s2, Zero(u));
    var s3 := Apply(day, s2, Zero(u));
    WindowCountsAdds(day, s3, es2, u);
    InvRun(day, s3, es2);
  }

  lemma InvWindow(s: State, u: User)
    requires Inv(s)
    ensures WindowInv(s, u)
  {
    assert UserInv(s, u);
    hide WindowInv;
  }

  /** A persist that succeeds bills the snapshot; what was dropped is lost, and the counter
      keeps what came after the zeroing. */
  lemma PersistCommits(day: nat, s: State, u: User)
    requires Enabled(s, Persist(true)) && Zeroed(s.pc, u) && WindowInv(s, u)
    ensures var t := Apply(day, s, Persist(true));
            Lost(t, u) == Lost(s, u) + Drop(s, u) &&
            Get(t.ledger.billed, u) == Get(s.ledger.billed, u) + Get(Snap(s.pc), u) &&
            Live(t, u) == Win(s, u) - Drop(s, u)
  {
  }

  /** A reset that reaches the disk bills the user's snapshot and loses exactly the adds
      between the snapshot load and the zeroing store. */
  lemma CommittedResetLoses(day: nat, s: State, u: User, es1: seq<Event>, es2: seq<Event>)
    requires Inv(s) && ResetOf(day, s, u, es1, es2, true)
    ensures var t := Apply(day, BeforePersist(day, s, u, es1, es2), Persist(true));
            Lost(t, u) == Lost(s, u) + AddsOf(u, es1) &&
            Get(t.ledger.billed, u) == Get(BeforePersist(day, s, u, es1, es2).ledger.billed, u) + Live(s, u) &&
            Live(t, u) == AddsOf(u, es2)
  {
    ResetBookkeeping(day, s, u, es1, es2, true);
    var t := BeforePersist(day, s, u, es1, es2);
    InvWindow(t, u);
    assert Enabled(t, Persist(true));
    hide *;
    PersistCommits(day, t, u);
  }

  /** A failed persist changes nothing but where the writer is. */
  lemma PersistFails(day: nat, s: State, u: User)
    requires Enabled(s, Persist(false))
    ensures var t := Apply(day, s, Persist(false));
            Win(t, u) == Win(s, u) && Lost(t, u) == Lost(s, u) && Get(Snap(t.pc), u) == Get(Snap(s.pc), u)
  {
  }

  lemma RestoreLoses(day: nat, s: State, u: User)
    requires Enabled(s, Restore(u))
    ensures var t := Apply(day, s, Restore(u));
            Lost(t, u) == Lost(s, u) + Win(s, u) && Live(t, u) == Get(Snap(s.pc), u)
  {
  }

  /** A reset that is rolled back loses every add from the snapshot load to the restoring
      store, and leaves the counter at the snapshot. */
  lemma RolledBackResetLoses(day: nat, s: State, u: User, es1: seq<Event>, es2: seq<Event>, es3: seq<Event>)
    requires Inv(s) && ResetOf(day, s, u, es1, es2, false)
    requires var t := Apply(day, BeforePersist(day, s, u, es1, es2), Persist(false));
             Legal(day, t, es3) && OpenThroughout(day, t, es3, u) && Enabled(After(day, t, es3), Restore(u))
    ensures var t := After(day, Apply(day, BeforePersist(day, s, u, es1, es2), Persist(false)), es3);
            var z := Apply(day, t, Restore(u));
            Lost(z, u) == Lost(s, u) + AddsOf(u, es1) + AddsOf(u, es2) + AddsOf(u, es3) &&
            Live(z, u) == Live(s, u)
  {
    ResetBookkeeping(day, s, u, es1, es2, false);
    var b := BeforePersist(day, s, u, es1, es2);
    assert Enabled(b, Persist(false));
    PersistFails(day, b, u);
    hide *;
    var t := Apply(day, b, Persist(false));
    InvStep(day, b, Persist(false));
    WindowCountsAdds(day, t, es3, u);
    RestoreLoses(day, After(day, t, es3), u);
  }

  // ---------------------------------------------------------------- quiet windows

  /** No crash, and no add of the user while its window is open. */
  ghost predicate Quiet(day: nat, s: State, es: seq<Event>, u: User)
    requires Legal(day, s, es)
  {
    es == [] ||
    (var front, e := es[..|es| - 1], es[|es| - 1];
     Quiet(day, s, front, u) && !e.Boot? &&
     (e.Add? && e.user == u && e.n > 0 ==> !Open(After(day, s, front).pc, u)))
  }

  predicate Still(s: State, u: User) {
    (Open(s.pc, u) ==> Win(s, u) == 0) && (Zeroed(s.pc, u) ==> Drop(s, u) == 0)
  }

  lemma StillLost(day: nat, s: State, e: Event, u: User)
    requires Enabled(s, e) && Still(s, u) && !e.Boot?
    ensures Lost(Apply(day, s, e), u) == Lost(s, u)
  {
  }

  lemma StillStep(day: nat, s: State, e: Event, u: User)
    requires Enabled(s, e) && Still(s, u) && !e.Boot?
    requires e.Add? && e.user == u && e.n > 0 ==> !Open(s.pc, u)
    ensures Still(Apply(day, s, e), u) && Lost(Apply(day, s, e), u) == Lost(s, u)
  {
    StillLost(day, s, e, u);
    hide Lost;
  }

  /** With no add in a window, whatever else happens and however many resets succeed, fail
      or are retried, not a byte of the user is lost. */
  lemma {:induction false} QuietRunLosesNothing(day: nat, s: State, es: seq<Event>, u: User)
    requires Still(s, u) && Legal(day, s, es) && Quiet(day, s, es, u)
    ensures Still(After(day, s, es), u) && Lost(After(day, s, es), u) == Lost(s, u)
    decreases |es|
  {
    hide Enabled, Apply, Still, Open, Lost;
    if es != [] {
      QuietRunLosesNothing(day, s, es[..|es| - 1], u);
      StillStep(day, After(day, s, es[..|es| - 1]), es[|es| - 1], u);
    }
  }

  // ---------------------------------------------------------------- restart on the reset day

  lemma Nothing(day: nat, s: State)
    ensures Legal(day, s, []) && After(day, s, []) == s
  {
  }

  lemma {:induction false} Join(day: nat, s: State, a: seq<Event>, b: seq<Event>)
    requires Legal(day, s, a) && Legal(day, After(day, s, a), b)
    ensures Legal(day, s, a + b) && After(day, s, a + b) == After(day, After(day, s, a), b)
    decreases |b|
  {
    hide Enabled, Apply;
    if b == [] {
      assert a + b == a;
    } else {
      var front := b[..|b| - 1];
      assert (a + b)[..|a + b| - 1] == a + front;
      Join(day, s, a, front);
    }
  }

  lemma Cons(day: nat, s: State, e: Event, es: seq<Event>)
    requires Enabled(s, e) && Legal(day, Apply(day, s, e), es)
    ensures Legal(day, s, [e] + es) && After(day, s, [e] + es) == After(day, Apply(day, s, e), es)
  {
    Nothing(day, s);
    Extend(day, s, [], e);
    Join(day, s, [e], es);
  }

  /** After a crash and a restart on the same reset day, the first tick resets once more if
      and only if stats file and guard file could be read and hold another date. In the
      other cases the reset of the month is skipped. */
  lemma SameDayRestart(day: nat, s: State, statsOk: bool, guardOk: bool)
    requires s.pc != Down && s.clock.d == day && day > 0
    ensures var es := [Crash, Boot(statsOk, guardOk), Tick];
            Legal(day, s, es) &&
            (After(day, s, es).pc.Snapshotting? <==>
             statsOk && s.disk.stats.Saved? && guardOk && s.disk.guard.Some? && s.disk.guard != Some(s.clock))
  {
    var s1 := Apply(day, s, Crash);
    var s2 := Apply(day, s1, Boot(statsOk, guardOk));
    var s3 := Apply(day, s2, Tick);
    assert s3.pc.Snapshotting? <==>
      statsOk && s.disk.stats.Saved? && guardOk && s.disk.guard.Some? && s.disk.guard != Some(s.clock);
    hide Legal, After, Apply, Enabled;
    Nothing(day, s3);
    Cons(day, s2, Tick, []);
    Cons(day, s1, Boot(statsOk, guardOk), [Tick] + []);
    Cons(day, s, Crash, [Boot(statsOk, guardOk)] + ([Tick] + []));
    assert [Crash] + ([Boot(statsOk, guardOk)] + ([Tick] + [])) == [Crash, Boot(statsOk, guardOk), Tick];
  }
}
