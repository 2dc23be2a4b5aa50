/** What a crash loses, exactly, and a run in which a reset loses something. */
module Losses {
  import opened Accounting
  import opened AccountingProofs
  import opened AccountingRuns

  // ---------------------------------------------------------------- a crash

  /** The events that end a stats write under way, or the process. */
  predicate EndsWrite(e: Event) { e.WriteStats? || e.Persist? || e.Crash? || e.Boot? }

  /** The events that replace the stats file, or end the process. */
  predicate ReplacesStats(e: Event) { e == WriteStats(true) || e == Persist(true) || e.Crash? || e.Boot? }

  /** One step of a process that neither commits a reset nor ends. */
  lemma LedgerStep(day: nat, s: State, e: Event, u: User)
    requires Enabled(s, e) && !ReplacesStats(e) && s.pc != Down
    ensures var t := Apply(day, s, e);
            t.pc != Down && t.disk.stats == s.disk.stats &&
            Earned(t, u) == Earned(s, u) + (if e.Add? && e.user == u then e.n else 0) &&
            Get(t.ledger.billed, u) == Get(s.ledger.billed, u) && Lost(t, u) >= Lost(s, u)
  {
  }

  lemma {:induction false} LedgerRun(day: nat, s: State, es: seq<Event>, u: User)
    requires s.pc != Down && Legal(day, s, es)
    requires forall i :: 0 <= i < |es| ==> !ReplacesStats(es[i])
    ensures var t := After(day, s, es);
            t.pc != Down && t.disk.stats == s.disk.stats &&
            Earned(t, u) == Earned(s, u) + AddsOf(u, es) &&
            Get(t.ledger.billed, u) == Get(s.ledger.billed, u) && Lost(t, u) >= Lost(s, u)
    decreases |es|
  {
    hide Enabled, Apply, Earned, Lost, Get, ReplacesStats;
    if es != [] {
      var front := es[..|es| - 1];
      LedgerRun(day, s, front, u);
      LedgerStep(day, After(day, s, front), es[|es| - 1], u);
    }
  }

  /** The numbers a start finds on the disk: none, if the stats file cannot be read. */
  function Readable(s: State, statsOk: bool): Counts {
    if statsOk && s.disk.stats.Saved? then s.disk.stats.counts else map[]
  }

  lemma RestartTakes(day: nat, s: State, statsOk: bool, guardOk: bool, u: User)
    requires s.pc != Down
    ensures Enabled(s, Crash) && Enabled(Apply(day, s, Crash), Boot(statsOk, guardOk))
    ensures var t, file := Apply(day, Apply(day, s, Crash), Boot(statsOk, guardOk)), Get(Readable(s, statsOk), u);
            Live(t, u) == file && Earned(t, u) == Earned(s, u) &&
            Lost(t, u) == Earned(s, u) - Get(s.ledger.billed, u) - file
  {
  }

  lemma ConservedNow(s: State, u: User)
    requires Inv(s) && s.pc != Down
    ensures Earned(s, u) == Get(s.ledger.billed, u) + Live(s, u) + Lost(s, u) + InFlight(s, u)
  {
    assert UserInv(s, u);
    hide UserInv;
  }

  /** What a crash at any moment loses, for any user: what is live or in flight and not in the
      stats file; everything, if that cannot be read. */
  lemma CrashLosesWhatIsNotOnFile(day: nat, s: State, statsOk: bool, guardOk: bool, u: User)
    requires Inv(s) && s.pc != Down
    ensures Enabled(s, Crash) && Enabled(Apply(day, s, Crash), Boot(statsOk, guardOk))
    ensures var t, file := Apply(day, Apply(day, s, Crash), Boot(statsOk, guardOk)), Get(Readable(s, statsOk), u);
            Live(t, u) == file && Lost(t, u) == Lost(s, u) + Live(s, u) + InFlight(s, u) - file
  {
    hide Enabled, Apply, Inv, InFlight, Readable, Earned, Live, Lost, Get;
    RestartTakes(day, s, statsOk, guardOk, u);
    ConservedNow(s, u);
  }

  /** And over a run up to it, from any moment on, in which the stats file is not replaced:
      what was live or in flight at that moment and is not in the file, and all adds since. */
  lemma CrashLosesSince(day: nat, s: State, es: seq<Event>, statsOk: bool, guardOk: bool, u: User)
    requires Inv(s) && s.pc != Down && Legal(day, s, es)
    requires forall i :: 0 <= i < |es| ==> !ReplacesStats(es[i])
    ensures var b := After(day, s, es);
            Enabled(b, Crash) && Enabled(Apply(day, b, Crash), Boot(statsOk, guardOk)) &&
            var t, file := Apply(day, Apply(day, b, Crash), Boot(statsOk, guardOk)), Get(Readable(s, statsOk), u);
            Live(t, u) == file &&
            Lost(t, u) == Lost(s, u) + Live(s, u) + InFlight(s, u) - file + AddsOf(u, es)
  {
    hide Enabled, Apply, Legal, After, Inv, InFlight, ReplacesStats, Earned, Live, Lost, Get, AddsOf;
    LedgerRun(day, s, es, u);
    ConservedNow(s, u);
    RestartTakes(day, After(day, s, es), statsOk, guardOk, u);
  }

  lemma BootTakes(day: nat, s: State, guardOk: bool, u: User)
    requires Enabled(s, Boot(true, guardOk)) && s.disk.stats.Saved?
    ensures var t := Apply(day, s, Boot(true, guardOk));
            t.pc != Down && t.disk == s.disk && Live(t, u) == Get(s.disk.stats.counts, u) && InFlight(t, u) == 0
  {
  }

  /** A crash before the first stats write after a start loses the adds since the start. */
  lemma CrashAfterBootLoses(day: nat, s: State, es: seq<Event>, first: bool, second: bool, u: User)
    requires Inv(s) && s.pc == Down && s.disk.stats.Saved? && Enabled(s, Boot(true, first))
    requires Legal(day, Apply(day, s, Boot(true, first)), es)
    requires forall i :: 0 <= i < |es| ==> !ReplacesStats(es[i])
    ensures var started := Apply(day, s, Boot(true, first));
            var b := After(day, started, es);
            Enabled(b, Crash) && Enabled(Apply(day, b, Crash), Boot(true, second)) &&
            var t := Apply(day, Apply(day, b, Crash), Boot(true, second));
            Live(t, u) == Live(started, u) && Lost(t, u) == Lost(started, u) + AddsOf(u, es)
  {
    hide Enabled, Apply, Legal, After, Inv, InFlight, ReplacesStats, Earned, Live, Lost, Get, AddsOf;
    InvStep(day, s, Boot(true, first));
    BootTakes(day, s, first, u);
    CrashLosesSince(day, Apply(day, s, Boot(true, first)), es, true, second, u);
  }

  // ---------------------------------------------------------------- ... after a stats write

  /** What a reset under way has wiped out for the user and not yet written off. */
  function Dropped(s: State, u: User): nat { if Zeroed(s.pc, u) then Drop(s, u) else 0 }

  /** The stats write under way, at the end of a turn or inside a reset, has this number. */
  predicate HasLoaded(s: State, u: User, n: nat) {
    (s.pc.Writing? || s.pc.Persisting?) && u in Seen(s.pc) && Seen(s.pc)[u] == n
  }

  lemma LoadedStep(day: nat, s: State, e: Event, u: User, n: nat)
    requires Enabled(s, e) && !EndsWrite(e) && HasLoaded(s, u, n)
    ensures var t := Apply(day, s, e);
            HasLoaded(t, u, n) && !ReplacesStats(e) && Dropped(t, u) == Dropped(s, u) && Lost(t, u) == Lost(s, u) &&
            Get(Snap(t.pc), u) == Get(Snap(s.pc), u)
  {
  }

  lemma {:induction false} LoadedRun(day: nat, s: State, es: seq<Event>, u: User, n: nat)
    requires HasLoaded(s, u, n) && Legal(day, s, es)
    requires forall i :: 0 <= i < |es| ==> !EndsWrite(es[i])
    ensures forall i :: 0 <= i < |es| ==> !ReplacesStats(es[i])
    ensures var t := After(day, s, es);
            HasLoaded(t, u, n) && Dropped(t, u) == Dropped(s, u) && Lost(t, u) == Lost(s, u) &&
            Get(Snap(t.pc), u) == Get(Snap(s.pc), u)
    decreases |es|
  {
    hide Enabled, Apply, HasLoaded, EndsWrite, ReplacesStats, Dropped, Lost, Get, Snap;
    if es != [] {
      var front, e := es[..|es| - 1], es[|es| - 1];
      LoadedRun(day, s, front, u, n);
      LoadedStep(day, After(day, s, front), e, u, n);
    }
  }

  /** The last stats write before a crash, as user `u` sees it: its load, `es1`, the write
      that succeeds, and `es2` until the process dies. */
  ghost predicate LastWriteOf(day: nat, s: State, u: User, es1: seq<Event>, e: Event, es2: seq<Event>) {
    && (s.pc.Writing? || s.pc.Persisting?) && Enabled(s, Visit(u)) && e in {WriteStats(true), Persist(true)}
    && var s1 := Apply(day, s, Visit(u));
    && Legal(day, s1, es1) && (forall i :: 0 <= i < |es1| ==> !EndsWrite(es1[i]))
    && Enabled(After(day, s1, es1), e)
    && var s2 := Apply(day, After(day, s1, es1), e);
    && Legal(day, s2, es2) && (forall i :: 0 <= i < |es2| ==> !ReplacesStats(es2[i]))
  }

  function BeforeCrash(day: nat, s: State, u: User, es1: seq<Event>, e: Event, es2: seq<Event>): State
    requires LastWriteOf(day, s, u, es1, e, es2)
  {
    After(day, Apply(day, After(day, Apply(day, s, Visit(u)), es1), e), es2)
  }

  lemma LoadAndWrite(day: nat, s: State, e: Event, u: User, n: nat)
    requires e in {WriteStats(true), Persist(true)} && Enabled(s, e) && HasLoaded(s, u, n)
    ensures var t := Apply(day, s, e);
            t.pc != Down && t.disk.stats.Saved? && Get(t.disk.stats.counts, u) == n && Earned(t, u) == Earned(s, u) &&
            Get(t.ledger.billed, u) == Get(s.ledger.billed, u) + Get(Snap(s.pc), u) &&
            Lost(t, u) == Lost(s, u) + Dropped(s, u)
  {
  }

  lemma LoadStep(day: nat, s: State, u: User)
    requires (s.pc.Writing? || s.pc.Persisting?) && Enabled(s, Visit(u))
    ensures var t := Apply(day, s, Visit(u));
            HasLoaded(t, u, Live(s, u)) && t.pc != Down && Earned(t, u) == Earned(s, u) &&
            Get(t.ledger.billed, u) == Get(s.ledger.billed, u) && Lost(t, u) == Lost(s, u) &&
            Dropped(t, u) == Dropped(s, u) && Get(Snap(t.pc), u) == Get(Snap(s.pc), u)
  {
  }

  lemma AtLoad(s: State, u: User)
    requires Inv(s) && (s.pc.Writing? || s.pc.Persisting?)
    ensures Earned(s, u) ==
            Get(s.ledger.billed, u) + Live(s, u) + Lost(s, u) + Get(Snap(s.pc), u) + Dropped(s, u)
  {
    assert UserInv(s, u);
  }

  /** A crash and a restart that can read the stats file put a user back to what the last
      write loaded, at the end of a turn or inside a reset, and lose exactly the adds since
      that load. Nothing else is lost but what resets have lost or dropped before it; to
      what is lost when the process dies, the crash adds no more than those adds. */
  lemma CrashLoses(day: nat, s: State, u: User, es1: seq<Event>, e: Event, es2: seq<Event>, guardOk: bool)
    requires Inv(s) && LastWriteOf(day, s, u, es1, e, es2)
    ensures var b := BeforeCrash(day, s, u, es1, e, es2);
            Enabled(b, Crash) && Enabled(Apply(day, b, Crash), Boot(true, guardOk)) &&
            var t := Apply(day, Apply(day, b, Crash), Boot(true, guardOk));
            Live(t, u) == Live(s, u) &&
            Lost(t, u) == Lost(s, u) + Dropped(s, u) + AddsOf(u, es1) + AddsOf(u, es2) &&
            Lost(t, u) - Lost(b, u) <= AddsOf(u, es1) + AddsOf(u, es2)
  {
    hide Enabled, Apply, Legal, After, Inv, HasLoaded, EndsWrite, ReplacesStats, Earned, Live, Lost, Get, AddsOf,
      Dropped, Snap;
    AtLoad(s, u);
    LoadStep(day, s, u);
    var s1 := Apply(day, s, Visit(u));
    LoadedRun(day, s1, es1, u, Live(s, u));
    LedgerRun(day, s1, es1, u);
    var s2 := After(day, s1, es1);
    LoadAndWrite(day, s2, e, u, Live(s, u));
    var s3 := Apply(day, s2, e);
    LedgerRun(day, s3, es2, u);
    RestartTakes(day, BeforeCrash(day, s, u, es1, e, es2), true, guardOk, u);
  }

  // ---------------------------------------------------------------- a reset that loses

  lemma OpenSnoc(day: nat, s: State, es: seq<Event>, e: Event, u: User)
    requires Legal(day, s, es) && OpenThroughout(day, s, es, u) && Enabled(After(day, s, es), e)
    requires Open(Apply(day, After(day, s, es), e).pc, u)
    ensures Legal(day, s, es + [e]) && After(day, s, es + [e]) == Apply(day, After(day, s, es), e)
    ensures OpenThroughout(day, s, es + [e], u)
  {
    hide Enabled, Apply, Open;
    Extend(day, s, es, e);
    assert (es + [e])[..|es + [e]| - 1] == es;
  }

  lemma OpenStart(day: nat, s: State, u: User)
    requires Open(s.pc, u)
    ensures Legal(day, s, []) && After(day, s, []) == s && OpenThroughout(day, s, [], u)
  {
  }

  lemma AddsSnoc(u: User, es: seq<Event>, e: Event)
    ensures AddsOf(u, []) == 0
    ensures AddsOf(u, es + [e]) == AddsOf(u, es) + if e.Add? && e.user == u then e.n else 0
  {
    assert (es + [e])[..|es + [e]| - 1] == es;
  }

  /** From the snapshot to an add between the archive and the zeroing store. */
  lemma AddInWindow(day: nat, s: State, u: User, n: nat) returns (es: seq<Event>)
    requires s.pc.Snapshotting? && s.pc.must == s.pc.snap.Keys == {u} && u in s.counters
    ensures Legal(day, s, es) && OpenThroughout(day, s, es, u) && AddsOf(u, es) == n
    ensures var t := After(day, s, es);
            t.pc == Zeroing(s.pc.today, s.pc.snap, {}) && t.counters.Keys == s.counters.Keys
  {
    var s1 := Apply(day, s, SnapshotDone);
    var s2 := Apply(day, s1, OpenArchive);
    var s3 := Apply(day, s2, FillArchive(true));
    var s4 := Apply(day, s3, Add(u, n));
    assert s4.counters.Keys == s.counters.Keys;
    hide Legal, After, Apply, OpenThroughout, AddsOf;
    OpenStart(day, s, u);
    OpenSnoc(day, s, [], SnapshotDone, u);
    OpenSnoc(day, s, [] + [SnapshotDone], OpenArchive, u);
    OpenSnoc(day, s, [] + [SnapshotDone] + [OpenArchive], FillArchive(true), u);
    var most := [] + [SnapshotDone] + [OpenArchive] + [FillArchive(true)];
    OpenSnoc(day, s, most, Add(u, n), u);
    es := most + [Add(u, n)];
    AddsSnoc(u, [], SnapshotDone);
    AddsSnoc(u, [] + [SnapshotDone], OpenArchive);
    AddsSnoc(u, [] + [SnapshotDone] + [OpenArchive], FillArchive(true));
    AddsSnoc(u, most, Add(u, n));
  }

  /** And from the zeroing store to the attempt to persist. */
  lemma ToPersist(day: nat, s: State, u: User) returns (es: seq<Event>)
    requires s.pc.Zeroing? && s.pc.snap.Keys == s.pc.zeroed == s.counters.Keys == {u}
    ensures Legal(day, s, es) && OpenThroughout(day, s, es, u) && Enabled(After(day, s, es), Persist(true))
  {
    var s1 := Apply(day, s, ZeroDone);
    var s2 := Apply(day, s1, Visit(u));
    assert s2.pc.must == {u} && s2.pc.seen.Keys == {u};
    hide Legal, After, Apply, OpenThroughout;
    OpenStart(day, s, u);
    OpenSnoc(day, s, [], ZeroDone, u);
    OpenSnoc(day, s, [] + [ZeroDone], Visit(u), u);
    es := [] + [ZeroDone] + [Visit(u)];
  }

  /** A reset does lose bytes: from any snapshot of a single user, for any number of bytes
      added before its counter is zeroed. */
  lemma ResetCanLose(day: nat, s: State, u: User, n: nat) returns (es1: seq<Event>, es2: seq<Event>)
    requires Inv(s) && s.pc.Snapshotting? && s.pc.must == s.counters.Keys == {u} && s.pc.snap == map[]
    ensures ResetOf(day, s, u, es1, es2, true) && AddsOf(u, es1) == n
    ensures Lost(Apply(day, BeforePersist(day, s, u, es1, es2), Persist(true)), u) == Lost(s, u) + n
  {
    var s1 := Apply(day, s, Visit(u));
    assert s1.pc.snap.Keys == {u};
    es1 := AddInWindow(day, s1, u, n);
    var s2 := After(day, s1, es1);
    var s3 := Apply(day, s2, Zero(u));
    assert s3.pc.zeroed == {u} && s3.counters.Keys == {u};
    es2 := ToPersist(day, s3, u);
    assert ResetOf(day, s, u, es1, es2, true);
    hide *;
    CommittedResetLoses(day, s, u, es1, es2);
  }
}
