/** What every run of the accounting machine keeps, with crashes, restarts and failing
    writes wherever they fall. Invariants are stated for one user, or for the dates, so
    that each step is a small proof. */
module AccountingProofs {
  import opened Wrappers
  import opened Calendar
  import opened Accounting

  function Live(s: State, u: User): nat { Get(s.counters, u) }

  function Earned(s: State, u: User): nat { Get(s.ledger.earned, u) }

  /** The user's snapshot, for a reset that has one. */
  function Snap(pc: Pc): Counts {
    match pc
    case Snapshotting(_, _, snap) => snap
    case Opening(_, snap) => snap
    case Filling(_, snap) => snap
    case Zeroing(_, snap, _) => snap
    case Persisting(_, snap, _, _) => snap
    case RollingBack(_, snap, _) => snap
    case SavingGuard(_, snap) => snap
    case _ => map[]
  }

  /** Bytes of a zeroed user that are neither in a counter nor yet billed or lost. */
  function InFlight(s: State, u: User): nat {
    if Zeroed(s.pc, u) then Get(Snap(s.pc), u) + Get(s.ledger.drop, u) else 0
  }

  // ---------------------------------------------------------------- one user

  /** Keys a `Range` has loaded or has to load are keys of the map, which never loses one while
      the process runs. */
  ghost predicate KeysInv(s: State, u: User) {
    && (u in Snap(s.pc) && !s.pc.SavingGuard? ==> u in s.counters)
    && (u in Must(s.pc) ==> u in s.counters)
    && (s.pc == Down ==> u !in s.counters)
  }

  /** Every byte counted is billed, live, lost, or in flight; exactly once. */
  ghost predicate Conserved(s: State, u: User) {
    s.pc != Down ==>
      Earned(s, u) == Get(s.ledger.billed, u) + Live(s, u) + GetInt(s.ledger.lost, u) + InFlight(s, u)
  }

  /** Between snapshot load and zeroing a counter grows by the window; after the zeroing it
      holds what the window brought since. */
  ghost predicate WindowInv(s: State, u: User) {
    Open(s.pc, u) ==>
      if Zeroed(s.pc, u) then Live(s, u) + Get(s.ledger.drop, u) == Get(s.ledger.win, u)
      else Live(s, u) == Get(Snap(s.pc), u) + Get(s.ledger.win, u)
  }

  /** Earned since the last zeroing that reached the disk, or, for a user zeroed by the
      reset under way, since that zeroing. */
  function Floor(s: State, u: User): nat {
    if Zeroed(s.pc, u) then Get(s.ledger.mark, u) else Get(s.ledger.base, u)
  }

  /** No counter, in memory or in the stats file, holds a byte counted before the user's
      last zeroing that reached the disk. */
  ghost predicate FreshCounts(s: State, u: User) {
    && Live(s, u) + Floor(s, u) <= Earned(s, u)
    && (s.disk.stats.Saved? ==> Get(s.disk.stats.counts, u) + Get(s.ledger.base, u) <= Earned(s, u))
    && (s.pc.Writing? || s.pc.Persisting? ==> Get(Seen(s.pc), u) + Floor(s, u) <= Earned(s, u))
  }

  /** What was billed lies below the base, and what is being billed below the mark. */
  ghost predicate BilledBelow(s: State, u: User) {
    && Get(s.ledger.billed, u) <= Get(s.ledger.base, u) <= Earned(s, u)
    && (Open(s.pc, u) ==>
          Get(Snap(s.pc), u) + Get(s.ledger.base, u) <=
          if Zeroed(s.pc, u) then Get(s.ledger.mark, u) else Earned(s, u))
    && (Zeroed(s.pc, u) ==> Get(s.ledger.mark, u) <= Earned(s, u))
    && (s.pc.SavingGuard? && u in s.pc.snap ==>
          s.pc.snap[u] <= Get(s.ledger.mark, u) == Get(s.ledger.base, u))
  }

  ghost predicate NothingTwice(s: State, u: User) { GetInt(s.ledger.lost, u) >= 0 }

  /** The reset in the guard file left its mark: the user's base is at least there. */
  ghost predicate SealInv(s: State, u: User) {
    s.ledger.sealed.Some? && u in s.ledger.sealed.value.snap ==>
      var seal := s.ledger.sealed.value;
      seal.snap[u] <= Get(seal.mark, u) <= Get(s.ledger.base, u)
  }

  ghost predicate UserInv(s: State, u: User) {
    KeysInv(s, u) && Conserved(s, u) && WindowInv(s, u) && FreshCounts(s, u) && BilledBelow(s, u)
    && NothingTwice(s, u)
  }

  /** The invariant is kept by each of the events that change a counter or the ledger ... */
  lemma UserTouch(day: nat, s: State, v: User, u: User)
    requires Enabled(s, Touch(v)) && UserInv(s, u)
    ensures UserInv(Apply(day, s, Touch(v)), u)
  {
  }

  lemma UserAdd(day: nat, s: State, v: User, n: nat, u: User)
    requires Enabled(s, Add(v, n)) && UserInv(s, u)
    ensures UserInv(Apply(day, s, Add(v, n)), u)
  {
  }

  lemma UserVisit(day: nat, s: State, v: User, u: User)
    requires Enabled(s, Visit(v)) && UserInv(s, u)
    ensures UserInv(Apply(day, s, Visit(v)), u)
  {
    if s.pc.Snapshotting? {
      assert !Zeroed(s.pc, u);
    } else {
      assert Snap(Apply(day, s, Visit(v)).pc) == Snap(s.pc);
    }
  }

  lemma UserZero(day: nat, s: State, v: User, u: User)
    requires Enabled(s, Zero(v)) && UserInv(s, u)
    ensures UserInv(Apply(day, s, Zero(v)), u)
  {
  }

  lemma UserPersist(day: nat, s: State, ok: bool, u: User)
    requires Enabled(s, Persist(ok)) && UserInv(s, u)
    ensures UserInv(Apply(day, s, Persist(ok)), u)
  {
  }

  lemma UserRestore(day: nat, s: State, v: User, u: User)
    requires Enabled(s, Restore(v)) && UserInv(s, u)
    ensures UserInv(Apply(day, s, Restore(v)), u)
  {
  }

  lemma UserBoot(day: nat, s: State, statsOk: bool, guardOk: bool, u: User)
    requires Enabled(s, Boot(statsOk, guardOk)) && UserInv(s, u)
    ensures UserInv(Apply(day, s, Boot(statsOk, guardOk)), u)
  {
  }

  /** Moving on without touching counters, ledger, stats file or the user's snapshot. */
  lemma UserSame(s: State, t: State, u: User)
    requires UserInv(s, u) && !s.pc.SavingGuard? && !t.pc.SavingGuard? && s.pc != Down && t.pc != Down
    requires t.counters == s.counters && t.ledger.(sealed := s.ledger.sealed) == s.ledger
    requires t.disk.stats == s.disk.stats
    requires Snap(t.pc) == Snap(s.pc) && Seen(t.pc) == map[] && (u in Must(t.pc) ==> u in t.counters)
    requires (Open(t.pc, u) <==> Open(s.pc, u)) && (Zeroed(t.pc, u) <==> Zeroed(s.pc, u))
    ensures UserInv(t, u)
  {
  }

  /** ... by those that move the writer on inside a reset and out of it ... */
  lemma UserInReset(day: nat, s: State, e: Event, u: User)
    requires Enabled(s, e) && (e.SnapshotDone? || e.OpenArchive? || e.ZeroDone?) && UserInv(s, u)
    ensures UserInv(Apply(day, s, e), u)
  {
    UserSame(s, Apply(day, s, e), u);
  }

  lemma UserFilled(day: nat, s: State, ok: bool, u: User)
    requires Enabled(s, FillArchive(ok)) && UserInv(s, u)
    ensures UserInv(Apply(day, s, FillArchive(ok)), u)
  {
  }

  lemma UserAfterReset(day: nat, s: State, e: Event, u: User)
    requires Enabled(s, e) && (e.Abort? || e.RestoreDone?) && UserInv(s, u)
    ensures UserInv(Apply(day, s, e), u)
  {
  }

  lemma UserGuard(day: nat, s: State, e: Event, u: User)
    requires Enabled(s, e) && (e.SaveGuard? || e.Mark?) && UserInv(s, u)
    ensures UserInv(Apply(day, s, e), u)
  {
    assert !Open(s.pc, u) && !Zeroed(s.pc, u);
  }

  /** ... and by those outside any reset. */
  lemma UserTick(day: nat, s: State, u: User)
    requires Enabled(s, Tick) && UserInv(s, u)
    ensures UserInv(Apply(day, s, Tick), u)
  {
    if day == 0 || Decide(day, s.last, s.clock) != Due {
      UserSame(s, Apply(day, s, Tick), u);
    } else {
      hide Decide;
    }
  }

  lemma UserSaveFirst(day: nat, s: State, ok: bool, u: User)
    requires Enabled(s, SaveFirst(ok)) && UserInv(s, u)
    ensures UserInv(Apply(day, s, SaveFirst(ok)), u)
  {
    UserSame(s, Apply(day, s, SaveFirst(ok)), u);
  }

  lemma UserWriteStats(day: nat, s: State, ok: bool, u: User)
    requires Enabled(s, WriteStats(ok)) && UserInv(s, u)
    ensures UserInv(Apply(day, s, WriteStats(ok)), u)
  {
  }

  lemma UserClockOrCrash(day: nat, s: State, e: Event, u: User)
    requires Enabled(s, e) && (e.Advance? || e.Crash?) && UserInv(s, u)
    ensures UserInv(Apply(day, s, e), u)
  {
  }

  lemma UserStep(day: nat, s: State, e: Event, u: User)
    requires Enabled(s, e) && UserInv(s, u)
    ensures UserInv(Apply(day, s, e), u)
  {
    hide Enabled, Apply, UserInv;
    match e
    case Touch(v) => UserTouch(day, s, v, u);
    case Add(v, n) => UserAdd(day, s, v, n, u);
    case Visit(v) => UserVisit(day, s, v, u);
    case Zero(v) => UserZero(day, s, v, u);
    case Persist(ok) => UserPersist(day, s, ok, u);
    case Restore(v) => UserRestore(day, s, v, u);
    case Boot(statsOk, guardOk) => UserBoot(day, s, statsOk, guardOk, u);
    case SnapshotDone => UserInReset(day, s, e, u);
    case OpenArchive => UserInReset(day, s, e, u);
    case FillArchive(ok) => UserFilled(day, s, ok, u);
    case ZeroDone => UserInReset(day, s, e, u);
    case Abort => UserAfterReset(day, s, e, u);
    case RestoreDone => UserAfterReset(day, s, e, u);
    case SaveGuard(_) => UserGuard(day, s, e, u);
    case Mark => UserGuard(day, s, e, u);
    case Tick => UserTick(day, s, u);
    case SaveFirst(ok) => UserSaveFirst(day, s, ok, u);
    case WriteStats(ok) => UserWriteStats(day, s, ok, u);
    case _ => UserClockOrCrash(day, s, e, u);
  }

  lemma SealStep(day: nat, s: State, e: Event, u: User)
    requires Enabled(s, e) && UserInv(s, u) && SealInv(s, u)
    ensures SealInv(Apply(day, s, e), u)
  {
    hide KeysInv, Conserved, WindowInv, FreshCounts, NothingTwice;
  }

  // ---------------------------------------------------------------- dates and files

  /** The date of the reset under way, up to the point where the guard is in the file. */
  predicate Resetting(pc: Pc) {
    || pc.Snapshotting? || pc.Opening? || pc.Filling? || pc.Zeroing? || pc.Persisting?
    || pc.RollingBack? || pc.SavingGuard?
  }

  /** Neither guard is in the future, and the one in memory is at least the one on disk, but
      for the moment between saving it and setting it. A reset is for a later date. */
  ghost predicate GuardInv(s: State) {
    && NotAfter(s.disk.guard, s.clock) && NotAfter(s.last, s.clock)
    && (s.pc != Down && s.last.Some? && !s.pc.Marking? ==> NotAfter(s.disk.guard, s.last.value))
    && (Resetting(s.pc) ==>
          s.last.Some? && s.last != Some(s.pc.today) && Leq(s.last.value, s.pc.today) && Leq(s.pc.today, s.clock))
    && (s.pc.SavingFirst? ==> s.last == Some(s.pc.today))
    && (s.pc.Marking? ==> NotAfter(s.disk.guard, s.pc.today) && Leq(s.pc.today, s.clock))
  }

  /** The archive of the reset under way is empty while it is written and complete from the
      zeroing on; and so is that of the reset the guard file stands for. */
  ghost predicate ArchiveInv(s: State) {
    && (s.pc.Zeroing? || s.pc.Persisting? || s.pc.RollingBack? || s.pc.SavingGuard? ==>
          s.pc.today in s.disk.archive && s.disk.archive[s.pc.today] == Archived(Snap(s.pc)))
    && (s.pc.Filling? ==> s.pc.today in s.disk.archive && s.disk.archive[s.pc.today] == Partial)
    && (s.ledger.sealed.Some? ==>
          var seal := s.ledger.sealed.value;
          s.disk.guard == Some(seal.date) && seal.date in s.disk.archive &&
          s.disk.archive[seal.date] == Archived(seal.snap))
  }

  lemma GuardStep(day: nat, s: State, e: Event)
    requires Enabled(s, e) && GuardInv(s)
    ensures GuardInv(Apply(day, s, e))
  {
    hide Plus, Only, AddLost, LostAtBoot;
  }

  /** No event changes the archive of the date in the guard file. */
  lemma GuardedStep(day: nat, s: State, e: Event)
    requires Enabled(s, e) && GuardInv(s) && s.disk.guard.Some?
    ensures var d, a, b := s.disk.guard.value, s.disk.archive, Apply(day, s, e).disk.archive;
            (d in a <==> d in b) && (d in a ==> a[d] == b[d])
  {
  }

  /** No event but those of the reset itself touches its archive; and the archives of dates up
      to the guard's stay as they are. */
  lemma ArchiveInReset(day: nat, s: State, e: Event)
    requires Enabled(s, e) && GuardInv(s) && ArchiveInv(s)
    requires e.OpenArchive? || e.FillArchive? || e.ZeroDone? || e.Persist? || e.SaveGuard?
    ensures ArchiveInv(Apply(day, s, e))
  {
    hide Plus, Only, AddLost;
  }

  lemma ArchiveInLoop(day: nat, s: State, e: Event)
    requires Enabled(s, e) && ArchiveInv(s)
    requires e.Visit? || e.Zero? || e.Restore? || e.Touch? || e.Add?
    ensures ArchiveInv(Apply(day, s, e))
  {
  }

  lemma ArchiveElsewhere(day: nat, s: State, e: Event)
    requires Enabled(s, e) && ArchiveInv(s)
    requires e.Advance? || e.Tick? || e.SaveFirst? || e.SnapshotDone? || e.Abort? || e.RestoreDone? || e.Mark? ||
             e.WriteStats? || e.Crash? || e.Boot?
    ensures ArchiveInv(Apply(day, s, e))
  {
    hide LostAtBoot;
  }

  lemma ArchiveStep(day: nat, s: State, e: Event)
    requires Enabled(s, e) && GuardInv(s) && ArchiveInv(s)
    ensures ArchiveInv(Apply(day, s, e))
  {
    hide Enabled, Apply, GuardInv, ArchiveInv;
    match e
    case OpenArchive => ArchiveInReset(day, s, e);
    case FillArchive(_) => ArchiveInReset(day, s, e);
    case ZeroDone => ArchiveInReset(day, s, e);
    case Persist(_) => ArchiveInReset(day, s, e);
    case SaveGuard(_) => ArchiveInReset(day, s, e);
    case Visit(_) => ArchiveInLoop(day, s, e);
    case Zero(_) => ArchiveInLoop(day, s, e);
    case Restore(_) => ArchiveInLoop(day, s, e);
    case Touch(_) => ArchiveInLoop(day, s, e);
    case Add(_, _) => ArchiveInLoop(day, s, e);
    case _ => ArchiveElsewhere(day, s, e);
  }
}
