/** The traffic accounting as a machine: one writer goroutine (`startTrafficStatsWriter`,
    `checkAndPerformScheduledReset`), tunnels that add at any moment, a disk that may refuse
    any write, crashes and restarts. Every atomic load, store and file operation is an event
    of its own. */
module Accounting {
  import opened Wrappers
  import opened Calendar

  type User = string
  type Counts = map<User, nat>

  /** The name a tunnel's bytes are counted under. */
  function Named(username: string): User { if username == "" then "unknown" else username }

  function Get(m: Counts, u: User): nat { if u in m then m[u] else 0 }

  function GetInt(m: map<User, int>, u: User): int { if u in m then m[u] else 0 }

  // ---------------------------------------------------------------- state

  datatype StatsFile = Missing | Unparseable | Saved(counts: Counts)

  /** An archive that was opened but not written to the end is `Partial`. */
  datatype ArchiveFile = Partial | Archived(counts: Counts)

  datatype Disk = Disk(stats: StatsFile, guard: Option<Date>, archive: map<Date, ArchiveFile>)

  /** Where the writer goroutine is. `must` are the keys a `Range` has to visit, `snap` and
      `seen` what it has loaded so far; `today` is the date read when the check began. */
  datatype Pc =
    | Down
    | Idle
    | SavingFirst(today: Date)
    | Snapshotting(today: Date, must: set<User>, snap: Counts)
    | Opening(today: Date, snap: Counts)
    | Filling(today: Date, snap: Counts)
    | Zeroing(today: Date, snap: Counts, zeroed: set<User>)
    | Persisting(today: Date, snap: Counts, must: set<User>, seen: Counts)
    | RollingBack(today: Date, snap: Counts, restored: set<User>)
    | SavingGuard(today: Date, snap: Counts)
    | Marking(today: Date)
    | Writing(must: set<User>, seen: Counts)

  /** A reset whose date is in the guard file: what it archived, and how much each user had
      earned when the counter was zeroed. */
  datatype Seal = Seal(date: Date, snap: Counts, mark: Counts)

  /** Bookkeeping the program does not have. `earned`: bytes ever counted; `base`: earned at
      the user's last zeroing that reached the disk; `billed`: bytes in snapshots whose reset
      reached the disk; `lost`: bytes in no snapshot and no counter any more. For the reset
      under way, `win`: adds since the user's snapshot load; `drop`: those the zeroing store
      wiped out; `mark`: earned at that store. */
  datatype Ledger = Ledger(earned: Counts, base: Counts, billed: Counts, lost: map<User, int>,
                           win: Counts, drop: Counts, mark: Counts, sealed: Option<Seal>)

  datatype State = State(clock: Date, counters: Counts, last: Option<Date>, disk: Disk, pc: Pc, ledger: Ledger)

  // ---------------------------------------------------------------- events

  datatype Event =
    | Advance(to: Date)
    | Touch(user: User)              // LoadOrStore of a new key
    | Add(user: User, n: nat)        // AddInt64 on an existing cell
    | Tick
    | SaveFirst(ok: bool)
    | Visit(user: User)              // one LoadInt64 of a Range
    | SnapshotDone
    | Abort                          // MkdirAll or opening the archive fails
    | OpenArchive                    // the archive file is truncated
    | FillArchive(ok: bool)
    | Zero(user: User)
    | ZeroDone
    | Persist(ok: bool)              // tmp + rename of the zeroed stats
    | Restore(user: User)
    | RestoreDone
    | SaveGuard(ok: bool)
    | Mark                           // lastResetDate = today
    | WriteStats(ok: bool)
    | Crash
    | Boot(statsOk: bool, guardOk: bool)

  /** The keys whose values the current `Range` has loaded. */
  function Seen(pc: Pc): Counts {
    match pc
    case Snapshotting(_, _, snap) => snap
    case Persisting(_, _, _, seen) => seen
    case Writing(_, seen) => seen
    case _ => map[]
  }

  /** The keys it has to load before it can end. */
  function Must(pc: Pc): set<User> {
    match pc
    case Snapshotting(_, must, _) => must
    case Persisting(_, _, must, _) => must
    case Writing(must, _) => must
    case _ => {}
  }

  predicate Ranging(pc: Pc) { pc.Snapshotting? || pc.Persisting? || pc.Writing? }

  function WithSeen(pc: Pc, seen: Counts): Pc
    requires Ranging(pc)
  {
    match pc
    case Snapshotting(t, must, _) => Snapshotting(t, must, seen)
    case Persisting(t, snap, must, _) => Persisting(t, snap, must, seen)
    case Writing(must, _) => Writing(must, seen)
  }

  predicate Enabled(s: State, e: Event) {
    match e
    case Advance(to) => Leq(s.clock, to)
    case Touch(u) => s.pc != Down && u !in s.counters
    case Add(u, n) => s.pc != Down && u in s.counters
    case Tick => s.pc == Idle
    case SaveFirst(_) => s.pc.SavingFirst?
    case Visit(u) => Ranging(s.pc) && u in s.counters && u !in Seen(s.pc)
    case SnapshotDone => s.pc.Snapshotting? && s.pc.must <= s.pc.snap.Keys
    case Abort => s.pc.Opening?
    case OpenArchive => s.pc.Opening?
    case FillArchive(_) => s.pc.Filling?
    case Zero(u) => s.pc.Zeroing? && u in s.pc.snap && u !in s.pc.zeroed && u in s.counters
    case ZeroDone => s.pc.Zeroing? && s.pc.snap.Keys <= s.pc.zeroed
    case Persist(_) => s.pc.Persisting? && s.pc.must <= s.pc.seen.Keys
    case Restore(u) => s.pc.RollingBack? && u in s.pc.snap && u !in s.pc.restored && u in s.counters
    case RestoreDone => s.pc.RollingBack? && s.pc.snap.Keys <= s.pc.restored
    case SaveGuard(_) => s.pc.SavingGuard?
    case Mark => s.pc.Marking?
    case WriteStats(_) => s.pc.Writing? && s.pc.must <= s.pc.seen.Keys
    case Crash => s.pc != Down
    case Boot(_, _) => s.pc == Down
  }

  // ---------------------------------------------------------------- effects

  /** Is the user's counter between its snapshot load and the end of the reset? */
  predicate Open(pc: Pc, u: User) {
    match pc
    case Snapshotting(_, _, snap) => u in snap
    case Opening(_, snap) => u in snap
    case Filling(_, snap) => u in snap
    case Zeroing(_, snap, _) => u in snap
    case Persisting(_, snap, _, _) => u in snap
    case RollingBack(_, snap, restored) => u in snap && u !in restored
    case _ => false
  }

  /** Has the user's counter been zeroed by the reset under way, and not been restored? */
  predicate Zeroed(pc: Pc, u: User) {
    match pc
    case Zeroing(_, snap, zeroed) => u in snap && u in zeroed
    case Persisting(_, snap, _, _) => u in snap
    case RollingBack(_, snap, restored) => u in snap && u !in restored
    case _ => false
  }

  function Plus(a: Counts, b: Counts): (c: Counts)
    ensures forall u :: Get(c, u) == Get(a, u) + Get(b, u)
  {
    map u | u in a.Keys + b.Keys :: Get(a, u) + Get(b, u)
  }

  function Only(a: Counts, us: set<User>): (c: Counts)
    ensures forall u :: Get(c, u) == if u in us then Get(a, u) else 0
  {
    map u | u in us :: Get(a, u)
  }

  function AddLost(lost: map<User, int>, us: set<User>, more: Counts): (l: map<User, int>)
    ensures forall u :: GetInt(l, u) == GetInt(lost, u) + if u in us then Get(more, u) else 0
  {
    map u | u in lost.Keys + us :: GetInt(lost, u) + if u in us then Get(more, u) else 0
  }

  /** What a restart gives up: everything that is in no billed snapshot and was not loaded. */
  function LostAtBoot(l: Ledger, loaded: Counts): (lost: map<User, int>)
    ensures forall u :: GetInt(lost, u) ==
              if u in l.earned.Keys + l.billed.Keys + loaded.Keys
              then Get(l.earned, u) - Get(l.billed, u) - Get(loaded, u) else 0
  {
    map u | u in l.earned.Keys + l.billed.Keys + loaded.Keys ::
      Get(l.earned, u) - Get(l.billed, u) - Get(loaded, u)
  }

  /** The write that follows every check, whatever its outcome. */
  function ToWriting(s: State): State { s.(pc := Writing(s.counters.Keys, map[])) }

  function ApplyTick(day: nat, s: State): State {
    if day == 0 then ToWriting(s)
    else
      match Decide(day, s.last, s.clock)
      case FirstRun => s.(last := Some(s.clock), pc := SavingFirst(s.clock))
      case NotDue => ToWriting(s)
      case Due => s.(pc := Snapshotting(s.clock, s.counters.Keys, map[]),
                     ledger := s.ledger.(win := map[], drop := map[], mark := map[]))
  }

  function ApplyAdd(s: State, u: User, n: nat): State
    requires u in s.counters
  {
    var l := s.ledger;
    s.(counters := s.counters[u := s.counters[u] + n],
       ledger := l.(earned := l.earned[u := Get(l.earned, u) + n],
                    win := if Open(s.pc, u) then l.win[u := Get(l.win, u) + n] else l.win))
  }

  function ApplyVisit(s: State, u: User): State
    requires Ranging(s.pc) && u in s.counters
  {
    var v := s.counters[u];
    match s.pc
    case Snapshotting(t, must, snap) =>
      s.(pc := Snapshotting(t, must, snap[u := v]), ledger := s.ledger.(win := s.ledger.win[u := 0]))
    case Persisting(t, snap, must, seen) => s.(pc := Persisting(t, snap, must, seen[u := v]))
    case Writing(must, seen) => s.(pc := Writing(must, seen[u := v]))
  }

  function ApplyZero(s: State, u: User): State
    requires s.pc.Zeroing?
  {
    var l := s.ledger;
    s.(counters := s.counters[u := 0],
       pc := s.pc.(zeroed := s.pc.zeroed + {u}),
       ledger := l.(drop := l.drop[u := Get(l.win, u)], mark := l.mark[u := Get(l.earned, u)]))
  }

  function ApplyPersist(s: State, ok: bool): State
    requires s.pc.Persisting?
  {
    var l, snap := s.ledger, s.pc.snap;
    if !ok then s.(pc := RollingBack(s.pc.today, snap, {}))
    else
      s.(disk := s.disk.(stats := Saved(s.pc.seen)),
         pc := SavingGuard(s.pc.today, snap),
         ledger := l.(base := l.base + Only(l.mark, snap.Keys),
                      billed := Plus(l.billed, snap),
                      lost := AddLost(l.lost, snap.Keys, l.drop)))
  }

  function ApplyRestore(s: State, u: User): State
    requires s.pc.RollingBack? && u in s.pc.snap
  {
    var l := s.ledger;
    s.(counters := s.counters[u := s.pc.snap[u]],
       pc := s.pc.(restored := s.pc.restored + {u}),
       ledger := l.(lost := AddLost(l.lost, {u}, l.win)))
  }

  function ApplySaveGuard(s: State, ok: bool): State
    requires s.pc.SavingGuard?
  {
    var t := s.pc.today;
    var s' := if ok then s.(disk := s.disk.(guard := Some(t)),
                            ledger := s.ledger.(sealed := Some(Seal(t, s.pc.snap, s.ledger.mark))))
              else s;
    s'.(pc := Marking(t))
  }

  function ApplySaveFirst(s: State, ok: bool): State
    requires s.pc.SavingFirst?
  {
    ToWriting(if ok then s.(disk := s.disk.(guard := Some(s.pc.today)), ledger := s.ledger.(sealed := None)) else s)
  }

  /** `loadTrafficStats`: without a readable stats file neither counters nor guard are
      loaded, whatever the guard file says. */
  function ApplyBoot(s: State, statsOk: bool, guardOk: bool): State {
    var readable := statsOk && s.disk.stats.Saved?;
    var loaded := if readable then s.disk.stats.counts else map[];
    s.(counters := loaded,
       last := if readable && guardOk then s.disk.guard else None,
       pc := Idle,
       ledger := s.ledger.(lost := LostAtBoot(s.ledger, loaded)))
  }

  function Apply(day: nat, s: State, e: Event): State
    requires Enabled(s, e)
  {
    match e
    case Advance(to) => s.(clock := to)
    case Touch(u) => s.(counters := s.counters[u := 0])
    case Add(u, n) => ApplyAdd(s, u, n)
    case Tick => ApplyTick(day, s)
    case SaveFirst(ok) => ApplySaveFirst(s, ok)
    case Visit(u) => ApplyVisit(s, u)
    case SnapshotDone => s.(pc := Opening(s.pc.today, s.pc.snap))
    case Abort => ToWriting(s)
    case OpenArchive => s.(disk := s.disk.(archive := s.disk.archive[s.pc.today := Partial]),
                           pc := Filling(s.pc.today, s.pc.snap))
    case FillArchive(ok) =>
      if ok then s.(disk := s.disk.(archive := s.disk.archive[s.pc.today := Archived(s.pc.snap)]),
                    pc := Zeroing(s.pc.today, s.pc.snap, {}))
      else ToWriting(s)
    case Zero(u) => ApplyZero(s, u)
    case ZeroDone => s.(pc := Persisting(s.pc.today, s.pc.snap, s.counters.Keys, map[]))
    case Persist(ok) => ApplyPersist(s, ok)
    case Restore(u) => ApplyRestore(s, u)
    case RestoreDone => ToWriting(s)
    case SaveGuard(ok) => ApplySaveGuard(s, ok)
    case Mark => ToWriting(s.(last := Some(s.pc.today)))
    case WriteStats(ok) => (if ok then s.(disk := s.disk.(stats := Saved(s.pc.seen))) else s).(pc := Idle)
    case Crash => s.(counters := map[], last := None, pc := Down)
    case Boot(statsOk, guardOk) => ApplyBoot(s, statsOk, guardOk)
  }

  // ---------------------------------------------------------------- runs

  predicate Legal(day: nat, s: State, es: seq<Event>)
    decreases |es|, 0
  {
    es == [] ||
    (Legal(day, s, es[..|es| - 1]) && Enabled(After(day, s, es[..|es| - 1]), es[|es| - 1]))
  }

  function After(day: nat, s: State, es: seq<Event>): State
    requires Legal(day, s, es)
    decreases |es|, 1
  {
    if es == [] then s else Apply(day, After(day, s, es[..|es| - 1]), es[|es| - 1])
  }

  /** What the writer did over a run: the dates its ticks read, and how many resets it has
      brought to their end. */
  datatype History = History(ticks: seq<Date>, resets: nat)

  /** The history after one more event, which found the clock at `now`. */
  function Told(h: History, now: Date, e: Event): History {
    match e
    case Tick => h.(ticks := h.ticks + [now])
    case Mark => h.(resets := h.resets + 1)
    case _ => h
  }

  function Past(day: nat, s: State, es: seq<Event>): History
    requires Legal(day, s, es)
    decreases |es|
  {
    if es == [] then History([], 0)
    else Told(Past(day, s, es[..|es| - 1]), After(day, s, es[..|es| - 1]).clock, es[|es| - 1])
  }

  /** Before the first start: counters only on disk, and a guard not in the future. */
  ghost predicate Initial(s: State) {
    && s.pc == Down && s.counters == map[] && s.last == None
    && NotAfter(s.disk.guard, s.clock)
    && s.ledger == Ledger(if s.disk.stats.Saved? then s.disk.stats.counts else map[],
                          map[], map[], map[], map[], map[], map[], None)
  }
}
