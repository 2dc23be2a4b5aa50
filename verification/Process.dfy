/** The accounting code as the program runs it: `traffic_stats.go` with its fields, loops and
    file writes. Tunnels interfere between any two of its steps, and any write may fail.
    Every step is recorded as an event of the accounting machine, so that every run of this
    code is a run of that machine and its theorems apply. */
module Process {
  import opened Wrappers
  import opened Calendar
  import opened Accounting

  datatype Outcome = Initialised | Skipped | Aborted | RolledBack | Completed

  /** Which file operations of one turn work: opening and filling the archive, writing the
      zeroed stats and the guard, and the write at the end. */
  datatype Files = Files(opens: bool, fills: bool, persists: bool, guards: bool, writes: bool)

  /** How a reset ends. */
  function Ends(f: Files): Outcome {
    if !f.opens || !f.fills then Aborted else if !f.persists then RolledBack else Completed
  }

  function CountCompleted(os: seq<Outcome>): nat {
    if os == [] then 0 else CountCompleted(os[..|os| - 1]) + if os[|os| - 1] == Completed then 1 else 0
  }

  predicate NothingFailed(os: seq<Outcome>) {
    forall i :: 0 <= i < |os| ==> os[i] != Aborted && os[i] != RolledBack
  }

  lemma OutcomesSnoc(os: seq<Outcome>, o: Outcome)
    ensures CountCompleted(os + [o]) == CountCompleted(os) + if o == Completed then 1 else 0
    ensures NothingFailed(os + [o]) ==> NothingFailed(os) && o != Aborted && o != RolledBack
  {
    assert (os + [o])[..|os|] == os;
    if NothingFailed(os + [o]) {
      assert (os + [o])[|os|] == o;
      forall i | 0 <= i < |os| ensures os[i] != Aborted && os[i] != RolledBack {
        assert (os + [o])[i] == os[i];
      }
    }
  }

  // ---------------------------------------------------------------- between two moments

  /** The clock, the counters, and what was ever earned. */
  datatype Books = Books(clock: Date, counters: Counts, earned: Counts)

  /** Time passed: no key was lost, and bytes were earned. */
  ghost predicate Passed(s: Books, t: Books) {
    && Leq(s.clock, t.clock) && s.counters.Keys <= t.counters.Keys
    && forall u :: Get(s.earned, u) <= Get(t.earned, u)
  }

  /** And every counter moved by exactly what was earned. */
  ghost predicate Steady(s: Books, t: Books) {
    && Passed(s, t)
    && forall u :: Get(t.counters, u) - Get(s.counters, u) == Get(t.earned, u) - Get(s.earned, u)
  }

  /** Each number was read from its counter at some moment between the two. */
  ghost predicate ReadBetween(s: Books, t: Books, counts: Counts) {
    forall u :: u in counts ==>
      Get(s.counters, u) <= counts[u] && counts[u] - Get(s.counters, u) <= Get(t.earned, u) - Get(s.earned, u)
  }

  /** The same, and there is one for every user there was. */
  ghost predicate Snapshot(s: Books, t: Books, counts: Counts) {
    s.counters.Keys <= counts.Keys <= t.counters.Keys && ReadBetween(s, t, counts)
  }

  /** Nothing earned before `s` is left in these users' counters. */
  ghost predicate Emptied(s: Books, t: Books, users: set<User>) {
    forall u :: u in users ==> Get(t.counters, u) + Get(s.earned, u) <= Get(t.earned, u)
  }

  /** These users' counters hold these numbers and at most what was earned since. */
  ghost predicate Refilled(s: Books, t: Books, counts: Counts, users: set<User>) {
    forall u :: u in users && u in counts ==>
      counts[u] <= Get(t.counters, u) && Get(t.counters, u) - counts[u] <= Get(t.earned, u) - Get(s.earned, u)
  }

  lemma SteadyTwice(s: Books, t: Books, v: Books)
    requires Steady(s, t) && Steady(t, v)
    ensures Steady(s, v)
  {
  }

  lemma SteadyPasses(s: Books, t: Books)
    requires Steady(s, t)
    ensures Passed(s, t)
  {
  }

  lemma SteadyKeys(s: Books, t: Books)
    requires Steady(s, t)
    ensures s.counters.Keys <= t.counters.Keys
  {
  }

  lemma PassedTwice(s: Books, t: Books, v: Books)
    requires Passed(s, t) && Passed(t, v)
    ensures Passed(s, v)
  {
  }

  lemma SnapshotLater(s: Books, t: Books, v: Books, counts: Counts)
    requires Snapshot(s, t, counts) && Passed(t, v)
    ensures Snapshot(s, v, counts)
  {
  }

  lemma SnapshotSteady(s: Books, t: Books, v: Books, counts: Counts)
    requires Snapshot(s, t, counts) && Steady(t, v)
    ensures Snapshot(s, v, counts)
  {
  }

  lemma SnapshotEarlier(s0: Books, s: Books, t: Books, counts: Counts)
    requires Steady(s0, s) && Snapshot(s, t, counts)
    ensures Snapshot(s0, t, counts)
  {
    forall u | u in counts
      ensures Get(s0.counters, u) <= counts[u]
      ensures counts[u] - Get(s0.counters, u) <= Get(t.earned, u) - Get(s0.earned, u)
    {
      assert Get(s.counters, u) - Get(s0.counters, u) == Get(s.earned, u) - Get(s0.earned, u);
    }
  }

  lemma ReadOne(s: Books, t: Books, v: Books, counts: Counts, u: User)
    requires ReadBetween(s, t, counts) && Steady(s, t) && Steady(t, v) && u in v.counters
    ensures Steady(s, v) && ReadBetween(s, v, counts[u := v.counters[u]])
  {
    assert Get(v.counters, u) == v.counters[u];
  }

  lemma ZeroOne(s: Books, t: Books, v: Books, users: set<User>, u: User)
    requires Passed(s, t) && Emptied(s, t, users) && Steady(t, v)
    ensures var w := v.(counters := v.counters[u := 0]);
            Passed(s, w) && Emptied(s, w, users + {u})
  {
    var w := v.(counters := v.counters[u := 0]);
    forall x | x in users + {u} ensures Get(w.counters, x) + Get(s.earned, x) <= Get(w.earned, x) {
      assert Get(v.counters, x) - Get(t.counters, x) == Get(v.earned, x) - Get(t.earned, x);
    }
  }

  lemma RestoreOne(s: Books, t: Books, v: Books, counts: Counts, users: set<User>, u: User)
    requires Passed(s, t) && Refilled(s, t, counts, users) && Steady(t, v) && u in counts
    ensures var w := v.(counters := v.counters[u := counts[u]]);
            Passed(s, w) && Refilled(s, w, counts, users + {u})
  {
    var w := v.(counters := v.counters[u := counts[u]]);
    forall x | x in users + {u} && x in counts
      ensures counts[x] <= Get(w.counters, x) && Get(w.counters, x) - counts[x] <= Get(w.earned, x) - Get(s.earned, x)
    {
      assert Get(v.counters, x) - Get(t.counters, x) == Get(v.earned, x) - Get(t.earned, x);
    }
  }

  // ---------------------------------------------------------------- what a reset leaves

  /** The history after one check that read the date `now`. */
  function Checked(h: History, now: Date, o: Outcome): History {
    History(h.ticks + [now], h.resets + if o == Completed then 1 else 0)
  }

  lemma TickTold(h: History, now: Date)
    ensures Checked(h, now, Skipped) == Told(h, now, Tick)
  {
  }

  /** The numbers cover these users and are at most what the counters hold. */
  ghost predicate Covers(counts: Counts, users: Counts, counters: Counts) {
    users.Keys <= counts.Keys && forall u :: u in counts ==> counts[u] <= Get(counters, u)
  }

  /** The archive of the day holds, for every user there was, a number read from its counter
      during the reset. */
  ghost predicate ArchiveDone(today: Date, s: Books, t: Books, disk: Disk) {
    && today in disk.archive && disk.archive[today].Archived?
    && Snapshot(s, t, disk.archive[today].counts)
  }

  /** What a reset that began with `s` and `before` and ended with `t` and `after` has done. */
  ghost predicate ResetDone(o: Outcome, f: Files, today: Date, s: Books, t: Books, before: Disk, after: Disk) {
    && (forall d :: d in before.archive && d != today ==> d in after.archive && after.archive[d] == before.archive[d])
    && (o != Completed ==> after.guard == before.guard && after.stats == before.stats)
    && (o == Aborted ==>
          Steady(s, t) && after.archive == if f.opens then before.archive[today := Partial] else before.archive)
    && (o == RolledBack ==>
          ArchiveDone(today, s, t, after) && Refilled(s, t, after.archive[today].counts, s.counters.Keys))
    && (o == Completed ==>
          && ArchiveDone(today, s, t, after) && Emptied(s, t, s.counters.Keys)
          && after.guard == (if f.guards then Some(today) else before.guard)
          && after.stats.Saved? && Covers(after.stats.counts, s.counters, t.counters))
  }

  lemma NoTimePassed(s: Books)
    ensures Passed(s, s) && Steady(s, s)
  {
  }

  lemma PassedKeys(s: Books, t: Books)
    requires Passed(s, t)
    ensures s.counters.Keys <= t.counters.Keys
  {
  }

  lemma SnapshotKeys(s: Books, t: Books, counts: Counts)
    requires Snapshot(s, t, counts)
    ensures s.counters.Keys <= counts.Keys <= t.counters.Keys
  {
  }

  lemma RefilledLater(s: Books, t: Books, v: Books, counts: Counts)
    requires Passed(s, t) && Refilled(t, v, counts, counts.Keys)
    ensures Refilled(s, v, counts, counts.Keys)
  {
  }

  lemma SnapshotCovers(s0: Books, s: Books, t: Books, counts: Counts)
    requires Passed(s0, s) && Steady(s, t) && Snapshot(s, t, counts)
    ensures Covers(counts, s0.counters, t.counters)
  {
    forall u | u in counts ensures counts[u] <= Get(t.counters, u) {
      assert Get(t.counters, u) - Get(s.counters, u) == Get(t.earned, u) - Get(s.earned, u);
    }
  }

  lemma EmptiedSince(s: Books, t: Books, v: Books, users: set<User>)
    requires Passed(s, t) && Emptied(s, t, users) && Steady(t, v)
    ensures Passed(s, v) && Emptied(s, v, users)
  {
    forall u | u in users ensures Get(v.counters, u) + Get(s.earned, u) <= Get(v.earned, u) {
      assert Get(v.counters, u) - Get(t.counters, u) == Get(v.earned, u) - Get(t.earned, u);
    }
  }

  lemma RefilledSince(s: Books, t: Books, v: Books, counts: Counts)
    requires Passed(s, t) && Refilled(s, t, counts, counts.Keys) && Steady(t, v)
    ensures Passed(s, v) && Refilled(s, v, counts, counts.Keys)
  {
    forall u | u in counts
      ensures counts[u] <= Get(v.counters, u) && Get(v.counters, u) - counts[u] <= Get(v.earned, u) - Get(s.earned, u)
    {
      assert Get(v.counters, u) - Get(t.counters, u) == Get(v.earned, u) - Get(t.earned, u);
    }
  }

  lemma AbortedReset(f: Files, today: Date, s: Books, t: Books, before: Disk, after: Disk)
    requires Steady(s, t)
    requires after == if f.opens then before.(archive := before.archive[today := Partial]) else before
    ensures ResetDone(Aborted, f, today, s, t, before, after)
  {
    hide Steady;
  }

  lemma EmptiedLater(s: Books, s2: Books, s3: Books, t: Books, users: set<User>)
    requires Passed(s, s2) && Emptied(s2, s3, users) && Steady(s3, t)
    ensures Emptied(s, t, users)
  {
    forall u | u in users ensures Get(t.counters, u) + Get(s.earned, u) <= Get(t.earned, u) {
      assert Get(t.counters, u) - Get(s3.counters, u) == Get(t.earned, u) - Get(s3.earned, u);
    }
  }

  lemma EmptiedOf(s: Books, t: Books, users: set<User>, some: set<User>)
    requires Emptied(s, t, users) && some <= users
    ensures Emptied(s, t, some)
  {
  }

  lemma RefilledOf(s: Books, t: Books, counts: Counts, some: set<User>)
    requires Refilled(s, t, counts, counts.Keys) && some <= counts.Keys
    ensures Refilled(s, t, counts, some)
  {
  }

  /** From the archive at `s2` over the zeroing at `s3` to the end. */
  lemma FinishedReset(o: Outcome, f: Files, today: Date, s: Books, s2: Books, s3: Books, t: Books, snapshot: Counts,
      before: Disk, after: Disk)
    requires o in {RolledBack, Completed}
    requires Passed(s, s2) && Passed(s2, s3) && Snapshot(s, s3, snapshot) && Emptied(s2, s3, snapshot.Keys)
    requires after.archive == before.archive[today := Archived(snapshot)]
    requires o == Completed ==>
               after.guard == (if f.guards then Some(today) else before.guard) && Steady(s3, t) &&
               after.stats.Saved? && Snapshot(s3, t, after.stats.counts)
    requires o == RolledBack ==>
               after == before.(archive := after.archive) && Passed(s3, t) && Refilled(s3, t, snapshot, snapshot.Keys)
    ensures Passed(s, t) && ResetDone(o, f, today, s, t, before, after)
  {
    hide Steady, Passed, ReadBetween, Snapshot, Emptied, Refilled, Covers;
    PassedTwice(s, s2, s3);
    if o == Completed {
      SteadyPasses(s3, t);
      SnapshotCovers(s, s3, t, after.stats.counts);
      EmptiedLater(s, s2, s3, t, snapshot.Keys);
      SnapshotKeys(s, s3, snapshot);
      EmptiedOf(s, t, snapshot.Keys, s.counters.Keys);
    } else {
      RefilledLater(s, s3, t, snapshot);
      SnapshotKeys(s, s3, snapshot);
      RefilledOf(s, t, snapshot, s.counters.Keys);
    }
    PassedTwice(s, s3, t);
    SnapshotLater(s, s3, t, snapshot);
  }

  lemma StatsAfterReset(o: Outcome, f: Files, today: Date, s: Books, t: Books, before: Disk, after: Disk)
    requires o in {Aborted, RolledBack, Completed} ==> ResetDone(o, f, today, s, t, before, after)
    requires o == Skipped ==> after == before
    requires o == Initialised ==> after == if f.guards then before.(guard := Some(today)) else before
    ensures o != Completed ==> after.stats == before.stats
  {
  }

  // ---------------------------------------------------------------- many turns

  /** One turn: what it decides, and the guard in memory after it. */
  predicate TurnOf(resetDay: nat, last: Option<Date>, today: Date, o: Outcome, now: Option<Date>) {
    && (if resetDay == 0 then o == Skipped
        else match Decide(resetDay, last, today)
             case FirstRun => o == Initialised
             case NotDue => o == Skipped
             case Due => o in {Aborted, RolledBack, Completed})
    && now == if o in {Initialised, Completed} then Some(today) else last
  }

  /** The history after these turns. */
  function Turns(h: History, dates: seq<Date>, os: seq<Outcome>): History {
    History(h.ticks + dates, h.resets + CountCompleted(os))
  }

  /** The count of resets, and the guard, against the dates seen. */
  predicate OnCount(resetDay: nat, guard: Option<Date>, dates: seq<Date>, os: seq<Outcome>, last: Option<Date>) {
    && (resetDay > 0 && NothingFailed(os) ==>
          CountCompleted(os) == Resets(resetDay, guard, dates) && last == GuardAfter(resetDay, guard, dates))
    && (resetDay == 0 ==> CountCompleted(os) == 0 && last == guard)
  }

  lemma NoTicks(resetDay: nat, guard: Option<Date>, now: Date, h: History)
    ensures OnCount(resetDay, guard, [], [], guard) && InOrder(now, [], now) && Turns(h, [], []) == h
  {
  }

  lemma OnCountStep(resetDay: nat, guard: Option<Date>, dates: seq<Date>, os: seq<Outcome>, last: Option<Date>,
      today: Date, o: Outcome, now: Option<Date>)
    requires OnCount(resetDay, guard, dates, os, last) && TurnOf(resetDay, last, today, o, now)
    ensures OnCount(resetDay, guard, dates + [today], os + [o], now)
  {
    hide NothingFailed, CountCompleted, Resets, GuardAfter;
    ResetsSnoc(resetDay, guard, dates, today);
    OutcomesSnoc(os, o);
  }

  lemma ToldStep(h: History, dates: seq<Date>, os: seq<Outcome>, today: Date, o: Outcome)
    ensures Checked(Turns(h, dates, os), today, o) == Turns(h, dates + [today], os + [o])
  {
    OutcomesSnoc(os, o);
    assert h.ticks + (dates + [today]) == (h.ticks + dates) + [today];
  }

  /** The dates of the turns that completed a reset, whatever failed in the others. */
  ghost predicate MarkedTurns(resetDay: nat, guard: Option<Date>, dates: seq<Date>, os: seq<Outcome>,
      marks: seq<Date>, last: Option<Date>, now: Date)
  {
    resetDay > 0 ==>
      |marks| == CountCompleted(os) && Marked(resetDay, guard, dates, marks, last) && NotAfter(last, now)
  }

  lemma NoTurns(resetDay: nat, guard: Option<Date>, now: Date)
    requires NotAfter(guard, now)
    ensures MarkedTurns(resetDay, guard, [], [], [], guard, now)
  {
    NothingMarked(resetDay, guard);
  }

  lemma MarkedTurn(resetDay: nat, guard: Option<Date>, dates: seq<Date>, os: seq<Outcome>, marks: seq<Date>,
      last: Option<Date>, before: Date, today: Date, o: Outcome, now: Option<Date>, later: Date)
    returns (more: seq<Date>)
    requires MarkedTurns(resetDay, guard, dates, os, marks, last, before) && TurnOf(resetDay, last, today, o, now)
    requires Leq(before, today) && Leq(today, later)
    ensures MarkedTurns(resetDay, guard, dates + [today], os + [o], more, now, later)
  {
    hide Marked, DueDates, CountCompleted;
    OutcomesSnoc(os, o);
    more := marks;
    if resetDay > 0 {
      MarkedTick(resetDay, guard, dates, marks, last, today);
      if o == Completed {
        MarkedMark(resetDay, guard, dates + [today], marks, last.value, today);
        more := marks + [today];
      }
    }
  }

  lemma MarkedEnd(resetDay: nat, guard: Option<Date>, dates: seq<Date>, os: seq<Outcome>, marks: seq<Date>,
      last: Option<Date>, now: Date)
    requires MarkedTurns(resetDay, guard, dates, os, marks, last, now)
    ensures resetDay > 0 ==> CountCompleted(os) <= |DueDates(resetDay, guard, dates)|
  {
    if resetDay > 0 {
      MarkedAreFew(resetDay, guard, dates, marks, last);
    }
  }

  lemma OnCountEnd(resetDay: nat, guard: Option<Date>, dates: seq<Date>, os: seq<Outcome>, last: Option<Date>,
      from: Date, to: Date)
    requires OnCount(resetDay, guard, dates, os, last) && InOrder(from, dates, to) && NotAfter(guard, from)
    ensures resetDay > 0 && NothingFailed(os) ==> CountCompleted(os) == |DueDates(resetDay, guard, dates)|
    ensures resetDay == 0 ==> CountCompleted(os) == 0 && last == guard
  {
    ResetsAreDueDates(resetDay, guard, dates);
  }

  class TrafficStats {
    const resetDay: nat
    var counters: Counts
    var lastResetDate: Option<Date>
    var disk: Disk
    var clock: Date

    ghost var pc: Pc
    ghost var ledger: Ledger
    ghost const origin: State      // where the run began ...
    ghost var events: seq<Event>   // ... and the steps taken since

    ghost function Now(): State
      reads this
    {
      State(clock, counters, lastResetDate, disk, pc, ledger)
    }

    /** At the beginning of a stats write at the end of a turn. */
    ghost predicate ToWrite()
      reads this
    {
      pc.Writing? && pc.seen == map[] && pc.must <= counters.Keys
    }

    ghost function Account(): Books
      reads this
    {
      Books(clock, counters, ledger.earned)
    }

    /** The steps taken so far are a run of the machine that leads to the present state. */
    ghost predicate Valid()
      reads this
    {
      Legal(resetDay, origin, events) && After(resetDay, origin, events) == Now()
    }

    /** The dates its ticks have read, and the resets it has brought to their end. */
    ghost function Story(): History
      requires Valid()
      reads this
    {
      Past(resetDay, origin, events)
    }

    /** A machine that was never started, over whatever is on the disk. */
    constructor (resetDay: nat, disk: Disk, clock: Date)
      ensures Valid() && this.resetDay == resetDay && this.disk == disk && this.clock == clock
      ensures pc == Down && counters == map[] && lastResetDate == None && Story() == History([], 0)
      ensures NotAfter(disk.guard, clock) ==> Initial(origin)
    {
      this.resetDay, this.disk, this.clock := resetDay, disk, clock;
      counters, lastResetDate := map[], None;
      pc := Down;
      var none := Ledger(if disk.stats.Saved? then disk.stats.counts else map[],
                         map[], map[], map[], map[], map[], map[], None);
      ledger := none;
      origin, events := State(clock, map[], None, disk, Down, none), [];
    }

    /** The real fields have just been changed as `e` changes them. */
    ghost method Record(e: Event, before: State)
      requires Legal(resetDay, origin, events) && After(resetDay, origin, events) == before && Enabled(before, e)
      requires var t := Apply(resetDay, before, e);
               Now().(pc := t.pc, ledger := t.ledger) == t
      modifies this`pc, this`ledger, this`events
      ensures Valid() && Now() == Apply(resetDay, before, e)
      ensures Story() == Told(old(Past(resetDay, origin, events)), before.clock, e)
    {
      hide Apply, Enabled, Told;
      var t := Apply(resetDay, before, e);
      assert (events + [e])[..|events + [e]| - 1] == events;
      events := events + [e];
      pc, ledger := t.pc, t.ledger;
    }

    // ------------------------------------------------------------ the tunnels

    /** `trafficStats.LoadOrStore(username, new(int64))`. */
    method LoadOrStore(u: User)
      requires Valid() && pc != Down
      modifies this`counters, this`pc, this`ledger, this`events
      ensures Valid() && Story() == old(Story()) && pc == old(pc) && ledger == old(ledger)
      ensures counters == if u in old(counters) then old(counters) else old(counters)[u := 0]
    {
      if u !in counters {
        ghost var s := Now();
        counters := counters[u := 0];
        Record(Touch(u), s);
      }
    }

    /** `atomic.AddInt64(counter, bytes)`. */
    method AddInt64(u: User, bytes: nat)
      requires Valid() && pc != Down && u in counters
      modifies this`counters, this`pc, this`ledger, this`events
      ensures Valid() && Story() == old(Story()) && pc == old(pc)
      ensures counters == old(counters)[u := old(counters)[u] + bytes]
      ensures ledger.earned == old(ledger).earned[u := Get(old(ledger).earned, u) + bytes]
    {
      ghost var s := Now();
      counters := counters[u := counters[u] + bytes];
      Record(Add(u, bytes), s);
    }

    /** `addTrafficForUser`. */
    method AddTrafficForUser(username: string, bytes: nat)
      requires Valid() && pc != Down
      modifies this`counters, this`pc, this`ledger, this`events
      ensures Valid() && Story() == old(Story()) && pc == old(pc)
      ensures username != "" ==>
                var before := if username in old(counters) then old(counters)[username] else 0;
                counters == old(counters)[username := before + bytes] &&
                ledger.earned == old(ledger).earned[username := Get(old(ledger).earned, username) + bytes]
      ensures username == "" ==>
                var before := if "unknown" in old(counters) then old(counters)["unknown"] else 0;
                counters == old(counters)["unknown" := before + bytes] &&
                ledger.earned == old(ledger).earned["unknown" := Get(old(ledger).earned, "unknown") + bytes]
    {
      hide *;
      var u := username;
      if u == "" {
        u := "unknown";
      }
      LoadOrStore(u);
      AddInt64(u, bytes);
    }

    method InterfereOnce()
      requires Valid() && pc != Down
      modifies this
      ensures Valid() && Story() == old(Story()) && Steady(old(Account()), Account())
      ensures pc == old(pc) && lastResetDate == old(lastResetDate) && disk == old(disk)
    {
      var user, bytes: nat := *, *;
      if * {
        AddTrafficForUser(user, bytes);
      } else {
        var later: Date := *;
        if Leq(clock, later) {
          ghost var s := Now();
          clock := later;
          Record(Advance(later), s);
        }
      }
    }

    /** Whatever the tunnels and the clock do between two steps of the writer. */
    method Interfere()
      requires Valid() && pc != Down
      modifies this
      ensures Valid() && Story() == old(Story()) && Steady(old(Account()), Account())
      ensures pc == old(pc) && lastResetDate == old(lastResetDate) && disk == old(disk)
    {
      var steps: nat := *;
      while steps > 0
        invariant Valid() && Story() == old(Story()) && Steady(old(Account()), Account())
        invariant pc == old(pc) && lastResetDate == old(lastResetDate) && disk == old(disk)
      {
        hide *;
        ghost var before := Account();
        InterfereOnce();
        SteadyTwice(old(Account()), before, Account());
        steps := steps - 1;
      }
    }

    // ------------------------------------------------------------ the writer

    /** `atomic.LoadInt64(counter)` inside a `Range`. */
    method LoadInt64(u: User) returns (n: nat)
      requires Valid() && Enabled(Now(), Visit(u))
      modifies this`pc, this`ledger, this`events
      ensures Valid() && Story() == old(Story()) && n == counters[u] && Account() == old(Account())
      ensures Ranging(old(pc)) && pc == WithSeen(old(pc), Seen(old(pc))[u := n])
    {
      n := counters[u];
      Record(Visit(u), Now());
    }

    method LoadNext(snap: Counts, todo: set<User>, late: nat, ghost start: Books)
      returns (read: Counts, left: set<User>, later: nat)
      requires Valid() && Ranging(pc) && Seen(pc) == snap && todo != {}
      requires snap.Keys <= counters.Keys && todo <= counters.Keys && todo !! snap.Keys
      requires Steady(start, Account()) && ReadBetween(start, Account(), snap)
      modifies this
      ensures Valid() && Story() == old(Story()) && Ranging(old(pc)) && pc == WithSeen(old(pc), read)
      ensures read.Keys <= counters.Keys && left <= counters.Keys && left !! read.Keys
      ensures snap.Keys + todo <= read.Keys + left
      ensures Steady(start, Account()) && ReadBetween(start, Account(), read)
      ensures lastResetDate == old(lastResetDate) && disk == old(disk)
      ensures later < late || (later == late && left < todo)
    {
      hide ReadBetween;
      ghost var before := Account();
      Interfere();
      var u :| u in todo;
      var stored := counters.Keys - snap.Keys - todo;
      later := late;
      if late > 0 && stored != {} {
        u :| u in stored;
        later := late - 1;
      }
      ReadOne(start, before, Account(), snap, u);
      var n := LoadInt64(u);
      read, left := snap[u := n], todo - {u};
    }

    /** One `trafficStats.Range` that loads every counter. Keys stored while it runs may be
        met or missed. */
    method LoadAll() returns (snap: Counts)
      requires Valid() && Ranging(pc) && Seen(pc) == map[] && pc.must <= counters.Keys
      modifies this
      ensures Valid() && Story() == old(Story()) && Ranging(old(pc)) && pc == WithSeen(old(pc), snap)
      ensures Steady(old(Account()), Account()) && Snapshot(old(Account()), Account(), snap)
      ensures lastResetDate == old(lastResetDate) && disk == old(disk)
    {
      var todo := counters.Keys;
      var late: nat := *;
      snap := map[];
      while todo != {}
        invariant Valid() && Story() == old(Story()) && Ranging(old(pc)) && pc == WithSeen(old(pc), snap)
        invariant snap.Keys <= counters.Keys && todo <= counters.Keys && todo !! snap.Keys
        invariant old(counters).Keys <= snap.Keys + todo
        invariant Steady(old(Account()), Account()) && ReadBetween(old(Account()), Account(), snap)
        invariant lastResetDate == old(lastResetDate) && disk == old(disk)
        decreases late, todo
      {
        snap, todo, late := LoadNext(snap, todo, late, old(Account()));
      }
    }

    /** The rename that puts the new stats file in place, or a write before it that fails. */
    method ReplaceStats(snapshot: Counts, ok: bool)
      requires Valid() && (pc.Writing? || pc.Persisting?) && Seen(pc) == snapshot && pc.must <= snapshot.Keys
      modifies this`disk, this`pc, this`ledger, this`events
      ensures Valid() && Story() == old(Story()) && Account() == old(Account())
      ensures disk == if ok then old(disk).(stats := Saved(snapshot)) else old(disk)
      ensures old(pc).Writing? ==> pc == Idle
      ensures old(pc).Persisting? ==>
                pc == if ok then SavingGuard(old(pc).today, old(pc).snap)
                      else RollingBack(old(pc).today, old(pc).snap, {})
    {
      ghost var s := Now();
      if ok {
        disk := disk.(stats := Saved(snapshot));
      }
      if pc.Writing? {
        Record(WriteStats(ok), s);
      } else {
        Record(Persist(ok), s);
      }
    }

    /** `writeTrafficStats`: after the check, or for the zeroed state inside a reset. */
    method WriteTrafficStats(ok: bool) returns (ghost saved: Counts)
      requires Valid() && (pc.Writing? || pc.Persisting?) && Seen(pc) == map[] && pc.must <= counters.Keys
      modifies this
      ensures Valid() && Story() == old(Story())
      ensures Steady(old(Account()), Account()) && Snapshot(old(Account()), Account(), saved)
      ensures disk == if ok then old(disk).(stats := Saved(saved)) else old(disk)
      ensures old(pc).Writing? ==> pc == Idle
      ensures old(pc).Persisting? ==>
                pc == if ok then SavingGuard(old(pc).today, old(pc).snap)
                      else RollingBack(old(pc).today, old(pc).snap, {})
      ensures lastResetDate == old(lastResetDate)
    {
      hide Steady, ReadBetween, Passed;
      var snapshot := LoadAll();
      saved := snapshot;
      ghost var read := Account();
      Interfere();
      SteadyTwice(old(Account()), read, Account());
      SteadyPasses(read, Account());
      SnapshotLater(old(Account()), read, Account(), snapshot);
      ReplaceStats(snapshot, ok);
    }

    /** The rename that puts the new guard file in place, or a write before it that fails. */
    method ReplaceGuard(date: Date, ok: bool)
      requires Valid() && (pc == SavingFirst(date) || (pc.SavingGuard? && pc.today == date))
      modifies this`disk, this`pc, this`ledger, this`events
      ensures Valid() && Story() == old(Story()) && Account() == old(Account())
      ensures disk == if ok then old(disk).(guard := Some(date)) else old(disk)
      ensures pc == if old(pc).SavingFirst? then Writing(counters.Keys, map[]) else Marking(date)
    {
      ghost var s := Now();
      if ok {
        disk := disk.(guard := Some(date));
      }
      if pc.SavingFirst? {
        Record(SaveFirst(ok), s);
      } else {
        Record(SaveGuard(ok), s);
      }
    }

    /** `saveLastResetDate`: a failure is not reported. */
    method SaveLastResetDate(date: Date, ok: bool)
      requires Valid() && (pc == SavingFirst(date) || (pc.SavingGuard? && pc.today == date))
      modifies this
      ensures Valid() && Story() == old(Story()) && Steady(old(Account()), Account())
      ensures disk == if ok then old(disk).(guard := Some(date)) else old(disk)
      ensures pc == if old(pc).SavingFirst? then Writing(counters.Keys, map[]) else Marking(date)
      ensures lastResetDate == old(lastResetDate)
    {
      hide Steady;
      Interfere();
      ReplaceGuard(date, ok);
    }

    /** The snapshot of a reset. */
    method TakeSnapshot(today: Date) returns (snapshot: Counts)
      requires Valid() && pc == Snapshotting(today, counters.Keys, map[])
      modifies this
      ensures Valid() && Story() == old(Story()) && pc == Opening(today, snapshot)
      ensures Steady(old(Account()), Account()) && Snapshot(old(Account()), Account(), snapshot)
      ensures lastResetDate == old(lastResetDate) && disk == old(disk)
    {
      hide Steady, ReadBetween, Passed;
      snapshot := LoadAll();
      ghost var read := Account();
      Interfere();
      SteadyTwice(old(Account()), read, Account());
      SteadyPasses(read, Account());
      SnapshotLater(old(Account()), read, Account(), snapshot);
      Record(SnapshotDone, Now());
    }

    /** The opening of the archive file, which truncates it, or a failure before that. */
    method OpenFile(today: Date, ok: bool)
      requires Valid() && pc.Opening? && pc.today == today
      modifies this`disk, this`pc, this`ledger, this`events
      ensures Valid() && Story() == old(Story()) && Account() == old(Account())
      ensures disk == if ok then old(disk).(archive := old(disk).archive[today := Partial]) else old(disk)
      ensures pc == if ok then Filling(today, old(pc).snap) else Writing(counters.Keys, map[])
    {
      ghost var s := Now();
      if ok {
        disk := disk.(archive := disk.archive[today := Partial]);
        Record(OpenArchive, s);
      } else {
        Record(Abort, s);
      }
    }

    /** The write into the archive file that was just truncated. */
    method FillFile(today: Date, snapshot: Counts, ok: bool)
      requires Valid() && pc == Filling(today, snapshot)
      modifies this`disk, this`pc, this`ledger, this`events
      ensures Valid() && Story() == old(Story()) && Account() == old(Account())
      ensures disk == if ok then old(disk).(archive := old(disk).archive[today := Archived(snapshot)]) else old(disk)
      ensures pc == if ok then Zeroing(today, snapshot, {}) else Writing(counters.Keys, map[])
    {
      ghost var s := Now();
      if ok {
        disk := disk.(archive := disk.archive[today := Archived(snapshot)]);
      }
      Record(FillArchive(ok), s);
    }

    /** Creates the archive directory and writes the archive file, which is truncated first
        and may stay so. */
    method WriteArchive(today: Date, snapshot: Counts, opens: bool, fills: bool) returns (ok: bool)
      requires Valid() && pc == Opening(today, snapshot)
      modifies this
      ensures Valid() && Story() == old(Story()) && Steady(old(Account()), Account())
      ensures lastResetDate == old(lastResetDate)
      ensures ok <==> opens && fills
      ensures pc == if ok then Zeroing(today, snapshot, {}) else Writing(counters.Keys, map[])
      ensures disk == if !opens then old(disk)
                      else var file := if fills then Archived(snapshot) else Partial;
                           old(disk).(archive := old(disk).archive[today := file])
    {
      hide Steady;
      Interfere();
      OpenFile(today, opens);
      if !opens {
        return false;
      }
      ghost var middle := Account();
      Interfere();
      SteadyTwice(old(Account()), middle, Account());
      FillFile(today, snapshot, fills);
      return fills;
    }

    /** `atomic.StoreInt64(counter, 0)`, for a user of the snapshot. */
    method StoreZero(u: User)
      requires Valid() && Enabled(Now(), Zero(u))
      modifies this`counters, this`pc, this`ledger, this`events
      ensures Valid() && Story() == old(Story()) && pc == old(pc).(zeroed := old(pc).zeroed + {u})
      ensures Account() == old(Account()).(counters := old(counters)[u := 0])
    {
      ghost var s := Now();
      counters := counters[u := 0];
      Record(Zero(u), s);
    }

    /** `atomic.StoreInt64(counter, value)`, with the value the snapshot holds. */
    method StoreBack(u: User, value: nat)
      requires Valid() && Enabled(Now(), Restore(u)) && pc.snap[u] == value
      modifies this`counters, this`pc, this`ledger, this`events
      ensures Valid() && Story() == old(Story()) && pc == old(pc).(restored := old(pc).restored + {u})
      ensures Account() == old(Account()).(counters := old(counters)[u := value])
    {
      ghost var s := Now();
      counters := counters[u := value];
      Record(Restore(u), s);
    }

    method ZeroNext(today: Date, snapshot: Counts, todo: set<User>, ghost start: Books) returns (left: set<User>)
      requires Valid() && todo != {} && todo <= snapshot.Keys <= counters.Keys
      requires pc == Zeroing(today, snapshot, snapshot.Keys - todo)
      requires Passed(start, Account()) && Emptied(start, Account(), snapshot.Keys - todo)
      modifies this
      ensures Valid() && Story() == old(Story()) && left < todo && snapshot.Keys <= counters.Keys
      ensures pc == Zeroing(today, snapshot, snapshot.Keys - left)
      ensures Passed(start, Account()) && Emptied(start, Account(), snapshot.Keys - left)
      ensures lastResetDate == old(lastResetDate) && disk == old(disk)
    {
      hide Emptied, Passed, Steady;
      ghost var before := Account();
      Interfere();
      SteadyKeys(before, Account());
      var u :| u in todo;
      left := todo - {u};
      assert snapshot.Keys - todo + {u} == snapshot.Keys - left;
      ZeroOne(start, before, Account(), snapshot.Keys - todo, u);
      StoreZero(u);
    }

    /** Zeroes the counters of the users in the snapshot: what they held before is gone, and
        what is added on the way may stay. */
    method ZeroCounters(today: Date, snapshot: Counts)
      requires Valid() && pc == Zeroing(today, snapshot, {}) && snapshot.Keys <= counters.Keys
      modifies this
      ensures Valid() && Story() == old(Story()) && pc == Persisting(today, snapshot, counters.Keys, map[])
      ensures Passed(old(Account()), Account()) && Emptied(old(Account()), Account(), snapshot.Keys)
      ensures lastResetDate == old(lastResetDate) && disk == old(disk)
    {
      var todo := snapshot.Keys;
      while todo != {}
        invariant Valid() && Story() == old(Story()) && todo <= snapshot.Keys <= counters.Keys
        invariant pc == Zeroing(today, snapshot, snapshot.Keys - todo)
        invariant Passed(old(Account()), Account()) && Emptied(old(Account()), Account(), snapshot.Keys - todo)
        invariant lastResetDate == old(lastResetDate) && disk == old(disk)
        decreases todo
      {
        todo := ZeroNext(today, snapshot, todo, old(Account()));
      }
      ghost var zeroed := Account();
      Interfere();
      EmptiedSince(old(Account()), zeroed, Account(), snapshot.Keys);
      Record(ZeroDone, Now());
    }

    method RestoreNext(today: Date, snapshot: Counts, todo: set<User>, ghost start: Books) returns (left: set<User>)
      requires Valid() && todo != {} && todo <= snapshot.Keys <= counters.Keys
      requires pc == RollingBack(today, snapshot, snapshot.Keys - todo)
      requires Passed(start, Account()) && Refilled(start, Account(), snapshot, snapshot.Keys - todo)
      modifies this
      ensures Valid() && Story() == old(Story()) && left < todo && snapshot.Keys <= counters.Keys
      ensures pc == RollingBack(today, snapshot, snapshot.Keys - left)
      ensures Passed(start, Account()) && Refilled(start, Account(), snapshot, snapshot.Keys - left)
      ensures lastResetDate == old(lastResetDate) && disk == old(disk)
    {
      hide Refilled, Passed, Steady;
      ghost var before := Account();
      Interfere();
      SteadyKeys(before, Account());
      var u :| u in todo;
      left := todo - {u};
      assert snapshot.Keys - todo + {u} == snapshot.Keys - left;
      RestoreOne(start, before, Account(), snapshot, snapshot.Keys - todo, u);
      StoreBack(u, snapshot[u]);
    }

    /** Puts the snapshot back after the zeroed state could not be persisted. */
    method RollBack(today: Date, snapshot: Counts)
      requires Valid() && pc == RollingBack(today, snapshot, {}) && snapshot.Keys <= counters.Keys
      modifies this
      ensures Valid() && Story() == old(Story()) && pc == Writing(counters.Keys, map[])
      ensures Passed(old(Account()), Account()) && Refilled(old(Account()), Account(), snapshot, snapshot.Keys)
      ensures lastResetDate == old(lastResetDate) && disk == old(disk)
    {
      var todo := snapshot.Keys;
      while todo != {}
        invariant Valid() && Story() == old(Story()) && todo <= snapshot.Keys <= counters.Keys
        invariant pc == RollingBack(today, snapshot, snapshot.Keys - todo)
        invariant Passed(old(Account()), Account())
        invariant Refilled(old(Account()), Account(), snapshot, snapshot.Keys - todo)
        invariant lastResetDate == old(lastResetDate) && disk == old(disk)
        decreases todo
      {
        todo := RestoreNext(today, snapshot, todo, old(Account()));
      }
      ghost var restored := Account();
      Interfere();
      RefilledSince(old(Account()), restored, Account(), snapshot);
      Record(RestoreDone, Now());
    }

    // ------------------------------------------------------------ one check

    /** `lastResetDate = today`. */
    method SetGuard(today: Date, ghost start: Books, ghost saved: Counts)
      requires Valid() && pc == Marking(today) && Steady(start, Account()) && Snapshot(start, Account(), saved)
      modifies this
      ensures Valid() && Story() == old(Story()).(resets := old(Story()).resets + 1)
      ensures pc == Writing(counters.Keys, map[]) && disk == old(disk) && lastResetDate == Some(today)
      ensures Steady(start, Account()) && Snapshot(start, Account(), saved)
    {
      hide Steady, Snapshot;
      ghost var before := Account();
      Interfere();
      SteadyTwice(start, before, Account());
      SnapshotSteady(start, before, Account(), saved);
      ghost var s := Now();
      lastResetDate := Some(today);
      Record(Mark, s);
    }

    /** Persists the zeroed state and then advances the guard, on disk and in memory; or puts
        the snapshot back. */
    method CommitReset(today: Date, snapshot: Counts, f: Files) returns (outcome: Outcome)
      requires Valid() && pc == Persisting(today, snapshot, counters.Keys, map[]) && snapshot.Keys <= counters.Keys
      modifies this
      ensures Valid() && pc == Writing(counters.Keys, map[])
      ensures Story() == old(Story()).(resets := old(Story()).resets + if outcome == Completed then 1 else 0)
      ensures outcome == (if f.persists then Completed else RolledBack) && disk.archive == old(disk).archive
      ensures lastResetDate == if outcome == Completed then Some(today) else old(lastResetDate)
      ensures outcome == Completed ==>
                disk.guard == (if f.guards then Some(today) else old(disk).guard) &&
                Steady(old(Account()), Account()) &&
                disk.stats.Saved? && Snapshot(old(Account()), Account(), disk.stats.counts)
      ensures outcome == RolledBack ==>
                disk == old(disk) && Passed(old(Account()), Account()) &&
                Refilled(old(Account()), Account(), snapshot, snapshot.Keys)
    {
      hide Steady, Passed, ReadBetween, Snapshot, Refilled;
      ghost var s0 := Account();
      ghost var saved := WriteTrafficStats(f.persists);
      SteadyPasses(s0, Account());
      if !f.persists {
        ghost var s1 := Account();
        PassedKeys(s0, s1);
        RollBack(today, snapshot);
        PassedTwice(s0, s1, Account());
        RefilledLater(s0, s1, Account(), snapshot);
        return RolledBack;
      }
      ghost var s2 := Account();
      SaveLastResetDate(today, f.guards);
      SteadyTwice(s0, s2, Account());
      SnapshotSteady(s0, s2, Account(), saved);
      SetGuard(today, s0, saved);
      return Completed;
    }

    /** `checkAndPerformScheduledReset` below its early returns: archive, zero, persist, advance
        the guard. */
    method PerformReset(today: Date, f: Files) returns (outcome: Outcome)
      requires Valid() && pc == Snapshotting(today, counters.Keys, map[])
      modifies this
      ensures Valid() && pc == Writing(counters.Keys, map[])
      ensures outcome == Ends(f)
      ensures Story() == old(Story()).(resets := old(Story()).resets + if outcome == Completed then 1 else 0)
      ensures lastResetDate == if outcome == Completed then Some(today) else old(lastResetDate)
      ensures Passed(old(Account()), Account())
      ensures ResetDone(outcome, f, today, old(Account()), Account(), old(disk), disk)
    {
      hide Steady, Passed, ReadBetween, Snapshot, Emptied, Refilled, ResetDone;
      ghost var s0 := Account();
      var snapshot := TakeSnapshot(today);
      ghost var s1 := Account();
      var ok := WriteArchive(today, snapshot, f.opens, f.fills);
      SteadyTwice(s0, s1, Account());
      SteadyPasses(s0, Account());
      SteadyPasses(s1, Account());
      ghost var s2 := Account();
      if !ok {
        AbortedReset(f, today, s0, s2, old(disk), disk);
        return Aborted;
      }
      SnapshotLater(s0, s1, s2, snapshot);
      SnapshotKeys(s0, s2, snapshot);
      ZeroCounters(today, snapshot);
      ghost var s3 := Account();
      PassedTwice(s0, s2, s3);
      SnapshotLater(s0, s2, s3, snapshot);
      SnapshotKeys(s0, s3, snapshot);
      outcome := CommitReset(today, snapshot, f);
      FinishedReset(outcome, f, today, s0, s2, s3, Account(), snapshot, old(disk), disk);
    }

    /** `checkAndPerformScheduledReset`, with the date it reads on entry. */
    method CheckAndPerformScheduledReset(f: Files) returns (outcome: Outcome)
      requires Valid() && pc == Idle && resetDay > 0
      modifies this
      ensures Valid() && ToWrite()
      ensures Story() == Checked(old(Story()), old(clock), outcome)
      ensures match Decide(resetDay, old(lastResetDate), old(clock))
              case FirstRun => outcome == Initialised
              case NotDue => outcome == Skipped
              case Due => outcome == Ends(f)
      ensures lastResetDate == if outcome in {Initialised, Completed} then Some(old(clock)) else old(lastResetDate)
      ensures outcome == Skipped ==> disk == old(disk) && Steady(old(Account()), Account())
      ensures outcome == Initialised ==>
                disk == (if f.guards then old(disk).(guard := Some(old(clock))) else old(disk)) &&
                Steady(old(Account()), Account())
      ensures outcome in {Aborted, RolledBack, Completed} ==>
                ResetDone(outcome, f, old(clock), old(Account()), Account(), old(disk), disk)
      ensures Passed(old(Account()), Account())
    {
      hide Steady, Passed, ReadBetween, Snapshot, Emptied, Refilled, ResetDone;
      var today := clock;
      ghost var s := Now();
      if lastResetDate == None {
        lastResetDate := Some(today);
        Record(Tick, s);
        SaveLastResetDate(today, f.guards);
        SteadyPasses(old(Account()), Account());
        return Initialised;
      }
      Record(Tick, s);
      if today.d != resetDay || lastResetDate == Some(today) {
        Interfere();
        SteadyKeys(old(Account()), Account());
        SteadyPasses(old(Account()), Account());
        return Skipped;
      }
      outcome := PerformReset(today, f);
    }

    // ------------------------------------------------------------ the loop

    /** One turn of the loop of `startTrafficStatsWriter`: the check, if a reset day is
        configured, and the write, which replaces the stats file by counts read after the
        check or leaves it. */
    method WriterTurn(f: Files) returns (outcome: Outcome)
      requires Valid() && pc == Idle
      modifies this
      ensures Valid() && pc == Idle && Passed(old(Account()), Account())
      ensures Story() == Checked(old(Story()), old(clock), outcome)
      ensures if resetDay == 0 then outcome == Skipped
              else match Decide(resetDay, old(lastResetDate), old(clock))
                   case FirstRun => outcome == Initialised
                   case NotDue => outcome == Skipped
                   case Due => outcome == Ends(f)
      ensures lastResetDate == if outcome in {Initialised, Completed} then Some(old(clock)) else old(lastResetDate)
      ensures f.writes && outcome in {Initialised, Skipped} ==>
                disk.stats.Saved? && Snapshot(old(Account()), Account(), disk.stats.counts)
      ensures f.writes ==> disk.stats.Saved? && Covers(disk.stats.counts, old(counters), counters)
      ensures !f.writes && outcome != Completed ==> disk.stats == old(disk).stats
    {
      hide Steady, Passed, ReadBetween, Snapshot, ResetDone, Checked, Covers;
      ghost var s0 := Account();
      if resetDay > 0 {
        outcome := CheckAndPerformScheduledReset(f);
        StatsAfterReset(outcome, f, old(clock), s0, Account(), old(disk), disk);
      } else {
        outcome := Skipped;
        NoTimePassed(Account());
        Record(Tick, Now());
        TickTold(old(Story()), old(clock));
      }
      ghost var s1 := Account();
      ghost var saved := WriteTrafficStats(f.writes);
      SteadyPasses(s1, Account());
      PassedTwice(s0, s1, Account());
      SnapshotCovers(s0, s1, Account(), saved);
      if outcome in {Initialised, Skipped} {
        SnapshotEarlier(s0, s1, Account(), saved);
      }
    }

    /** Waiting for the ticker, and one turn. */
    method NextTurn(f: Files) returns (ghost today: Date, outcome: Outcome)
      requires Valid() && pc == Idle
      modifies this
      ensures Valid() && pc == Idle && Leq(old(clock), today) && Leq(today, clock)
      ensures Story() == Checked(old(Story()), today, outcome)
      ensures TurnOf(resetDay, old(lastResetDate), today, outcome, lastResetDate)
      ensures outcome in {Initialised, Skipped, Ends(f)}
    {
      hide Snapshot, Covers, Checked;
      Interfere();
      today := clock;
      outcome := WriterTurn(f);
    }

    /** The loop, with what the files answer at each tick. `dates` are what the clock showed at
        those ticks. When no reset fails, it resets once for each due date among them, and no
        more; without a reset day it never resets. However many resets fail, those that
        complete are no more than that. */
    method StatsWriter(fs: seq<Files>) returns (ghost dates: seq<Date>, outcomes: seq<Outcome>)
      requires Valid() && pc == Idle && NotAfter(lastResetDate, clock)
      modifies this
      ensures Valid() && pc == Idle && |dates| == |outcomes| == |fs| && InOrder(old(clock), dates, clock)
      ensures Story() == History(old(Story()).ticks + dates, old(Story()).resets + CountCompleted(outcomes))
      ensures forall i :: 0 <= i < |fs| ==> outcomes[i] in {Initialised, Skipped, Ends(fs[i])}
      ensures resetDay > 0 && NothingFailed(outcomes) ==>
                CountCompleted(outcomes) == |DueDates(resetDay, old(lastResetDate), dates)|
      ensures resetDay > 0 && (forall i :: 0 <= i < |fs| ==> fs[i].opens && fs[i].fills && fs[i].persists) ==>
                CountCompleted(outcomes) == |DueDates(resetDay, old(lastResetDate), dates)|
      ensures resetDay > 0 ==> CountCompleted(outcomes) <= |DueDates(resetDay, old(lastResetDate), dates)|
      ensures resetDay == 0 ==> CountCompleted(outcomes) == 0 && lastResetDate == old(lastResetDate)
    {
      hide TurnOf, OnCount, MarkedTurns, InOrder, Checked;
      dates, outcomes := [], [];
      ghost var h, marks := Story(), [];
      NoTicks(resetDay, lastResetDate, clock, h);
      NoTurns(resetDay, lastResetDate, clock);
      for i := 0 to |fs|
        invariant Valid() && pc == Idle && |dates| == |outcomes| == i
        invariant InOrder(old(clock), dates, clock)
        invariant Story() == Turns(h, dates, outcomes)
        invariant forall k :: 0 <= k < i ==> outcomes[k] in {Initialised, Skipped, Ends(fs[k])}
        invariant OnCount(resetDay, old(lastResetDate), dates, outcomes, lastResetDate)
        invariant MarkedTurns(resetDay, old(lastResetDate), dates, outcomes, marks, lastResetDate, clock)
      {
        ghost var last, before := lastResetDate, clock;
        ghost var today;
        var outcome;
        today, outcome := NextTurn(fs[i]);
        OnCountStep(resetDay, old(lastResetDate), dates, outcomes, last, today, outcome, lastResetDate);
        InOrderSnoc(old(clock), dates, before, today, clock);
        marks := MarkedTurn(resetDay, old(lastResetDate), dates, outcomes, marks, last, before, today, outcome,
                            lastResetDate, clock);
        ToldStep(h, dates, outcomes, today, outcome);
        dates, outcomes := dates + [today], outcomes + [outcome];
      }
      OnCountEnd(resetDay, old(lastResetDate), dates, outcomes, lastResetDate, old(clock), clock);
      MarkedEnd(resetDay, old(lastResetDate), dates, outcomes, marks, lastResetDate, clock);
    }

    // ------------------------------------------------------------ stop and start

    /** The process dies: memory is gone, the disk stays. */
    method Kill()
      requires Valid() && pc != Down
      modifies this
      ensures Valid() && Story() == old(Story()) && pc == Down && disk == old(disk) && clock == old(clock)
      ensures counters == map[] && lastResetDate == None
    {
      ghost var s := Now();
      counters, lastResetDate := map[], None;
      Record(Crash, s);
    }

    /** `loadTrafficStats`, before the first tunnel and the writer are started. Counters and
        guard are loaded only from a stats file that can be read; if the guard is loaded, so
        are all counters. */
    method LoadTrafficStats(statsOk: bool, guardOk: bool)
      requires Valid() && pc == Down && counters == map[] && lastResetDate == None
      modifies this
      ensures Valid() && Story() == old(Story()) && pc == Idle && disk == old(disk) && clock == old(clock)
      ensures counters == if statsOk && disk.stats.Saved? then disk.stats.counts else map[]
      ensures lastResetDate == if statsOk && guardOk && disk.stats.Saved? then disk.guard else None
    {
      ghost var s := Now();
      if !statsOk || !disk.stats.Saved? {
        Record(Boot(statsOk, guardOk), s);
        return;
      }
      var snapshot := disk.stats.counts;
      var todo := snapshot.Keys;
      while todo != {}
        invariant todo <= snapshot.Keys
        invariant counters == map u | u in snapshot.Keys - todo :: snapshot[u]
        invariant s == Now().(counters := s.counters)
        invariant Legal(resetDay, origin, events) && After(resetDay, origin, events) == s
        invariant Past(resetDay, origin, events) == old(Story())
        decreases todo
      {
        var u :| u in todo;
        counters := counters[u := snapshot[u]];
        todo := todo - {u};
      }
      assert counters == snapshot;
      if guardOk {
        lastResetDate := disk.guard;
      }
      Record(Boot(statsOk, guardOk), s);
    }
  }
}
