/** What the theorems about the accounting machine say of the running code. */
module Guarantees {
  import opened Wrappers
  import opened Calendar
  import opened Accounting
  import opened AccountingProofs
  import opened AccountingRuns
  import opened Process

  /** Between any two calls the code is in a state the invariant describes. */
  lemma CodeKeepsInvariant(p: TrafficStats)
    requires p.Valid() && Initial(p.origin)
    ensures Inv(p.Now())
  {
    hide Legal, After, Initial, Inv;
    InitialInv(p.origin);
    InvRun(p.resetDay, p.origin, p.events);
  }

  /** The counters of the running code hold every byte that was ever counted, but for those
      in archived and committed snapshots and those lost in the windows of a reset or with
      a crash. */
  lemma EveryByteIsAccountedFor(p: TrafficStats, u: User)
    requires p.Valid() && Initial(p.origin) && p.pc == Idle
    ensures Earned(p.Now(), u) == Get(p.ledger.billed, u) + Get(p.counters, u) + GetInt(p.ledger.lost, u)
    ensures GetInt(p.ledger.lost, u) >= 0
  {
    CodeKeepsInvariant(p);
    assert UserInv(p.Now(), u);
  }

  /** The files of the running code are in order: for a reset in the guard file the archive
      is complete, and the stats file holds nothing from before the zeroing. */
  lemma FilesAreInOrder(p: TrafficStats, u: User)
    requires p.Valid() && Initial(p.origin) && p.ledger.sealed.Some?
    ensures var seal := p.ledger.sealed.value;
            p.disk.guard == Some(seal.date) &&
            seal.date in p.disk.archive && p.disk.archive[seal.date] == Archived(seal.snap) &&
            (u in seal.snap && p.disk.stats.Saved? ==>
               Get(p.disk.stats.counts, u) + seal.snap[u] <= Earned(p.Now(), u))
  {
    CodeKeepsInvariant(p);
    GuardComesLast(p.Now(), u);
  }

  /** The guard the code holds is never in the future nor behind the one on disk, which is
      what `StatsWriter` asks for. */
  lemma GuardIsSound(p: TrafficStats)
    requires p.Valid() && Initial(p.origin) && p.pc == Idle
    ensures NotAfter(p.lastResetDate, p.clock)
    ensures p.lastResetDate.Some? ==> NotAfter(p.disk.guard, p.lastResetDate.value)
  {
    CodeKeepsInvariant(p);
    InvGuard(p.Now());
  }
}
