/** How often the accounting machine resets over a run. */
module ResetRuns {
  import opened Wrappers
  import opened Calendar
  import opened Accounting
  import opened AccountingProofs

  /** The failures that end a reset early, and the end of the process. A guard or stats file
      that could not be saved is none of them. */
  predicate Fails(e: Event) {
    e.Abort? || (e.FillArchive? && !e.ok) || (e.Persist? && !e.ok) || e.Crash? || e.Boot?
  }

  /** Has a tick decided for a reset that has not yet set the guard in memory? */
  predicate UnderWay(pc: Pc) { Resetting(pc) || pc.Marking? }

  /** The guard memory holds, once a reset under way is through. */
  function Memory(s: State): Option<Date> {
    if UnderWay(s.pc) then Some(s.pc.today) else s.last
  }

  function Pending(s: State): nat { if UnderWay(s.pc) then 1 else 0 }

  lemma TickStep(day: nat, s: State)
    requires Enabled(s, Tick) && day > 0
    ensures var t := Apply(day, s, Tick);
            t.clock == s.clock && t.pc != Down && !t.pc.RollingBack? && Memory(s) == s.last && Pending(s) == 0 &&
            Memory(t) == NextGuard(day, s.last, s.clock) &&
            Pending(t) == if Decide(day, s.last, s.clock) == Due then 1 else 0
  {
  }

  lemma OtherStep(day: nat, s: State, e: Event)
    requires Enabled(s, e) && !e.Tick? && !Fails(e) && s.pc != Down && !s.pc.RollingBack?
    ensures var t := Apply(day, s, e);
            Leq(s.clock, t.clock) && t.pc != Down && !t.pc.RollingBack? && Memory(t) == Memory(s) &&
            Pending(s) == Pending(t) + if e.Mark? then 1 else 0
  {
  }

  /** Where a run stands against the count over the dates of its ticks. */
  ghost predicate InStep(day: nat, s: State, t: State, h: History) {
    && t.pc != Down && !t.pc.RollingBack? && InOrder(s.clock, h.ticks, t.clock)
    && h.resets + Pending(t) == Resets(day, s.last, h.ticks)
    && Memory(t) == GuardAfter(day, s.last, h.ticks)
  }

  lemma InStepStep(day: nat, s: State, t: State, e: Event, h: History)
    requires day > 0 && Enabled(t, e) && !Fails(e) && InStep(day, s, t, h)
    ensures InStep(day, s, Apply(day, t, e), Told(h, t.clock, e))
  {
    hide Enabled, Apply, Memory, UnderWay, Pending, Decide, NextGuard, Fails, Resets, GuardAfter;
    if e == Tick {
      TickStep(day, t);
      ResetsSnoc(day, s.last, h.ticks, t.clock);
    } else {
      OtherStep(day, t, e);
    }
  }

  lemma NoStep(day: nat, s: State)
    requires s.pc == Idle
    ensures InStep(day, s, s, History([], 0))
  {
  }

  lemma {:induction false} RunInStep(day: nat, s: State, es: seq<Event>)
    requires day > 0 && s.pc == Idle && Legal(day, s, es)
    requires forall i :: 0 <= i < |es| ==> !Fails(es[i])
    ensures InStep(day, s, After(day, s, es), Past(day, s, es))
    decreases |es|
  {
    hide Enabled, Apply, InStep, Fails, Told;
    if es == [] {
      NoStep(day, s);
    } else {
      var front := es[..|es| - 1];
      RunInStep(day, s, front);
      InStepStep(day, s, After(day, s, front), es[|es| - 1], Past(day, s, front));
    }
  }

  /** Over any run without such a failure, whatever the tunnels add, whichever guard and
      stats files could not be saved: the resets brought to an end, and the one under way,
      are as many as the due dates among the dates the ticks read. */
  lemma ResetsOfARun(day: nat, s: State, es: seq<Event>)
    requires day > 0 && s.pc == Idle && NotAfter(s.last, s.clock) && Legal(day, s, es)
    requires forall i :: 0 <= i < |es| ==> !Fails(es[i])
    ensures var h := Past(day, s, es);
            h.resets + Pending(After(day, s, es)) == |DueDates(day, s.last, h.ticks)|
  {
    hide Enabled, Apply, Memory, UnderWay, Pending, Decide, NextGuard, Fails, Legal, After, Past;
    RunInStep(day, s, es);
    ResetsAreDueDates(day, s.last, Past(day, s, es).ticks);
  }

  // ---------------------------------------------------------------- with resets that fail

  /** Of these a run inside one process has none; archives, persists and rollbacks may fail. */
  predicate Ends(e: Event) { e.Crash? || e.Boot? }

  /** The resets brought to their end so far, by date; the one under way is for a later one. */
  ghost predicate MarksInv(day: nat, s: State, t: State, h: History, marks: seq<Date>) {
    && t.pc != Down && |marks| == h.resets && NotAfter(t.last, t.clock)
    && Marked(day, s.last, h.ticks, marks, t.last)
    && (UnderWay(t.pc) ==>
          && t.pc.today in DueDates(day, s.last, h.ticks) && Leq(t.pc.today, t.clock)
          && t.last.Some? && Leq(t.last.value, t.pc.today) && t.last != Some(t.pc.today))
  }

  lemma TickMarks(day: nat, s: State, t: State, h: History, marks: seq<Date>)
    requires day > 0 && Enabled(t, Tick) && MarksInv(day, s, t, h, marks)
    ensures MarksInv(day, s, Apply(day, t, Tick), Told(h, t.clock, Tick), marks)
  {
    hide Marked, DueDates;
    MarkedTick(day, s.last, h.ticks, marks, t.last, t.clock);
  }

  lemma MarkMarks(day: nat, s: State, t: State, h: History, marks: seq<Date>)
    requires Enabled(t, Mark) && MarksInv(day, s, t, h, marks)
    ensures t.pc.Marking?
    ensures MarksInv(day, s, Apply(day, t, Mark), Told(h, t.clock, Mark), marks + [t.pc.today])
  {
    hide Marked, DueDates;
    MarkedMark(day, s.last, h.ticks, marks, t.last.value, t.pc.today);
  }

  lemma OtherMarks(day: nat, s: State, t: State, e: Event, h: History, marks: seq<Date>)
    requires Enabled(t, e) && !Ends(e) && !e.Tick? && !e.Mark? && MarksInv(day, s, t, h, marks)
    ensures MarksInv(day, s, Apply(day, t, e), Told(h, t.clock, e), marks)
  {
    hide Marked, DueDates, Plus, Only, AddLost;
  }

  lemma NoMarks(day: nat, s: State)
    requires s.pc == Idle && NotAfter(s.last, s.clock)
    ensures MarksInv(day, s, s, History([], 0), [])
  {
    NothingMarked(day, s.last);
    hide Marked;
  }

  lemma {:induction false} MarksRun(day: nat, s: State, es: seq<Event>) returns (marks: seq<Date>)
    requires day > 0 && s.pc == Idle && NotAfter(s.last, s.clock) && Legal(day, s, es)
    requires forall i :: 0 <= i < |es| ==> !Ends(es[i])
    ensures MarksInv(day, s, After(day, s, es), Past(day, s, es), marks)
    decreases |es|
  {
    hide Enabled, Apply, MarksInv, Told;
    if es == [] {
      marks := [];
      NoMarks(day, s);
    } else {
      var front, e := es[..|es| - 1], es[|es| - 1];
      var t, h := After(day, s, front), Past(day, s, front);
      marks := MarksRun(day, s, front);
      if e == Tick {
        TickMarks(day, s, t, h, marks);
      } else if e == Mark {
        MarkMarks(day, s, t, h, marks);
        marks := marks + [t.pc.today];
      } else {
        OtherMarks(day, s, t, e, h, marks);
      }
    }
  }

  /** However many resets are aborted, rolled back and retried: those brought to their end
      are for different due dates, so there are at most as many as due dates. */
  lemma ResetsAreFew(day: nat, s: State, es: seq<Event>)
    requires day > 0 && s.pc == Idle && NotAfter(s.last, s.clock) && Legal(day, s, es)
    requires forall i :: 0 <= i < |es| ==> !Ends(es[i])
    ensures Past(day, s, es).resets <= |DueDates(day, s.last, Past(day, s, es).ticks)|
  {
    var marks := MarksRun(day, s, es);
    hide Legal, After, Past, Marked, DueDates;
    MarkedAreFew(day, s.last, Past(day, s, es).ticks, marks, After(day, s, es).last);
  }
}
