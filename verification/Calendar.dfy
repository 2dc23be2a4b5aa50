/** When a tick of the writer resets the counters, and how often that happens. */
module Calendar {
  import opened Wrappers

  datatype Date = Date(y: int, m: int, d: int)

  predicate Leq(a: Date, b: Date) {
    a.y < b.y || (a.y == b.y && (a.m < b.m || (a.m == b.m && a.d <= b.d)))
  }

  predicate Normal(a: Date) { 1 <= a.m <= 12 && 1 <= a.d <= 31 }

  /** Dates stand in the order of their days, counting 31 to every month. */
  lemma InOrderOfDays(a: Date, b: Date)
    requires Normal(a) && Normal(b)
    ensures Leq(a, b) <==> 372 * a.y + 31 * a.m + a.d <= 372 * b.y + 31 * b.m + b.d
  {
  }

  /** The guard is empty, or it is at most `today`. */
  predicate NotAfter(guard: Option<Date>, today: Date) {
    guard.Some? ==> Leq(guard.value, today)
  }

  datatype Verdict = FirstRun | NotDue | Due

  /** The three early returns of `checkAndPerformScheduledReset`, in their order. */
  function Decide(resetDay: nat, guard: Option<Date>, today: Date): Verdict {
    if guard == None then FirstRun
    else if today.d != resetDay then NotDue
    else if guard == Some(today) then NotDue
    else Due
  }

  /** The guard after one tick on which nothing fails. */
  function NextGuard(resetDay: nat, guard: Option<Date>, today: Date): Option<Date> {
    if Decide(resetDay, guard, today) == NotDue then guard else Some(today)
  }

  /** Resets performed over a run of ticks on which nothing fails. */
  function Resets(resetDay: nat, guard: Option<Date>, ticks: seq<Date>): nat
    decreases |ticks|
  {
    if ticks == [] then 0
    else
      (if Decide(resetDay, guard, ticks[0]) == Due then 1 else 0)
      + Resets(resetDay, NextGuard(resetDay, guard, ticks[0]), ticks[1..])
  }

  predicate Ordered(ticks: seq<Date>) {
    forall i, j :: 0 <= i < j < |ticks| ==> Leq(ticks[i], ticks[j])
  }

  /** The guard the run starts from: the one that was loaded, or else the first date. */
  function FirstGuard(guard: Option<Date>, ticks: seq<Date>): Option<Date> {
    if guard == None && ticks != [] then Some(ticks[0]) else guard
  }

  /** The dates on which a reset is due: reset days that are not the initial guard. */
  function DueDates(resetDay: nat, guard: Option<Date>, ticks: seq<Date>): set<Date> {
    set t | t in ticks && t.d == resetDay && Some(t) != FirstGuard(guard, ticks)
  }

  lemma DueDate(resetDay: nat, guard: Option<Date>, ticks: seq<Date>, u: Date)
    requires ticks != [] && Ordered(ticks) && NotAfter(guard, ticks[0])
    ensures u in DueDates(resetDay, guard, ticks) <==>
            u in DueDates(resetDay, NextGuard(resetDay, guard, ticks[0]), ticks[1..]) ||
            (u == ticks[0] && Decide(resetDay, guard, ticks[0]) == Due)
  {
    assert u in ticks <==> u == ticks[0] || u in ticks[1..];
    if u in ticks[1..] {
      var i :| 0 <= i < |ticks[1..]| && ticks[1..][i] == u;
      assert Leq(ticks[0], ticks[i + 1]);
    }
  }

  lemma DueDatesStep(resetDay: nat, guard: Option<Date>, ticks: seq<Date>)
    requires ticks != [] && Ordered(ticks) && NotAfter(guard, ticks[0])
    ensures var t, next := ticks[0], NextGuard(resetDay, guard, ticks[0]);
            var all, later := DueDates(resetDay, guard, ticks), DueDates(resetDay, next, ticks[1..]);
            (|ticks| > 1 ==> NotAfter(next, ticks[1])) &&
            |all| == |later| + if Decide(resetDay, guard, t) == Due then 1 else 0
  {
    var t, rest := ticks[0], ticks[1..];
    var next := NextGuard(resetDay, guard, t);
    var all, later := DueDates(resetDay, guard, ticks), DueDates(resetDay, next, rest);
    if |ticks| > 1 {
      assert Leq(ticks[0], ticks[1]);
    }
    forall u ensures u in all <==> u in later || (u == t && Decide(resetDay, guard, t) == Due) {
      DueDate(resetDay, guard, ticks, u);
    }
    if Decide(resetDay, guard, t) == Due {
      assert all == later + {t} && t !in later;
    } else {
      assert all == later;
    }
  }

  /** However many ticks fall on a day, there is one reset for each due date. */
  lemma {:induction false} ResetsAreDueDates(resetDay: nat, guard: Option<Date>, ticks: seq<Date>)
    requires Ordered(ticks) && (ticks != [] ==> NotAfter(guard, ticks[0]))
    ensures Resets(resetDay, guard, ticks) == |DueDates(resetDay, guard, ticks)|
    decreases |ticks|
  {
    if ticks == [] {
      assert DueDates(resetDay, guard, ticks) == {};
    } else {
      var next := NextGuard(resetDay, guard, ticks[0]);
      DueDatesStep(resetDay, guard, ticks);
      hide DueDates, Decide, NextGuard;
      assert forall i :: 0 <= i < |ticks[1..]| ==> ticks[1..][i] == ticks[i + 1];
      ResetsAreDueDates(resetDay, next, ticks[1..]);
    }
  }

  /** The guard after a run of ticks on which nothing fails. */
  function GuardAfter(resetDay: nat, guard: Option<Date>, ticks: seq<Date>): Option<Date>
    decreases |ticks|
  {
    if ticks == [] then guard
    else GuardAfter(resetDay, NextGuard(resetDay, guard, ticks[0]), ticks[1..])
  }

  lemma {:induction false} ResetsSnoc(resetDay: nat, guard: Option<Date>, ticks: seq<Date>, t: Date)
    ensures var last := GuardAfter(resetDay, guard, ticks);
            Resets(resetDay, guard, ticks + [t]) ==
            Resets(resetDay, guard, ticks) + (if Decide(resetDay, last, t) == Due then 1 else 0) &&
            GuardAfter(resetDay, guard, ticks + [t]) == NextGuard(resetDay, last, t)
    decreases |ticks|
  {
    hide Decide, NextGuard;
    if ticks == [] {
      assert ticks + [t] == [t];
    } else {
      assert (ticks + [t])[1..] == ticks[1..] + [t];
      ResetsSnoc(resetDay, NextGuard(resetDay, guard, ticks[0]), ticks[1..], t);
    }
  }

  /** The dates are in order and lie between the two given. */
  ghost predicate InOrder(from: Date, dates: seq<Date>, to: Date) {
    && Leq(from, to) && Ordered(dates)
    && (forall i :: 0 <= i < |dates| ==> Leq(from, dates[i]) && Leq(dates[i], to))
  }

  lemma InOrderSnoc(from: Date, dates: seq<Date>, to: Date, t: Date, later: Date)
    requires InOrder(from, dates, to) && Leq(to, t) && Leq(t, later)
    ensures InOrder(from, dates + [t], later)
  {
  }

  // ---------------------------------------------------------------- resets that may fail

  ghost predicate Increasing(ds: seq<Date>) {
    forall i, j :: 0 <= i < j < |ds| ==> Leq(ds[i], ds[j]) && ds[i] != ds[j]
  }

  /** The dates whose resets were brought to their end, against the ticks so far: due dates, in
      order, up to the guard in memory. */
  ghost predicate Marked(resetDay: nat, guard: Option<Date>, ticks: seq<Date>, marks: seq<Date>, last: Option<Date>) {
    && Increasing(marks) && (forall d :: d in marks ==> d in DueDates(resetDay, guard, ticks))
    && (last == None ==> guard == None && ticks == [] && marks == [])
    && (last.Some? ==>
          var first := FirstGuard(guard, ticks);
          first.Some? && Leq(first.value, last.value) && forall d :: d in marks ==> Leq(d, last.value))
  }

  lemma NothingMarked(resetDay: nat, guard: Option<Date>)
    ensures Marked(resetDay, guard, [], [], guard)
  {
  }

  lemma MoreTicksDue(resetDay: nat, guard: Option<Date>, ticks: seq<Date>, t: Date, d: Date)
    requires d in DueDates(resetDay, guard, ticks)
    ensures d in DueDates(resetDay, guard, ticks + [t])
  {
    assert ticks != [] && (ticks + [t])[0] == ticks[0];
  }

  /** A tick keeps that, and what it decides for is a due date later than all marked ones. */
  lemma MarkedTick(resetDay: nat, guard: Option<Date>, ticks: seq<Date>, marks: seq<Date>, last: Option<Date>, t: Date)
    requires Marked(resetDay, guard, ticks, marks, last) && NotAfter(last, t)
    ensures Marked(resetDay, guard, ticks + [t], marks, if last == None then Some(t) else last)
    ensures Decide(resetDay, last, t) == Due ==>
              last.Some? && Leq(last.value, t) && last != Some(t) && t in DueDates(resetDay, guard, ticks + [t])
  {
    forall d | d in marks ensures d in DueDates(resetDay, guard, ticks + [t]) {
      MoreTicksDue(resetDay, guard, ticks, t, d);
    }
    assert ticks != [] ==> (ticks + [t])[0] == ticks[0];
    assert (ticks + [t])[|ticks|] == t;
  }

  lemma MarkedMark(resetDay: nat, guard: Option<Date>, ticks: seq<Date>, marks: seq<Date>, last: Date, d: Date)
    requires Marked(resetDay, guard, ticks, marks, Some(last))
    requires d in DueDates(resetDay, guard, ticks) && Leq(last, d) && last != d
    ensures Marked(resetDay, guard, ticks, marks + [d], Some(d))
  {
    forall i | 0 <= i < |marks| ensures Leq(marks[i], d) && marks[i] != d {
      assert marks[i] in marks;
    }
  }

  lemma {:induction false} IncreasingAreFew(ds: seq<Date>, all: set<Date>)
    requires Increasing(ds) && forall d :: d in ds ==> d in all
    ensures |ds| <= |all|
    decreases |ds|
  {
    if ds != [] {
      var last := ds[|ds| - 1];
      forall d | d in ds[..|ds| - 1] ensures d in all - {last} {
        assert d in ds;
      }
      IncreasingAreFew(ds[..|ds| - 1], all - {last});
    }
  }

  /** So there is at most one for each due date. */
  lemma MarkedAreFew(resetDay: nat, guard: Option<Date>, ticks: seq<Date>, marks: seq<Date>, last: Option<Date>)
    requires Marked(resetDay, guard, ticks, marks, last)
    ensures |marks| <= |DueDates(resetDay, guard, ticks)|
  {
    IncreasingAreFew(marks, DueDates(resetDay, guard, ticks));
  }

  /** Never more than one reset in a calendar month. */
  lemma AtMostOneResetAMonth(resetDay: nat, guard: Option<Date>, ticks: seq<Date>, y: int, m: int)
    requires Ordered(ticks) && (ticks != [] ==> NotAfter(guard, ticks[0]))
    requires forall t :: t in ticks ==> t.y == y && t.m == m
    ensures Resets(resetDay, guard, ticks) <= 1
  {
    ResetsAreDueDates(resetDay, guard, ticks);
    var due := DueDates(resetDay, guard, ticks);
    if due != {} {
      var one :| one in due;
      assert due == {one};
    }
  }
}
