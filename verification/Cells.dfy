/** `addTrafficForUser` from the inside: any number of calls, each of which allocates a
    counter cell, runs `LoadOrStore`, and then adds through the pointer it got. The other
    steps of the program, zeroing and restoring among them, fall anywhere between. */
module Cells {
  import opened Accounting
  import opened AccountingProofs
  import opened AccountingRuns
  import opened Pump

  datatype Phase = Allocated(cell: nat) | Loaded(cell: nat) | Added

  datatype Call = Call(user: User, bytes: nat, phase: Phase)

  /** `cells` is the concurrent map, `heap` every cell ever allocated, `rest` the parts of the
      accounting state that are not counters. */
  datatype World = World(rest: State, cells: map<User, nat>, heap: seq<nat>, calls: seq<Call>)

  datatype Step =
    | Begin(username: string, bytes: nat)   // a call: new(int64)
    | LoadOrStore(i: nat)
    | AddInt64(i: nat)
    | Program(e: Event)                     // the writer, or the clock

  // ---------------------------------------------------------------- invariant

  predicate CellsInv(cells: map<User, nat>, size: nat) {
    && (forall u :: u in cells ==> cells[u] < size)
    && (forall u, v :: u in cells && v in cells && cells[u] == cells[v] ==> u == v)
  }

  /** A cell that was allocated and not stored is seen by its own call only. */
  predicate Private(w: World, i: nat)
    requires i < |w.calls|
  {
    w.calls[i].phase.Allocated? ==>
      var c := w.calls[i].phase.cell;
      && c < |w.heap| && w.heap[c] == 0
      && (forall u :: u in w.cells ==> w.cells[u] != c)
      && (forall j :: 0 <= j < |w.calls| && j != i && w.calls[j].phase.Allocated? ==> w.calls[j].phase.cell != c)
  }

  /** A call that has loaded its cell holds the one in the map. */
  predicate Held(w: World, i: nat)
    requires i < |w.calls|
  {
    w.calls[i].phase.Loaded? ==> w.calls[i].user in w.cells && w.cells[w.calls[i].user] == w.calls[i].phase.cell
  }

  predicate Valid(w: World) {
    && w.rest.pc != Down && CellsInv(w.cells, |w.heap|)
    && (forall i :: 0 <= i < |w.calls| ==> Private(w, i))
    && (forall i :: 0 <= i < |w.calls| ==> Held(w, i))
  }

  /** What the rest of the program sees: each key's number, whoever holds pointers to it. */
  function View(w: World): State
    requires Valid(w)
  {
    w.rest.(counters := map u | u in w.cells :: w.heap[w.cells[u]])
  }

  // ---------------------------------------------------------------- steps

  predicate CanStep(w: World, s: Step)
    requires Valid(w)
  {
    match s
    case Begin(_, _) => true
    case LoadOrStore(i) => i < |w.calls| && w.calls[i].phase.Allocated?
    case AddInt64(i) => i < |w.calls| && w.calls[i].phase.Loaded?
    case Program(e) => !e.Touch? && !e.Add? && !e.Crash? && !e.Boot? && Enabled(View(w), e)
  }

  /** The step of the accounting machine that the rest of the program sees, if any. */
  function Visible(w: World, s: Step): seq<Event>
    requires Valid(w) && CanStep(w, s)
  {
    match s
    case Begin(_, _) => []
    case LoadOrStore(i) => if w.calls[i].user in w.cells then [] else [Touch(w.calls[i].user)]
    case AddInt64(i) => [Add(w.calls[i].user, w.calls[i].bytes)]
    case Program(e) => [e]
  }

  function Stepped(w: World, i: nat, phase: Phase): seq<Call>
    requires i < |w.calls|
  {
    w.calls[i := w.calls[i].(phase := phase)]
  }

  function NextLoadOrStore(w: World, i: nat): World
    requires Valid(w) && CanStep(w, LoadOrStore(i))
  {
    var u, c := w.calls[i].user, w.calls[i].phase.cell;
    if u in w.cells then w.(calls := Stepped(w, i, Loaded(w.cells[u])))
    else w.(cells := w.cells[u := c], calls := Stepped(w, i, Loaded(c)))
  }

  /** The add goes to the cell the call holds, whatever the map says by now. */
  function NextAddInt64(w: World, i: nat): World
    requires Valid(w) && CanStep(w, AddInt64(i))
  {
    assert Held(w, i);
    var call := w.calls[i];
    var c := call.phase.cell;
    w.(heap := w.heap[c := w.heap[c] + call.bytes], calls := Stepped(w, i, Added),
       rest := w.rest.(ledger := ApplyAdd(View(w), call.user, call.bytes).ledger))
  }

  /** Zeroing and restoring store through the pointer in the map. */
  function NextProgram(day: nat, w: World, e: Event): World
    requires Valid(w) && CanStep(w, Program(e))
  {
    var t := Apply(day, View(w), e).(counters := w.rest.counters);
    match e
    case Zero(u) => w.(rest := t, heap := w.heap[w.cells[u] := 0])
    case Restore(u) => w.(rest := t, heap := w.heap[w.cells[u] := w.rest.pc.snap[u]])
    case _ => w.(rest := t)
  }

  function Next(day: nat, w: World, s: Step): World
    requires Valid(w) && CanStep(w, s)
  {
    match s
    case Begin(name, n) => w.(heap := w.heap + [0], calls := w.calls + [Call(Named(name), n, Allocated(|w.heap|))])
    case LoadOrStore(i) => NextLoadOrStore(w, i)
    case AddInt64(i) => NextAddInt64(w, i)
    case Program(e) => NextProgram(day, w, e)
  }

  // ---------------------------------------------------------------- each step

  lemma BeginStep(day: nat, w: World, name: string, n: nat)
    requires Valid(w)
    ensures Valid(Next(day, w, Begin(name, n))) && View(Next(day, w, Begin(name, n))) == View(w)
  {
    var w' := Next(day, w, Begin(name, n));
    forall j | 0 <= j < |w.calls| && w.calls[j].phase.Allocated? ensures w.calls[j].phase.cell < |w.heap| {
      assert Private(w, j);
    }
    forall i | 0 <= i < |w'.calls| ensures Private(w', i) && Held(w', i) {
      if i < |w.calls| {
        assert Private(w, i) && Held(w, i);
      }
    }
  }

  lemma LoadOrStoreStep(w: World, i: nat)
    requires Valid(w) && CanStep(w, LoadOrStore(i))
    ensures Valid(NextLoadOrStore(w, i))
  {
    var w' := NextLoadOrStore(w, i);
    assert Private(w, i);
    forall j | 0 <= j < |w'.calls| ensures Private(w', j) && Held(w', j) {
      assert Private(w, j) && Held(w, j);
    }
  }

  lemma LoadOrStoreView(w: World, i: nat)
    requires Valid(w) && CanStep(w, LoadOrStore(i)) && Valid(NextLoadOrStore(w, i))
    ensures var u := w.calls[i].user;
            View(NextLoadOrStore(w, i)) ==
            if u in w.cells then View(w) else View(w).(counters := View(w).counters[u := 0])
  {
    assert Private(w, i);
    var u := w.calls[i].user;
    if u !in w.cells {
      assert View(NextLoadOrStore(w, i)).counters == View(w).counters[u := 0];
    }
  }

  lemma AddInt64Step(w: World, i: nat)
    requires Valid(w) && CanStep(w, AddInt64(i))
    ensures Valid(NextAddInt64(w, i))
  {
    hide ApplyAdd;
    var w' := NextAddInt64(w, i);
    assert Held(w, i);
    forall j | 0 <= j < |w'.calls| ensures Private(w', j) && Held(w', j) {
      assert Private(w, j) && Held(w, j);
    }
  }

  lemma AddInt64View(w: World, i: nat)
    requires Valid(w) && CanStep(w, AddInt64(i)) && Valid(NextAddInt64(w, i))
    ensures var u, n := w.calls[i].user, w.calls[i].bytes;
            u in w.cells && View(NextAddInt64(w, i)) == ApplyAdd(View(w), u, n)
  {
    assert Held(w, i);
    var u := w.calls[i].user;
    assert View(NextAddInt64(w, i)).counters == View(w).counters[u := View(w).counters[u] + w.calls[i].bytes];
  }

  /** Storing through the pointer in the map is storing under the key. */
  lemma StoreStep(w: World, u: User, v: nat)
    requires Valid(w) && u in w.cells
    ensures var w' := w.(heap := w.heap[w.cells[u] := v]);
            Valid(w') && View(w') == View(w).(counters := View(w).counters[u := v])
  {
    var w' := w.(heap := w.heap[w.cells[u] := v]);
    forall j | 0 <= j < |w'.calls| ensures Private(w', j) && Held(w', j) {
      assert Private(w, j) && Held(w, j);
    }
    assert View(w').counters == View(w).counters[u := v];
  }

  lemma RestStep(w: World, rest: State)
    requires Valid(w) && rest.pc != Down
    ensures Valid(w.(rest := rest)) && View(w.(rest := rest)) == rest.(counters := View(w).counters)
  {
    forall j | 0 <= j < |w.calls| ensures Private(w.(rest := rest), j) && Held(w.(rest := rest), j) {
      assert Private(w, j) && Held(w, j);
    }
  }

  lemma ProgramStores(day: nat, s: State, e: Event)
    requires Enabled(s, e) && !e.Touch? && !e.Add? && !e.Crash? && !e.Boot? && s.pc != Down
    ensures Apply(day, s, e).pc != Down
    ensures Apply(day, s, e).counters ==
              match e
              case Zero(u) => s.counters[u := 0]
              case Restore(u) => s.counters[u := s.pc.snap[u]]
              case _ => s.counters
  {
  }

  lemma ViewShape(w: World)
    requires Valid(w)
    ensures View(w).pc == w.rest.pc != Down && View(w).counters.Keys == w.cells.Keys
    ensures forall u :: u in w.cells ==> w.cells[u] < |w.heap|
  {
  }

  lemma ProgramStep(day: nat, w: World, e: Event)
    requires Valid(w) && CanStep(w, Program(e))
    ensures Valid(NextProgram(day, w, e)) && View(NextProgram(day, w, e)) == Apply(day, View(w), e)
  {
    hide Apply, Valid, View;
    ViewShape(w);
    ProgramStores(day, View(w), e);
    var t := Apply(day, View(w), e).(counters := w.rest.counters);
    var v :=
      match e
      case Zero(u) => w.(heap := w.heap[w.cells[u] := 0])
      case Restore(u) => w.(heap := w.heap[w.cells[u] := w.rest.pc.snap[u]])
      case _ => w;
    match e {
      case Zero(u) => StoreStep(w, u, 0);
      case Restore(u) => StoreStep(w, u, w.rest.pc.snap[u]);
      case _ =>
    }
    RestStep(v, t);
  }

  lemma One(day: nat, s: State, e: Event)
    requires Enabled(s, e)
    ensures Legal(day, s, [e]) && After(day, s, [e]) == Apply(day, s, e)
  {
    Nothing(day, s);
    Extend(day, s, [], e);
  }

  lemma ApplyIs(day: nat, s: State, e: Event)
    requires Enabled(s, e)
    ensures e.Touch? ==> Apply(day, s, e) == s.(counters := s.counters[e.user := 0])
    ensures e.Add? ==> Apply(day, s, e) == ApplyAdd(s, e.user, e.n)
  {
  }

  /** Every step keeps the invariant and is, to the rest of the program, no step or one step
      of the machine in which an add is atomic. */
  lemma StepRefines(day: nat, w: World, s: Step)
    requires Valid(w) && CanStep(w, s)
    ensures Valid(Next(day, w, s))
    ensures Legal(day, View(w), Visible(w, s)) && After(day, View(w), Visible(w, s)) == View(Next(day, w, s))
  {
    hide View, Apply, Legal, After, CellsInv, Private, Held;
    Nothing(day, View(w));
    match s
    case Begin(name, n) => BeginStep(day, w, name, n);
    case LoadOrStore(i) =>
      LoadOrStoreStep(w, i);
      LoadOrStoreView(w, i);
      ViewShape(w);
      if w.calls[i].user !in w.cells {
        One(day, View(w), Touch(w.calls[i].user));
        ApplyIs(day, View(w), Touch(w.calls[i].user));
      }
    case AddInt64(i) =>
      AddInt64Step(w, i);
      AddInt64View(w, i);
      ViewShape(w);
      One(day, View(w), Add(w.calls[i].user, w.calls[i].bytes));
      ApplyIs(day, View(w), Add(w.calls[i].user, w.calls[i].bytes));
    case Program(e) =>
      ProgramStep(day, w, e);
      One(day, View(w), e);
  }

  // ---------------------------------------------------------------- runs

  predicate Runs(day: nat, w: World, steps: seq<Step>)
    requires Valid(w)
    decreases |steps|
  {
    steps == [] ||
    (CanStep(w, steps[0]) &&
     (StepRefines(day, w, steps[0]);
      Runs(day, Next(day, w, steps[0]), steps[1..])))
  }

  function End(day: nat, w: World, steps: seq<Step>): (t: World)
    requires Valid(w) && Runs(day, w, steps)
    ensures Valid(t)
    decreases |steps|
  {
    if steps == [] then w else
      StepRefines(day, w, steps[0]);
      End(day, Next(day, w, steps[0]), steps[1..])
  }

  function Trace(day: nat, w: World, steps: seq<Step>): seq<Event>
    requires Valid(w) && Runs(day, w, steps)
    decreases |steps|
  {
    if steps == [] then [] else
      StepRefines(day, w, steps[0]);
      Visible(w, steps[0]) + Trace(day, Next(day, w, steps[0]), steps[1..])
  }

  /** A run with two-step adds, racing first adds included, is a run of the accounting
      machine with atomic adds; so every theorem about that machine holds of it. */
  lemma {:induction false} TwoStepAddRefinesAtomicAdd(day: nat, w: World, steps: seq<Step>)
    requires Valid(w) && Runs(day, w, steps)
    ensures Valid(End(day, w, steps))
    ensures Legal(day, View(w), Trace(day, w, steps)) &&
            After(day, View(w), Trace(day, w, steps)) == View(End(day, w, steps))
    decreases |steps|
  {
    hide Next, View, Valid, CanStep, Visible, Legal, After;
    if steps == [] {
      Nothing(day, View(w));
    } else {
      var w1 := Next(day, w, steps[0]);
      StepRefines(day, w, steps[0]);
      TwoStepAddRefinesAtomicAdd(day, w1, steps[1..]);
      Join(day, View(w), Visible(w, steps[0]), Trace(day, w1, steps[1..]));
    }
  }

  // ---------------------------------------------------------------- no lost update

  /** Once a key has a cell, it has that cell for good. */
  lemma {:induction false} CellsAreNeverReplaced(day: nat, w: World, steps: seq<Step>, u: User)
    requires Valid(w) && Runs(day, w, steps) && u in w.cells
    ensures u in End(day, w, steps).cells && End(day, w, steps).cells[u] == w.cells[u]
    decreases |steps|
  {
    hide Valid, CanStep, View, Apply;
    if steps != [] {
      StepRefines(day, w, steps[0]);
      CellsAreNeverReplaced(day, Next(day, w, steps[0]), steps[1..], u);
    }
  }

  /** Bytes of calls for `u` that have begun and not yet added. */
  function Pending(calls: seq<Call>, u: User): nat {
    if calls == [] then 0
    else
      var last := calls[|calls| - 1];
      Pending(calls[..|calls| - 1], u) + if last.user == u && last.phase != Added then last.bytes else 0
  }

  /** Is the step a call whose bytes are for `u`? Only calls without a name are for
      "unknown", beside those of a user of that name. */
  predicate ReportsFor(s: Step, u: User) {
    s.Begin? && ((s.username != "" && s.username == u) || (s.username == "" && u == "unknown"))
  }

  /** The byte counts reported for `u`, call by call. */
  function Reports(steps: seq<Step>, u: User): seq<nat> {
    if steps == [] then []
    else (if ReportsFor(steps[0], u) then [steps[0].bytes] else []) + Reports(steps[1..], u)
  }

  lemma {:induction false} PendingUpdate(calls: seq<Call>, i: nat, phase: Phase, u: User)
    requires i < |calls| && calls[i].phase != Added
    ensures Pending(calls[i := calls[i].(phase := phase)], u) ==
            Pending(calls, u) - if phase == Added && calls[i].user == u then calls[i].bytes else 0
  {
    var calls' := calls[i := calls[i].(phase := phase)];
    var n := |calls| - 1;
    if i == n {
      assert calls'[..n] == calls[..n];
    } else {
      assert calls'[..n] == calls[..n][i := calls[..n][i].(phase := phase)];
      PendingUpdate(calls[..n], i, phase, u);
    }
  }

  lemma PendingSnoc(calls: seq<Call>, c: Call, u: User)
    ensures Pending(calls + [c], u) == Pending(calls, u) + if c.user == u && c.phase != Added then c.bytes else 0
  {
    assert (calls + [c])[..|calls + [c]| - 1] == calls;
  }

  lemma PendingStep(day: nat, w: World, s: Step, u: User)
    requires Valid(w) && CanStep(w, s)
    ensures Pending(Next(day, w, s).calls, u) ==
            Pending(w.calls, u) + (if ReportsFor(s, u) then s.bytes else 0)
            - (if s.AddInt64? && w.calls[s.i].user == u then w.calls[s.i].bytes else 0)
  {
    hide Valid, View, Apply, ApplyAdd, Enabled, Pending;
    match s
    case Begin(name, n) => PendingSnoc(w.calls, Call(Named(name), n, Allocated(|w.heap|)), u);
    case LoadOrStore(i) =>
      var c := if w.calls[i].user in w.cells then w.cells[w.calls[i].user] else w.calls[i].phase.cell;
      PendingUpdate(w.calls, i, Loaded(c), u);
    case AddInt64(i) => PendingUpdate(w.calls, i, Added, u);
    case Program(_) =>
  }

  predicate Stores(s: Step, u: User) {
    s.Program? && (s.e.Zero? || s.e.Restore?) && s.e.user == u
  }

  lemma EarnedStep(day: nat, s: State, e: Event, u: User)
    requires Enabled(s, e)
    ensures Earned(Apply(day, s, e), u) == Earned(s, u) + if e.Add? && e.user == u then e.n else 0
    ensures !((e.Zero? || e.Restore?) && e.user == u) && !e.Crash? && !e.Boot? ==>
              Live(Apply(day, s, e), u) == Live(s, u) + if e.Add? && e.user == u then e.n else 0
  {
  }

  lemma AddInt64Held(w: World, i: nat)
    requires Valid(w) && CanStep(w, AddInt64(i))
    ensures Enabled(View(w), Add(w.calls[i].user, w.calls[i].bytes))
  {
    assert Held(w, i);
  }

  lemma SeenStep(day: nat, w: World, s: Step, u: User)
    requires Valid(w) && CanStep(w, s) && Valid(Next(day, w, s))
    ensures var more := if s.AddInt64? && w.calls[s.i].user == u then w.calls[s.i].bytes else 0;
            Earned(View(Next(day, w, s)), u) == Earned(View(w), u) + more &&
            (!Stores(s, u) ==> Live(View(Next(day, w, s)), u) == Live(View(w), u) + more)
  {
    hide Valid, View, Apply, Enabled, Next, After, Legal, Earned, Live;
    StepRefines(day, w, s);
    ViewShape(w);
    match s
    case Begin(_, _) => Nothing(day, View(w));
    case LoadOrStore(i) =>
      Nothing(day, View(w));
      if w.calls[i].user !in w.cells {
        One(day, View(w), Touch(w.calls[i].user));
        EarnedStep(day, View(w), Touch(w.calls[i].user), u);
      }
    case AddInt64(i) =>
      AddInt64Held(w, i);
      One(day, View(w), Add(w.calls[i].user, w.calls[i].bytes));
      EarnedStep(day, View(w), Add(w.calls[i].user, w.calls[i].bytes), u);
    case Program(e) =>
      One(day, View(w), e);
      EarnedStep(day, View(w), e, u);
  }

  lemma SumNothing()
    ensures Sum([]) == 0
  {
  }

  lemma {:induction false} SumCons(n: nat, ns: seq<nat>)
    ensures Sum([n] + ns) == n + Sum(ns)
  {
    if ns == [] {
      SumSnoc([], n);
      assert [n] + [] == [] + [n];
    } else {
      var front := ns[..|ns| - 1];
      SumCons(n, front);
      assert ([n] + ns)[..|[n] + ns| - 1] == [n] + front;
    }
  }

  /** Every byte reported reaches the counters as soon as its call has added it; until then
      it is pending. Resets and failures in between change nothing about that. */
  lemma {:induction false} NoLostUpdate(day: nat, w: World, steps: seq<Step>, u: User)
    requires Valid(w) && Runs(day, w, steps)
    ensures var t := End(day, w, steps);
            Earned(View(t), u) + Pending(t.calls, u) ==
            Earned(View(w), u) + Pending(w.calls, u) + Sum(Reports(steps, u)) &&
            ((forall i :: 0 <= i < |steps| ==> !Stores(steps[i], u)) ==>
               Live(View(t), u) + Pending(t.calls, u) ==
               Live(View(w), u) + Pending(w.calls, u) + Sum(Reports(steps, u)))
    decreases |steps|
  {
    hide Valid, View, CanStep, Next, Earned, Live, Pending, Stores, Sum;
    if steps == [] {
      SumNothing();
    } else {
      StepRefines(day, w, steps[0]);
      PendingStep(day, w, steps[0], u);
      SeenStep(day, w, steps[0], u);
      assert forall i :: 0 <= i < |steps| - 1 ==> steps[1..][i] == steps[i + 1];
      NoLostUpdate(day, Next(day, w, steps[0]), steps[1..], u);
      if ReportsFor(steps[0], u) {
        SumCons(steps[0].bytes, Reports(steps[1..], u));
      } else {
        assert Reports(steps, u) == Reports(steps[1..], u);
      }
    }
  }

  // ---------------------------------------------------------------- two directions of a tunnel

  /** `c` is made of `a` and `b`, each in its own order. */
  ghost predicate Shuffle(c: seq<nat>, a: seq<nat>, b: seq<nat>)
    decreases |c|
  {
    if c == [] then a == [] && b == []
    else
      var front, last := c[..|c| - 1], c[|c| - 1];
      (a != [] && a[|a| - 1] == last && Shuffle(front, a[..|a| - 1], b)) ||
      (b != [] && b[|b| - 1] == last && Shuffle(front, a, b[..|b| - 1]))
  }

  lemma {:induction false} ShuffleSum(c: seq<nat>, a: seq<nat>, b: seq<nat>)
    requires Shuffle(c, a, b)
    ensures Sum(c) == Sum(a) + Sum(b)
    decreases |c|
  {
    if c != [] {
      var front, last := c[..|c| - 1], c[|c| - 1];
      if a != [] && a[|a| - 1] == last && Shuffle(front, a[..|a| - 1], b) {
        ShuffleSum(front, a[..|a| - 1], b);
      } else {
        ShuffleSum(front, a, b[..|b| - 1]);
      }
    }
  }

  /** The two directions of a tunnel report to the same user at any pace: when both are done,
      the user's counter has grown by the bytes of both, whichever call came first. */
  lemma TwoDirectionsAddUp(day: nat, w: World, steps: seq<Step>, u: User, up: seq<nat>, down: seq<nat>)
    requires Valid(w) && Runs(day, w, steps) && Shuffle(Reports(steps, u), up, down)
    requires Pending(w.calls, u) == 0 && Pending(End(day, w, steps).calls, u) == 0
    requires forall i :: 0 <= i < |steps| ==> !Stores(steps[i], u)
    ensures Live(View(End(day, w, steps)), u) == Live(View(w), u) + Sum(up) + Sum(down)
  {
    NoLostUpdate(day, w, steps, u);
    ShuffleSum(Reports(steps, u), up, down);
  }
}
