/** The traffic quota as a gate on new tunnels, over runs of the accounting machine: who is
    let in, whose bytes can pass the limit, and when a refused user is let in again. */
module Quota {
  import opened Accounting
  import opened AccountingProofs

  type Quotas = map<User, int>

  /** The check at the end of `checkCredentials`: a positive quota, a counter, and the
      counter at or over the quota. */
  predicate Exceeded(quotas: Quotas, counters: Counts, user: User) {
    user in quotas && quotas[user] > 0 && user in counters && counters[user] >= quotas[user]
  }

  /** A tunnel carries the name its credentials gave it, or "" without authentication. */
  datatype World = World(acct: State, tunnels: seq<User>)

  datatype Step =
    | Connect(username: string)
    | Anonymous                        // no credentials configured: no gate, no name
    | Carry(tunnel: nat, e: Event)     // LoadOrStore or AddInt64 of one onWrite call
    | Program(e: Event)

  predicate CanStep(w: World, s: Step) {
    match s
    case Connect(_) => w.acct.pc != Down
    case Anonymous => w.acct.pc != Down
    case Carry(i, e) => i < |w.tunnels| && (e.Touch? || e.Add?) && e.user == Named(w.tunnels[i]) && Enabled(w.acct, e)
    case Program(e) => !e.Touch? && !e.Add? && Enabled(w.acct, e)
  }

  /** A refused request starts no tunnel; a crash ends them all. */
  function Next(day: nat, quotas: Quotas, w: World, s: Step): World
    requires CanStep(w, s)
  {
    match s
    case Connect(u) => if Exceeded(quotas, w.acct.counters, u) then w else w.(tunnels := w.tunnels + [u])
    case Anonymous => w.(tunnels := w.tunnels + [""])
    case Carry(_, e) => w.(acct := Apply(day, w.acct, e))
    case Program(e) => World(Apply(day, w.acct, e), if e.Crash? then [] else w.tunnels)
  }

  predicate Runs(day: nat, quotas: Quotas, w: World, steps: seq<Step>)
    decreases |steps|, 0
  {
    steps == [] ||
    (Runs(day, quotas, w, steps[..|steps| - 1]) &&
     CanStep(At(day, quotas, w, steps[..|steps| - 1]), steps[|steps| - 1]))
  }

  function At(day: nat, quotas: Quotas, w: World, steps: seq<Step>): World
    requires Runs(day, quotas, w, steps)
    decreases |steps|, 1
  {
    if steps == [] then w
    else Next(day, quotas, At(day, quotas, w, steps[..|steps| - 1]), steps[|steps| - 1])
  }

  // ---------------------------------------------------------------- whose bytes

  predicate IsCrash(s: Step) { s.Program? && s.e.Crash? }

  /** Step `j` of the run asked for a tunnel for `u`, was let in, and its process still runs. */
  ghost predicate AdmittedAt(day: nat, quotas: Quotas, w: World, steps: seq<Step>, u: User, j: nat)
    requires Runs(day, quotas, w, steps)
  {
    && j < |steps| && steps[j] == Connect(u)
    && Runs(day, quotas, w, steps[..j])
    && !Exceeded(quotas, At(day, quotas, w, steps[..j]).acct.counters, u)
    && (forall k :: j <= k < |steps| ==> !IsCrash(steps[k]))
  }

  lemma AdmittedLonger(day: nat, quotas: Quotas, w: World, steps: seq<Step>, u: User, j: nat)
    requires steps != [] && Runs(day, quotas, w, steps) && !IsCrash(steps[|steps| - 1])
    requires AdmittedAt(day, quotas, w, steps[..|steps| - 1], u, j)
    ensures AdmittedAt(day, quotas, w, steps, u, j)
  {
    hide Runs, At, Exceeded;
    var front := steps[..|steps| - 1];
    assert front[..j] == steps[..j];
    forall k | j <= k < |steps| ensures !IsCrash(steps[k]) {
      if k < |steps| - 1 {
        assert front[k] == steps[k];
      }
    }
  }

  /** Every named tunnel that is open was let in by the gate at some step of the run. */
  lemma {:induction false} TunnelsWereAdmitted(day: nat, quotas: Quotas, w: World, steps: seq<Step>, i: nat)
    returns (j: nat)
    requires Runs(day, quotas, w, steps) && w.tunnels == []
    requires i < |At(day, quotas, w, steps).tunnels| && At(day, quotas, w, steps).tunnels[i] != ""
    ensures AdmittedAt(day, quotas, w, steps, At(day, quotas, w, steps).tunnels[i], j)
    decreases |steps|
  {
    hide Apply, Enabled, Exceeded;
    var u := At(day, quotas, w, steps).tunnels[i];
    var front, last := steps[..|steps| - 1], steps[|steps| - 1];
    var before := At(day, quotas, w, front);
    if i < |before.tunnels| {
      j := TunnelsWereAdmitted(day, quotas, w, front, i);
      AdmittedLonger(day, quotas, w, steps, u, j);
    } else {
      j := |steps| - 1;
      assert steps[..j] == front;
    }
  }

  /** Every byte added to the counter of a user with a positive quota, be it below the quota
      or beyond, comes from a tunnel that was let in earlier in the life of the process, at
      a moment when the counter was below the quota. */
  lemma BytesComeFromAdmittedTunnels(day: nat, quotas: Quotas, w: World, steps: seq<Step>, u: User, i: nat, n: nat)
    returns (j: nat)
    requires w.tunnels == [] && u != "unknown" && u in quotas && quotas[u] > 0
    requires Runs(day, quotas, w, steps) && CanStep(At(day, quotas, w, steps), Carry(i, Add(u, n)))
    ensures j < |steps| && steps[j] == Connect(u) && Runs(day, quotas, w, steps[..j])
    ensures Live(At(day, quotas, w, steps[..j]).acct, u) < quotas[u]
    ensures forall k :: j <= k < |steps| ==> !IsCrash(steps[k])
  {
    hide At, Runs, Apply, Enabled;
    j := TunnelsWereAdmitted(day, quotas, w, steps, i);
  }

  // ---------------------------------------------------------------- refusal

  predicate Lowers(s: Step, u: User) {
    s.Program? && (s.e.Crash? || ((s.e.Zero? || s.e.Restore?) && s.e.user == u))
  }

  /** A counter goes down only when its reset zeroes it, a rollback restores it, or the
      process dies; otherwise it takes exactly what is added to it. */
  lemma CounterStep(day: nat, s: State, e: Event, u: User)
    requires Enabled(s, e) && s.pc != Down && !e.Crash? && !((e.Zero? || e.Restore?) && e.user == u)
    ensures Live(Apply(day, s, e), u) == Live(s, u) + if e.Add? && e.user == u then e.n else 0
    ensures u in s.counters ==> u in Apply(day, s, e).counters
    ensures Apply(day, s, e).pc != Down
  {
  }

  lemma ExceededStep(day: nat, quotas: Quotas, w: World, s: Step, u: User)
    requires CanStep(w, s) && w.acct.pc != Down && Exceeded(quotas, w.acct.counters, u) && !Lowers(s, u)
    ensures var t := Next(day, quotas, w, s);
            t.acct.pc != Down && Exceeded(quotas, t.acct.counters, u) && Live(t.acct, u) >= Live(w.acct, u)
  {
    hide Apply, Enabled;
    match s
    case Carry(_, e) => CounterStep(day, w.acct, e, u);
    case Program(e) => CounterStep(day, w.acct, e, u);
    case _ =>
  }

  function TunnelsOf(tunnels: seq<User>, u: User): set<nat> {
    set i: nat | i < |tunnels| && tunnels[i] == u
  }

  lemma NoNewTunnel(day: nat, quotas: Quotas, w: World, s: Step, u: User)
    requires CanStep(w, s) && Exceeded(quotas, w.acct.counters, u) && !Lowers(s, u) && u != ""
    ensures TunnelsOf(Next(day, quotas, w, s).tunnels, u) == TunnelsOf(w.tunnels, u)
  {
    hide Apply, Enabled;
    var t := Next(day, quotas, w, s);
    assert forall i: nat :: i < |t.tunnels| && t.tunnels[i] == u ==> i < |w.tunnels| && w.tunnels[i] == u;
    assert forall i: nat :: i < |w.tunnels| && w.tunnels[i] == u ==> i < |t.tunnels| && t.tunnels[i] == u;
  }

  /** Once refused, always refused: until the counter is zeroed, restored, or lost with the
      process, no request of the user gets a tunnel, however the run goes on. */
  lemma {:induction false} RefusalLasts(day: nat, quotas: Quotas, w: World, steps: seq<Step>, u: User)
    requires w.acct.pc != Down && Exceeded(quotas, w.acct.counters, u) && u != ""
    requires Runs(day, quotas, w, steps) && forall k :: 0 <= k < |steps| ==> !Lowers(steps[k], u)
    ensures var t := At(day, quotas, w, steps);
            t.acct.pc != Down && Exceeded(quotas, t.acct.counters, u) &&
            TunnelsOf(t.tunnels, u) == TunnelsOf(w.tunnels, u)
    decreases |steps|
  {
    hide CanStep, Next, Exceeded, TunnelsOf, Lowers;
    if steps != [] {
      var front := steps[..|steps| - 1];
      assert forall k :: 0 <= k < |front| ==> front[k] == steps[k];
      RefusalLasts(day, quotas, w, front, u);
      ExceededStep(day, quotas, At(day, quotas, w, front), steps[|steps| - 1], u);
      NoNewTunnel(day, quotas, At(day, quotas, w, front), steps[|steps| - 1], u);
    }
  }

  lemma LoweredStep(day: nat, s: State, e: Event, u: User)
    requires Enabled(s, e) && (e == Crash || e == Zero(u) || e == Restore(u))
    ensures Apply(day, s, e).counters ==
              match e
              case Crash => map[]
              case Zero(_) => s.counters[u := 0]
              case _ => s.counters[u := s.pc.snap[u]]
  {
  }

  /** And the refusal ends exactly with a zeroing, a restart, or a rollback to a snapshot
      that lies below the quota. */
  lemma RefusalEnds(day: nat, quotas: Quotas, w: World, s: Step, u: User)
    requires CanStep(w, s) && w.acct.pc != Down && Exceeded(quotas, w.acct.counters, u)
    ensures !Exceeded(quotas, Next(day, quotas, w, s).acct.counters, u) <==>
            s.Program? &&
            (s.e == Zero(u) || s.e == Crash || (s.e == Restore(u) && w.acct.pc.snap[u] < quotas[u]))
  {
    if !Lowers(s, u) {
      ExceededStep(day, quotas, w, s, u);
    } else {
      LoweredStep(day, w.acct, s.e, u);
    }
  }

  // ---------------------------------------------------------------- whose counter

  /** A tunnel keeps the name it was let in under for as long as the process lives. */
  lemma {:induction false} TunnelsKeepTheirNames(day: nat, quotas: Quotas, w: World, steps: seq<Step>)
    requires Runs(day, quotas, w, steps) && forall k :: 0 <= k < |steps| ==> !IsCrash(steps[k])
    ensures w.tunnels <= At(day, quotas, w, steps).tunnels
    decreases |steps|
  {
    hide Apply, Enabled, Exceeded;
    if steps != [] {
      var front := steps[..|steps| - 1];
      assert forall k :: 0 <= k < |front| ==> front[k] == steps[k];
      TunnelsKeepTheirNames(day, quotas, w, front);
    }
  }

  /** A request below its quota, or without one, is let in under the name it gave. */
  lemma LetIn(day: nat, quotas: Quotas, w: World, u: User)
    requires w.acct.pc != Down
    requires u !in quotas || quotas[u] <= 0 || Live(w.acct, u) < quotas[u]
    ensures Next(day, quotas, w, Connect(u)).tunnels == w.tunnels + [u]
  {
  }

  /** Bytes reported over a run by the tunnels with one of these names. */
  function TunnelBytes(day: nat, quotas: Quotas, w: World, steps: seq<Step>, names: set<string>): nat
    requires Runs(day, quotas, w, steps)
    decreases |steps|
  {
    if steps == [] then 0
    else
      var front, last := steps[..|steps| - 1], steps[|steps| - 1];
      var mine := last.Carry? && last.e.Add? && At(day, quotas, w, front).tunnels[last.tunnel] in names;
      TunnelBytes(day, quotas, w, front, names) + if mine then last.e.n else 0
  }

  lemma CarriedStep(day: nat, quotas: Quotas, w: World, s: Step, u: User, names: set<string>)
    requires CanStep(w, s) && w.acct.pc != Down && !Lowers(s, u)
    requires names == if u == "unknown" then {"", "unknown"} else {u}
    requires u != ""
    ensures var more := if s.Carry? && s.e.Add? && w.tunnels[s.tunnel] in names then s.e.n else 0;
            Live(Next(day, quotas, w, s).acct, u) == Live(w.acct, u) + more
    ensures Next(day, quotas, w, s).acct.pc != Down
  {
    hide Apply, Enabled;
    match s
    case Carry(_, e) => CounterStep(day, w.acct, e, u);
    case Program(e) => CounterStep(day, w.acct, e, u);
    case _ =>
  }

  /** Over any run in which the counter is not lowered: it grows by every byte that the
      user's own tunnels report, and by no other. "unknown" collects the bytes of tunnels
      without a name. */
  lemma {:induction false} CounterCountsItsTunnels(day: nat, quotas: Quotas, w: World, steps: seq<Step>, u: User,
      names: set<string>)
    requires w.acct.pc != Down && u != "" && names == if u == "unknown" then {"", "unknown"} else {u}
    requires Runs(day, quotas, w, steps) && forall k :: 0 <= k < |steps| ==> !Lowers(steps[k], u)
    ensures Live(At(day, quotas, w, steps).acct, u) == Live(w.acct, u) + TunnelBytes(day, quotas, w, steps, names)
    ensures At(day, quotas, w, steps).acct.pc != Down
    decreases |steps|
  {
    hide CanStep, Next, Lowers, Live;
    if steps != [] {
      var front := steps[..|steps| - 1];
      assert forall k :: 0 <= k < |front| ==> front[k] == steps[k];
      CounterCountsItsTunnels(day, quotas, w, front, u, names);
      CarriedStep(day, quotas, At(day, quotas, w, front), steps[|steps| - 1], u, names);
    }
  }

  // ---------------------------------------------------------------- the shared counter

  /** The counter "unknown" is no user's own: without authentication its tunnels pass no
      gate, whatever quota is set for it and however far it is exceeded. */
  lemma AnonymousTunnelsPassNoGate(day: nat, quotas: Quotas, w: World, n: nat)
    requires w.acct.pc != Down && w.tunnels == [] && Exceeded(quotas, w.acct.counters, "unknown")
    ensures var steps := [Anonymous, Carry(0, Add("unknown", n))];
            Runs(day, quotas, w, steps) &&
            Live(At(day, quotas, w, steps).acct, "unknown") == Live(w.acct, "unknown") + n
  {
    var steps := [Anonymous, Carry(0, Add("unknown", n))];
    assert steps[..1] == [Anonymous] && [Anonymous][..0] == [];
    assert Runs(day, quotas, w, []) && Runs(day, quotas, w, [Anonymous]);
    CounterStep(day, w.acct, Add("unknown", n), "unknown");
  }
}
