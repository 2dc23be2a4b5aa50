/** The two directions of a tunnel at the same time: turns of the two copy loops in any order.
    The loops share no reader, no writer and no buffer. */
module Interleaving {
  import opened Streams
  import opened Pump

  /** What one loop copies, and how. */
  datatype Job = Job(script: Script, mode: Mode, pads: Pads)

  /** How far it is: the writer, the reader's cursor, the turns done; or its result. */
  datatype Progress = Copying(dst: Writer, at: Cursor, slot: nat) | Ended(done: Done)

  predicate OnScript(j: Job, p: Progress) { p.Copying? ==> Within(j.script, p.at) }

  /** One turn of the loop of `flushingIoCopy`. */
  function Next(j: Job, p: Progress): (q: Progress)
    requires OnScript(j, p)
    ensures OnScript(j, q) && (p.Ended? ==> q == p)
  {
    match p
    case Ended(_) => p
    case Copying(dst, at, slot) =>
      var t := Turn(j.mode, j.script, at, j.pads, slot);
      var d := if t.chunk == [] then Done(dst, Nil) else Deliver1(dst, t.chunk);
      if d.err != Nil then Ended(d)
      else if t.err != Nil then Ended(Done(d.dst, if t.err == EOF then Nil else t.err))
      else Copying(d.dst, t.at, slot + 1)
  }

  /** Where it will end, if it is left alone. */
  function Outcome(j: Job, p: Progress): Done
    requires OnScript(j, p)
  {
    match p
    case Ended(done) => done
    case Copying(dst, at, slot) => Deliver(dst, Chunks(j.mode, j.script, at, j.pads, slot))
  }

  /** An upper bound on the turns still to come. */
  function TurnsLeft(j: Job, p: Progress): nat
    requires OnScript(j, p)
  {
    if p.Ended? then 0 else 1 + Weight(j.script, p.at)
  }

  /** A turn does not change where a loop will end, and brings it nearer. */
  lemma TurnKeepsOutcome(j: Job, p: Progress)
    requires OnScript(j, p)
    ensures Outcome(j, Next(j, p)) == Outcome(j, p)
    ensures p.Copying? ==> TurnsLeft(j, Next(j, p)) < TurnsLeft(j, p)
  {
    hide Deliver1, Turn;
    if p.Copying? {
      DeliverTurn(p.dst, j.mode, j.script, p.at, j.pads, p.slot);
    }
  }

  /** The two loops after some turns: `true` is one of the first, `false` one of the second. */
  function Interleave(j: Job, k: Job, p: Progress, q: Progress, order: seq<bool>): (r: (Progress, Progress))
    requires OnScript(j, p) && OnScript(k, q)
    ensures OnScript(j, r.0) && OnScript(k, r.1)
    decreases |order|
  {
    if order == [] then (p, q)
    else if order[0] then Interleave(j, k, Next(j, p), q, order[1..])
    else Interleave(j, k, p, Next(k, q), order[1..])
  }

  function Count(order: seq<bool>, which: bool): nat {
    if order == [] then 0 else (if order[0] == which then 1 else 0) + Count(order[1..], which)
  }

  lemma {:induction false} EndedForGood(j: Job, k: Job, p: Progress, q: Progress, order: seq<bool>)
    requires OnScript(j, p) && OnScript(k, q)
    ensures p.Ended? ==> Interleave(j, k, p, q, order).0 == p
    ensures q.Ended? ==> Interleave(j, k, p, q, order).1 == q
    decreases |order|
  {
    hide Next;
    if order != [] {
      if order[0] {
        EndedForGood(j, k, Next(j, p), q, order[1..]);
      } else {
        EndedForGood(j, k, p, Next(k, q), order[1..]);
      }
    }
  }

  lemma {:induction false} InterleaveKeepsOutcomes(j: Job, k: Job, p: Progress, q: Progress, order: seq<bool>)
    requires OnScript(j, p) && OnScript(k, q)
    ensures var r := Interleave(j, k, p, q, order);
            Outcome(j, r.0) == Outcome(j, p) && Outcome(k, r.1) == Outcome(k, q) &&
            (r.0.Copying? ==> TurnsLeft(j, r.0) + Count(order, true) <= TurnsLeft(j, p)) &&
            (r.1.Copying? ==> TurnsLeft(k, r.1) + Count(order, false) <= TurnsLeft(k, q))
    decreases |order|
  {
    hide Outcome, TurnsLeft, Next;
    if order != [] {
      TurnKeepsOutcome(j, p);
      TurnKeepsOutcome(k, q);
      if order[0] {
        InterleaveKeepsOutcomes(j, k, Next(j, p), q, order[1..]);
        EndedForGood(j, k, Next(j, p), q, order[1..]);
      } else {
        InterleaveKeepsOutcomes(j, k, p, Next(k, q), order[1..]);
        EndedForGood(j, k, p, Next(k, q), order[1..]);
      }
    }
  }

  /** However the turns fall, each direction writes and returns what it would alone, which is
      what `dualStream` promises of it; and an order that goes on long enough with both
      brings both to their end. */
  lemma DirectionsAreIndependent(j: Job, k: Job, a: Writer, c: Cursor, b: Writer, d: Cursor, order: seq<bool>)
    requires Within(j.script, c) && Within(k.script, d)
    ensures var r := Interleave(j, k, Copying(a, c, 0), Copying(b, d, 0), order);
            (r.0.Ended? ==> r.0.done == Copied(a, j.script, c, j.mode, j.pads)) &&
            (r.1.Ended? ==> r.1.done == Copied(b, k.script, d, k.mode, k.pads)) &&
            (Count(order, true) > Weight(j.script, c) ==> r.0.Ended?) &&
            (Count(order, false) > Weight(k.script, d) ==> r.1.Ended?)
  {
    InterleaveKeepsOutcomes(j, k, Copying(a, c, 0), Copying(b, d, 0), order);
    hide Interleave, Deliver, Chunks;
  }
}
