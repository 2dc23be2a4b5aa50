/** A tunnel and its user's counter together. */
module Metering {
  import opened Streams
  import opened Pump
  import opened Tunnel
  import opened AccountingProofs
  import opened Cells

  /** A run of the counters in which the calls for `u` are those two lists, in any
      interleaving, begun and finished, and no reset touches the counter. */
  ghost predicate Reported(day: nat, w: World, steps: seq<Step>, u: string, up: seq<nat>, down: seq<nat>) {
    && Cells.Valid(w) && Runs(day, w, steps) && Shuffle(Reports(steps, u), up, down)
    && Pending(w.calls, u) == 0 && Pending(Cells.End(day, w, steps).calls, u) == 0
    && forall i :: 0 <= i < |steps| ==> !Stores(steps[i], u)
  }

  function Delivered(before: seq<byte>, after: seq<byte>): int { |after| - |before| }

  /** One tunnel, with the callbacks of its two directions handed to `addTrafficForUser` in any
      interleaving with everything else: its user's counter grows by exactly the bytes that
      the target and the client accepted. */
  method MeteredTunnel(toTarget: Sink, fromTarget: Source, fromClient: Source, toClient: Sink, padding: bool,
        pads: Pads, pool: BufferPool)
    returns (err: Err, up: Tally, down: Tally)
    requires fromTarget.Valid() && fromClient.Valid() && pool.Valid()
    requires toTarget != toClient && fromTarget != fromClient
    modifies toTarget, fromTarget, fromClient, toClient, pool, pool.free
    ensures fresh(up) && fresh(down)
    ensures forall day, w, steps, u :: Reported(day, w, steps, u, up.calls, down.calls) ==>
              Live(View(Cells.End(day, w, steps)), u) - Live(View(w), u) ==
              Delivered(old(toTarget.st.taken), toTarget.st.taken) +
              Delivered(old(toClient.st.taken), toClient.st.taken)
  {
    up := new Tally();
    down := new Tally();
    err := DualStream(toTarget, fromTarget, fromClient, toClient, padding, pads, pool, up, down);
    assert Sum(up.calls) == Delivered(old(toTarget.st.taken), toTarget.st.taken);
    assert Sum(down.calls) == Delivered(old(toClient.st.taken), toClient.st.taken);
    forall day, w, steps, u | Reported(day, w, steps, u, up.calls, down.calls)
      ensures Live(View(Cells.End(day, w, steps)), u) - Live(View(w), u) == Sum(up.calls) + Sum(down.calls)
    {
      TwoDirectionsAddUp(day, w, steps, u, up.calls, down.calls);
    }
  }
}
