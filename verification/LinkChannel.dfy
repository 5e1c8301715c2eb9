/** The locked regions of a PVA link channel. */
module LinkChannel {
  import opened LinkChannelSpec

  class PvaLinkChannel {
    var connected: bool
    var connected_latched: bool
    var queued: bool
    /** The monitor's queue of updates, and whether it will call back for the next one. */
    var monq: nat
    var armed: bool
    ghost var adding: nat
    ghost var popped: nat
    ghost var requeueing: nat
    ghost var data: nat

    ghost function Abs(): Channel
      reads this
    {
      Channel(connected, queued, adding, popped, requeueing, monq, armed, data)
    }

    constructor ()
      ensures Abs() == NEW_CHANNEL
    {
      connected, connected_latched, queued := false, false, false;
      monq, armed := 0, true;
      adding, popped, requeueing, data := 0, 0, 0, 0;
    }

    method PollMonitor() returns (some: bool)
      modifies this`monq, this`armed
      ensures some <==> old(monq) != 0
      ensures some ==> monq == old(monq) - 1 && armed == old(armed)
      ensures !some ==> monq == 0 && armed
    {
      some := monq != 0;
      if some { monq := monq - 1; } else { armed := true; }
    }

    /** Whether the channel is to be added to the work queue after unlocking. */
    method MonitorEvent(evt: Event) returns (add: bool)
      modifies this
      ensures Abs() == OnEvent(old(Abs()), evt)
      ensures add <==> adding == old(adding) + 1
      ensures add <==> evt != Cancel && !old(queued)
      ensures connected == if evt == Cancel then old(connected) else evt == Data
    {
      var queue := false;
      match evt {
        case Disconnect => connected := false; queue := true;
        case Data => connected := true; queue := true;
        case Cancel =>
        case Fail => connected := false; queue := true;
      }
      if queued { return false; }
      queued := queue;
      add := queue;
      if add { adding := adding + 1; }
    }

    /** The locked part of run(): whether records are to be processed after unlocking, and
        whether the channel is to be added to the work queue again after that. */
    method RunLocked() returns (process: bool, requeue: bool)
      requires 0 < popped
      modifies this
      ensures Abs() == LinkChannelSpec.RunLocked(old(Abs()))
      ensures process <==> !connected || old(monq) != 0
      ensures requeue <==> requeueing == old(requeueing) + 1
      ensures connected_latched == connected == old(connected)
    {
      process, requeue := false, false;
      popped := popped - 1;
      queued := false;
      connected_latched := connected;
      if connected {
        var some := PollMonitor();
        if !some { return; }
      }
      process := true;
      queued := connected_latched;
      requeue := queued;
      if requeue { requeueing := requeueing + 1; }
    }
  }
}
