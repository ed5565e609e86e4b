/** The serving process as objects: one gate over the file, the handlers of the connections, and the gate calls in the order
    the events bring them. Its states are the states of `Boundary`, so what is proved of every run holds of the objects. */
module BoundaryServers {
  import opened Text
  import opened Journals
  import opened JournalSteps
  import opened GateModel
  import opened GateInvariant
  import opened GateSync
  import opened PolicyGates
  import B = Boundary
  import X = GateExact
  import T = BoundaryTheorems

  class BoundaryServer {
    const disk: Disk
    var gate: PolicyGate?
    var alive: bool
    var boot: nat
    var handlers: map<nat, B.Handler>
    // What was drawn, sent and released so far.
    var issued: map<string, bool>
    var sent: set<string>
    var released: set<string>

    ghost predicate Valid()
      reads this, gate
    {
      (gate != null ==> gate.disk == disk) && (alive ==> gate != null)
    }

    /** Before the first open there is no gate, and the file is missing or was left by an earlier process. */
    ghost function View(): View
      requires Valid()
      reads this, disk, gate
    {
      if gate == null then GateModel.View.View(INITIAL, [], false, Shut, false, disk.file) else gate.View()
    }

    ghost function System(): B.Sys
      requires Valid()
      reads this, disk, gate
    {
      B.Sys(View(), alive, boot, handlers, issued, sent, released)
    }

    constructor (disk: Disk)
      ensures Valid() && this.disk == disk && gate == null && (disk.file == None ==> System() == B.START)
    {
      this.disk, gate, alive, boot, handlers := disk, null, false, 0, map[];
      issued, sent, released := map[], {}, {};
    }

    method Open(generation: string, save: Save)
      requires Valid()
      modifies this, disk
      ensures Valid() && (gate == old(gate) || fresh(gate))
      ensures System() == B.OpenStep(old(System()), generation, save)
    {
      if !alive {
        var next, reply := OpenGate(disk, generation, save);
        gate, alive, boot := next, reply.Done?, boot + 1;
      }
    }

    method Move(h: nat, pc: B.Pc)
      requires Valid() && h in handlers
      modifies this`handlers
      ensures System() == B.At(old(System()), h, pc)
    {
      handlers := handlers[h := handlers[h].(pc := pc)];
    }

    method Arrive(h: nat)
      requires Valid()
      modifies this`handlers
      ensures System() == B.ArriveStep(old(System()), h)
    {
      if alive && h !in handlers && gate.state.policy.Some? {
        handlers := handlers[h := B.Handler(boot, gate.state.policy.value.RouterPolicy?, B.Arrived, "")];
      }
    }

    /** The handler's gate object is the one that is open. */
    predicate Served(h: nat)
      reads this
    {
      h in handlers && alive && handlers[h].boot == boot
    }

    /** An id that was offered before is never drawn again. */
    method Admit(h: nat, b: Binding, requestDigest: Option<string>, w: AdmitWorld)
      requires Valid()
      modifies this, disk, gate
      ensures Valid() && gate == old(gate)
      ensures System() == B.AdmitStep(old(System()), h, b, requestDigest, w)
    {
      hide GateModel.Admit, RequestId;
      if h !in handlers || handlers[h].pc != B.Arrived || !RequestId(w.requestId) || w.requestId in issued {
        return;
      }
      if !Served(h) {
        handlers := handlers - {h};
        return;
      }
      var routed := gate.state.schema == 2;
      var reply := gate.Admit(b, requestDigest, w);
      if reply.Denied? {
        issued, handlers := issued[w.requestId := routed], handlers - {h};
      } else {
        issued := issued[w.requestId := reply.value.router.Some?];
        handlers := handlers[h := handlers[h].(pc := B.Admitted, requestId := w.requestId)];
      }
    }

    method MarkSend(h: nat, w: SendWorld)
      requires Valid()
      modifies this, disk, gate
      ensures Valid() && gate == old(gate)
      ensures System() == B.MarkStep(old(System()), h, w)
    {
      hide GateModel.MarkSend;
      if h !in handlers || handlers[h].pc != B.Admitted || !handlers[h].routed {
        return;
      }
      if !Served(h) {
        Move(h, B.Ending);
        return;
      }
      var reply := gate.MarkSend(handlers[h].requestId, w);
      Move(h, if reply.Done? then B.Marked else B.Ending);
    }

    method Forward(h: nat)
      requires Valid()
      modifies this
      ensures Valid() && gate == old(gate)
      ensures System() == B.ForwardStep(old(System()), h)
    {
      if h in handlers && handlers[h].pc == (if handlers[h].routed then B.Marked else B.Admitted) {
        sent := sent + {handlers[h].requestId};
        Move(h, B.Forwarded);
      }
    }

    method Finalize(h: nat, completionDigest: string, w: FinalizeWorld)
      requires Valid()
      modifies this, disk, gate
      ensures Valid() && gate == old(gate)
      ensures System() == B.FinalizeStep(old(System()), h, completionDigest, w)
    {
      hide GateModel.Finalize;
      if h !in handlers || handlers[h].pc != B.Forwarded || !handlers[h].routed {
        return;
      }
      if !Served(h) {
        Move(h, B.Ending);
        return;
      }
      var reply := gate.Finalize(handlers[h].requestId, completionDigest, w);
      Move(h, if reply.Done? then B.Finalized else B.Ending);
    }

    method Release(h: nat, authorityCurrent: bool)
      requires Valid()
      modifies this
      ensures Valid() && gate == old(gate)
      ensures System() == B.ReleaseStep(old(System()), h, authorityCurrent)
    {
      hide GateModel.AssertRelease;
      if h !in handlers || handlers[h].pc != (if handlers[h].routed then B.Finalized else B.Forwarded) {
        return;
      }
      if !handlers[h].routed {
        released := released + {handlers[h].requestId};
        return;
      }
      if Served(h) {
        var reply := gate.AssertRelease(handlers[h].requestId, authorityCurrent);
        if reply.Done? {
          released := released + {handlers[h].requestId};
          return;
        }
      }
      Move(h, B.Ending);
    }

    method Fail(h: nat)
      requires Valid()
      modifies this
      ensures Valid() && gate == old(gate)
      ensures System() == B.FailStep(old(System()), h)
    {
      if h in handlers {
        if handlers[h].pc == B.Arrived {
          handlers := handlers - {h};
        } else {
          Move(h, B.Ending);
        }
      }
    }

    method Finish(h: nat, outcome: Outcome, w: FinishWorld)
      requires Valid()
      modifies this, disk, gate
      ensures Valid() && gate == old(gate)
      ensures System() == B.FinishStep(old(System()), h, outcome, w)
    {
      hide GateModel.Finish;
      if h !in handlers || handlers[h].pc in {B.Arrived, B.Admitted, B.Marked} {
        return;
      }
      if Served(h) {
        var id := handlers[h].requestId;
        var _ := gate.Finish(id, outcome, id !in sent, w);
      }
      handlers := handlers - {h};
    }

    /** The process dies: the gate object and the handlers that hold it are gone, the file stays. */
    method Crash()
      requires Valid()
      modifies this
      ensures Valid() && gate == old(gate)
      ensures System() == B.CrashStep(old(System()))
    {
      alive := false;
      handlers := map h | h in handlers && handlers[h].boot != boot :: handlers[h];
    }

    /** One event of a run. */
    method Serve(e: B.Event)
      requires Valid()
      modifies this, disk, gate
      ensures Valid() && (gate == old(gate) || fresh(gate))
      ensures System() == B.Next(old(System()), e)
    {
      hide B.OpenStep, B.CrashStep, B.ArriveStep, B.AdmitStep, B.MarkStep, B.ForwardStep, B.FinalizeStep, B.ReleaseStep, B.FailStep,
           B.FinishStep, GateModel.Activate, GateModel.DrainAndReplace, EndClose, BeginClose, Safe, GoodView, Synced, X.MayActivate,
           X.ActivatedState, X.Stored, X.MayReplace, X.MustWait;
      match e {
        case Open(generation, save) => Open(generation, save);
        case Crash => Crash();
        case StartClosing => if alive { gate.StartClosing(); }
        case Close(w) => if alive { var _ := gate.Close(w); alive := false; }
        case Activate(w) => if alive { var _ := gate.Activate(w); }
        case Replace(next, w) => if alive { var _ := gate.DrainAndReplace(next, w); }
        case Arrive(h) => Arrive(h);
        case Admit(h, b, digest, w) => Admit(h, b, digest, w);
        case MarkSend(h, w) => MarkSend(h, w);
        case Forward(h) => Forward(h);
        case Finalize(h, digest, w) => Finalize(h, digest, w);
        case Release(h, authorityCurrent) => Release(h, authorityCurrent);
        case Fail(h) => Fail(h);
        case Finish(h, outcome, w) => Finish(h, outcome, w);
      }
    }
  }

  /** A whole run of the objects, from a missing file. Whatever is sent under a router policy is marked on disk, whatever is
      released has its success on disk, and the file and the memory are in a form the next open accepts, or in the one
      form it refuses. */
  method ServeAll(events: seq<B.Event>) returns (server: BoundaryServer)
    ensures server.Valid() && server.System() == B.After(events)
    ensures forall id | id in server.sent :: id in server.issued &&
              (server.issued[id] ==> server.disk.file.Some? && MayBeSentIn(server.disk.file.value, id))
    ensures forall id | id in server.released :: id in server.issued &&
              (server.issued[id] ==> server.disk.file.Some? && HasSuccess(server.disk.file.value.decisions, id))
    ensures server.disk.file.Some? ==> (ValidJournal(server.disk.file.value) <==> !T.Mismatched(server.disk.file.value))
  {
    hide B.Next, B.After, MayBeSentIn, HasSuccess, ValidJournal, Opened, T.Mismatched;
    var disk := new Disk();
    server := new BoundaryServer(disk);
    assert B.After([]) == B.START by {
      T.NoEvents();
    }
    for k := 0 to |events|
      invariant server.Valid() && fresh(server) && fresh(server.disk) && (server.gate != null ==> fresh(server.gate))
      invariant server.System() == B.After(events[..k])
    {
      server.Serve(events[k]);
      T.LastOf(events[..k + 1]);
      assert events[..k + 1][..k] == events[..k];
    }
    assert events[..|events|] == events;
    forall id | id in server.sent ensures id in server.issued &&
      (server.issued[id] ==> server.disk.file.Some? && MayBeSentIn(server.disk.file.value, id))
    {
      T.TransmittedIsMarked(events, id);
    }
    forall id | id in server.released ensures id in server.issued &&
      (server.issued[id] ==> server.disk.file.Some? && HasSuccess(server.disk.file.value.decisions, id))
    {
      T.ReleasedIsDurable(events, id);
    }
    T.EveryJournalIsAccepted(events, "");
  }
}
