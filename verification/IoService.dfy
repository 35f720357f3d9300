/** The IO manager (src/IO/IOManager.cpp): its steps as functions, and the class that performs them in place. */
module IoService {
  import opened Words
  import opened Pipeline
  import opened ReadyQueue
  import opened ProcessControl

  datatype Operation = PrintJob | ReadFromDisk

  datatype Request = Request(operation: Operation, job: Job)

  /** Where the manager loop stands between two lock regions. */
  datatype Phase = Top | Selecting | Holding(request: Request) | Taking | Serving(request: Request)

  /** `registered` and `completed` are history variables: the processes registered and woken up so far, in order. */
  datatype Io = Io(
    waiting: seq<Job>, requests: seq<Request>, printer: bool, disk: bool, phase: Phase,
    registered: seq<Job>, completed: seq<Job>)

  const IDLE_IO: Io := Io([], [], false, false, Top, [], [])

  function Register(io: Io, j: Job): Io {
    io.(waiting := io.waiting + [j], registered := io.registered + [j])
  }

  /** Devices may start requesting an operation; they never withdraw. */
  function RaiseDevices(io: Io, printerAsks: bool, diskAsks: bool): Io {
    io.(printer := io.printer || printerAsks, disk := io.disk || diskAsks, phase := Selecting)
  }

  /** A requesting device, the printer first, is given to the process waiting longest. */
  function Select(io: Io): Io {
    if io.waiting == [] || !(io.printer || io.disk) then io.(phase := Taking)
    else
      var operation := if io.printer then PrintJob else ReadFromDisk;
      io.(waiting := io.waiting[1..], phase := Holding(Request(operation, io.waiting[0])),
          printer := false, disk := io.disk && io.printer)
  }

  function AddRequest(io: Io): Io
    requires io.phase.Holding?
  {
    io.(requests := io.requests + [io.phase.request], phase := Taking)
  }

  function Take(io: Io): Io {
    if io.requests == [] then io.(phase := Top)
    else io.(requests := io.requests[1..], phase := Serving(io.requests[0]))
  }

  /** The operation is over; the process may run again. */
  function Complete(io: Io): Io
    requires io.phase.Serving?
  {
    io.(phase := Top, completed := io.completed + [io.phase.request.job])
  }

  // ---------------------------------------------------------------------------------------------------------------
  // First registered, first served, exactly once
  // ---------------------------------------------------------------------------------------------------------------

  /** The processes between waiting and waking up. */
  function InService(io: Io): seq<Job> {
    match io.phase
    case Holding(r) => [r.job]
    case Serving(r) => [r.job]
    case Taking => if |io.requests| == 1 then [io.requests[0].job] else []
    case _ => []
  }

  /** Registrations are completed in order and none twice; a request exists only between AddRequest and Take. */
  ghost predicate InOrder(io: Io) {
    && io.registered == io.completed + InService(io) + io.waiting
    && (if io.phase.Taking? then |io.requests| <= 1 else io.requests == [])
  }

  datatype IoEvent = Registration(job: Job) | Manager(printerAsks: bool, diskAsks: bool)

  /** A registration, or the next step of the manager loop. */
  function IoStep(io: Io, e: IoEvent): Io {
    match e
    case Registration(j) => Register(io, j)
    case Manager(printerAsks, diskAsks) =>
      match io.phase
      case Top => RaiseDevices(io, printerAsks, diskAsks)
      case Selecting => Select(io)
      case Holding(_) => AddRequest(io)
      case Taking => Take(io)
      case Serving(_) => Complete(io)
  }

  lemma StepKeepsOrder(io: Io, e: IoEvent)
    requires InOrder(io)
    ensures InOrder(IoStep(io, e))
  {
    if e.Registration? {
      assert io.registered + [e.job] == io.completed + InService(io) + (io.waiting + [e.job]);
    } else if io.phase.Selecting? {
      SelectKeepsOrder(io);
    } else {
      assert io.completed + InService(io) == IoStep(io, e).completed + InService(IoStep(io, e));
    }
  }

  lemma SelectKeepsOrder(io: Io)
    requires InOrder(io) && io.phase.Selecting?
    ensures InOrder(Select(io))
  {
    if Select(io).phase.Holding? {
      assert io.waiting == [io.waiting[0]] + io.waiting[1..];
    }
  }

  function IoAfter(io: Io, es: seq<IoEvent>): Io {
    if es == [] then io else IoStep(IoAfter(io, es[..|es| - 1]), es[|es| - 1])
  }

  function Registrations(es: seq<IoEvent>): seq<Job> {
    if es == [] then []
    else
      var e := es[|es| - 1];
      Registrations(es[..|es| - 1]) + if e.Registration? then [e.job] else []
  }

  /** However registrations and the manager's steps interleave and whatever the devices do: processes wake up in the
      order they registered, each registration at most once, and no request is left over at the top of the loop. */
  lemma {:induction false} ServedInOrder(es: seq<IoEvent>)
    ensures var io := IoAfter(IDLE_IO, es);
            && InOrder(io)
            && io.completed + InService(io) + io.waiting == Registrations(es)
            && io.completed <= Registrations(es)
            && (io.phase.Top? ==> io.requests == [])
  {
    if es != [] {
      var n := |es| - 1;
      ServedInOrder(es[..n]);
      StepKeepsOrder(IoAfter(IDLE_IO, es[..n]), es[n]);
    }
  }

  /** How often a device started to ask for its operation during a run: the printer for a print job, the disk for a
      read. */
  function Demands(es: seq<IoEvent>, operation: Operation): nat {
    if es == [] then 0
    else
      var io, e := IoAfter(IDLE_IO, es[..|es| - 1]), es[|es| - 1];
      var starts := if operation == PrintJob then !io.printer && e.Manager? && e.printerAsks
                    else !io.disk && e.Manager? && e.diskAsks;
      Demands(es[..|es| - 1], operation) + if io.phase.Top? && starts then 1 else 0
  }

  /** How often a process was given an operation during a run. */
  function Grants(es: seq<IoEvent>, operation: Operation): nat {
    if es == [] then 0
    else
      var io, after := IoAfter(IDLE_IO, es[..|es| - 1]), IoAfter(IDLE_IO, es);
      var granted := io.phase.Selecting? && after.phase.Holding? && after.phase.request.operation == operation;
      Grants(es[..|es| - 1], operation) + if granted then 1 else 0
  }

  /** Devices are served by their own operations: in any run every demand of the printer was met by one print job and
      every demand of the disk by one read, apart from the demands still open. */
  lemma {:induction false} DemandsMet(es: seq<IoEvent>)
    ensures var io := IoAfter(IDLE_IO, es);
            && Demands(es, PrintJob) == Grants(es, PrintJob) + (if io.printer then 1 else 0)
            && Demands(es, ReadFromDisk) == Grants(es, ReadFromDisk) + if io.disk then 1 else 0
  {
    if es != [] {
      DemandsMet(es[..|es| - 1]);
    }
  }

  /** A whole pass of the loop during which nothing registers. */
  function Pass(io: Io, printerAsks: bool, diskAsks: bool): Io
    requires io.phase.Top?
  {
    var selected := Select(RaiseDevices(io, printerAsks, diskAsks));
    var taken := Take(if selected.phase.Holding? then AddRequest(selected) else selected);
    if taken.phase.Serving? then Complete(taken) else taken
  }

  /** A pass wakes up the process waiting longest exactly when there is one and a device is asking, and uses up one
      device's demand, the printer's first. */
  lemma PassServesExactly(io: Io, printerAsks: bool, diskAsks: bool)
    requires io.phase.Top? && io.requests == []
    ensures var r := Pass(io, printerAsks, diskAsks);
            var printer, disk := io.printer || printerAsks, io.disk || diskAsks;
            && r.phase.Top? && r.requests == []
            && (r.completed == io.completed <==> io.waiting == [] || !(printer || disk))
            && (r.completed != io.completed ==>
                  && r.completed == io.completed + [io.waiting[0]] && r.waiting == io.waiting[1..]
                  && r.printer == false && r.disk == (disk && printer))
  {
    var selected := Select(RaiseDevices(io, printerAsks, diskAsks));
    if selected.phase.Holding? {
      var added := AddRequest(selected);
      assert added.requests == [selected.phase.request];
      assert Take(added).requests == [];
      var c := io.completed + [io.waiting[0]];
      assert |c| == |io.completed| + 1;
    }
  }

  // ---------------------------------------------------------------------------------------------------------------
  // The manager
  // ---------------------------------------------------------------------------------------------------------------

  /** A request as the manager stores it. */
  datatype IoRequest = IoRequest(operation: Operation, process: Process)

  class IoManager {
    var waiting: seq<Process>
    var requests: seq<IoRequest>
    var printer: bool
    var disk: bool
    ghost var registered: seq<Job>
    ghost var completed: seq<Job>

    constructor ()
      ensures View() == IDLE_IO
    {
      waiting, requests, printer, disk := [], [], false, false;
      registered, completed := [], [];
    }

    ghost function View(): Io
      reads this
    {
      Io(JobsOf(waiting), RequestsOf(requests), printer, disk, Top, registered, completed)
    }

    method RegisterProcessWaitingForIO(process: Process)
      modifies this`waiting, this`registered
      ensures waiting == old(waiting) + [process] && View() == Register(old(View()), process.job)
    {
      waiting := waiting + [process];
      registered := registered + [process.job];
      assert JobsOf(waiting) == old(JobsOf(waiting)) + [process.job];
    }

    method AddToRequests(request: IoRequest)
      modifies this`requests
      ensures requests == old(requests) + [request]
    {
      requests := requests + [request];
    }

    /** Matches the process waiting longest with a requesting device. */
    method SelectRequest() returns (request: Option<IoRequest>)
      modifies this`waiting, this`printer, this`disk
      ensures var io := Select(old(View()));
              && (printer, disk) == (io.printer, io.disk) && JobsOf(waiting) == io.waiting
              && (request.Some? <==> io.phase.Holding?)
              && (request.Some? ==>
                    && io.phase.request == Request(request.value.operation, request.value.process.job)
                    && old(waiting) == [request.value.process] + waiting)
    {
      request := None;
      if waiting != [] {
        var process := waiting[0];
        if printer {
          request := Some(IoRequest(PrintJob, process));
          printer := false;
        } else if disk {
          request := Some(IoRequest(ReadFromDisk, process));
          disk := false;
        }
        if request.Some? {
          waiting := waiting[1..];
        }
      }
    }

    /** Takes the oldest request, if any. */
    method TakeRequest() returns (request: Option<IoRequest>)
      modifies this`requests
      ensures if old(requests) == [] then request == None && requests == []
              else request == Some(old(requests)[0]) && requests == old(requests)[1..]
    {
      if requests == [] {
        return None;
      }
      request := Some(requests[0]);
      requests := requests[1..];
    }

    /** Performs an operation that takes `duration`; the process may run again. */
    method Serve(request: IoRequest, duration: nat)
      modifies this`completed, request.process`state, request.process`ioCycles
      ensures completed == old(completed) + [request.process.job]
      ensures request.process.state == Ready && request.process.ioCycles == old(request.process.ioCycles) + duration
    {
      request.process.ioCycles := request.process.ioCycles + duration;
      request.process.state := Ready;
      completed := completed + [request.process.job];
    }

    /** The first half of a pass: devices start asking, and a request may be made. */
    method MakeRequest(printerAsks: bool, diskAsks: bool)
      requires requests == []
      modifies this`waiting, this`requests, this`printer, this`disk
      ensures var io := Select(RaiseDevices(old(View()), printerAsks, diskAsks));
              && View() == (if io.phase.Holding? then AddRequest(io) else io).(phase := Top)
              && |requests| == (if io.phase.Holding? then 1 else 0)
              && (io.phase.Holding? ==> old(waiting) == [requests[0].process] + waiting)
    {
      printer, disk := printer || printerAsks, disk || diskAsks;
      var request := SelectRequest();
      if request.Some? {
        AddToRequests(request.value);
      }
    }

    /** One pass of the manager loop: `printerAsks` and `diskAsks` are the random device events, `duration` the time the
        operation takes. */
    method ManagerPass(printerAsks: bool, diskAsks: bool, duration: nat) returns (served: Option<Process>)
      requires requests == []
      modifies this, waiting
      ensures View() == Pass(old(View()), printerAsks, diskAsks)
      ensures served.Some? ==>
                && old(waiting) == [served.value] + waiting && completed == old(completed) + [served.value.job]
                && served.value.state == Ready && served.value.ioCycles == old(waiting[0].ioCycles) + duration
      ensures forall p | p in old(waiting) && Some(p) != served :: unchanged(p)
    {
      MakeRequest(printerAsks, diskAsks);
      var next := TakeRequest();
      served := None;
      if next.Some? {
        Serve(next.value, duration);
        served := Some(next.value.process);
      }
    }
  }

  function RequestsOf(rs: seq<IoRequest>): (requests: seq<Request>)
    ensures |requests| == |rs|
    ensures forall i | 0 <= i < |rs| :: requests[i] == Request(rs[i].operation, rs[i].process.job)
  {
    seq<Request>(|rs|, i requires 0 <= i < |rs| => Request(rs[i].operation, rs[i].process.job))
  }
}
