/**
  The compute call from end to end: any number of callers, each of which takes an id,
  registers, submits, rings and waits, interleaved with the kernel thread's drains.  Any
  doorbell may hit a DMA fault at any point and leave the device in ERROR; a run here goes
  on from there up to the recovery, which wakes every caller with an error and starts the
  ids anew.  No signal or shutdown ends a wait.
*/
module CallProtocol {
  import opened RingArith
  import opened MathOps
  import opened MathHardware
  import opened MathRings
  import opened MathPending
  import opened RingProtocol

  /** Where a call is.  `orig` is the request as submitted, id included. */
  datatype Call =
    | Registered(orig: Req)
    | Refused(orig: Req)
    | Queued(orig: Req, index: nat)
    | Waiting(orig: Req, index: nat)
    | Returned(orig: Req, index: nat, answer: Req)

  /**
    `counter` hands out ids; `woken` lists the ids of the callers the drains have woken, in
    order; `strays` counts completions no caller was found for.
  */
  datatype World = World(
    sys: Sys, counter: nat, calls: map<nat, Call>, pending: PendingMap,
    woken: seq<nat>, strays: nat)

  datatype Move = Begin(req: Req) | Enqueue(id: nat) | Bell(id: nat, fault: Fault) | Take | Announce | Return(id: nat)

  predicate Placed(c: Call) {
    c.Queued? || c.Waiting? || c.Returned?
  }

  // ---- The invariant -----------------------------------------------------------------

  /** The record a placed call must have: woken exactly when its completion was drained. */
  function RecordOf(s: Sys, c: Call): Pending
    requires Placed(c) && c.index < |s.submitted|
  {
    if c.index < s.drained then Pending(Answered(c.orig, Execute(s.submitted[c.index])), JobDone, true)
    else Pending(c.orig, Unset, false)
  }

  predicate CallOk(w: World, id: nat)
    requires id in w.calls
  {
    var c, s := w.calls[id], w.sys;
    && id <= w.counter && c.orig.cmdId == id && IsKnownOp(c.orig.opcode)
    && match c
       case Registered(_) | Refused(_) => id in w.pending && w.pending[id] == Pending(c.orig, Unset, false)
       case Queued(_, i) =>
         i < |s.submitted| && s.submitted[i] == CommandOf(c.orig)
         && id in w.pending && w.pending[id] == RecordOf(s, c)
       case Waiting(_, i) =>
         i < |s.submitted| && s.submitted[i] == CommandOf(c.orig) && i < s.rung
         && id in w.pending && w.pending[id] == RecordOf(s, c)
       case Returned(_, i, answer) =>
         i < |s.submitted| && s.submitted[i] == CommandOf(c.orig) && i < s.drained
         && id !in w.pending && answer == Answered(c.orig, Execute(CommandOf(c.orig)))
  }

  /** The i-th command submitted belongs to the call with its id, and to that call's index. */
  predicate CommandOk(w: World, i: nat)
    requires i < |w.sys.submitted|
  {
    var id := w.sys.submitted[i].cmdId;
    id in w.calls && Placed(w.calls[id]) && w.calls[id].index == i
  }

  predicate CallInv(w: World) {
    && (forall id | id in w.calls :: CallOk(w, id))
    && (forall id | id in w.pending :: id in w.calls)
    && (forall i: nat | i < |w.sys.submitted| :: CommandOk(w, i))
  }

  /** The callers woken are those of the drained completions, in submission order. */
  predicate WokenOk(w: World) {
    && w.strays == 0
    && |w.woken| == w.sys.drained <= |w.sys.submitted|
    && forall i: nat | i < |w.woken| :: w.woken[i] == w.sys.submitted[i].cmdId
  }

  predicate WorldInv(w: World) {
    Inv(w.sys) && CallInv(w) && WokenOk(w)
  }

  // ---- Moves ---------------------------------------------------------------------------

  /** A rejected opcode touches nothing; ids are 32 bits wide and a run uses each once. */
  predicate CanBegin(w: World, req: Req) {
    IsKnownOp(req.opcode) && w.counter + 1 < 0x1_0000_0000
  }

  function BeginMove(w: World, req: Req): World {
    var id := w.counter + 1;
    var r := req.(cmdId := id);
    w.(counter := id, calls := w.calls[id := Registered(r)],
       pending := w.pending[id := Pending(r, Unset, false)])
  }

  function EnqueueMove(w: World, id: nat): World
    requires Inv(w.sys) && id in w.calls
  {
    var r := w.calls[id].orig;
    if Full(w.sys.link.drv) then w.(calls := w.calls[id := Refused(r)])
    else w.(sys := SubmitStep(w.sys, CommandOf(r)),
            calls := w.calls[id := Queued(r, |w.sys.submitted|)])
  }

  function BellMove(w: World, id: nat, fault: Fault): World
    requires Inv(w.sys) && id in w.calls && w.calls[id].Queued?
  {
    w.(sys := RingStep(w.sys, fault), calls := w.calls[id := Waiting(w.calls[id].orig, w.calls[id].index)])
  }

  function TakeMove(w: World): World
    requires Inv(w.sys)
  {
    var taken := TakenNow(w.sys);
    w.(sys := DrainStep(w.sys), pending := DeliverAll(w.pending, taken),
       woken := w.woken + IdsOf(taken), strays := w.strays + Strays(w.pending, taken))
  }

  function ReturnMove(w: World, id: nat): World
    requires id in w.calls && w.calls[id].Waiting? && id in w.pending
  {
    w.(calls := w.calls[id := Returned(w.calls[id].orig, w.calls[id].index, w.pending[id].req)],
       pending := w.pending - {id})
  }

  predicate CanMove(w: World, m: Move) {
    match m
    case Begin(req) => CanBegin(w, req)
    case Enqueue(id) => id in w.calls && w.calls[id].Registered?
    case Bell(id, _) => id in w.calls && w.calls[id].Queued?
    case Take => !w.sys.publishing
    case Announce => w.sys.publishing
    case Return(id) =>
      id in w.calls && w.calls[id].Waiting? && id in w.pending
      && w.pending[id].done && w.pending[id].cause.JobDone?
  }

  function DoMove(w: World, m: Move): World
    requires WorldInv(w)
  {
    if !CanMove(w, m) then w else
    match m
    case Begin(req) => BeginMove(w, req)
    case Enqueue(id) => EnqueueMove(w, id)
    case Bell(id, fault) => BellMove(w, id, fault)
    case Take => TakeMove(w)
    case Announce => w.(sys := PublishStep(w.sys))
    case Return(id) => ReturnMove(w, id)
  }

  // ---- Preservation --------------------------------------------------------------------

  /** The parts of the ring history the calls depend on. */
  predicate SameCommands(s: Sys, s': Sys) {
    s'.submitted == s.submitted && s'.drained == s.drained && s'.rung >= s.rung
  }

  lemma CallsSurvive(w: World, s': Sys)
    requires CallInv(w) && SameCommands(w.sys, s')
    ensures CallInv(w.(sys := s'))
  {
    forall id | id in w.calls
      ensures CallOk(w.(sys := s'), id)
    {
      assert CallOk(w, id);
    }
    forall i: nat | i < |s'.submitted|
      ensures CommandOk(w.(sys := s'), i)
    {
      assert CommandOk(w, i);
    }
  }

  lemma BeginIsNew(w: World)
    requires WorldInv(w)
    ensures w.counter + 1 !in w.calls
  {
    hide Inv, Execute, IsKnownOp, WokenOk, RecordOf, CommandOf;
    forall id | id in w.calls
      ensures id <= w.counter
    {
      assert CallOk(w, id);
    }
  }

  lemma BeginKeepsInv(w: World, req: Req)
    requires WorldInv(w) && CanBegin(w, req)
    ensures WorldInv(BeginMove(w, req))
  {
    var w' := BeginMove(w, req);
    hide Inv, Execute, IsKnownOp, RecordOf, CommandOf, Answered;
    BeginIsNew(w);
    forall id | id in w'.calls
      ensures CallOk(w', id)
    {
      if id in w.calls {
        assert CallOk(w, id);
      }
    }
    forall i: nat | i < |w'.sys.submitted|
      ensures CommandOk(w', i)
    {
      assert CommandOk(w, i);
    }
  }

  /** A refused call keeps its record, which no drain will ever touch. */
  lemma RefuseKeepsInv(w: World, id: nat)
    requires WorldInv(w) && id in w.calls && w.calls[id].Registered?
    ensures WorldInv(w.(calls := w.calls[id := Refused(w.calls[id].orig)]))
  {
    hide Inv, Execute, IsKnownOp;
    var w' := w.(calls := w.calls[id := Refused(w.calls[id].orig)]);
    forall other | other in w'.calls
      ensures CallOk(w', other)
    {
      assert CallOk(w, other);
    }
    forall i: nat | i < |w'.sys.submitted|
      ensures CommandOk(w', i)
    {
      assert CommandOk(w, i);
    }
  }

  lemma QueueKeepsCalls(w: World, id: nat, s': Sys)
    requires CallInv(w) && id in w.calls && w.calls[id].Registered?
    requires s'.submitted == w.sys.submitted + [CommandOf(w.calls[id].orig)]
    requires s'.drained == w.sys.drained && s'.rung == w.sys.rung && w.sys.drained <= |w.sys.submitted|
    ensures CallInv(w.(sys := s', calls := w.calls[id := Queued(w.calls[id].orig, |w.sys.submitted|)]))
  {
    hide Execute, IsKnownOp;
    var w' := w.(sys := s', calls := w.calls[id := Queued(w.calls[id].orig, |w.sys.submitted|)]);
    assert CallOk(w, id);
    forall other | other in w'.calls
      ensures CallOk(w', other)
    {
      assert CallOk(w, other);
    }
    forall i: nat | i < |s'.submitted|
      ensures CommandOk(w', i)
    {
      if i < |w.sys.submitted| {
        assert CommandOk(w, i);
      }
    }
  }

  lemma EnqueueKeepsInv(w: World, id: nat)
    requires WorldInv(w) && id in w.calls && w.calls[id].Registered?
    ensures WorldInv(EnqueueMove(w, id))
  {
    var c := CommandOf(w.calls[id].orig);
    SubmitKeepsInv(w.sys, c);
    SubmitHistory(w.sys, c);
    hide Inv, CallInv, SubmitStep, CommandOf;
    if Full(w.sys.link.drv) {
      RefuseKeepsInv(w, id);
    } else {
      QueueKeepsCalls(w, id, SubmitStep(w.sys, c));
    }
  }

  lemma SubmitHistory(s: Sys, c: SqEntry)
    requires Inv(s)
    ensures var s' := SubmitStep(s, c);
      && s'.drained == s.drained && s'.rung == s.rung && s'.written == s.written
      && s'.link.hw.regs == s.link.hw.regs
      && s'.submitted == if Full(s.link.drv) then s.submitted else s.submitted + [c]
  {
  }

  lemma BellKeepsCalls(w: World, id: nat, s': Sys)
    requires CallInv(w) && id in w.calls && w.calls[id].Queued?
    requires SameCommands(w.sys, s') && s'.rung == |s'.submitted|
    ensures CallInv(w.(sys := s', calls := w.calls[id := Waiting(w.calls[id].orig, w.calls[id].index)]))
  {
    hide Execute, IsKnownOp;
    var w' := w.(sys := s', calls := w.calls[id := Waiting(w.calls[id].orig, w.calls[id].index)]);
    forall other | other in w'.calls
      ensures CallOk(w', other)
    {
      assert CallOk(w, other);
    }
    forall i: nat | i < |s'.submitted|
      ensures CommandOk(w', i)
    {
      assert CommandOk(w, i);
    }
  }

  lemma BellKeepsInv(w: World, id: nat, fault: Fault)
    requires WorldInv(w) && id in w.calls && w.calls[id].Queued?
    ensures WorldInv(BellMove(w, id, fault))
  {
    hide Inv, CallInv, RingStep;
    RingKeepsInv(w.sys, fault);
    BellHistory(w.sys, fault);
    BellKeepsCalls(w, id, RingStep(w.sys, fault));
  }

  /** Whether it is refused, faults or runs to the end, a doorbell leaves the commands as they are. */
  lemma BellHistory(s: Sys, fault: Fault)
    requires Inv(s)
    ensures var s' := RingStep(s, fault);
      && SameCommands(s, s') && s'.rung == |s.submitted| && s'.publishing == s.publishing
  {
    hide Slot, Execute, Windows, Indices, RingDoorbell, AnswersOf, TakenBy, AnsweredBy;
  }

  /** A doorbell with no fault has every submitted command answered. */
  lemma BellLeavesReady(s: Sys)
    requires Inv(s) && s.link.hw.regs.state.Ready?
    ensures var s' := RingStep(s, NoFault);
      s'.link.hw.regs.state.Ready? && |s'.written| == |s.submitted|
  {
    JobFinds(s);
    JobLeaves(JobStart(s), NoFault);
    JobCounts(JobStart(s), NoFault);
  }

  /** What a drain takes: the completions of the commands `drained` up to `|written|`. */
  lemma TakenAre(w: World)
    requires WorldInv(w) && !w.sys.publishing
    ensures |TakenNow(w.sys)| == |w.sys.written| - w.sys.drained
    ensures |w.sys.written| <= |w.sys.submitted|
    ensures forall j: nat | j < |TakenNow(w.sys)| ::
              TakenNow(w.sys)[j] == Execute(w.sys.submitted[w.sys.drained + j])
  {
    hide Slot, Execute, CallInv, DrainFrom;
    DrainIsComplete(w.sys);
  }

  /** Each completion taken has its own caller waiting. */
  lemma TakenHaveCallers(w: World, j: nat)
    requires WorldInv(w) && !w.sys.publishing && j < |TakenNow(w.sys)|
    ensures TakenNow(w.sys)[j].cmdId in w.pending
    ensures |TakenNow(w.sys)| == |w.sys.written| - w.sys.drained <= |w.sys.submitted| - w.sys.drained
    ensures var id := TakenNow(w.sys)[j].cmdId;
      id in w.calls && Placed(w.calls[id]) && w.calls[id].index == w.sys.drained + j
  {
    TakenAre(w);
    hide Execute, Inv, TakenNow, IsKnownOp;
    assert CommandOk(w, w.sys.drained + j);
    assert CallOk(w, TakenNow(w.sys)[j].cmdId);
  }

  lemma TakenAreDistinct(w: World)
    requires WorldInv(w) && !w.sys.publishing
    ensures DistinctIds(TakenNow(w.sys))
    ensures forall j: nat | j < |TakenNow(w.sys)| :: TakenNow(w.sys)[j].cmdId in w.pending
  {
    hide Inv, CallInv, WokenOk, TakenNow, Execute;
    forall j: nat | j < |TakenNow(w.sys)|
      ensures TakenNow(w.sys)[j].cmdId in w.pending
      ensures var id := TakenNow(w.sys)[j].cmdId;
        id in w.calls && Placed(w.calls[id]) && w.calls[id].index == w.sys.drained + j
    {
      TakenHaveCallers(w, j);
    }
  }

  lemma TakeFacts(w: World)
    requires WorldInv(w) && !w.sys.publishing
    ensures var w' := TakeMove(w);
      && w'.calls == w.calls && w'.counter == w.counter
      && w'.pending == DeliverAll(w.pending, TakenNow(w.sys))
      && w'.woken == w.woken + IdsOf(TakenNow(w.sys))
      && w'.strays == w.strays + Strays(w.pending, TakenNow(w.sys))
      && w'.sys == DrainStep(w.sys)
      && w'.sys.submitted == w.sys.submitted && w'.sys.written == w.sys.written && w'.sys.rung == w.sys.rung
      && w'.sys.drained == w.sys.drained + |TakenNow(w.sys)|
      && w'.sys.link.hw.regs == w.sys.link.hw.regs
  {
  }

  /** A drain wakes the callers of the completions it takes and no others. */
  lemma TakeReaches(w: World, id: nat)
    requires WorldInv(w) && !w.sys.publishing && id in w.calls && id in w.pending
    ensures id in DeliverAll(w.pending, TakenNow(w.sys))
    ensures var s, c, p := w.sys, w.calls[id], DeliverAll(w.pending, TakenNow(w.sys))[id];
      if Placed(c) && s.drained <= c.index < s.drained + |TakenNow(s)|
      then c.index < |s.submitted| && p == Wake(w.pending[id], Execute(s.submitted[c.index]))
      else p == w.pending[id]
  {
    hide Execute, Inv, IsKnownOp, TakenNow, CallInv, DeliverAll, WokenOk, CallOk, Wake;
    var s, c := w.sys, w.calls[id];
    if Placed(c) && s.drained <= c.index < s.drained + |TakenNow(s)| {
      TakeHits(w, id);
    } else {
      TakeSkips(w, id);
      DeliverKeepsCallers(w.pending, TakenNow(w.sys));
    }
  }

  lemma PlacedCommand(w: World, id: nat)
    requires WorldInv(w) && id in w.calls && Placed(w.calls[id])
    ensures var i := w.calls[id].index; i < |w.sys.submitted| && w.sys.submitted[i].cmdId == id
  {
    hide Inv, WokenOk, Execute, RecordOf;
    assert CallOk(w, id);
  }

  lemma TakeHits(w: World, id: nat)
    requires WorldInv(w) && !w.sys.publishing && id in w.calls && id in w.pending
    requires var c := w.calls[id];
      Placed(c) && w.sys.drained <= c.index < w.sys.drained + |TakenNow(w.sys)|
    ensures var s, c, p := w.sys, w.calls[id], DeliverAll(w.pending, TakenNow(w.sys));
      id in p && c.index < |s.submitted| && p[id] == Wake(w.pending[id], Execute(s.submitted[c.index]))
  {
    var j: nat := w.calls[id].index - w.sys.drained;
    hide Execute, Inv, TakenNow, CallInv, DeliverAll, WokenOk, Wake, DistinctIds;
    PlacedCommand(w, id);
    assert TakenNow(w.sys)[j] == Execute(w.sys.submitted[w.calls[id].index]) by {
      TakenAre(w);
    }
    TakenAreDistinct(w);
    hide WorldInv;
    DeliverReaches(w.pending, TakenNow(w.sys), j);
  }

  lemma TakeSkips(w: World, id: nat)
    requires WorldInv(w) && !w.sys.publishing && id in w.calls && id in w.pending
    requires var c := w.calls[id];
      !(Placed(c) && w.sys.drained <= c.index < w.sys.drained + |TakenNow(w.sys)|)
    ensures var p := DeliverAll(w.pending, TakenNow(w.sys)); id in p && p[id] == w.pending[id]
  {
    hide Execute, TakenNow, DeliverAll, Inv, CallInv, WokenOk, CallOk;
    forall j: nat | j < |TakenNow(w.sys)|
      ensures TakenNow(w.sys)[j].cmdId != id
    {
      TakenHaveCallers(w, j);
    }
    DeliverSkips(w.pending, TakenNow(w.sys), id);
  }

  /** One call after a drain. */
  lemma TakeKeepsCall(w: World, id: nat)
    requires WorldInv(w) && !w.sys.publishing && id in w.calls
    ensures CallOk(TakeMove(w), id)
  {
    TakeFacts(w);
    assert CallOk(w, id);
    hide Execute, Inv, TakeMove, IsKnownOp, TakenNow, CallInv, DeliverAll, WokenOk;
    DeliverKeepsCallers(w.pending, TakenNow(w.sys));
    if id in w.pending {
      TakeReaches(w, id);
    }
  }

  lemma TakeKeepsCalls(w: World)
    requires WorldInv(w) && !w.sys.publishing
    ensures CallInv(TakeMove(w))
  {
    var w' := TakeMove(w);
    TakeFacts(w);
    hide Execute, Inv, TakeMove, CallOk, TakenNow, DeliverAll;
    DeliverKeepsCallers(w.pending, TakenNow(w.sys));
    forall id | id in w'.calls
      ensures CallOk(w', id)
    {
      TakeKeepsCall(w, id);
    }
    forall i: nat | i < |w'.sys.submitted|
      ensures CommandOk(w', i)
    {
      assert CommandOk(w, i);
    }
  }

  lemma WokenExtends(w: World, w': World, taken: seq<CqEntry>)
    requires WokenOk(w) && w'.strays == 0 && w'.woken == w.woken + IdsOf(taken)
    requires w'.sys.submitted == w.sys.submitted
    requires w'.sys.drained == w.sys.drained + |taken| <= |w.sys.submitted|
    requires forall j: nat | j < |taken| :: taken[j] == Execute(w.sys.submitted[w.sys.drained + j])
    ensures WokenOk(w')
  {
    hide Execute;
    forall i: nat | i < |w'.woken|
      ensures w'.woken[i] == w.sys.submitted[i].cmdId
    {
      if i >= |w.woken| {
        assert taken[i - |w.woken|] == Execute(w.sys.submitted[i]);
      }
    }
  }

  lemma TakeKeepsWoken(w: World)
    requires WorldInv(w) && !w.sys.publishing
    ensures WokenOk(TakeMove(w))
  {
    assert w.strays == 0;
    hide Execute, Inv, TakeMove, CallInv, WokenOk, TakenNow, DeliverAll, Strays, DrainStep, DistinctIds, IdsOf;
    TakeFacts(w);
    TakenAreDistinct(w);
    NoStrays(w.pending, TakenNow(w.sys));
    TakenAre(w);
    WokenExtends(w, TakeMove(w), TakenNow(w.sys));
  }

  lemma TakeKeepsInv(w: World)
    requires WorldInv(w) && !w.sys.publishing
    ensures WorldInv(TakeMove(w))
  {
    TakeFacts(w);
    hide Execute, Inv, TakeMove, DrainStep, CallInv, TakenNow, WokenOk;
    TakeKeepsCalls(w);
    TakeKeepsWoken(w);
    DrainKeepsInv(w.sys);
  }

  lemma ReturnKeepsInv(w: World, id: nat)
    requires WorldInv(w) && CanMove(w, Return(id))
    ensures WorldInv(ReturnMove(w, id))
  {
    hide Execute, Inv, IsKnownOp, WokenOk;
    var w' := ReturnMove(w, id);
    assert CallOk(w, id);
    forall other | other in w'.calls
      ensures CallOk(w', other)
    {
      assert CallOk(w, other);
    }
    forall i: nat | i < |w'.sys.submitted|
      ensures CommandOk(w', i)
    {
      assert CommandOk(w, i);
    }
    assert WokenOk(w') by { WokenByCommands(w, w'); }
  }

  lemma WokenByCommands(w: World, w': World)
    requires WokenOk(w) && w'.sys == w.sys && w'.woken == w.woken && w'.strays == w.strays
    ensures WokenOk(w')
  {
  }

  lemma MoveKeepsInv(w: World, m: Move)
    requires WorldInv(w)
    ensures WorldInv(DoMove(w, m))
  {
    if CanMove(w, m) {
      match m
      case Begin(req) => BeginKeepsInv(w, req);
      case Enqueue(id) => EnqueueKeepsInv(w, id);
      case Bell(id, fault) => BellKeepsInv(w, id, fault);
      case Take => TakeKeepsInv(w);
      case Announce =>
        PublishKeepsInv(w.sys);
        CallsSurvive(w, PublishStep(w.sys));
      case Return(id) => ReturnKeepsInv(w, id);
    }
  }

  // ---- Runs ----------------------------------------------------------------------------

  function RunCalls(w: World, moves: seq<Move>): (w': World)
    requires WorldInv(w)
    ensures WorldInv(w')
    decreases |moves|
  {
    if moves == [] then w
    else
      MoveKeepsInv(RunCalls(w, moves[..|moves| - 1]), moves[|moves| - 1]);
      DoMove(RunCalls(w, moves[..|moves| - 1]), moves[|moves| - 1])
  }

  /** Nobody has called yet: the driver has just probed the device. */
  function Idle(sq: seq<SqEntry>, cq: seq<CqEntry>, dma: Dma): (w: World)
    requires 0 < |sq| == |cq| < 0x1_0000 && DmaOk(dma)
    ensures WorldInv(w)
  {
    ProbeEstablishesInv(sq, cq, dma);
    World(Probed(sq, cq, dma), 1, map[], map[], [], 0)
  }

  /**
    End to end: in every interleaving, a caller that returns gets back its own opcode and
    operands, with its own id and the result and status that executing them gives.
  */
  lemma EndToEnd(w: World, moves: seq<Move>, id: nat)
    requires WorldInv(w)
    ensures var w' := RunCalls(w, moves);
      id in w'.calls && w'.calls[id].Returned? ==>
        var c := w'.calls[id];
        && c.answer.opcode == c.orig.opcode && c.answer.cmdId == id
        && c.answer.arg0 == c.orig.arg0 && c.answer.arg1 == c.orig.arg1
        && c.answer.result == Execute(CommandOf(c.orig)).result
        && c.answer.status == Execute(CommandOf(c.orig)).status
  {
    if id in RunCalls(w, moves).calls {
      assert CallOk(RunCalls(w, moves), id);
    }
  }

  /**
    What that means for the caller: a division by zero is reported as one, and any other
    call but the one whose division C leaves undefined succeeds, with the mathematical result
    if and only if that fits 32 bits.
  */
  lemma CallerGetsResult(w: World, moves: seq<Move>, id: nat)
    requires WorldInv(w)
    ensures var w' := RunCalls(w, moves);
      id in w'.calls && w'.calls[id].Returned? ==>
        var o, answer := w'.calls[id].orig, w'.calls[id].answer;
        && IsKnownOp(o.opcode)
        && if o.opcode == MATH_OP_DIV && o.arg1 == 0
           then answer.status == COMPLETION_ERROR_DIV_BY_ZERO && answer.result == -1
           else IsS32(o.arg0) && IsS32(o.arg1) && !Traps(o.opcode, o.arg0, o.arg1) ==>
             && answer.status == COMPLETION_SUCCESS
             && (answer.result == ExactValue(o.opcode, o.arg0, o.arg1)
                 <==> IsS32(ExactValue(o.opcode, o.arg0, o.arg1)))
  {
    EndToEnd(w, moves, id);
    var w' := RunCalls(w, moves);
    if id in w'.calls && w'.calls[id].Returned? {
      assert CallOk(w', id);
      var o := w'.calls[id].orig;
      hide RunCalls, WorldInv, CallOk, ExactValue;
      if !(o.opcode == MATH_OP_DIV && o.arg1 == 0) && IsS32(o.arg0) && IsS32(o.arg1) {
        ExecuteIsExact(CommandOf(o));
      }
    }
  }

  /** No move loses a call, or forgets what it asked for. */
  lemma MoveKeepsRequest(w: World, m: Move, id: nat)
    requires WorldInv(w) && id in w.calls
    ensures var w' := DoMove(w, m); id in w'.calls && w'.calls[id].orig == w.calls[id].orig
  {
    hide Inv, CallInv, WokenOk, RingStep, SubmitStep, DrainStep, PublishStep, TakenNow;
    BeginIsNew(w);
  }

  /** The first phase, as the ioctl's code registers a request: the next id, and nothing else in it new. */
  lemma BeginRegisters(w: World, req: Req)
    requires WorldInv(w) && CanBegin(w, req)
    ensures var w', id := DoMove(w, Begin(req)), w.counter + 1;
      var r := Req(req.opcode, id, req.arg0, req.arg1, req.result, req.status);
      && w'.counter == id == (w.counter + 1) % 0x1_0000_0000
      && w'.calls == w.calls[id := Registered(r)] && w'.pending == w.pending[id := Pending(r, Unset, false)]
      && w'.sys == w.sys
  {
    hide WorldInv;
  }

  lemma {:induction false} RunKeepsRequest(w: World, req: Req, later: seq<Move>)
    requires WorldInv(w) && CanBegin(w, req)
    ensures var w', id := RunCalls(w, [Begin(req)] + later), w.counter + 1;
      && id in w'.calls
      && w'.calls[id].orig == Req(req.opcode, id, req.arg0, req.arg1, req.result, req.status)
    decreases |later|
  {
    hide RunCalls, WorldInv, DoMove, CanBegin;
    if later == [] {
      BeginRegisters(w, req);
      RunOne(w, Begin(req));
      assert [Begin(req)] + [] == [Begin(req)];
    } else {
      var before, m := [Begin(req)] + later[..|later| - 1], later[|later| - 1];
      RunKeepsRequest(w, req, later[..|later| - 1]);
      RunLast(w, before, m);
      assert [Begin(req)] + later == before + [m];
      MoveKeepsRequest(RunCalls(w, before), m, w.counter + 1);
    }
  }

  lemma RunOne(w: World, m: Move)
    requires WorldInv(w)
    ensures RunCalls(w, [m]) == DoMove(w, m)
  {
    RunNone(w);
    hide RunCalls, DoMove, WorldInv;
    RunLast(w, [], m);
    assert [] + [m] == [m];
  }

  /**
    The whole call, from the request passed in: whatever the other callers, the drains and
    the faults do in between, it comes back with its own opcode and operands, the id it was
    given, and the answer that the numbers of the interface prescribe for them.
  */
  lemma CallerIsAnswered(w: World, req: Req, later: seq<Move>)
    requires WorldInv(w) && CanBegin(w, req)
    ensures var w', id := RunCalls(w, [Begin(req)] + later), w.counter + 1;
      && id in w'.calls
      && (w'.calls[id].Returned? ==>
            var a := w'.calls[id].answer;
            && a.opcode == req.opcode && a.cmdId == id && a.arg0 == req.arg0 && a.arg1 == req.arg1
            && a.result == Execute(SqEntry(req.opcode, id, req.arg0, req.arg1)).result
            && a.status == Execute(SqEntry(req.opcode, id, req.arg0, req.arg1)).status
            && IsAnswer(req.opcode, req.arg0, req.arg1, a.status, a.result))
  {
    hide RunCalls, WorldInv, CanBegin, Execute, IsAnswer;
    RunKeepsRequest(w, req, later);
    EndToEnd(w, [Begin(req)] + later, w.counter + 1);
    ExecuteAnswers(SqEntry(req.opcode, w.counter + 1, req.arg0, req.arg1));
  }

  /** Where the next drain starts: the head the loop stopped at is stored after the lock is released. */
  function DrainHead(s: Sys): nat {
    if s.publishing then s.head else s.link.drv.cqHead
  }

  /**
    Every completion finds its caller; callers are woken once each, in submission order;
    and the commands submitted are those between the device's head and the driver's tail of
    the submission ring, those between the next drain's head and the device's tail of the
    completion ring, those whose callers have been woken, and, in ERROR only, at most one
    that the device has taken without storing its completion.
  */
  lemma WakeUps(w: World, moves: seq<Move>)
    requires WorldInv(w)
    ensures var w' := RunCalls(w, moves); var s, n := w'.sys, Size(w'.sys);
      && w'.strays == 0
      && |w'.woken| <= |s.submitted|
      && (forall i: nat | i < |w'.woken| :: w'.woken[i] == s.submitted[i].cmdId)
      && (forall i: nat, j: nat | i < j < |w'.woken| :: w'.woken[i] != w'.woken[j])
      && s.link.hw.ring.sqHead < n && s.link.drv.sqTail < n
      && DrainHead(s) < n && s.link.hw.ring.cqTail < n
      && var missing := |s.submitted| - Gap(s.link.hw.ring.sqHead, s.link.drv.sqTail, n)
                        - Gap(DrainHead(s), s.link.hw.ring.cqTail, n) - |w'.woken|;
         0 <= missing <= if s.link.hw.regs.state.Error? then 1 else 0
  {
    var w' := RunCalls(w, moves);
    RingsCount(w'.sys);
    hide Gap, Slot;
    forall i: nat, j: nat | i < j < |w'.woken|
      ensures w'.woken[i] != w'.woken[j]
    {
      assert CommandOk(w', i) && CommandOk(w', j);
    }
  }

  lemma RingsCount(s: Sys)
    requires Inv(s)
    ensures var n := Size(s);
      && s.link.hw.ring.sqHead < n && s.link.drv.sqTail < n
      && DrainHead(s) < n && s.link.hw.ring.cqTail < n
      && Gap(s.link.hw.ring.sqHead, s.link.drv.sqTail, n) == |s.submitted| - s.read
      && Gap(DrainHead(s), s.link.hw.ring.cqTail, n) == |s.written| - s.drained
    ensures s.read == |s.written| || (s.link.hw.regs.state.Error? && s.read == |s.written| + 1)
  {
    GapOfCounters(s.read, |s.submitted|, Size(s));
    GapOfCounters(s.drained, |s.written|, Size(s));
  }

  /** A caller is woken exactly when a drain has taken its completion. */
  lemma WokenWhenDrained(w: World, moves: seq<Move>, id: nat)
    requires WorldInv(w)
    ensures var w' := RunCalls(w, moves);
      id in w'.calls && (w'.calls[id].Queued? || w'.calls[id].Waiting?) ==>
        id in w'.pending && (w'.pending[id].done <==> id in w'.woken)
  {
    var w' := RunCalls(w, moves);
    if id in w'.calls && (w'.calls[id].Queued? || w'.calls[id].Waiting?) {
      assert CallOk(w', id);
      var c := w'.calls[id];
      if c.index < |w'.woken| {
        assert w'.woken[c.index] == id;
      }
      if id in w'.woken {
        var i: nat :| i < |w'.woken| && w'.woken[i] == id;
        assert CommandOk(w', i);
      }
    }
  }

  lemma RunLast(w: World, moves: seq<Move>, m: Move)
    requires WorldInv(w)
    ensures RunCalls(w, moves + [m]) == DoMove(RunCalls(w, moves), m)
  {
    assert (moves + [m])[..|moves|] == moves;
  }

  lemma RunNone(w: World)
    requires WorldInv(w)
    ensures RunCalls(w, []) == w
  {
  }

  /** A doorbell takes no completion back. */
  lemma BellWrites(s: Sys, fault: Fault)
    requires Inv(s)
    ensures |RingStep(s, fault).written| >= |s.written|
    ensures s.link.hw.regs.state.Error? ==>
              RingStep(s, fault).written == s.written && RingStep(s, fault).link.hw.regs.state.Error?
  {
    hide Slot, Execute, Windows, Indices, ConsumeN, AnswersOf;
  }

  /**
    A call's command is answered once somebody has rung for it without a fault; and a
    command already answered stays so whatever the state.
  */
  lemma BellAnswers(w: World, id: nat)
    requires WorldInv(w)
    requires id in w.calls && (w.calls[id].Queued? || w.calls[id].Waiting?)
    requires w.sys.link.hw.regs.state.Ready? || w.calls[id].index < |w.sys.written|
    ensures var w' := DoMove(w, Bell(id, NoFault));
      && id in w'.calls && w'.calls[id].Waiting? && w'.calls[id].index == w.calls[id].index < |w'.sys.written|
      && w'.sys.publishing == w.sys.publishing
  {
    assert CallOk(w, id);
    hide Slot, Execute, Windows, Indices, CallOk, RingStep, CallInv, WokenOk;
    BellHistory(w.sys, NoFault);
    BellWrites(w.sys, NoFault);
    if w.sys.link.hw.regs.state.Ready? {
      BellLeavesReady(w.sys);
    }
  }

  /** A drain wakes every waiting caller whose command is answered. */
  lemma DrainWakes(w: World, id: nat)
    requires WorldInv(w) && !w.sys.publishing
    requires id in w.calls && w.calls[id].Waiting? && w.calls[id].index < |w.sys.written|
    ensures CanMove(DoMove(w, Take), Return(id))
  {
    hide Slot, Execute, Inv, DrainStep, TakeMove, TakenNow, WokenOk;
    var w' := TakeMove(w);
    TakeFacts(w);
    TakeKeepsCall(w, id);
    DrainKeepsInv(w.sys);
    assert w'.calls[id].index < w'.sys.drained;
  }

  /** Some run from here brings the call its result before any recovery. */
  ghost predicate CanFinish(w: World, id: nat)
    requires WorldInv(w)
  {
    exists moves: seq<Move> :: HasReturned(RunCalls(w, moves), id)
  }

  predicate HasReturned(w: World, id: nat) {
    id in w.calls && w.calls[id].Returned?
  }

  /** One doorbell and one drain are enough for a call whose command can still be answered. */
  lemma CallCanFinish(w: World, id: nat)
    requires WorldInv(w)
    requires id in w.calls && (w.calls[id].Queued? || w.calls[id].Waiting?)
    requires w.sys.link.hw.regs.state.Ready? || w.calls[id].index < |w.sys.written|
    ensures HasReturned(RunCalls(w, [Announce] + [Bell(id, NoFault)] + [Take] + [Return(id)]), id)
  {
    hide Inv, CallInv, WokenOk, RunCalls, CallOk, DoMove;
    RunFour(w, Announce, Bell(id, NoFault), Take, Return(id));
    AnnounceFirst(w);
    var w1 := DoMove(w, Announce);
    BellAnswers(w1, id);
    var w2 := DoMove(w1, Bell(id, NoFault));
    DrainWakes(w2, id);
    ReturnReturns(DoMove(w2, Take), id);
  }

  lemma AnnounceFirst(w: World)
    requires WorldInv(w)
    ensures var w' := DoMove(w, Announce);
      && WorldInv(w') && w'.calls == w.calls && !w'.sys.publishing
      && w'.sys.written == w.sys.written && w'.sys.link.hw.regs == w.sys.link.hw.regs
  {
    hide Inv, CallInv, WokenOk;
    MoveKeepsInv(w, Announce);
  }

  lemma ReturnReturns(w: World, id: nat)
    requires WorldInv(w) && CanMove(w, Return(id))
    ensures HasReturned(DoMove(w, Return(id)), id)
  {
  }

  lemma RunFour(w: World, m1: Move, m2: Move, m3: Move, m4: Move)
    requires WorldInv(w)
    ensures WorldInv(DoMove(w, m1)) && WorldInv(DoMove(DoMove(w, m1), m2))
    ensures WorldInv(DoMove(DoMove(DoMove(w, m1), m2), m3))
    ensures RunCalls(w, [m1] + [m2] + [m3] + [m4]) == DoMove(DoMove(DoMove(DoMove(w, m1), m2), m3), m4)
  {
    RunNone(w);
    hide RunCalls, DoMove, WorldInv;
    RunLast(w, [], m1);
    RunLast(w, [m1], m2);
    RunLast(w, [m1] + [m2], m3);
    RunLast(w, [m1] + [m2] + [m3], m4);
    assert [] + [m1] == [m1];
  }

  /** A call that begins with the device READY and room in the ring gets through, whoever else is about. */
  lemma CallCompletes(w: World, req: Req)
    requires WorldInv(w) && CanBegin(w, req)
    requires w.sys.link.hw.regs.state.Ready? && !Full(w.sys.link.drv)
    ensures var id := w.counter + 1;
      HasReturned(RunCalls(w, [Begin(req)] + ([Enqueue(id)] + ([Announce] + [Bell(id, NoFault)] + [Take] + [Return(id)]))), id)
  {
    var id := w.counter + 1;
    hide Inv, CallInv, WokenOk, RunCalls, DoMove;
    MoveKeepsInv(w, Begin(req));
    var w1 := DoMove(w, Begin(req));
    BeginRegisters(w, req);
    MoveKeepsInv(w1, Enqueue(id));
    var w2 := DoMove(w1, Enqueue(id));
    EnqueueOutcome(w1, id);
    CallCanFinish(w2, id);
    var rest := [Announce] + [Bell(id, NoFault)] + [Take] + [Return(id)];
    hide WorldInv;
    RunFirst(w, Begin(req), [Enqueue(id)] + rest);
    RunFirst(w1, Enqueue(id), rest);
  }

  /** A submission is refused when the ring is full, and touches nothing; otherwise it is the last one of the ring. */
  lemma EnqueueOutcome(w: World, id: nat)
    requires WorldInv(w) && id in w.calls && w.calls[id].Registered?
    ensures var w', r := DoMove(w, Enqueue(id)), w.calls[id].orig;
      && id in w'.calls && w'.pending == w.pending && w'.sys.link.hw.regs == w.sys.link.hw.regs
      && if Full(w.sys.link.drv) then w'.calls[id] == Refused(r) && w'.sys == w.sys
         else w'.calls[id] == Queued(r, |w.sys.submitted|)
              && w'.sys.submitted == w.sys.submitted + [SqEntry(r.opcode, r.cmdId, r.arg0, r.arg1)]
  {
    hide Inv, CallInv, WokenOk, SubmitStep;
    SubmitHistory(w.sys, CommandOf(w.calls[id].orig));
  }

  lemma {:induction false} RunFirst(w: World, m: Move, later: seq<Move>)
    requires WorldInv(w) && WorldInv(DoMove(w, m))
    ensures RunCalls(w, [m] + later) == RunCalls(DoMove(w, m), later)
    decreases |later|
  {
    hide RunCalls, WorldInv, DoMove;
    if later == [] {
      RunOne(w, m);
      RunNone(DoMove(w, m));
      assert [m] + [] == [m];
    } else {
      var front, last := later[..|later| - 1], later[|later| - 1];
      RunFirst(w, m, front);
      assert [m] + later == [m] + front + [last] && later == front + [last];
      RunLast(w, [m] + front, last);
      RunLast(DoMove(w, m), front, last);
    }
  }

  /** In ERROR no move adds a completion, and no placed call loses its place. */
  lemma ErrorMove(w: World, m: Move, id: nat)
    requires WorldInv(w) && w.sys.link.hw.regs.state.Error?
    requires id in w.calls && Placed(w.calls[id])
    ensures var w' := DoMove(w, m);
      && w'.sys.link.hw.regs.state.Error? && w'.sys.written == w.sys.written
      && id in w'.calls && Placed(w'.calls[id]) && w'.calls[id].index == w.calls[id].index
  {
    hide Inv, CallInv, WokenOk, CallOk, RingStep, SubmitStep, DrainStep;
    if CanMove(w, m) {
      match m
      case Begin(req) => BeginIsNew(w);
      case Enqueue(other) => SubmitHistory(w.sys, CommandOf(w.calls[other].orig));
      case Bell(other, fault) => BellWrites(w.sys, fault);
      case Take => TakeFacts(w);
      case Announce =>
      case Return(other) =>
    }
  }

  lemma {:induction false} ErrorRun(w: World, moves: seq<Move>, id: nat)
    requires WorldInv(w) && w.sys.link.hw.regs.state.Error?
    requires id in w.calls && Placed(w.calls[id])
    ensures var w' := RunCalls(w, moves);
      && w'.sys.link.hw.regs.state.Error? && w'.sys.written == w.sys.written
      && id in w'.calls && Placed(w'.calls[id]) && w'.calls[id].index == w.calls[id].index
    decreases |moves|
  {
    if moves != [] {
      var before := moves[..|moves| - 1];
      ErrorRun(w, before, id);
      hide WorldInv, DoMove;
      ErrorMove(RunCalls(w, before), moves[|moves| - 1], id);
    }
  }

  lemma Stranded(w: World, moves: seq<Move>, id: nat)
    requires WorldInv(w) && w.sys.link.hw.regs.state.Error?
    requires id in w.calls && Placed(w.calls[id]) && w.calls[id].index >= |w.sys.written|
    ensures !HasReturned(RunCalls(w, moves), id)
  {
    ErrorRun(w, moves, id);
    var w' := RunCalls(w, moves);
    hide RunCalls, Indices, Windows, Answers, Execute, RecordOf;
    assert CallOk(w', id);
  }

  /**
    Which calls a fault strands: from any state a run reaches, a call whose command is in
    the ring can still get its result exactly if the device is not in ERROR or has answered
    that command before the fault; the others are left to the recovery.
  */
  lemma CanFinishIff(w: World, id: nat)
    requires WorldInv(w)
    requires id in w.calls && (w.calls[id].Queued? || w.calls[id].Waiting?)
    ensures CanFinish(w, id) <==> w.sys.link.hw.regs.state.Ready? || w.calls[id].index < |w.sys.written|
  {
    hide WorldInv, RunCalls, HasReturned;
    if w.sys.link.hw.regs.state.Ready? || w.calls[id].index < |w.sys.written| {
      CallCanFinish(w, id);
    } else {
      StateIs(w);
      forall moves: seq<Move>
        ensures !HasReturned(RunCalls(w, moves), id)
      {
        Stranded(w, moves, id);
      }
    }
  }

  lemma StateIs(w: World)
    requires WorldInv(w)
    ensures w.sys.link.hw.regs.state.Ready? || w.sys.link.hw.regs.state.Error?
  {
  }
}
