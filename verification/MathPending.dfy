/**
  Requests and the records of the callers that wait for them.
*/
module MathPending {
  import opened MathOps

  /** The request a caller passes in and gets back. */
  datatype Req = Req(opcode: nat, cmdId: nat, arg0: int, arg1: int, result: int, status: nat)

  /** Why a waiting caller is woken. */
  datatype Cause = Unset | JobDone | CmdDone | Failed | ShuttingDown

  /** A waiting caller: its request, why it was woken, and whether it was. */
  datatype Pending = Pending(req: Req, cause: Cause, done: bool)

  /** The callers waiting, by command id. */
  type PendingMap = map<nat, Pending>

  /** The command a request becomes. */
  function CommandOf(r: Req): SqEntry {
    SqEntry(r.opcode, r.cmdId, r.arg0, r.arg1)
  }

  /** The request with a completion's result and status filled in. */
  function Answered(r: Req, e: CqEntry): Req {
    r.(result := e.result, status := e.status)
  }

  function Wake(p: Pending, e: CqEntry): Pending {
    Pending(Answered(p.req, e), JobDone, true)
  }

  /** A completion is handed to the caller with its command id, if there is one. */
  function Deliver(p: PendingMap, e: CqEntry): PendingMap {
    if e.cmdId in p then p[e.cmdId := Wake(p[e.cmdId], e)] else p
  }

  function DeliverAll(p: PendingMap, es: seq<CqEntry>): PendingMap {
    if es == [] then p else Deliver(DeliverAll(p, es[..|es| - 1]), es[|es| - 1])
  }

  /** How many of the completions have no caller. */
  function Strays(p: PendingMap, es: seq<CqEntry>): nat {
    if es == [] then 0
    else Strays(p, es[..|es| - 1]) + (if es[|es| - 1].cmdId in p then 0 else 1)
  }

  /** The command ids, in order. */
  function IdsOf(es: seq<CqEntry>): (ids: seq<nat>)
    ensures |ids| == |es|
    ensures forall i: nat | i < |ids| :: ids[i] == es[i].cmdId
  {
    seq(|es|, i requires 0 <= i < |es| => es[i].cmdId)
  }

  predicate DistinctIds(es: seq<CqEntry>) {
    forall i: nat, j: nat | i < j < |es| :: es[i].cmdId != es[j].cmdId
  }

  /** Delivery adds and removes no caller. */
  lemma {:induction false} DeliverKeepsCallers(p: PendingMap, es: seq<CqEntry>)
    ensures DeliverAll(p, es).Keys == p.Keys
  {
    if es != [] {
      DeliverKeepsCallers(p, es[..|es| - 1]);
    }
  }

  /** A caller none of the completions is for is left alone. */
  lemma {:induction false} DeliverSkips(p: PendingMap, es: seq<CqEntry>, id: nat)
    requires id in p
    requires forall j: nat | j < |es| :: es[j].cmdId != id
    ensures id in DeliverAll(p, es) && DeliverAll(p, es)[id] == p[id]
  {
    if es != [] {
      DeliverSkips(p, es[..|es| - 1], id);
    }
  }

  /** With distinct ids, each caller gets the one completion that is for it. */
  lemma {:induction false} DeliverReaches(p: PendingMap, es: seq<CqEntry>, j: nat)
    requires j < |es| && DistinctIds(es)
    requires es[j].cmdId in p
    ensures es[j].cmdId in DeliverAll(p, es)
    ensures DeliverAll(p, es)[es[j].cmdId] == Wake(p[es[j].cmdId], es[j])
  {
    var n := |es| - 1;
    if j == n {
      DeliverSkips(p, es[..n], es[j].cmdId);
    } else {
      assert es[..n][j] == es[j];
      DeliverReaches(p, es[..n], j);
    }
  }

  lemma {:induction false} NoStrays(p: PendingMap, es: seq<CqEntry>)
    requires forall j: nat | j < |es| :: es[j].cmdId in p
    ensures Strays(p, es) == 0
  {
    if es != [] {
      NoStrays(p, es[..|es| - 1]);
    }
  }

  /** Every caller is told of a device error. */
  function FailAll(p: PendingMap): PendingMap {
    map id | id in p :: Pending(p[id].req.(result := -1), Failed, true)
  }

  /** Nobody is left out or added, and all are woken to be told of the error, with result -1. */
  lemma FailAllTells(p: PendingMap, id: nat)
    ensures FailAll(p).Keys == p.Keys
    ensures id in p ==>
              var r, q := p[id].req, FailAll(p)[id];
              && q.done && q.cause == Failed
              && q.req == Req(r.opcode, r.cmdId, r.arg0, r.arg1, -1, r.status)
  {
  }

  /** A drain tells a caller the result and status of its completion, and that it is one. */
  lemma DeliveredTells(p: PendingMap, es: seq<CqEntry>, j: nat)
    requires j < |es| && DistinctIds(es) && es[j].cmdId in p
    ensures var r := p[es[j].cmdId].req;
            es[j].cmdId in DeliverAll(p, es)
            && DeliverAll(p, es)[es[j].cmdId] ==
               Pending(Req(r.opcode, r.cmdId, r.arg0, r.arg1, es[j].result, es[j].status), JobDone, true)
  {
    DeliverReaches(p, es, j);
  }
}
