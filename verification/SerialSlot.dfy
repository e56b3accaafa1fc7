/** The transfer slot of a serial session (commands/serial_commands.rs).

    A transfer takes the slot of its tab, runs on the tab's worker and gives the
    slot back if it still owns it. Stopping the worker empties the slot, and the
    tab may get a new worker and a new transfer before the old one is done. */
module SerialSlot {
  import opened Wrappers

  type TabId = string
  type TransferId = nat
  type WorkerId = nat

  datatype Slots = Slots(owner: map<TabId, TransferId>, cancelled: set<TransferId>)

  function Register(s: Slots, tab: TabId, id: TransferId): Slots {
    if tab in s.owner then s else s.(owner := s.owner[tab := id])
  }

  /** Only the transfer that owns the slot empties it. */
  function GiveBack(s: Slots, tab: TabId, id: TransferId): Slots {
    if tab in s.owner && s.owner[tab] == id then s.(owner := s.owner - {tab}) else s
  }

  /** Stopping a worker empties the slot and cancels the transfer in it. */
  function Evict(s: Slots, tab: TabId): Slots {
    if tab in s.owner then Slots(s.owner - {tab}, s.cancelled + {s.owner[tab]}) else s
  }

  class SerialTransfers {
    var owner: map<TabId, TransferId>
    var cancelled: set<TransferId>

    function Value(): Slots
      reads this
    {
      Slots(owner, cancelled)
    }

    constructor ()
      ensures Value() == Slots(map[], {})
    {
      owner, cancelled := map[], {};
    }

    method TryRegister(tab: TabId, id: TransferId) returns (registered: bool)
      modifies this
      ensures registered == (tab !in old(owner))
      ensures Value() == Register(old(Value()), tab, id)
    {
      registered := tab !in owner;
      if registered {
        owner := owner[tab := id];
      }
    }

    /** Afterwards the transfer owns no slot of its tab; a slot it did not own is as
        it was, of its own tab or of another, and no token but its own is touched. */
    method Finish(tab: TabId, id: TransferId, ok: bool)
      modifies this
      ensures forall t :: t in owner <==> t in old(owner) && !(t == tab && old(owner)[t] == id)
      ensures forall t :: t in owner ==> owner[t] == old(owner)[t]
      ensures forall other :: other in cancelled <==> other in old(cancelled) || (other == id && !ok)
      ensures Value() == GiveBack(if ok then old(Value()) else old(Value()).(cancelled := old(cancelled) + {id}), tab, id)
    {
      if !ok {
        cancelled := cancelled + {id};
      }
      if tab in owner && owner[tab] == id {
        owner := owner - {tab};
      }
    }

    method StopWorker(tab: TabId)
      modifies this
      ensures Value() == Evict(old(Value()), tab)
    {
      if tab in owner {
        cancelled := cancelled + {owner[tab]};
        owner := owner - {tab};
      }
    }
  }

  // ----- transfers and workers, interleaved

  datatype Phase = Prepared | Running | Ended(ok: bool)

  /** The token of a transfer is a child of the token of worker `worker`. */
  datatype Transfer = Transfer(tab: TabId, worker: WorkerId, phase: Phase)

  /** `asked` are the transfers whose token a cancel command has in hand. */
  datatype State = State(
    slots: Slots,
    transfers: map<TransferId, Transfer>,
    used: set<TransferId>,
    workers: map<TabId, WorkerId>,
    stopped: set<WorkerId>,
    asked: set<TransferId>)

  datatype Step =
    | StartWorker(tab: TabId, worker: WorkerId)
    | Prepare(prepared: TransferId, on: TabId)
    | TakeSlot(taking: TransferId)
    | End(ending: TransferId, ok: bool)
    | FreeSlot(freeing: TransferId)
    | AskCancel(of: TabId)
    | Cancel(cancelling: TransferId)
    | EvictSlot(evicted: TabId)
    | StopControl(stopping: TabId)

  predicate Enabled(s: State, e: Step) {
    match e
    case StartWorker(_, w) => w !in s.stopped && forall t :: t in s.workers ==> s.workers[t] != w
    case Prepare(id, tab) => id !in s.used && tab in s.workers
    case TakeSlot(id) => id in s.transfers && s.transfers[id].phase.Prepared?
    case End(id, _) => id in s.transfers && s.transfers[id].phase.Running?
    case FreeSlot(id) => id in s.transfers && s.transfers[id].phase.Ended?
    case AskCancel(tab) => tab in s.slots.owner
    case Cancel(id) => id in s.asked
    case EvictSlot(_) => true
    case StopControl(_) => true
  }

  function Next(s: State, e: Step): State
    requires Enabled(s, e)
  {
    match e
    case StartWorker(tab, w) => s.(workers := s.workers[tab := w])
    case Prepare(id, tab) =>
      s.(transfers := s.transfers[id := Transfer(tab, s.workers[tab], Prepared)], used := s.used + {id})
    case TakeSlot(id) =>
      var tab := s.transfers[id].tab;
      if tab in s.slots.owner then s.(transfers := s.transfers - {id})
      else s.(slots := Register(s.slots, tab, id), transfers := s.transfers[id := s.transfers[id].(phase := Running)])
    case End(id, ok) =>
      s.(transfers := s.transfers[id := s.transfers[id].(phase := Ended(ok))],
         slots := if ok then s.slots else s.slots.(cancelled := s.slots.cancelled + {id}))
    case FreeSlot(id) =>
      s.(slots := GiveBack(s.slots, s.transfers[id].tab, id), transfers := s.transfers - {id})
    case AskCancel(tab) => s.(asked := s.asked + {s.slots.owner[tab]})
    case Cancel(id) => s.(slots := s.slots.(cancelled := s.slots.cancelled + {id}))
    case EvictSlot(tab) => s.(slots := Evict(s.slots, tab))
    case StopControl(tab) =>
      if tab in s.workers then s.(workers := s.workers - {tab}, stopped := s.stopped + {s.workers[tab]}) else s
  }

  const INITIAL := State(Slots(map[], {}), map[], {}, map[], {}, {})

  /** The token of the transfer, or that of its worker, is cancelled. */
  predicate IsCancelled(s: State, id: TransferId)
    requires id in s.transfers
  {
    id in s.slots.cancelled || s.transfers[id].worker in s.stopped
  }

  predicate HasTakenSlot(t: Transfer) {
    !t.phase.Prepared?
  }

  /** Every slot belongs to a transfer of that tab still in flight. */
  predicate SlotsAreOwned(s: State) {
    forall tab :: tab in s.slots.owner ==>
      var id := s.slots.owner[tab];
      id in s.transfers && s.transfers[id].tab == tab && HasTakenSlot(s.transfers[id])
  }

  /** A transfer that took its tab's slot still has it, or its token has been
      cancelled; one that ended in error has its token cancelled in any case. */
  predicate LosersAreCancelled(s: State) {
    forall id :: id in s.transfers ==>
      var t := s.transfers[id];
      && (HasTakenSlot(t) ==> (t.tab in s.slots.owner && s.slots.owner[t.tab] == id) || id in s.slots.cancelled)
      && (t.phase == Ended(false) ==> id in s.slots.cancelled)
  }

  /** The workers of different tabs differ, and none of them has been stopped. */
  predicate WorkersAreKnown(s: State) {
    && s.transfers.Keys <= s.used
    && (forall tab :: tab in s.workers ==> s.workers[tab] !in s.stopped)
    && (forall a, b :: a in s.workers && b in s.workers && a != b ==> s.workers[a] != s.workers[b])
  }

  predicate Inv(s: State) {
    SlotsAreOwned(s) && LosersAreCancelled(s) && WorkersAreKnown(s)
  }

  lemma StepKeepsSlotsOwned(s: State, e: Step)
    requires Inv(s) && Enabled(s, e)
    ensures SlotsAreOwned(Next(s, e))
  {
  }

  lemma StepKeepsLosersCancelled(s: State, e: Step)
    requires Inv(s) && Enabled(s, e)
    ensures LosersAreCancelled(Next(s, e))
  {
  }

  lemma StepKeepsWorkersKnown(s: State, e: Step)
    requires Inv(s) && Enabled(s, e)
    ensures WorkersAreKnown(Next(s, e))
  {
  }

  lemma StepKeepsInv(s: State, e: Step)
    requires Inv(s) && Enabled(s, e)
    ensures Inv(Next(s, e))
  {
    StepKeepsSlotsOwned(s, e);
    StepKeepsLosersCancelled(s, e);
    StepKeepsWorkersKnown(s, e);
  }

  ghost predicate Runnable(s: State, run: seq<Step>)
    decreases run
  {
    run == [] || (Enabled(s, run[0]) && Runnable(Next(s, run[0]), run[1..]))
  }

  function After(s: State, run: seq<Step>): State
    requires Runnable(s, run)
    decreases run
  {
    if run == [] then s else After(Next(s, run[0]), run[1..])
  }

  lemma {:induction false} EveryRunKeepsInv(s: State, run: seq<Step>)
    requires Inv(s) && Runnable(s, run)
    ensures Inv(After(s, run))
    decreases run
  {
    if run != [] {
      StepKeepsInv(s, run[0]);
      EveryRunKeepsInv(Next(s, run[0]), run[1..]);
    }
  }

  // ----- what a run guarantees

  /** Of two transfers of one tab that both got past the slot, one is cancelled. */
  lemma AtMostOneLiveTransfer(run: seq<Step>, a: TransferId, b: TransferId)
    requires Runnable(INITIAL, run)
    requires var s := After(INITIAL, run);
             && a in s.transfers && b in s.transfers && a != b
             && s.transfers[a].tab == s.transfers[b].tab
             && HasTakenSlot(s.transfers[a]) && HasTakenSlot(s.transfers[b])
    ensures var s := After(INITIAL, run); IsCancelled(s, a) || IsCancelled(s, b)
  {
    EveryRunKeepsInv(INITIAL, run);
  }

  /** A transfer that ends never frees the slot of another one, of its own tab or
      of any other tab; its own slot is free afterwards. */
  lemma EndingKeepsOtherSlots(run: seq<Step>, id: TransferId, tab: TabId)
    requires Runnable(INITIAL, run) && Enabled(After(INITIAL, run), FreeSlot(id))
    ensures var s := After(INITIAL, run); var next := Next(s, FreeSlot(id));
            && (tab in s.slots.owner && s.slots.owner[tab] != id ==>
                  tab in next.slots.owner && next.slots.owner[tab] == s.slots.owner[tab])
            && (tab in next.slots.owner ==>
                  tab in s.slots.owner && next.slots.owner[tab] == s.slots.owner[tab] && next.slots.owner[tab] != id)
  {
    EveryRunKeepsInv(INITIAL, run);
  }

  /** Stopping a worker cancels every transfer prepared for it: the one in the
      slot, and also one that takes the slot only afterwards. */
  lemma StoppedWorkerCancelsItsTransfers(s: State, tab: TabId, id: TransferId)
    requires Inv(s) && tab in s.workers && id in s.transfers && s.transfers[id].worker == s.workers[tab]
    ensures var next := Next(Next(s, EvictSlot(tab)), StopControl(tab));
            id in next.transfers && IsCancelled(next, id) && tab !in next.slots.owner && tab !in next.workers
  {
  }

  /** A cancelled transfer stays cancelled for as long as it is in flight. */
  lemma {:induction false} CancelledStays(s: State, run: seq<Step>, id: TransferId)
    requires Runnable(s, run) && id in s.transfers && id in After(s, run).transfers && Inv(s)
    requires IsCancelled(s, id)
    ensures IsCancelled(After(s, run), id)
    decreases run
  {
    if run != [] {
      var next := Next(s, run[0]);
      StepKeepsInv(s, run[0]);
      if id !in next.transfers {
        GoneStaysGone(next, run[1..], id);
      } else {
        CancelledStays(next, run[1..], id);
      }
    }
  }

  lemma {:induction false} GoneStaysGone(s: State, run: seq<Step>, id: TransferId)
    requires Runnable(s, run) && id in s.used && id !in s.transfers
    ensures id !in After(s, run).transfers
    decreases run
  {
    if run != [] {
      GoneStaysGone(Next(s, run[0]), run[1..], id);
    }
  }

  /** When no transfer is in flight every slot is free. */
  lemma IdleMeansFree(run: seq<Step>)
    requires Runnable(INITIAL, run) && After(INITIAL, run).transfers == map[]
    ensures After(INITIAL, run).slots.owner == map[]
  {
    EveryRunKeepsInv(INITIAL, run);
  }
}
