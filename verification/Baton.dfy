/** The two-lane lease protocol of bench-baton as a transition system: one step for each
    flock that succeeds, each update of the recorded state, each cancellation, crash and
    reap.  A failed poll is no step. */
module Baton {
  import opened Wire

  // --------------------------------------------------------- recorded state

  /** state.json: the tokens recorded as holding and as waiting, and the shared lane's
      capacity, 0 while none is recorded.  A token is its worker's number. */
  datatype Records = Records(holders: seq<nat>, waiters: seq<nat>, max: nat)

  const DEFAULT_MAX: nat := 4

  predicate Busy(r: Records) {
    r.holders != [] || r.waiters != []
  }

  /** settleCapacity: None when a different capacity is asked for of a busy pool; a
      request of 0 or less takes the pool's. */
  function Settle(r: Records, requested: int): Option<nat> {
    if requested <= 0 then Some(if r.max == 0 then DEFAULT_MAX else r.max)
    else if r.max == requested || r.max == 0 || !Busy(r) then Some(requested)
    else None
  }

  /** The list without an entry. */
  function Without(ids: seq<nat>, id: nat): (r: seq<nat>)
    ensures forall x :: x in r <==> x in ids && x != id
  {
    if ids == [] then [] else (if ids[0] == id then [] else [ids[0]]) + Without(ids[1..], id)
  }

  /** The entries whose process is alive, in order. */
  function Alive(ids: seq<nat>, alive: nat -> bool): (r: seq<nat>)
    ensures forall x :: x in r <==> x in ids && alive(x)
  {
    if ids == [] then [] else (if alive(ids[0]) then [ids[0]] else []) + Alive(ids[1..], alive)
  }

  function Not(alive: nat -> bool): nat -> bool {
    (x: nat) => !alive(x)
  }

  /** The bookkeeping object that mutateState's callbacks update. */
  class State {
    var holders: seq<nat>
    var waiters: seq<nat>
    var maxShared: nat

    ghost function Now(): Records
      reads this
    {
      Records(holders, waiters, maxShared)
    }

    constructor ()
      ensures Now() == Records([], [], 0)
    {
      holders, waiters, maxShared := [], [], 0;
    }

    method SettleCapacity(requested: int) returns (c: Option<nat>)
      modifies this`maxShared
      ensures c == Settle(old(Now()), requested)
      ensures Now() == old(Now()).(max := if c.Some? then c.value else old(maxShared))
    {
      var busy := |holders| > 0 || |waiters| > 0;
      if requested <= 0 {
        if maxShared == 0 {
          maxShared := DEFAULT_MAX;
        }
        return Some(maxShared);
      }
      if maxShared == requested {
        return Some(requested);
      }
      if maxShared == 0 || !busy {
        maxShared := requested;
        return Some(requested);
      }
      c := None;
    }

    /** without */
    static method Drop(ids: seq<nat>, id: nat) returns (out: seq<nat>)
      ensures out == Without(ids, id)
    {
      out := [];
      var i := 0;
      assert ids[0..] == ids;
      while i < |ids|
        invariant 0 <= i <= |ids| && out + Without(ids[i..], id) == Without(ids, id)
      {
        assert ids[i..][1..] == ids[i + 1..];
        if ids[i] != id {
          out := out + [ids[i]];
        }
        i := i + 1;
      }
    }

    static method Keep(ids: seq<nat>, alive: nat -> bool) returns (out: seq<nat>, dropped: seq<nat>)
      ensures out == Alive(ids, alive) && dropped == Alive(ids, Not(alive))
    {
      hide Alive, Not;
      out, dropped := [], [];
      var i := 0;
      assert ids[0..] == ids;
      while i < |ids|
        invariant 0 <= i <= |ids| && out + Alive(ids[i..], alive) == Alive(ids, alive)
        invariant dropped + Alive(ids[i..], Not(alive)) == Alive(ids, Not(alive))
      {
        AliveStep(ids, i, alive);
        var id := ids[i];
        ghost var a, d := Alive(ids[i + 1..], alive), Alive(ids[i + 1..], Not(alive));
        if alive(id) {
          assert out + ([id] + a) == (out + [id]) + a && [] + d == d;
          out := out + [id];
        } else {
          assert dropped + ([id] + d) == (dropped + [id]) + d && [] + a == a;
          dropped := dropped + [id];
        }
        i := i + 1;
      }
      assert ids[i..] == [];
      AliveNone(alive);
    }

    /** Settle the capacity and join the queue, under one state lock. */
    method Join(id: nat, requested: int) returns (c: Option<nat>)
      modifies this
      ensures c == Settle(old(Now()), requested)
      ensures Now() == Joined(old(Now()), id, requested)
    {
      c := SettleCapacity(requested);
      if c.Some? {
        waiters := waiters + [id];
      }
    }

    method Grant(id: nat)
      modifies this
      ensures Now() == Granted(old(Now()), id)
    {
      waiters := Drop(waiters, id);
      holders := holders + [id];
    }

    method Withdraw(id: nat)
      modifies this
      ensures Now() == Withdrawn(old(Now()), id)
    {
      waiters := Drop(waiters, id);
    }

    method Release(id: nat)
      modifies this
      ensures Now() == Released(old(Now()), id)
    {
      holders := Drop(holders, id);
      waiters := Drop(waiters, id);
    }

    /** reap, with the entries dropped, holders first. */
    method Reap(alive: nat -> bool) returns (dropped: seq<nat>)
      modifies this
      ensures Now() == Reaped(old(Now()), alive)
      ensures dropped == Alive(old(holders), Not(alive)) + Alive(old(waiters), Not(alive))
    {
      var h, w;
      holders, h := Keep(holders, alive);
      waiters, w := Keep(waiters, alive);
      dropped := h + w;
    }
  }

  lemma AliveStep(ids: seq<nat>, i: nat, alive: nat -> bool)
    requires i < |ids|
    ensures Alive(ids[i..], alive) == (if alive(ids[i]) then [ids[i]] else []) + Alive(ids[i + 1..], alive)
    ensures Alive(ids[i..], Not(alive)) == (if alive(ids[i]) then [] else [ids[i]]) + Alive(ids[i + 1..], Not(alive))
  {
    assert ids[i..][1..] == ids[i + 1..];
  }

  lemma AliveNone(alive: nat -> bool)
    ensures Alive([], alive) == [] && Alive([], Not(alive)) == []
  {
  }

  function Joined(r: Records, id: nat, requested: int): Records {
    match Settle(r, requested)
    case None => r
    case Some(c) => Records(r.holders, r.waiters + [id], c)
  }

  function Granted(r: Records, id: nat): Records {
    Records(r.holders + [id], Without(r.waiters, id), r.max)
  }

  function Withdrawn(r: Records, id: nat): Records {
    r.(waiters := Without(r.waiters, id))
  }

  function Released(r: Records, id: nat): Records {
    r.(holders := Without(r.holders, id), waiters := Without(r.waiters, id))
  }

  function Reaped(r: Records, alive: nat -> bool): Records {
    r.(holders := Alive(r.holders, alive), waiters := Alive(r.waiters, alive))
  }

  // ----------------------------------------------------------------- workers

  datatype Mode = Exclusive | Shared

  /** How far a worker has got: New has not called acquire; Queued waits for the gate;
      Gated has it; Ungated (shared) has dropped it again; Leased has the lease; Slotted
      (shared) has a slot; Running is granted; Releasing and Unwinding give their locks
      back, after a run and after a failed acquisition; Gone is done; Dead has crashed. */
  datatype Phase = New | Queued | Gated | Ungated | Leased | Slotted | Running | Releasing | Unwinding | Gone | Dead

  /** A worker, the flocks it holds, and the capacity it settled on. */
  datatype Worker = Worker(mode: Mode, phase: Phase, gate: bool, lease: bool, slot: Option<nat>, cap: nat)

  datatype Pool = Pool(ws: seq<Worker>, rec: Records)

  datatype Action =
    | Start(i: nat, requested: int)
    | Gate(i: nat)
    | DropGate(i: nat)
    | Lease(i: nat)
    | Slot(i: nat, k: nat)
    | Grant(i: nat)
    | Finish(i: nat)
    | Unlock(i: nat)
    | Done(i: nat)
    | Cancel(i: nat)
    | Crash(i: nat)
    | Reap

  /** Waiting phases in which flockUntil or acquireSlot polls, so that a signal or the
      deadline is noticed. */
  predicate Polls(w: Worker) {
    w.phase == Queued || w.phase == Ungated || (w.phase == Gated && w.mode == Exclusive)
    || (w.phase == Leased && w.mode == Shared)
  }

  predicate Waits(p: Phase) {
    p == Queued || p == Gated || p == Ungated || p == Leased || p == Slotted || p == Unwinding
  }

  /** flock's rule: an exclusive lock excludes every other, a shared one only exclusive
      ones. */
  predicate Excludes(a: Mode, b: Mode) {
    a == Exclusive || b == Exclusive
  }

  ghost predicate GateFree(p: Pool, i: nat)
    requires i < |p.ws|
  {
    forall j :: 0 <= j < |p.ws| && j != i && p.ws[j].gate ==> !Excludes(p.ws[i].mode, p.ws[j].mode)
  }

  ghost predicate LeaseFree(p: Pool, i: nat)
    requires i < |p.ws|
  {
    forall j :: 0 <= j < |p.ws| && j != i && p.ws[j].lease ==> !Excludes(p.ws[i].mode, p.ws[j].mode)
  }

  ghost predicate SlotFree(p: Pool, k: nat) {
    forall j :: 0 <= j < |p.ws| ==> p.ws[j].slot != Some(k)
  }

  predicate Unlocked(w: Worker) {
    !w.gate && !w.lease && w.slot.None?
  }

  /** When an action can happen. */
  ghost predicate Enabled(p: Pool, a: Action) {
    if a.Reap? then true
    else if a.i >= |p.ws| then false
    else
      var w := p.ws[a.i];
      match a
      case Start(i, requested) => w.phase == New
      case Gate(i) => w.phase == Queued && GateFree(p, i)
      case DropGate(i) => w.phase == Gated && w.mode == Shared
      case Lease(i) => w.phase == (if w.mode == Exclusive then Gated else Ungated) && LeaseFree(p, i)
      case Slot(i, k) => w.phase == Leased && w.mode == Shared && k < w.cap && SlotFree(p, k)
      case Grant(i) => w.phase == if w.mode == Exclusive then Leased else Slotted
      case Finish(i) => w.phase == Running
      case Unlock(i) => (w.phase == Releasing || w.phase == Unwinding) && !Unlocked(w)
      case Done(i) => (w.phase == Releasing || w.phase == Unwinding) && Unlocked(w)
      case Cancel(i) => Polls(w)
      case Crash(i) => w.phase != New && w.phase != Gone && w.phase != Dead
  }

  /** unlockAll gives up the gate, then the lease, then the slot. */
  function UnlockNext(w: Worker): Worker {
    if w.gate then w.(gate := false) else if w.lease then w.(lease := false) else w.(slot := None)
  }

  function Lives(p: Pool): nat -> bool {
    (i: nat) => i < |p.ws| && p.ws[i].phase != Dead
  }

  /** The worker after its own action. */
  function Moved(w: Worker, a: Action, rec: Records): Worker {
    match a
    case Start(_, requested) =>
      (match Settle(rec, requested)
       case None => w.(phase := Gone)
       case Some(c) => w.(phase := Queued, cap := c))
    case Gate(_) => w.(phase := Gated, gate := true)
    case DropGate(_) => w.(phase := Ungated, gate := false)
    case Lease(_) => w.(phase := Leased, lease := true)
    case Slot(_, k) => w.(phase := Slotted, slot := Some(k))
    case Grant(_) => w.(phase := Running)
    case Finish(_) => w.(phase := Releasing)
    case Unlock(_) => UnlockNext(w)
    case Done(_) => w.(phase := Gone)
    case Cancel(_) => w.(phase := Unwinding)
    case Crash(_) => w.(phase := Dead, gate := false, lease := false, slot := None)
    case Reap => w
  }

  function Recorded(p: Pool, a: Action): Records {
    match a
    case Start(i, requested) => Joined(p.rec, i, requested)
    case Grant(i) => Granted(p.rec, i)
    case Finish(i) => Released(p.rec, i)
    case Done(i) => if i < |p.ws| && p.ws[i].phase == Unwinding then Withdrawn(p.rec, i) else p.rec
    case Reap => Reaped(p.rec, Lives(p))
    case _ => p.rec
  }

  function Apply(p: Pool, a: Action): Pool {
    if a.Reap? || a.i >= |p.ws| then p.(rec := Recorded(p, a))
    else Pool(p.ws[a.i := Moved(p.ws[a.i], a, p.rec)], Recorded(p, a))
  }

  // --------------------------------------------------------------- invariants

  /** The locks a worker holds in each phase. */
  predicate Consistent(w: Worker) {
    match w.phase
    case New => Unlocked(w)
    case Queued => Unlocked(w)
    case Gated => w.gate && !w.lease && w.slot.None?
    case Ungated => w.mode == Shared && Unlocked(w)
    case Leased => w.gate == (w.mode == Exclusive) && w.lease && w.slot.None?
    case Slotted => w.mode == Shared && !w.gate && w.lease && w.slot.Some?
    case Running => w.gate == (w.mode == Exclusive) && w.lease && w.slot.Some? == (w.mode == Shared)
    case Releasing => (w.gate ==> w.mode == Exclusive) && (w.slot.Some? ==> w.mode == Shared)
    case Unwinding => (w.gate ==> w.mode == Exclusive) && w.slot.None?
    case Gone => Unlocked(w)
    case Dead => Unlocked(w)
  }

  /** Two workers hold no lock that the other's excludes. */
  predicate Agree(a: Worker, b: Worker) {
    && (a.gate && b.gate ==> !Excludes(a.mode, b.mode))
    && (a.lease && b.lease ==> !Excludes(a.mode, b.mode))
    && (a.slot.Some? ==> a.slot != b.slot)
  }

  predicate Uses(p: Phase) {
    Waits(p) || p == Running
  }

  /** What is recorded of worker i.  A crash leaves the record as it was. */
  predicate RecordOk(p: Pool, i: nat)
    requires i < |p.ws|
  {
    var w := p.ws[i];
    w.phase != Dead ==>
      && (i in p.rec.waiters <==> Waits(w.phase)) && (i in p.rec.holders <==> w.phase == Running)
      && (Uses(w.phase) ==> w.cap == p.rec.max && w.cap > 0)
  }

  predicate WorkerOk(w: Worker) {
    Consistent(w) && (w.slot.Some? ==> w.slot.value < w.cap)
  }

  ghost predicate Inv(p: Pool) {
    && (forall i :: 0 <= i < |p.ws| ==> WorkerOk(p.ws[i]) && RecordOk(p, i))
    && (forall i, j :: 0 <= i < j < |p.ws| ==> Agree(p.ws[i], p.ws[j]))
  }

  ghost predicate Initial(p: Pool) {
    p.rec == Records([], [], 0) && forall i :: 0 <= i < |p.ws| ==> p.ws[i].phase == New && Unlocked(p.ws[i])
  }

  lemma InitialInv(p: Pool)
    requires Initial(p)
    ensures Inv(p)
  {
  }

  lemma MovedOk(p: Pool, a: Action)
    requires Inv(p) && Enabled(p, a) && !a.Reap?
    ensures WorkerOk(Moved(p.ws[a.i], a, p.rec))
  {
    hide Settle;
    assert WorkerOk(p.ws[a.i]);
  }

  lemma MovedAgrees(p: Pool, a: Action, j: nat)
    requires Inv(p) && Enabled(p, a) && !a.Reap? && j < |p.ws| && j != a.i
    ensures Agree(Moved(p.ws[a.i], a, p.rec), p.ws[j]) && Agree(p.ws[j], Moved(p.ws[a.i], a, p.rec))
  {
    hide Settle, RecordOk;
    assert if j < a.i then Agree(p.ws[j], p.ws[a.i]) else Agree(p.ws[a.i], p.ws[j]);
  }

  lemma OthersRecord(p: Pool, a: Action, j: nat)
    requires Inv(p) && Enabled(p, a) && j < |p.ws| && (!a.Reap? ==> j != a.i)
    ensures RecordOk(Apply(p, a), j)
  {
    assert RecordOk(p, j);
    hide Consistent, Agree;
  }

  lemma OwnRecord(p: Pool, a: Action)
    requires Inv(p) && Enabled(p, a) && !a.Reap?
    ensures RecordOk(Apply(p, a), a.i)
  {
    assert RecordOk(p, a.i);
    hide Consistent, Agree;
  }

  /** Every action keeps the invariant. */
  lemma StepInv(p: Pool, a: Action)
    requires Inv(p) && Enabled(p, a)
    ensures Inv(Apply(p, a))
  {
    hide Enabled, Moved, Recorded, Agree, WorkerOk, RecordOk;
    var q := Apply(p, a);
    forall i | 0 <= i < |q.ws|
      ensures WorkerOk(q.ws[i]) && RecordOk(q, i)
    {
      if !a.Reap? && i == a.i {
        MovedOk(p, a);
        OwnRecord(p, a);
      } else {
        OthersRecord(p, a, i);
      }
    }
    forall i, j | 0 <= i < j < |q.ws|
      ensures Agree(q.ws[i], q.ws[j])
    {
      if !a.Reap? && i == a.i {
        MovedAgrees(p, a, j);
      } else if !a.Reap? && j == a.i {
        MovedAgrees(p, a, i);
      }
    }
  }

  // --------------------------------------------------------------------- runs

  /** A run: the pools it goes through and the actions between them. */
  ghost predicate Run(ps: seq<Pool>, acts: seq<Action>) {
    && |ps| == |acts| + 1
    && forall n :: 0 <= n < |acts| ==> Enabled(ps[n], acts[n]) && ps[n + 1] == Apply(ps[n], acts[n])
  }

  /** The invariant holds throughout every run that starts with an empty record and idle
      workers. */
  lemma {:induction false} RunInv(ps: seq<Pool>, acts: seq<Action>, n: nat)
    requires Run(ps, acts) && Initial(ps[0]) && n < |ps|
    ensures Inv(ps[n])
    decreases n
  {
    hide Enabled, Apply, Inv;
    if n == 0 {
      InitialInv(ps[0]);
    } else {
      RunInv(ps, acts, n - 1);
      StepInv(ps[n - 1], acts[n - 1]);
      assert ps[n - 1 + 1] == Apply(ps[n - 1], acts[n - 1]);
    }
  }

  // ------------------------------------------------------------------- safety

  /** Two granted workers are both shared and hold different slots below the recorded
      capacity; so a granted exclusive worker is the only granted worker. */
  lemma GrantedApart(p: Pool, i: nat, j: nat)
    requires Inv(p) && i < |p.ws| && j < |p.ws| && i != j && p.ws[i].phase == Running && p.ws[j].phase == Running
    ensures p.ws[i].mode == Shared && p.ws[j].mode == Shared
    ensures p.ws[i].slot.Some? && p.ws[j].slot.Some? && p.ws[i].slot.value != p.ws[j].slot.value
    ensures p.ws[i].slot.value < p.rec.max && p.ws[j].slot.value < p.rec.max
  {
    assert WorkerOk(p.ws[i]) && RecordOk(p, i);
    assert WorkerOk(p.ws[j]) && RecordOk(p, j);
    assert if i < j then Agree(p.ws[i], p.ws[j]) else Agree(p.ws[j], p.ws[i]);
  }

  ghost function SharedGranted(p: Pool): set<nat> {
    set i | 0 <= i < |p.ws| && p.ws[i].phase == Running && p.ws[i].mode == Shared
  }

  function SlotOf(p: Pool, i: nat): nat {
    if i < |p.ws| && p.ws[i].slot.Some? then p.ws[i].slot.value else 0
  }

  ghost function SlotsOf(p: Pool, s: set<nat>): set<nat> {
    set i | i in s :: SlotOf(p, i)
  }

  lemma {:induction false} OneSlotEach(p: Pool, s: set<nat>)
    requires forall i, j :: i in s && j in s && i != j ==> SlotOf(p, i) != SlotOf(p, j)
    ensures |SlotsOf(p, s)| == |s|
    decreases |s|
  {
    hide SlotOf;
    if s != {} {
      var i :| i in s;
      OneSlotEach(p, s - {i});
      assert SlotsOf(p, s) == SlotsOf(p, s - {i}) + {SlotOf(p, i)};
    }
  }

  function Upto(n: nat): (s: set<nat>)
    ensures |s| == n && forall k: nat :: k in s <==> k < n
  {
    if n == 0 then {} else Upto(n - 1) + {n - 1}
  }

  lemma Fewer(a: set<nat>, b: set<nat>)
    requires a <= b
    ensures |a| <= |b|
  {
    assert b == a + (b - a);
    assert |b| == |a| + |b - a|;
  }

  /** Never more shared workers are granted than the recorded capacity. */
  lemma WithinCapacity(p: Pool)
    requires Inv(p)
    ensures |SharedGranted(p)| <= p.rec.max
  {
    hide Inv;
    var s := SharedGranted(p);
    forall i, j | i in s && j in s && i != j
      ensures SlotOf(p, i) != SlotOf(p, j)
    {
      GrantedApart(p, i, j);
    }
    OneSlotEach(p, s);
    forall i | i in s
      ensures SlotOf(p, i) < p.rec.max
    {
      GrantedSlot(p, i);
    }
    Fewer(SlotsOf(p, s), Upto(p.rec.max));
  }

  lemma GrantedSlot(p: Pool, i: nat)
    requires Inv(p) && i < |p.ws| && p.ws[i].phase == Running && p.ws[i].mode == Shared
    ensures SlotOf(p, i) < p.rec.max
  {
    assert WorkerOk(p.ws[i]) && RecordOk(p, i);
  }

  /** A recorded capacity changes only while nobody is recorded as holding or waiting,
      and it is never unrecorded. */
  lemma CapacityFrozen(p: Pool, a: Action)
    requires Enabled(p, a) && p.rec.max != 0
    ensures Apply(p, a).rec.max != p.rec.max ==> p.rec.holders == [] && p.rec.waiters == [] && a.Start?
    ensures Apply(p, a).rec.max != 0
  {
  }

  /** A positive capacity other than the nonzero one recorded, while somebody is recorded
      as holding or waiting. */
  predicate Clashes(was: Records, requested: int) {
    requested > 0 && |was.holders| + |was.waiters| > 0 && was.max != 0 && was.max != requested
  }

  /** Worker i has joined the queue behind everybody recorded before, under the capacity it
      asked for; asking for 0 or less, under the recorded one, or 4 if there was none. */
  predicate JoinsUnder(was: Records, q: Pool, i: nat, requested: int) {
    && i < |q.ws| && q.ws[i].phase == Queued && q.ws[i].cap == q.rec.max
    && q.rec.holders == was.holders && q.rec.waiters == was.waiters + [i]
    && (requested > 0 ==> q.rec.max == requested)
    && (requested <= 0 ==> q.rec.max == if was.max == 0 then 4 else was.max)
  }

  /** A worker that starts is turned away exactly when its request clashes, and then
      nothing is recorded and no other worker changes; otherwise it joins. */
  lemma StartSettles(ps: seq<Pool>, acts: seq<Action>, n: nat, i: nat, requested: int)
    requires Run(ps, acts) && Initial(ps[0]) && n < |acts| && acts[n] == Start(i, requested)
    ensures i < |ps[n].ws| && |ps[n + 1].ws| == |ps[n].ws| && ps[n].ws[i].phase == New
    ensures ps[n + 1].ws == ps[n].ws[i := ps[n + 1].ws[i]]
    ensures Clashes(ps[n].rec, requested) ==> ps[n + 1].ws[i].phase == Gone && ps[n + 1].rec == ps[n].rec
    ensures !Clashes(ps[n].rec, requested) ==> JoinsUnder(ps[n].rec, ps[n + 1], i, requested)
  {
    assert Enabled(ps[n], acts[n]) && ps[n + 1] == Apply(ps[n], acts[n]);
  }

  /** A worker is never new again once it has started. */
  lemma {:induction false} StaysStarted(ps: seq<Pool>, acts: seq<Action>, i: nat, s: nat, t: nat)
    requires Run(ps, acts) && s <= t < |ps| && i < |ps[s].ws| && ps[s].ws[i].phase != New
    ensures i < |ps[t].ws| && ps[t].ws[i].phase != New
    ensures ps[t].ws[i].cap == ps[s].ws[i].cap
    decreases t
  {
    hide Joined, Granted, Released, Withdrawn, Reaped;
    if s < t {
      StaysStarted(ps, acts, i, s, t - 1);
      assert Enabled(ps[t - 1], acts[t - 1]) && ps[t - 1 + 1] == Apply(ps[t - 1], acts[t - 1]);
    }
  }

  /** What a worker asked for is what it runs under: from its start until it has given its
      lease back, as long as it lives, the recorded capacity is the positive one it asked
      for, whatever the others do. */
  lemma RequestKept(ps: seq<Pool>, acts: seq<Action>, n: nat, i: nat, requested: int, t: nat)
    requires Run(ps, acts) && Initial(ps[0]) && n < |acts| && acts[n] == Start(i, requested) && requested > 0
    requires n < t < |ps| && i < |ps[t].ws| && (Waits(ps[t].ws[i].phase) || ps[t].ws[i].phase == Running)
    ensures ps[t].rec.max == requested
  {
    hide Enabled, Apply, Initial, Inv;
    StartSettles(ps, acts, n, i, requested);
    RunInv(ps, acts, t);
    if ps[n + 1].ws[i].phase == Gone {
      StaysGone(ps, acts, i, n + 1, t);
      assert false;
    }
    StaysStarted(ps, acts, i, n + 1, t);
    CapRecorded(ps[t], i);
  }

  lemma CapRecorded(p: Pool, i: nat)
    requires Inv(p) && i < |p.ws| && (Waits(p.ws[i].phase) || p.ws[i].phase == Running)
    ensures p.ws[i].cap == p.rec.max
  {
    assert RecordOk(p, i);
  }

  lemma {:induction false} StaysGone(ps: seq<Pool>, acts: seq<Action>, i: nat, s: nat, t: nat)
    requires Run(ps, acts) && s <= t < |ps| && i < |ps[s].ws| && ps[s].ws[i].phase == Gone
    ensures i < |ps[t].ws| && ps[t].ws[i].phase == Gone
    decreases t
  {
    hide Joined, Granted, Released, Withdrawn, Reaped;
    if s < t {
      StaysGone(ps, acts, i, s, t - 1);
      assert Enabled(ps[t - 1], acts[t - 1]) && ps[t - 1 + 1] == Apply(ps[t - 1], acts[t - 1]);
    }
  }

  // --------------------------------------------------- the gate and overtaking

  /** A shared worker can pass the gate exactly when no exclusive worker has it; one that
      is only queued for it does not close it. */
  lemma GateOpen(p: Pool, i: nat)
    requires Inv(p) && i < |p.ws| && p.ws[i].mode == Shared && p.ws[i].phase == Queued
    ensures Enabled(p, Gate(i)) <==> forall j :: 0 <= j < |p.ws| && p.ws[j].mode == Exclusive ==> !p.ws[j].gate
  {
  }

  predicate HoldsGate(p: Pool, i: nat) {
    i < |p.ws| && p.ws[i].mode == Exclusive && p.ws[i].gate
  }

  predicate PastGate(w: Worker) {
    w.mode == Shared
    && w.phase in {Gated, Ungated, Leased, Slotted, Running, Releasing}
  }

  /** The shared workers past the gate that have not finished. */
  ghost function Past(p: Pool): set<nat> {
    set j | 0 <= j < |p.ws| && PastGate(p.ws[j])
  }

  lemma StepPast(p: Pool, a: Action, i: nat)
    requires Inv(p) && Enabled(p, a) && HoldsGate(p, i)
    ensures Past(Apply(p, a)) <= Past(p)
  {
    hide Settle, Recorded, RecordOk, Consistent, Agree;
    var q := Apply(p, a);
    forall j | j in Past(q)
      ensures j in Past(p)
    {
      if !a.Reap? && j == a.i && a.Gate? {
        GateShut(p, i, j);
      }
    }
  }

  lemma GateShut(p: Pool, i: nat, j: nat)
    requires HoldsGate(p, i) && j < |p.ws| && p.ws[j].mode == Shared
    ensures !GateFree(p, j)
  {
  }

  /** From the step where an exclusive worker has the gate, as long as it keeps it, no
      shared worker that had not passed the gate by then gets past it, so none is
      granted; those past it only become fewer. */
  lemma {:induction false} BoundedOvertaking(ps: seq<Pool>, acts: seq<Action>, i: nat, s: nat, t: nat)
    requires Run(ps, acts) && Initial(ps[0]) && s <= t < |ps|
    requires forall n :: s <= n <= t ==> HoldsGate(ps[n], i)
    ensures Past(ps[t]) <= Past(ps[s])
    ensures forall j :: 0 <= j < |ps[t].ws| && ps[t].ws[j].phase == Running && ps[t].ws[j].mode == Shared
              ==> j in Past(ps[s])
    decreases t
  {
    hide Enabled, Apply, Inv, Initial, HoldsGate;
    if s < t {
      BoundedOvertaking(ps, acts, i, s, t - 1);
      RunInv(ps, acts, t - 1);
      StepPast(ps[t - 1], acts[t - 1], i);
      assert ps[t - 1 + 1] == Apply(ps[t - 1], acts[t - 1]);
    }
  }

  // ---------------------------------------------------------------- liveness

  predicate LockStep(a: Action) {
    a.Gate? || a.DropGate? || a.Lease? || a.Slot? || a.Grant?
  }

  /** A worker whose next step needs nothing of the others. */
  predicate OnItsOwn(w: Worker) {
    w.phase == Running || w.phase == Releasing || w.phase == Unwinding
  }

  /** The lock order gate, lease, slot leaves no cycle: while a worker waits, either one
      is running or giving its locks back, or some waiter's next lock step can happen. */
  lemma NoDeadlock(p: Pool, i: nat)
    requires Inv(p) && i < |p.ws| && Waits(p.ws[i].phase)
    requires forall j :: 0 <= j < |p.ws| ==> !OnItsOwn(p.ws[j])
    ensures exists a :: LockStep(a) && Enabled(p, a)
  {
    hide RecordOk, Agree;
    if j :| 0 <= j < |p.ws| && p.ws[j].phase == Slotted {
      assert Enabled(p, Grant(j));
    } else if j :| 0 <= j < |p.ws| && p.ws[j].phase == Leased {
      LeasedMoves(p, j);
    } else if j :| 0 <= j < |p.ws| && p.ws[j].phase == Gated {
      GatedMoves(p, j);
    } else {
      QueuedMoves(p, i);
    }
  }

  lemma QueuedMoves(p: Pool, i: nat)
    requires Inv(p) && i < |p.ws| && Waits(p.ws[i].phase)
    requires forall h :: 0 <= h < |p.ws| ==> !OnItsOwn(p.ws[h])
    requires forall h :: 0 <= h < |p.ws| ==> p.ws[h].phase !in {Slotted, Leased, Gated}
    ensures exists a :: LockStep(a) && Enabled(p, a)
  {
    hide RecordOk, Agree;
    forall h | 0 <= h < |p.ws|
      ensures Unlocked(p.ws[h])
    {
      assert WorkerOk(p.ws[h]);
    }
    assert Enabled(p, if p.ws[i].phase == Ungated then Lease(i) else Gate(i));
  }

  lemma LeasedMoves(p: Pool, j: nat)
    requires Inv(p) && j < |p.ws| && p.ws[j].phase == Leased
    requires forall h :: 0 <= h < |p.ws| ==> !OnItsOwn(p.ws[h]) && p.ws[h].phase != Slotted
    ensures exists a :: LockStep(a) && Enabled(p, a)
  {
    assert WorkerOk(p.ws[j]) && RecordOk(p, j);
    if p.ws[j].mode == Exclusive {
      assert Enabled(p, Grant(j));
    } else {
      forall h | 0 <= h < |p.ws|
        ensures p.ws[h].slot != Some(0)
      {
        assert WorkerOk(p.ws[h]);
      }
      assert Enabled(p, Slot(j, 0));
    }
  }

  lemma GatedMoves(p: Pool, j: nat)
    requires Inv(p) && j < |p.ws| && p.ws[j].phase == Gated
    requires forall h :: 0 <= h < |p.ws| ==> !OnItsOwn(p.ws[h]) && p.ws[h].phase != Slotted && p.ws[h].phase != Leased
    ensures exists a :: LockStep(a) && Enabled(p, a)
  {
    if p.ws[j].mode == Shared {
      assert Enabled(p, DropGate(j));
    } else {
      forall h | 0 <= h < |p.ws|
        ensures !p.ws[h].lease
      {
        assert WorkerOk(p.ws[h]);
      }
      assert Enabled(p, Lease(j));
    }
  }

  function Held(w: Worker): nat {
    (if w.gate then 1 else 0) + (if w.lease then 1 else 0) + (if w.slot.Some? then 1 else 0)
  }

  /** How many steps a worker has left at most. */
  function Left(w: Worker): nat {
    match w.phase
    case New => 11
    case Queued => 10
    case Gated => 9
    case Ungated => 8
    case Leased => 7
    case Slotted => 6
    case Running => 5
    case Releasing => 1 + Held(w)
    case Unwinding => 1 + Held(w)
    case Gone => 0
    case Dead => 0
  }

  function Total(ws: seq<Worker>): nat {
    if ws == [] then 0 else Left(ws[0]) + Total(ws[1..])
  }

  lemma {:induction false} TotalUpdate(ws: seq<Worker>, i: nat, w: Worker)
    requires i < |ws|
    ensures Total(ws[i := w]) + Left(ws[i]) == Total(ws) + Left(w)
  {
    hide Left;
    if i > 0 {
      TotalUpdate(ws[1..], i - 1, w);
      assert ws[i := w][1..] == ws[1..][i - 1 := w];
    } else {
      assert ws[0 := w][1..] == ws[1..];
    }
  }

  lemma StepShortens(p: Pool, a: Action)
    requires Inv(p) && Enabled(p, a) && !a.Reap?
    ensures Left(Moved(p.ws[a.i], a, p.rec)) < Left(p.ws[a.i])
  {
    hide Settle, RecordOk, Agree;
    assert WorkerOk(p.ws[a.i]);
  }

  function Moves(acts: seq<Action>): nat {
    if acts == [] then 0 else (if acts[0].Reap? then 0 else 1) + Moves(acts[1..])
  }

  lemma {:induction false} MovesLast(acts: seq<Action>, n: nat)
    requires n < |acts|
    ensures Moves(acts[..n + 1]) == Moves(acts[..n]) + if acts[n].Reap? then 0 else 1
  {
    if n > 0 {
      MovesLast(acts[1..], n - 1);
      assert acts[..n + 1][1..] == acts[1..][..n] && acts[..n][1..] == acts[1..][..n - 1];
    } else {
      assert acts[..1] == [acts[0]] && acts[..0] == [];
    }
  }

  /** No run goes on for ever: but for reaps, each worker takes at most eleven steps. */
  lemma {:induction false} RunsEnd(ps: seq<Pool>, acts: seq<Action>, n: nat)
    requires Run(ps, acts) && Initial(ps[0]) && n < |ps|
    ensures Moves(acts[..n]) + Total(ps[n].ws) <= Total(ps[0].ws)
    decreases n
  {
    hide Enabled, Inv, Initial, Moved, Recorded, Left;
    if n == 0 {
      assert acts[..0] == [];
    } else {
      RunsEnd(ps, acts, n - 1);
      RunInv(ps, acts, n - 1);
      var p, a := ps[n - 1], acts[n - 1];
      MovesLast(acts, n - 1);
      assert ps[n - 1 + 1] == Apply(p, a);
      if !a.Reap? {
        ActsInside(p, a);
        StepShortens(p, a);
        TotalUpdate(p.ws, a.i, Moved(p.ws[a.i], a, p.rec));
      }
    }
  }

  lemma ActsInside(p: Pool, a: Action)
    requires Enabled(p, a) && !a.Reap?
    ensures a.i < |p.ws|
  {
  }

  lemma {:induction false} TotalAtMost(ws: seq<Worker>)
    ensures Total(ws) <= 11 * |ws|
  {
    if ws == [] {
    } else {
      TotalAtMost(ws[1..]);
    }
  }

  /** A run that can take no lock step, and has nobody running or giving locks back, has
      nobody waiting. */
  lemma StuckMeansDone(p: Pool)
    requires Inv(p)
    requires forall a :: LockStep(a) || a.Finish? || a.Unlock? || a.Done? ==> !Enabled(p, a)
    ensures forall i :: 0 <= i < |p.ws| ==> p.ws[i].phase == New || p.ws[i].phase == Gone || p.ws[i].phase == Dead
  {
    hide Inv;
    forall i | 0 <= i < |p.ws|
      ensures p.ws[i].phase == New || p.ws[i].phase == Gone || p.ws[i].phase == Dead
    {
      forall j | 0 <= j < |p.ws|
        ensures !OnItsOwn(p.ws[j])
      {
        assert !Enabled(p, Finish(j)) && !Enabled(p, Unlock(j)) && !Enabled(p, Done(j));
      }
      if Waits(p.ws[i].phase) {
        NoDeadlock(p, i);
      }
    }
  }

  // ----------------------------------------------------------------- clean-up

  /** A worker that has ended, by finishing or by a cancelled or timed-out wait, holds no
      lock and is not recorded. */
  lemma EndsClean(p: Pool, i: nat)
    requires Inv(p) && i < |p.ws| && p.ws[i].phase == Gone
    ensures Unlocked(p.ws[i]) && i !in p.rec.holders && i !in p.rec.waiters
  {
    assert WorkerOk(p.ws[i]) && RecordOk(p, i);
  }

  /** A cancelled acquisition only unwinds: it is never granted. */
  lemma CancelledUnwinds(p: Pool, a: Action, i: nat)
    requires Enabled(p, a) && i < |p.ws| && p.ws[i].phase == Unwinding
    ensures Apply(p, a).ws[i].phase in {Unwinding, Gone, Dead}
  {
  }

  /** A reap leaves no record of the dead and keeps every other. */
  lemma ReapClears(p: Pool, i: nat)
    requires Inv(p) && i < |p.ws|
    ensures var r := Apply(p, Reap).rec;
      && (p.ws[i].phase == Dead ==> i !in r.holders && i !in r.waiters)
      && (p.ws[i].phase != Dead ==> (i in r.holders <==> i in p.rec.holders) && (i in r.waiters <==> i in p.rec.waiters))
  {
    hide Consistent, Agree;
  }

  // ------------------------------------------------------ two runs to be aware of

  /** A worker with the locks it has in a phase, on the way to slot k. */
  function In(mode: Mode, phase: Phase, k: nat, cap: nat): Worker {
    Worker(mode, phase, phase == Gated, phase in {Leased, Slotted, Running, Releasing},
           if phase in {Slotted, Running, Releasing} then Some(k) else None, if phase == New then 0 else cap)
  }

  const OVERTAKEN: seq<Action> :=
    [Start(1, 0), Gate(1), Start(0, 0), Start(2, 0), Gate(2), DropGate(2), Lease(2), Slot(2, 0), Grant(2)]

  function OvertakenAt(n: nat): Pool {
    var x, q := In(Exclusive, New, 0, 4), In(Exclusive, Queued, 0, 4);
    var fresh0, g := In(Shared, New, 0, 4), In(Shared, Gated, 0, 4);
    if n == 0 then Pool([x, fresh0, fresh0], Records([], [], 0))
    else if n == 1 then Pool([x, In(Shared, Queued, 0, 4), fresh0], Records([], [1], 4))
    else if n == 2 then Pool([x, g, fresh0], Records([], [1], 4))
    else if n == 3 then Pool([q, g, fresh0], Records([], [1, 0], 4))
    else if n == 4 then Pool([q, g, In(Shared, Queued, 0, 4)], Records([], [1, 0, 2], 4))
    else if n == 5 then Pool([q, g, g], Records([], [1, 0, 2], 4))
    else if n == 6 then Pool([q, g, In(Shared, Ungated, 0, 4)], Records([], [1, 0, 2], 4))
    else if n == 7 then Pool([q, g, In(Shared, Leased, 0, 4)], Records([], [1, 0, 2], 4))
    else if n == 8 then Pool([q, g, In(Shared, Slotted, 0, 4)], Records([], [1, 0, 2], 4))
    else Pool([q, g, In(Shared, Running, 0, 4)], Records([2], [1, 0], 4))
  }

  lemma OvertakenEarly(n: nat)
    requires n < 4
    ensures Enabled(OvertakenAt(n), OVERTAKEN[n]) && OvertakenAt(n + 1) == Apply(OvertakenAt(n), OVERTAKEN[n])
  {
  }

  lemma OvertakenLate(n: nat)
    requires 4 <= n < |OVERTAKEN|
    ensures Enabled(OvertakenAt(n), OVERTAKEN[n]) && OvertakenAt(n + 1) == Apply(OvertakenAt(n), OVERTAKEN[n])
  {
  }

  /** A newcomer overtakes an exclusive worker that is queued but has not got the gate:
      worker 1 passes the gate, worker 0 queues for it, and worker 2, which has not even
      started then, is granted while 0 still waits. */
  lemma OvertakenRun() returns (ps: seq<Pool>)
    ensures Run(ps, OVERTAKEN) && Initial(ps[0]) && ps[3] == OvertakenAt(3) && ps[9] == OvertakenAt(9)
    ensures ps[3].ws[0].mode == Exclusive && ps[3].ws[0].phase == Queued && ps[3].ws[2].phase == New
    ensures ps[9].ws[0].phase == Queued && ps[9].ws[2].phase == Running
  {
    hide Enabled, Apply;
    ps := seq(10, (n: nat) => OvertakenAt(n));
    forall n: nat | n < 4 { OvertakenEarly(n); }
    forall n: nat | 4 <= n < 9 { OvertakenLate(n); }
  }

  const SHRUNK: seq<Action> :=
    [Start(0, 2), Gate(0), DropGate(0), Lease(0), Slot(0, 1), Grant(0), Finish(0), Start(1, 1)]

  function ShrunkAt(n: nat): Pool {
    var other := In(Shared, New, 0, 1);
    if n == 0 then Pool([In(Shared, New, 1, 2), other], Records([], [], 0))
    else if n == 1 then Pool([In(Shared, Queued, 1, 2), other], Records([], [0], 2))
    else if n == 2 then Pool([In(Shared, Gated, 1, 2), other], Records([], [0], 2))
    else if n == 3 then Pool([In(Shared, Ungated, 1, 2), other], Records([], [0], 2))
    else if n == 4 then Pool([In(Shared, Leased, 1, 2), other], Records([], [0], 2))
    else if n == 5 then Pool([In(Shared, Slotted, 1, 2), other], Records([], [0], 2))
    else if n == 6 then Pool([In(Shared, Running, 1, 2), other], Records([0], [], 2))
    else if n == 7 then Pool([In(Shared, Releasing, 1, 2), other], Records([], [], 2))
    else Pool([In(Shared, Releasing, 1, 2), In(Shared, Queued, 0, 1)], Records([], [1], 1))
  }

  lemma ShrunkEarly(n: nat)
    requires n < 4
    ensures Enabled(ShrunkAt(n), SHRUNK[n]) && ShrunkAt(n + 1) == Apply(ShrunkAt(n), SHRUNK[n])
  {
  }

  lemma ShrunkLate(n: nat)
    requires 4 <= n < |SHRUNK|
    ensures Enabled(ShrunkAt(n), SHRUNK[n]) && ShrunkAt(n + 1) == Apply(ShrunkAt(n), SHRUNK[n])
  {
  }

  /** The capacity can change under a worker that gives its locks back: worker 0 still
      holds slot 1 when worker 1 sets the capacity to 1. */
  lemma ShrunkRun() returns (ps: seq<Pool>)
    ensures Run(ps, SHRUNK) && Initial(ps[0]) && ps[7] == ShrunkAt(7) && ps[8] == ShrunkAt(8)
    ensures ps[7].rec.max == 2 && ps[8].rec.max == 1 && ps[8].ws[0].phase == Releasing && ps[8].ws[0].slot == Some(1)
  {
    hide Enabled, Apply;
    ps := seq(9, (n: nat) => ShrunkAt(n));
    forall n: nat | n < 4 { ShrunkEarly(n); }
    forall n: nat | 4 <= n < 8 { ShrunkLate(n); }
  }
}
