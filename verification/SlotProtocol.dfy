/** The slot locks shared by all running build hooks, as a transition system.

  Any number of hook processes run at once. Each takes the main lock, probes the slots of the machines
  one by one, keeps at most one free slot per machine and the best one overall, releases the main
  lock, connects, and then either keeps the slot for the build or starts over. A step is one lock
  operation of one hook, or the death of a hook at any moment, which releases everything it holds. */
module SlotProtocol {
  import opened Options

  /** A slot lock: slot `slot` of machine `machine`. Machines have distinct lock file names. */
  datatype Slot = Slot(machine: nat, slot: nat)

  /** Where a hook is.
    `Probing`: it holds the main lock and considers `machine`, next slot `next`; `cur` is a slot lock
    obtained in this round of the slot loop, `free` the one kept for this machine, `best` the best so
    far; `load` counts the slots of this machine that could not be locked.
    `Connecting`, `Accepted`: it holds the slot it chose. */
  datatype Hook =
    | Waiting
    | WantsMain
    | Probing(machine: nat, next: nat, cur: Option<nat>, free: Option<nat>, load: nat, best: Option<Slot>)
    | Connecting(slot: Slot)
    | Accepted(slot: Slot)
    | Gone

  /** The lock table: who holds the main lock and each slot lock. */
  datatype System = System(main: Option<nat>, slots: map<Slot, nat>, hooks: map<nat, Hook>)

  /** What a hook holds, going by where it is. */
  function Held(h: Hook): set<Slot> {
    match h
    case Probing(m, _, cur, free, _, best) =>
      (if cur.Some? then {Slot(m, cur.value)} else {})
      + (if free.Some? then {Slot(m, free.value)} else {})
      + (if best.Some? then {best.value} else {})
    case Connecting(s) => {s}
    case Accepted(s) => {s}
    case _ => {}
  }

  function Release(slots: map<Slot, nat>, gone: set<Slot>): map<Slot, nat> {
    slots - gone
  }

  datatype Action =
    | Start
    | TakeRequest
    | LockMain
    | SkipMachine
    | TryLock
    | Settle
    | NextMachine(better: bool)
    | NoneFree
    | Choose
    | ConnectFails
    | ConnectSucceeds
    | Die

  /** One step of hook `h`. `maxJobs` gives the number of slots of each machine. */
  ghost predicate Step(maxJobs: seq<nat>, s: System, a: Action, h: nat, s': System) {
    match a
    case Start =>
      h !in s.hooks && s' == s.(hooks := s.hooks[h := Waiting])
    case TakeRequest =>
      h in s.hooks && s.hooks[h].Waiting? && s' == s.(hooks := s.hooks[h := WantsMain])
    case LockMain =>
      && h in s.hooks && s.hooks[h].WantsMain? && s.main.None?
      && s' == s.(main := Some(h), hooks := s.hooks[h := Probing(0, 0, None, None, 0, None)])
    case SkipMachine =>
      // a machine that is disabled or does not fit
      && h in s.hooks && s.hooks[h].Probing? && s.hooks[h].machine < |maxJobs|
      && s.hooks[h].next == 0 && s.hooks[h].cur.None? && s.hooks[h].free.None?
      && s' == s.(hooks := s.hooks[h := Probing(s.hooks[h].machine + 1, 0, None, None, 0, s.hooks[h].best)])
    case TryLock =>
      && h in s.hooks && s.hooks[h].Probing? && s.hooks[h].machine < |maxJobs| && s.hooks[h].cur.None?
      && s.hooks[h].next < maxJobs[s.hooks[h].machine]
      && var k := Slot(s.hooks[h].machine, s.hooks[h].next);
      s' == if k in s.slots
            then s.(hooks := s.hooks[h := s.hooks[h].(load := s.hooks[h].load + 1, next := s.hooks[h].next + 1)])
            else s.(slots := s.slots[k := h], hooks := s.hooks[h := s.hooks[h].(cur := Some(s.hooks[h].next))])
    case Settle =>
      && h in s.hooks && s.hooks[h].Probing? && s.hooks[h].cur.Some?
      && var p := s.hooks[h];
      s' == if p.free.None?
            then s.(hooks := s.hooks[h := p.(free := p.cur, cur := None, next := p.next + 1)])
            else s.(slots := Release(s.slots, {Slot(p.machine, p.cur.value)}),
                    hooks := s.hooks[h := p.(cur := None, next := p.next + 1)])
    case NextMachine(better) =>
      && h in s.hooks && s.hooks[h].Probing? && s.hooks[h].machine < |maxJobs| && s.hooks[h].cur.None?
      && s.hooks[h].next == maxJobs[s.hooks[h].machine]
      && var p := s.hooks[h];
      && (p.free.None? ==> !better) && (p.free.Some? && p.best.None? ==> better)
      && s' == if better
               then s.(slots := Release(s.slots, if p.best.Some? then {p.best.value} else {}),
                       hooks := s.hooks[h := Probing(p.machine + 1, 0, None, None, 0,
                                                     Some(Slot(p.machine, p.free.value)))])
               else s.(slots := Release(s.slots, if p.free.Some? then {Slot(p.machine, p.free.value)} else {}),
                       hooks := s.hooks[h := Probing(p.machine + 1, 0, None, None, 0, p.best)])
    case NoneFree =>
      // replies "postpone" or "decline"
      && h in s.hooks && s.hooks[h].Probing? && s.hooks[h].machine == |maxJobs|
      && s.hooks[h].cur.None? && s.hooks[h].free.None? && s.hooks[h].best.None?
      && s' == s.(main := None, hooks := s.hooks[h := Waiting])
    case Choose =>
      && h in s.hooks && s.hooks[h].Probing? && s.hooks[h].machine == |maxJobs|
      && s.hooks[h].cur.None? && s.hooks[h].free.None? && s.hooks[h].best.Some?
      && s' == s.(main := None, hooks := s.hooks[h := Connecting(s.hooks[h].best.value)])
    case ConnectFails =>
      && h in s.hooks && s.hooks[h].Connecting?
      && s' == s.(slots := Release(s.slots, {s.hooks[h].slot}), hooks := s.hooks[h := WantsMain])
    case ConnectSucceeds =>
      && h in s.hooks && s.hooks[h].Connecting?
      && s' == s.(hooks := s.hooks[h := Accepted(s.hooks[h].slot)])
    case Die =>
      && h in s.hooks && !s.hooks[h].Gone?
      && s' == System(if s.main == Some(h) then None else s.main, Release(s.slots, Held(s.hooks[h])),
                      s.hooks[h := Gone])
  }

  /** A hook's own bookkeeping is consistent: the slots it remembers are distinct slots that exist, and
    unless it has a free slot, every slot of this machine so far was locked by somebody else. */
  ghost predicate HookOk(maxJobs: seq<nat>, h: Hook) {
    match h
    case Probing(m, next, cur, free, load, best) =>
      && m <= |maxJobs|
      && (m < |maxJobs| ==> next <= maxJobs[m])
      && (m == |maxJobs| ==> cur.None? && free.None?)
      && (cur.Some? ==> cur.value == next && next < maxJobs[m])
      && (free.Some? ==> free.value < next && load < next)
      && (free.None? ==> load == next)
      && (best.Some? ==> best.value.machine < m && best.value.slot < maxJobs[best.value.machine])
    case Connecting(s) => s.machine < |maxJobs| && s.slot < maxJobs[s.machine]
    case Accepted(s) => s.machine < |maxJobs| && s.slot < maxJobs[s.machine]
    case _ => true
  }

  ghost predicate Owns(s: System, h: nat, k: Slot) {
    h in s.hooks && k in Held(s.hooks[h])
  }

  /** The lock table is exactly what the hooks hold, and only the hook that holds the main lock probes. */
  ghost predicate Inv(maxJobs: seq<nat>, s: System) {
    && (forall h :: h in s.hooks ==> HookOk(maxJobs, s.hooks[h]))
    && (forall k :: k in s.slots ==> Owns(s, s.slots[k], k))
    && (forall h, k :: Owns(s, h, k) ==> k in s.slots && s.slots[k] == h)
    && (forall h :: h in s.hooks && s.hooks[h].Probing? ==> s.main == Some(h))
    && (s.main.Some? ==> s.main.value in s.hooks && s.hooks[s.main.value].Probing?)
  }

  /** The invariant is kept when hook `h` becomes `hook`, gives up what it no longer holds and gains
    only locks that nobody held. */
  lemma Update(maxJobs: seq<nat>, s: System, h: nat, hook: Hook, gained: set<Slot>, s': System)
    requires Inv(maxJobs, s) && HookOk(maxJobs, hook)
    requires var before := if h in s.hooks then Held(s.hooks[h]) else {};
             && gained !! s.slots.Keys && gained <= Held(hook) && Held(hook) <= before + gained
             && s'.slots == map k | k in (s.slots.Keys - (before - Held(hook))) + gained ::
                              if k in gained then h else s.slots[k]
    requires s'.hooks == s.hooks[h := hook]
    requires if hook.Probing? then s'.main == Some(h) && (s.main == Some(h) || s.main.None?)
             else s'.main == if s.main == Some(h) then None else s.main
    ensures Inv(maxJobs, s')
  {
    hide Held, HookOk;
    var before := if h in s.hooks then Held(s.hooks[h]) else {};
    forall k | k in s'.slots
      ensures Owns(s', s'.slots[k], k)
    {
      if k !in gained {
        assert Owns(s, s.slots[k], k);
      }
    }
    forall g, k | Owns(s', g, k)
      ensures k in s'.slots && s'.slots[k] == g
    {
      if g == h {
        if k !in gained {
          assert Owns(s, h, k);
        }
      } else {
        assert Owns(s, g, k);
        if k in before {
          assert Owns(s, h, k);
        }
      }
    }
  }

  lemma Own(maxJobs: seq<nat>, s: System, h: nat)
    requires Inv(maxJobs, s) && h in s.hooks
    ensures HookOk(maxJobs, s.hooks[h])
    ensures forall k :: k in Held(s.hooks[h]) ==> k in s.slots && s.slots[k] == h
    ensures s.hooks[h].Probing? <==> s.main == Some(h)
  {
    hide Held, HookOk;
    forall k | k in Held(s.hooks[h])
      ensures k in s.slots && s.slots[k] == h
    {
      assert Owns(s, h, k);
    }
  }

  lemma KeptByProbe(maxJobs: seq<nat>, s: System, a: Action, h: nat, s': System)
    requires Inv(maxJobs, s) && Step(maxJobs, s, a, h, s') && (a.TryLock? || a.Settle? || a.SkipMachine?)
    ensures Inv(maxJobs, s')
  {
    hide Inv;
    Own(maxJobs, s, h);
    var p := s.hooks[h];
    var k := Slot(p.machine, p.next);
    var gained := if a.TryLock? && k !in s.slots then {k} else {};
    Update(maxJobs, s, h, s'.hooks[h], gained, s');
  }

  lemma KeptByNext(maxJobs: seq<nat>, s: System, a: Action, h: nat, s': System)
    requires Inv(maxJobs, s) && Step(maxJobs, s, a, h, s') && a.NextMachine?
    ensures Inv(maxJobs, s')
  {
    hide Inv;
    Own(maxJobs, s, h);
    Update(maxJobs, s, h, s'.hooks[h], {}, s');
  }

  lemma KeptByMove(maxJobs: seq<nat>, s: System, a: Action, h: nat, s': System)
    requires Inv(maxJobs, s) && Step(maxJobs, s, a, h, s')
    requires a.TakeRequest? || a.LockMain? || a.NoneFree? || a.Choose? || a.ConnectFails? || a.ConnectSucceeds?
    ensures Inv(maxJobs, s')
  {
    hide Inv;
    Own(maxJobs, s, h);
    Update(maxJobs, s, h, s'.hooks[h], {}, s');
  }

  lemma KeptByStartOrDie(maxJobs: seq<nat>, s: System, a: Action, h: nat, s': System)
    requires Inv(maxJobs, s) && Step(maxJobs, s, a, h, s') && (a.Start? || a.Die?)
    ensures Inv(maxJobs, s')
  {
    if a.Die? {
      Own(maxJobs, s, h);
    }
    assert a.Start? ==> s.main != Some(h);
    Update(maxJobs, s, h, s'.hooks[h], {}, s');
  }

  /** Every step of every hook keeps the invariant. */
  lemma StepKeepsInv(maxJobs: seq<nat>, s: System, a: Action, h: nat, s': System)
    requires Inv(maxJobs, s) && Step(maxJobs, s, a, h, s')
    ensures Inv(maxJobs, s')
  {
    hide Inv, Step;
    match a
    case Start => KeptByStartOrDie(maxJobs, s, a, h, s');
    case Die => KeptByStartOrDie(maxJobs, s, a, h, s');
    case TryLock => KeptByProbe(maxJobs, s, a, h, s');
    case Settle => KeptByProbe(maxJobs, s, a, h, s');
    case SkipMachine => KeptByProbe(maxJobs, s, a, h, s');
    case NextMachine(_) => KeptByNext(maxJobs, s, a, h, s');
    case _ => KeptByMove(maxJobs, s, a, h, s');
  }

  // ---- what holds in every reachable state ----

  const NOBODY := System(None, map[], map[])

  /** A run: from no hooks at all, one step after the other. */
  ghost predicate Run(maxJobs: seq<nat>, states: seq<System>, steps: seq<(Action, nat)>) {
    && |states| == |steps| + 1 && states[0] == NOBODY
    && forall i :: 0 <= i < |steps| ==> Step(maxJobs, states[i], steps[i].0, steps[i].1, states[i + 1])
  }

  lemma {:induction false} RunInv(maxJobs: seq<nat>, states: seq<System>, steps: seq<(Action, nat)>, i: nat)
    requires Run(maxJobs, states, steps) && i < |states|
    ensures Inv(maxJobs, states[i])
  {
    hide Step;
    if i > 0 {
      RunInv(maxJobs, states, steps, i - 1);
      StepKeepsInv(maxJobs, states[i - 1], steps[i - 1].0, steps[i - 1].1, states[i]);
    }
  }

  /** A state that some run, of any number of hooks, can reach. */
  ghost predicate Reachable(maxJobs: seq<nat>, s: System) {
    exists states, steps :: Run(maxJobs, states, steps) && states[|steps|] == s
  }

  lemma ReachableInv(maxJobs: seq<nat>, s: System)
    requires Reachable(maxJobs, s)
    ensures Inv(maxJobs, s)
  {
    var states, steps :| Run(maxJobs, states, steps) && states[|steps|] == s;
    RunInv(maxJobs, states, steps, |steps|);
  }

  /** A hook that has chosen a slot and released the main lock. */
  predicate Committed(h: Hook, m: nat) {
    (h.Connecting? || h.Accepted?) && h.slot.machine == m
  }

  ghost function Users(s: System, m: nat, n: nat): set<nat> {
    set h | h in s.hooks && Committed(s.hooks[h], m) && s.hooks[h].slot.slot < n
  }

  lemma {:induction false} UsersBound(maxJobs: seq<nat>, s: System, m: nat, n: nat)
    requires Inv(maxJobs, s)
    ensures |Users(s, m, n)| <= n
  {
    if n == 0 {
      assert Users(s, m, n) == {};
    } else {
      UsersBound(maxJobs, s, m, n - 1);
      var k := Slot(m, n - 1);
      forall h | h in Users(s, m, n)
        ensures h in Users(s, m, n - 1) || (k in s.slots && s.slots[k] == h)
      {
        assert s.hooks[h].slot == k ==> Owns(s, h, k);
      }
      if k in s.slots {
        assert Users(s, m, n) <= Users(s, m, n - 1) + {s.slots[k]};
        SmallerSet(Users(s, m, n), Users(s, m, n - 1) + {s.slots[k]});
      } else {
        SmallerSet(Users(s, m, n), Users(s, m, n - 1));
      }
    }
  }

  lemma SmallerSet<T>(a: set<T>, b: set<T>)
    requires a <= b
    ensures |a| <= |b|
  {
    assert b == a + (b - a);
  }

  /** At most `maxJobs` hooks use a machine at once. */
  lemma AtMostMaxJobs(maxJobs: seq<nat>, s: System, m: nat)
    requires Reachable(maxJobs, s) && m < |maxJobs|
    ensures |set h | h in s.hooks && Committed(s.hooks[h], m)| <= maxJobs[m]
  {
    ReachableInv(maxJobs, s);
    UsersBound(maxJobs, s, m, maxJobs[m]);
    forall h | h in s.hooks && Committed(s.hooks[h], m)
      ensures s.hooks[h].slot.slot < maxJobs[m]
    {
      assert HookOk(maxJobs, s.hooks[h]);
    }
    assert Users(s, m, maxJobs[m]) == set h | h in s.hooks && Committed(s.hooks[h], m);
  }

  /** No slot is held by two hooks. */
  lemma SlotsAreExclusive(maxJobs: seq<nat>, s: System, g: nat, h: nat, k: Slot)
    requires Reachable(maxJobs, s) && Owns(s, g, k) && Owns(s, h, k)
    ensures g == h
  {
    ReachableInv(maxJobs, s);
  }

  /** A slot that a probing hook finds locked is in use by another hook that has committed to it: a
    hook never counts another hook's probe, or a lock of its own, as load. */
  lemma LoadIsRealUse(maxJobs: seq<nat>, s: System, h: nat, s': System)
    requires Reachable(maxJobs, s) && Step(maxJobs, s, TryLock, h, s')
    requires s'.hooks[h].load > s.hooks[h].load
    ensures var k := Slot(s.hooks[h].machine, s.hooks[h].next);
            && k in s.slots && s.slots[k] != h && s.slots[k] in s.hooks
            && Committed(s.hooks[s.slots[k]], k.machine) && s.hooks[s.slots[k]].slot == k
  {
    ReachableInv(maxJobs, s);
    var k := Slot(s.hooks[h].machine, s.hooks[h].next);
    assert HookOk(maxJobs, s.hooks[h]);
    assert Owns(s, s.slots[k], k);
    assert s.slots[k] != h;
  }

  /** When a hook finds no free slot on a machine, it found every slot of it locked. */
  lemma FullMeansAllLocked(maxJobs: seq<nat>, s: System, h: nat, s': System, better: bool)
    requires Reachable(maxJobs, s) && Step(maxJobs, s, NextMachine(better), h, s')
    requires s.hooks[h].free.None?
    ensures s.hooks[h].load == maxJobs[s.hooks[h].machine]
  {
    ReachableInv(maxJobs, s);
    assert HookOk(maxJobs, s.hooks[h]);
  }

  /** A hook that waits for a request, or for the main lock, holds no lock at all. */
  lemma WaitingHoldsNothing(maxJobs: seq<nat>, s: System, h: nat)
    requires Reachable(maxJobs, s) && h in s.hooks
    requires s.hooks[h].Waiting? || s.hooks[h].WantsMain? || s.hooks[h].Gone?
    ensures s.main != Some(h)
    ensures forall k :: k in s.slots ==> s.slots[k] != h
  {
    ReachableInv(maxJobs, s);
    forall k | k in s.slots
      ensures s.slots[k] != h
    {
      assert Owns(s, s.slots[k], k);
    }
  }

  // ---- the main lock is given back ----

  /** How much probing is left: machines, then steps on this machine. */
  ghost function ProbeRank(maxJobs: seq<nat>, p: Hook): (nat, int)
    requires p.Probing? && p.machine <= |maxJobs|
  {
    (|maxJobs| - p.machine,
     if p.machine == |maxJobs| then 0 else 2 * (maxJobs[p.machine] - p.next) - (if p.cur.Some? then 1 else 0))
  }

  /** Each step of the hook that holds the main lock, but its death, gives the lock back or leaves less
    to probe. */
  lemma MainLockIsGivenBack(maxJobs: seq<nat>, s: System, a: Action, h: nat, s': System)
    requires Reachable(maxJobs, s) && Step(maxJobs, s, a, h, s') && s.main == Some(h) && !a.Die?
    ensures h in s.hooks && s.hooks[h].Probing? && s.hooks[h].machine <= |maxJobs|
    ensures 0 <= ProbeRank(maxJobs, s.hooks[h]).1
    ensures s'.main == None || (
              && h in s'.hooks && s'.hooks[h].Probing? && s'.hooks[h].machine <= |maxJobs|
              && var p, q := ProbeRank(maxJobs, s.hooks[h]), ProbeRank(maxJobs, s'.hooks[h]);
              q.0 < p.0 || (q.0 == p.0 && q.1 < p.1))
  {
    ReachableInv(maxJobs, s);
    StepKeepsInv(maxJobs, s, a, h, s');
    assert HookOk(maxJobs, s.hooks[h]);
    assert HookOk(maxJobs, s'.hooks[h]);
  }

  /** The hook that holds the main lock can always take a step by itself. */
  lemma MainHolderIsNeverStuck(maxJobs: seq<nat>, s: System, h: nat)
    requires Reachable(maxJobs, s) && s.main == Some(h)
    ensures exists a: Action, s': System :: !a.Die? && Step(maxJobs, s, a, h, s')
  {
    ReachableInv(maxJobs, s);
    var p := s.hooks[h];
    assert HookOk(maxJobs, p);
    if p.cur.Some? {
      var s' := if p.free.None?
                then s.(hooks := s.hooks[h := p.(free := p.cur, cur := None, next := p.next + 1)])
                else s.(slots := Release(s.slots, {Slot(p.machine, p.cur.value)}),
                        hooks := s.hooks[h := p.(cur := None, next := p.next + 1)]);
      assert Step(maxJobs, s, Settle, h, s');
    } else if p.machine == |maxJobs| {
      if p.best.None? {
        assert Step(maxJobs, s, NoneFree, h, s.(main := None, hooks := s.hooks[h := Waiting]));
      } else {
        assert Step(maxJobs, s, Choose, h, s.(main := None, hooks := s.hooks[h := Connecting(p.best.value)]));
      }
    } else if p.next < maxJobs[p.machine] {
      var k := Slot(p.machine, p.next);
      var s' := if k in s.slots
                then s.(hooks := s.hooks[h := p.(load := p.load + 1, next := p.next + 1)])
                else s.(slots := s.slots[k := h], hooks := s.hooks[h := p.(cur := Some(p.next))]);
      assert Step(maxJobs, s, TryLock, h, s');
    } else {
      var better := p.free.Some? && p.best.None?;
      var s' := if better
                then s.(slots := Release(s.slots, {}),
                        hooks := s.hooks[h := Probing(p.machine + 1, 0, None, None, 0,
                                                      Some(Slot(p.machine, p.free.value)))])
                else s.(slots := Release(s.slots, if p.free.Some? then {Slot(p.machine, p.free.value)} else {}),
                        hooks := s.hooks[h := Probing(p.machine + 1, 0, None, None, 0, p.best)]);
      assert Step(maxJobs, s, NextMachine(better), h, s');
    }
  }
}
