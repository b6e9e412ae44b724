/** One hook's probing as steps of the shared protocol.

  The protocol says which lock operations are possible; the selection loop says which of them the hook
  makes. Here a hook makes the protocol's steps as the loop tells it, among steps of any number of other
  hooks, and what it chooses is what the loop chooses. */
module HookRuns {
  import opened Options
  import opened BuildHook
  import P = SlotProtocol

  /** What the hook is looking for. `busy` is what its probes find: a slot is locked when it is probed. */
  datatype Search = Search(machines: seq<Machine>, enabled: seq<bool>, request: Request, busy: (nat, nat) -> bool)

  ghost predicate Proper(q: Search) {
    |q.enabled| == |q.machines| && ValidMachines(q.machines)
  }

  function MaxJobs(q: Search): (jobs: seq<nat>)
    ensures |jobs| == |q.machines|
    ensures forall i :: 0 <= i < |jobs| ==> jobs[i] == q.machines[i].maxJobs
  {
    seq(|q.machines|, i requires 0 <= i < |q.machines| => q.machines[i].maxJobs)
  }

  /** Whether the machine just probed replaces the best one so far. */
  ghost predicate TakesOver(q: Search, p: P.Hook)
    requires Proper(q) && p.Probing? && p.machine < |q.machines|
  {
    && p.free.Some?
    && (p.best.Some? && p.best.value.machine < |q.machines| ==>
          var b := p.best.value.machine;
          Better(q.machines[p.machine], p.load, q.machines[b], Load(q.busy, b, q.machines[b].maxJobs)))
  }

  /** The step is the one that the selection loop makes. */
  ghost predicate Guided(q: Search, s: P.System, a: P.Action, h: nat)
    requires Proper(q)
  {
    && h in s.hooks && s.hooks[h].Probing?
    && var p := s.hooks[h];
    match a
    case SkipMachine => p.machine < |q.machines| && !Usable(q.machines, q.enabled, q.request, p.machine)
    case TryLock =>
      && p.machine < |q.machines| && Usable(q.machines, q.enabled, q.request, p.machine)
      && (P.Slot(p.machine, p.next) in s.slots <==> q.busy(p.machine, p.next))
    case Settle => true
    case NextMachine(better) =>
      && p.machine < |q.machines| && Usable(q.machines, q.enabled, q.request, p.machine)
      && (better <==> TakesOver(q, p))
    case _ => false
  }

  /** What a probing hook remembers is what the selection loop remembers at the same place. */
  ghost predicate Tracks(q: Search, p: P.Hook)
    requires Proper(q)
  {
    && p.Probing? && p.machine <= |q.machines|
    && (p.machine < |q.machines| ==>
          && p.next <= q.machines[p.machine].maxJobs
          && p.free == FirstFree(q.busy, p.machine, p.next) && p.load == Load(q.busy, p.machine, p.next)
          && (p.cur.Some? ==>
                p.cur.value == p.next && p.next < q.machines[p.machine].maxJobs && !q.busy(p.machine, p.next)))
    && BestSoFar(q, p.best, p.machine)
  }

  ghost predicate BestSoFar(q: Search, best: Option<P.Slot>, n: nat)
    requires Proper(q) && n <= |q.machines|
  {
    match best
    case None => forall j :: 0 <= j < n ==> !Candidate(q.machines, q.enabled, q.request, q.busy, j)
    case Some(k) =>
      && BestBelow(q.machines, q.enabled, q.request, q.busy, k.machine, n)
      && Some(k.slot) == FirstFree(q.busy, k.machine, q.machines[k.machine].maxJobs)
  }

  lemma TracksFromStart(q: Search)
    requires Proper(q)
    ensures Tracks(q, P.Probing(0, 0, None, None, 0, None))
  {
  }

  /** A machine that is skipped or full changes nothing. */
  lemma SkipNoCandidate(q: Search, best: Option<P.Slot>, n: nat)
    requires Proper(q) && n < |q.machines| && BestSoFar(q, best, n)
    requires !Candidate(q.machines, q.enabled, q.request, q.busy, n)
    ensures BestSoFar(q, best, n + 1)
  {
    hide Candidate, BestBelow, FirstFree;
    if best.Some? {
      NotCandidate(q.machines, q.enabled, q.request, q.busy, best.value.machine, n);
    }
  }

  lemma FullIsNoCandidate(q: Search, n: nat)
    requires Proper(q) && n < |q.machines| && FirstFree(q.busy, n, q.machines[n].maxJobs).None?
    ensures !Candidate(q.machines, q.enabled, q.request, q.busy, n)
  {
    FirstFreeIs(q.busy, n, q.machines[n].maxJobs);
  }

  lemma FreeIsCandidate(q: Search, n: nat)
    requires Proper(q) && Usable(q.machines, q.enabled, q.request, n)
    requires FirstFree(q.busy, n, q.machines[n].maxJobs).Some?
    ensures Candidate(q.machines, q.enabled, q.request, q.busy, n)
  {
    FirstFreeIs(q.busy, n, q.machines[n].maxJobs);
  }

  /** A guided step of the probing hook keeps it where the selection loop is. */
  lemma GuidedStepTracks(q: Search, s: P.System, a: P.Action, h: nat, s': P.System)
    requires Proper(q) && Guided(q, s, a, h) && P.Step(MaxJobs(q), s, a, h, s') && Tracks(q, s.hooks[h])
    ensures h in s'.hooks && Tracks(q, s'.hooks[h])
  {
    hide Usable, BestSoFar, Better;
    var p := s.hooks[h];
    match a
    case TryLock =>
    case Settle =>
    case SkipMachine =>
      UnusableIsNoCandidate(q, p.machine);
      SkipNoCandidate(q, p.best, p.machine);
    case NextMachine(better) =>
      if p.free.None? {
        FullIsNoCandidate(q, p.machine);
        SkipNoCandidate(q, p.best, p.machine);
      } else {
        FreeIsCandidate(q, p.machine);
        Compare(q, p, better);
      }
  }

  lemma UnusableIsNoCandidate(q: Search, n: nat)
    requires Proper(q) && !Usable(q.machines, q.enabled, q.request, n)
    ensures !Candidate(q.machines, q.enabled, q.request, q.busy, n)
  {
  }

  lemma Compare(q: Search, p: P.Hook, better: bool)
    requires Proper(q) && Tracks(q, p) && p.machine < |q.machines| && p.next == q.machines[p.machine].maxJobs
    requires p.free.Some? && (better <==> TakesOver(q, p))
    requires Candidate(q.machines, q.enabled, q.request, q.busy, p.machine)
    ensures BestSoFar(q, if better then Some(P.Slot(p.machine, p.free.value)) else p.best, p.machine + 1)
  {
    hide Candidate, FirstFree, Load, Better, AsGood;
    if p.best.None? {
      FirstCandidate(q.machines, q.enabled, q.request, q.busy, p.machine);
    } else {
      TakesOverIff(q, p);
      if better {
        KeepBest(q.machines, q.enabled, q.request, q.busy, p.best.value.machine, p.machine);
      } else {
        StillBest(q.machines, q.enabled, q.request, q.busy, p.best.value.machine, p.machine);
      }
    }
  }

  lemma TakesOverIff(q: Search, p: P.Hook)
    requires Proper(q) && Tracks(q, p) && p.machine < |q.machines| && p.next == q.machines[p.machine].maxJobs
    requires p.free.Some? && p.best.Some?
    ensures p.best.value.machine < p.machine
    ensures TakesOver(q, p) <==> !AsGood(q.machines, q.busy, p.best.value.machine, p.machine)
  {
    hide Candidate, FirstFree, Better, AsGood;
    BetterIff(q.machines, q.busy, p.machine, p.best.value.machine);
  }

  /** The hook's steps among those of all hooks, from taking the main lock on: its own are guided, and the
    others' are arbitrary. */
  ghost predicate Probes(q: Search, h: nat, states: seq<P.System>, steps: seq<(P.Action, nat)>)
    requires Proper(q)
  {
    && |states| == |steps| + 1
    && h in states[0].hooks && states[0].hooks[h] == P.Probing(0, 0, None, None, 0, None)
    && (forall i :: 0 <= i < |steps| ==> P.Step(MaxJobs(q), states[i], steps[i].0, steps[i].1, states[i + 1]))
    && (forall i :: 0 <= i < |steps| && steps[i].1 == h ==> Guided(q, states[i], steps[i].0, h))
  }

  lemma {:induction false} ProbesTrack(q: Search, h: nat, states: seq<P.System>, steps: seq<(P.Action, nat)>, i: nat)
    requires Proper(q) && Probes(q, h, states, steps) && i < |states|
    ensures h in states[i].hooks && Tracks(q, states[i].hooks[h])
  {
    if i == 0 {
      TracksFromStart(q);
    } else {
      hide Tracks, Guided;
      ProbesTrack(q, h, states, steps, i - 1);
      var (a, g) := steps[i - 1];
      if g == h {
        GuidedStepTracks(q, states[i - 1], a, h, states[i]);
      } else {
        OthersStay(MaxJobs(q), states[i - 1], a, g, states[i], h);
      }
    }
  }

  lemma OthersStay(maxJobs: seq<nat>, s: P.System, a: P.Action, g: nat, s': P.System, h: nat)
    requires P.Step(maxJobs, s, a, g, s') && g != h && h in s.hooks
    ensures h in s'.hooks && s'.hooks[h] == s.hooks[h]
  {
  }

  /** The slot that a hook commits to, after probing among any number of other hooks, is the first free one
    of the machine that the selection loop returns for what the probes found. */
  lemma ChoosesTheBest(q: Search, h: nat, states: seq<P.System>, steps: seq<(P.Action, nat)>, s': P.System)
    requires Proper(q) && Probes(q, h, states, steps) && P.Step(MaxJobs(q), states[|steps|], P.Choose, h, s')
    ensures h in s'.hooks && s'.hooks[h].Connecting?
    ensures var m := s'.hooks[h].slot.machine;
            && BestBelow(q.machines, q.enabled, q.request, q.busy, m, |q.machines|)
            && FirstIsFree(q.busy, m, q.machines[m].maxJobs, s'.hooks[h].slot.slot)
  {
    ProbesTrack(q, h, states, steps, |steps|);
    var m := states[|steps|].hooks[h].best.value.machine;
    FirstFreeIs(q.busy, m, q.machines[m].maxJobs);
  }

  /** A hook that gives up found no usable machine with a free slot. */
  lemma GivesUpWhenNoneFree(q: Search, h: nat, states: seq<P.System>, steps: seq<(P.Action, nat)>, s': P.System)
    requires Proper(q) && Probes(q, h, states, steps) && P.Step(MaxJobs(q), states[|steps|], P.NoneFree, h, s')
    ensures forall i: nat :: !Candidate(q.machines, q.enabled, q.request, q.busy, i)
  {
    hide Candidate;
    ProbesTrack(q, h, states, steps, |steps|);
    forall i: nat
      ensures !Candidate(q.machines, q.enabled, q.request, q.busy, i)
    {
      if i >= |q.machines| {
        NoSuchMachine(q, i);
      }
    }
  }

  lemma NoSuchMachine(q: Search, i: nat)
    requires Proper(q) && i >= |q.machines|
    ensures !Candidate(q.machines, q.enabled, q.request, q.busy, i)
  {
  }
}
