/** The remote build hook: one process per build slot of the daemon, handed build requests one after
  the other. For each request it looks for a machine with a free slot, under a lock shared by all
  hooks, and accepts, postpones or declines. */
module BuildHook {
  import opened Options

  datatype Machine = Machine(
    systemTypes: set<string>,
    maxJobs: nat,
    speedFactor: real,
    supportedFeatures: set<string>,
    mandatoryFeatures: set<string>)

  datatype Request = Request(amWilling: bool, neededSystem: string, requiredFeatures: set<string>)

  /** Settings of the local machine that decide whether it could do the build itself. */
  datatype Local = Local(maxBuildJobs: nat, thisSystem: string, extraPlatforms: set<string>,
                         systemFeatures: set<string>)

  datatype Reply = Accept(machine: nat, slot: nat) | Postpone | Decline | DeclinePermanently

  predicate SystemSupported(m: Machine, system: string) {
    system == "builtin" || system in m.systemTypes
  }

  predicate AllSupported(m: Machine, features: set<string>) {
    forall f :: f in features ==> f in m.supportedFeatures || f in m.mandatoryFeatures
  }

  predicate MandatoryMet(m: Machine, features: set<string>) {
    forall f :: f in m.mandatoryFeatures ==> f in features
  }

  predicate AllSupportedLocally(l: Local, features: set<string>) {
    forall f :: f in features ==> f in l.systemFeatures
  }

  // ---- what a machine has to offer, and which one is best ----

  /** The machine has the system, or the build needs none; it has all features that are asked for, and all
    that it insists on are asked for. */
  ghost predicate Fits(m: Machine, r: Request) {
    && (r.neededSystem == "builtin" || r.neededSystem in m.systemTypes)
    && r.requiredFeatures <= m.supportedFeatures + m.mandatoryFeatures
    && m.mandatoryFeatures <= r.requiredFeatures
  }

  ghost predicate CanBuildLocally(l: Local, r: Request) {
    && r.amWilling
    && l.maxBuildJobs > 0
    && (r.neededSystem == l.thisSystem || r.neededSystem in l.extraPlatforms)
    && r.requiredFeatures <= l.systemFeatures
  }

  /** The slots of machine `m` below `n` that are held by others. */
  ghost function Taken(busy: (nat, nat) -> bool, m: nat, n: nat): set<nat> {
    set s: nat | s < n && busy(m, s)
  }

  /** The first slot of a machine that is free. */
  ghost predicate FirstIsFree(busy: (nat, nat) -> bool, m: nat, maxJobs: nat, slot: nat) {
    slot < maxJobs && !busy(m, slot) && forall t: nat :: t < slot ==> busy(m, t)
  }

  predicate ValidMachines(machines: seq<Machine>) {
    forall i :: 0 <= i < |machines| ==> machines[i].speedFactor > 0.0
  }

  ghost predicate Usable(machines: seq<Machine>, enabled: seq<bool>, r: Request, i: nat)
    requires |enabled| == |machines|
  {
    i < |machines| && enabled[i] && Fits(machines[i], r)
  }

  /** A usable machine with a free slot. */
  ghost predicate Candidate(machines: seq<Machine>, enabled: seq<bool>, r: Request, busy: (nat, nat) -> bool, i: nat)
    requires |enabled| == |machines|
  {
    Usable(machines, enabled, r, i) && exists s: nat :: s < machines[i].maxJobs && !busy(i, s)
  }

  /** Machine `i` is as good as machine `j`: its load for its speed is not larger; if it is the same, it is not
    slower; if the speed is the same too, it has not more load. */
  ghost predicate AsGood(machines: seq<Machine>, busy: (nat, nat) -> bool, i: nat, j: nat)
    requires ValidMachines(machines) && i < |machines| && j < |machines|
  {
    var loadI, loadJ := |Taken(busy, i, machines[i].maxJobs)| as real, |Taken(busy, j, machines[j].maxJobs)| as real;
    var speedI, speedJ := machines[i].speedFactor, machines[j].speedFactor;
    && loadI * speedJ <= loadJ * speedI
    && (loadI * speedJ == loadJ * speedI ==> speedI >= speedJ)
    && (loadI * speedJ == loadJ * speedI && speedI == speedJ ==> loadI <= loadJ)
  }

  /** The first candidate, in list order, that is as good as every candidate, among those below `n`. */
  ghost predicate BestBelow(machines: seq<Machine>, enabled: seq<bool>, r: Request, busy: (nat, nat) -> bool, i: nat,
                            n: nat)
    requires |enabled| == |machines| && ValidMachines(machines) && n <= |machines|
  {
    && i < n && Candidate(machines, enabled, r, busy, i)
    && (forall j :: 0 <= j < n && Candidate(machines, enabled, r, busy, j) ==> AsGood(machines, busy, i, j))
    && (forall j :: 0 <= j < i && Candidate(machines, enabled, r, busy, j) ==> !AsGood(machines, busy, j, i))
  }

  // ---- how the program counts and compares ----

  /** How many of the first `n` slots of machine `m` are held by others. */
  function Load(busy: (nat, nat) -> bool, m: nat, n: nat): nat {
    if n == 0 then 0 else Load(busy, m, n - 1) + (if busy(m, n - 1) then 1 else 0)
  }

  /** The first of the slots below `n` that is free. */
  function FirstFree(busy: (nat, nat) -> bool, m: nat, n: nat): Option<nat> {
    if n == 0 then None
    else match FirstFree(busy, m, n - 1)
         case Some(s) => Some(s)
         case None => if busy(m, n - 1) then None else Some(n - 1)
  }

  /** The order of preference between two machines with their loads. */
  predicate Better(a: Machine, loadA: nat, b: Machine, loadB: nat)
    requires a.speedFactor > 0.0 && b.speedFactor > 0.0
  {
    var ra, rb := loadA as real / a.speedFactor, loadB as real / b.speedFactor;
    || ra < rb
    || (ra == rb && a.speedFactor > b.speedFactor)
    || (ra == rb && a.speedFactor == b.speedFactor && loadA < loadB)
  }

  lemma {:induction false} FirstFreeIs(busy: (nat, nat) -> bool, m: nat, n: nat)
    ensures match FirstFree(busy, m, n)
            case Some(s) => s < n && !busy(m, s) && forall t: nat :: t < s ==> busy(m, t)
            case None => forall t: nat :: t < n ==> busy(m, t)
  {
    if n > 0 {
      FirstFreeIs(busy, m, n - 1);
    }
  }

  lemma {:induction false} LoadIsCount(busy: (nat, nat) -> bool, m: nat, n: nat)
    ensures Load(busy, m, n) == |Taken(busy, m, n)|
  {
    if n == 0 {
      assert Taken(busy, m, n) == {};
    } else {
      LoadIsCount(busy, m, n - 1);
      assert Taken(busy, m, n) == if busy(m, n - 1) then Taken(busy, m, n - 1) + {n - 1} else Taken(busy, m, n - 1);
    }
  }

  /** Ratios compare as the products do. */
  lemma RatioIff(a: real, s: real, b: real, t: real)
    requires s > 0.0 && t > 0.0
    ensures a / s < b / t <==> a * t < b * s
    ensures a / s == b / t <==> a * t == b * s
  {
    var x, y, p := a / s, b / t, s * t;
    assert a == x * s && b == y * t && p > 0.0;
    Regroup(x, s, t);
    Regroup(y, t, s);
    ScaleIff(x, y, p);
  }

  lemma Regroup(x: real, s: real, t: real)
    ensures x * s * t == x * (s * t) && s * t == t * s
  {
  }

  lemma ScaleIff(x: real, y: real, p: real)
    requires p > 0.0
    ensures x < y <==> x * p < y * p
    ensures x == y <==> x * p == y * p
  {
    if x < y {
      assert (y - x) * p > 0.0;
    } else if x > y {
      assert (x - y) * p > 0.0;
    }
  }

  /** The chain of comparisons says exactly when the machine so far is not as good as the new one. */
  lemma BetterIff(machines: seq<Machine>, busy: (nat, nat) -> bool, i: nat, j: nat)
    requires ValidMachines(machines) && i < |machines| && j < |machines|
    ensures Better(machines[i], Load(busy, i, machines[i].maxJobs), machines[j], Load(busy, j, machines[j].maxJobs))
            <==> !AsGood(machines, busy, j, i)
  {
    hide Load, Taken;
    LoadIsCount(busy, i, machines[i].maxJobs);
    LoadIsCount(busy, j, machines[j].maxJobs);
    RatioIff(Load(busy, i, machines[i].maxJobs) as real, machines[i].speedFactor,
             Load(busy, j, machines[j].maxJobs) as real, machines[j].speedFactor);
  }

  /** Preference is a strict weak order: a machine that beats the best so far beats, or ties with,
    everything the best so far beat or tied with. */
  lemma BetterTransitive(a: Machine, la: nat, b: Machine, lb: nat, c: Machine, lc: nat)
    requires a.speedFactor > 0.0 && b.speedFactor > 0.0 && c.speedFactor > 0.0
    requires Better(a, la, b, lb) && !Better(c, lc, b, lb)
    ensures Better(a, la, c, lc) && !Better(c, lc, a, la)
  {
  }

  lemma AsGoodTransitive(machines: seq<Machine>, busy: (nat, nat) -> bool, i: nat, best: nat, j: nat)
    requires ValidMachines(machines) && i < |machines| && best < |machines| && j < |machines|
    requires !AsGood(machines, busy, best, i) && AsGood(machines, busy, best, j)
    ensures AsGood(machines, busy, i, j) && !AsGood(machines, busy, j, i)
  {
    hide AsGood, Better, Load;
    BetterIff(machines, busy, i, best);
    BetterIff(machines, busy, j, best);
    BetterIff(machines, busy, i, j);
    BetterIff(machines, busy, j, i);
    BetterTransitive(machines[i], Load(busy, i, machines[i].maxJobs),
                     machines[best], Load(busy, best, machines[best].maxJobs),
                     machines[j], Load(busy, j, machines[j].maxJobs));
  }

  /** One pass over the machines: probe every slot of every usable machine, keep the best. */
  method SelectMachine(machines: seq<Machine>, enabled: seq<bool>, r: Request, busy: (nat, nat) -> bool)
    returns (best: Option<nat>, bestSlot: nat, rightType: bool)
    requires |enabled| == |machines| && ValidMachines(machines)
    ensures rightType <==> exists i :: Usable(machines, enabled, r, i)
    ensures best.None? ==> forall i :: !Candidate(machines, enabled, r, busy, i)
    ensures best.Some? ==> BestBelow(machines, enabled, r, busy, best.value, |machines|)
    ensures best.Some? ==> FirstIsFree(busy, best.value, machines[best.value].maxJobs, bestSlot)
  {
    best, bestSlot, rightType := None, 0, false;
    var bestLoad := 0;
    var i := 0;
    while i < |machines|
      invariant 0 <= i <= |machines|
      invariant rightType <==> exists j: nat :: j < i && Usable(machines, enabled, r, j)
      invariant best.None? ==> forall j :: 0 <= j < i ==> !Candidate(machines, enabled, r, busy, j)
      invariant best.Some? ==> BestBelow(machines, enabled, r, busy, best.value, i)
      invariant best.Some? ==> bestLoad == Load(busy, best.value, machines[best.value].maxJobs)
      invariant best.Some? ==> FirstIsFree(busy, best.value, machines[best.value].maxJobs, bestSlot)
    {
      hide AsGood, Better, Load, FirstFree, BestBelow;
      var m := machines[i];
      if enabled[i] && SystemSupported(m, r.neededSystem) && AllSupported(m, r.requiredFeatures)
         && MandatoryMet(m, r.requiredFeatures) {
        rightType := true;
        assert Usable(machines, enabled, r, i);
        var free, load := ProbeSlots(i, m.maxJobs, busy);
        FirstFreeIs(busy, i, m.maxJobs);
        if free.Some? {
          assert Candidate(machines, enabled, r, busy, i);
          if best.None? {
            FirstCandidate(machines, enabled, r, busy, i);
            best, bestSlot, bestLoad := Some(i), free.value, load;
          } else {
            BetterIff(machines, busy, i, best.value);
            if Better(m, load, machines[best.value], bestLoad) {
              KeepBest(machines, enabled, r, busy, best.value, i);
              best, bestSlot, bestLoad := Some(i), free.value, load;
            } else {
              StillBest(machines, enabled, r, busy, best.value, i);
            }
          }
        } else if best.Some? {
          NotCandidate(machines, enabled, r, busy, best.value, i);
        }
      } else if best.Some? {
        NotCandidate(machines, enabled, r, busy, best.value, i);
      }
      i := i + 1;
    }
  }

  /** Tries to lock each slot; keeps the first lock obtained and counts the failures. */
  method ProbeSlots(m: nat, maxJobs: nat, busy: (nat, nat) -> bool) returns (free: Option<nat>, load: nat)
    ensures free == FirstFree(busy, m, maxJobs)
    ensures load == Load(busy, m, maxJobs)
  {
    free, load := None, 0;
    for slot := 0 to maxJobs
      invariant free == FirstFree(busy, m, slot)
      invariant load == Load(busy, m, slot)
    {
      if !busy(m, slot) {
        if free.None? {
          free := Some(slot);
        }
      } else {
        load := load + 1;
      }
    }
  }

  lemma KeepBest(machines: seq<Machine>, enabled: seq<bool>, r: Request, busy: (nat, nat) -> bool, best: nat, i: nat)
    requires |enabled| == |machines| && ValidMachines(machines) && i < |machines|
    requires BestBelow(machines, enabled, r, busy, best, i)
    requires Candidate(machines, enabled, r, busy, i) && !AsGood(machines, busy, best, i)
    ensures BestBelow(machines, enabled, r, busy, i, i + 1)
  {
    hide Candidate;
    forall j | 0 <= j < i && Candidate(machines, enabled, r, busy, j)
      ensures AsGood(machines, busy, i, j) && !AsGood(machines, busy, j, i)
    {
      AsGoodTransitive(machines, busy, i, best, j);
    }
  }

  lemma FirstCandidate(machines: seq<Machine>, enabled: seq<bool>, r: Request, busy: (nat, nat) -> bool, i: nat)
    requires |enabled| == |machines| && ValidMachines(machines) && i < |machines|
    requires Candidate(machines, enabled, r, busy, i)
    requires forall j :: 0 <= j < i ==> !Candidate(machines, enabled, r, busy, j)
    ensures BestBelow(machines, enabled, r, busy, i, i + 1)
  {
    hide Candidate;
  }

  lemma StillBest(machines: seq<Machine>, enabled: seq<bool>, r: Request, busy: (nat, nat) -> bool, best: nat, i: nat)
    requires |enabled| == |machines| && ValidMachines(machines) && i < |machines|
    requires BestBelow(machines, enabled, r, busy, best, i) && AsGood(machines, busy, best, i)
    ensures BestBelow(machines, enabled, r, busy, best, i + 1)
  {
    hide Candidate, AsGood;
  }

  /** A machine that is no candidate changes nothing. */
  lemma NotCandidate(machines: seq<Machine>, enabled: seq<bool>, r: Request, busy: (nat, nat) -> bool, best: nat,
                     i: nat)
    requires |enabled| == |machines| && ValidMachines(machines) && i < |machines|
    requires BestBelow(machines, enabled, r, busy, best, i) && !Candidate(machines, enabled, r, busy, i)
    ensures BestBelow(machines, enabled, r, busy, best, i + 1)
  {
    hide Candidate, AsGood;
  }

  // ---- answering one request ----

  /** What the hook meets while it handles a request: `busy(t, m, s)` says whether slot `s` of machine
    `m` is held by another hook when attempt `t` probes it, and `connects(t, m)` whether connecting to
    the machine chosen in attempt `t` succeeds. */
  datatype World = World(busy: (nat, nat, nat) -> bool, connects: (nat, nat) -> bool)

  function BusyAt(w: World, t: nat): (nat, nat) -> bool {
    (m: nat, s: nat) => w.busy(t, m, s)
  }

  function EnabledCount(enabled: seq<bool>): nat {
    if enabled == [] then 0 else (if enabled[0] then 1 else 0) + EnabledCount(enabled[1..])
  }

  lemma {:induction false} DisableOne(enabled: seq<bool>, i: nat)
    requires i < |enabled| && enabled[i]
    ensures EnabledCount(enabled[i := false]) == EnabledCount(enabled) - 1
  {
    if i == 0 {
      assert enabled[0 := false][1..] == enabled[1..];
    } else {
      assert enabled[i := false][1..] == enabled[1..][i - 1 := false];
      DisableOne(enabled[1..], i - 1);
    }
  }

  /** The attempts made for a request: each but the last chose the best machine of its moment, failed
    to connect to it, and disabled it. */
  ghost predicate Attempts(machines: seq<Machine>, r: Request, w: World, tried: seq<nat>, before: seq<bool>,
                           after: seq<bool>)
    requires |before| == |machines| && ValidMachines(machines)
    decreases |tried|
  {
    if tried == [] then after == before
    else
      var t, i := |tried| - 1, tried[|tried| - 1];
      exists mid: seq<bool> ::
        && |mid| == |machines| && Attempts(machines, r, w, tried[..t], before, mid)
        && BestBelow(machines, mid, r, BusyAt(w, t), i, |machines|)
        && !w.connects(t, i)
        && after == mid[i := false]
  }

  lemma NoAttempts(machines: seq<Machine>, r: Request, w: World, enabled: seq<bool>)
    requires |enabled| == |machines| && ValidMachines(machines)
    ensures Attempts(machines, r, w, [], enabled, enabled)
  {
  }

  lemma OneMoreAttempt(machines: seq<Machine>, r: Request, w: World, tried: seq<nat>, before: seq<bool>,
                       enabled: seq<bool>, i: nat)
    requires |before| == |machines| && |enabled| == |machines| && ValidMachines(machines) && i < |machines|
    requires Attempts(machines, r, w, tried, before, enabled) && !w.connects(|tried|, i)
    requires BestBelow(machines, enabled, r, BusyAt(w, |tried|), i, |machines|)
    ensures Attempts(machines, r, w, tried + [i], before, enabled[i := false])
  {
    assert (tried + [i])[..|tried|] == tried;
  }

  /** When a reply is right, for the machines still enabled at the last attempt. */
  ghost predicate RightReply(machines: seq<Machine>, enabled: seq<bool>, r: Request, local: Local, w: World, t: nat,
                             reply: Reply)
    requires |enabled| == |machines| && ValidMachines(machines)
  {
    match reply
    case Accept(i, slot) =>
      && BestBelow(machines, enabled, r, BusyAt(w, t), i, |machines|)
      && FirstIsFree(BusyAt(w, t), i, machines[i].maxJobs, slot)
      && w.connects(t, i)
    case Postpone =>
      && (forall i :: !Candidate(machines, enabled, r, BusyAt(w, t), i))
      && (exists i :: Usable(machines, enabled, r, i))
      && !CanBuildLocally(local, r)
    case Decline =>
      && (forall i :: !Candidate(machines, enabled, r, BusyAt(w, t), i))
      && ((forall i :: !Usable(machines, enabled, r, i)) || CanBuildLocally(local, r))
    case DeclinePermanently => machines == []
  }

  /** A request and the world it is handled in. */
  datatype Turn = Turn(request: Request, world: World)

  /** One request of a session was answered, starting with the machines `before`. */
  ghost predicate Answered(machines: seq<Machine>, local: Local, turn: Turn, before: seq<bool>, after: seq<bool>,
                           reply: Reply)
  {
    && ValidMachines(machines) && |before| == |machines| && |after| == |machines| && !reply.DeclinePermanently?
    && exists tried: seq<nat> ::
         && Attempts(machines, turn.request, turn.world, tried, before, after)
         && RightReply(machines, after, turn.request, local, turn.world, |tried|, reply)
  }

  /** A session: every reply is right for the machines that the earlier ones left. */
  ghost predicate Session(machines: seq<Machine>, local: Local, turns: seq<Turn>, replies: seq<Reply>,
                          before: seq<bool>, after: seq<bool>)
    decreases |turns|
  {
    && |replies| == |turns|
    && if turns == [] then after == before
       else
         var n := |turns| - 1;
         exists mid: seq<bool> ::
           && Session(machines, local, turns[..n], replies[..n], before, mid)
           && Answered(machines, local, turns[n], mid, after, replies[n])
  }

  lemma {:induction false} SessionMore(machines: seq<Machine>, local: Local, turns: seq<Turn>, replies: seq<Reply>,
                                       before: seq<bool>, mid: seq<bool>, reply: Reply, after: seq<bool>)
    requires |replies| < |turns| && Session(machines, local, turns[..|replies|], replies, before, mid)
    requires Answered(machines, local, turns[|replies|], mid, after, reply)
    ensures Session(machines, local, turns[..|replies| + 1], replies + [reply], before, after)
  {
    hide Answered;
    var n := |replies|;
    assert turns[..n + 1][..n] == turns[..n] && (replies + [reply])[..n] == replies;
  }

  /** What is known of a session so far: only the last reply may accept. */
  ghost predicate SoFar(machines: seq<Machine>, local: Local, turns: seq<Turn>, replies: seq<Reply>, before: seq<bool>,
                        after: seq<bool>)
  {
    && |replies| <= |turns| && OneAccept(replies)
    && Session(machines, local, turns[..|replies|], replies, before, after)
  }

  ghost predicate OneAccept(replies: seq<Reply>) {
    && DeclinePermanently !in replies
    && forall i :: 0 <= i < |replies| - 1 ==> !replies[i].Accept?
  }

  lemma OneAcceptMore(replies: seq<Reply>, reply: Reply)
    requires OneAccept(replies) && reply != DeclinePermanently && (replies == [] || !replies[|replies| - 1].Accept?)
    ensures OneAccept(replies + [reply])
  {
  }

  lemma NotPermanent(machines: seq<Machine>, local: Local, turn: Turn, before: seq<bool>, after: seq<bool>,
                     reply: Reply)
    requires Answered(machines, local, turn, before, after, reply)
    ensures reply != DeclinePermanently
  {
    hide Attempts, RightReply;
  }

  lemma NothingSoFar(machines: seq<Machine>, local: Local, turns: seq<Turn>, enabled: seq<bool>)
    ensures SoFar(machines, local, turns, [], enabled, enabled)
  {
  }

  lemma {:induction false} OneMoreReply(machines: seq<Machine>, local: Local, turns: seq<Turn>, replies: seq<Reply>,
                                        before: seq<bool>, mid: seq<bool>, reply: Reply, after: seq<bool>)
    requires SoFar(machines, local, turns, replies, before, mid) && |replies| < |turns|
    requires replies == [] || !replies[|replies| - 1].Accept?
    requires Answered(machines, local, turns[|replies|], mid, after, reply)
    ensures SoFar(machines, local, turns, replies + [reply], before, after)
  {
    hide Session, Answered, OneAccept;
    SessionMore(machines, local, turns, replies, before, mid, reply, after);
    NotPermanent(machines, local, turns[|replies|], mid, after, reply);
    OneAcceptMore(replies, reply);
  }

  /** The hook process; which machines it still considers is all it remembers between requests. */
  class Hook {
    const machines: seq<Machine>
    const local: Local
    var enabled: seq<bool>

    ghost predicate Valid()
      reads this
    {
      |enabled| == |machines| && ValidMachines(machines)
    }

    constructor (machines: seq<Machine>, local: Local)
      requires ValidMachines(machines)
      ensures Valid() && this.machines == machines && this.local == local
      ensures forall i :: 0 <= i < |enabled| ==> enabled[i]
    {
      this.machines := machines;
      this.local := local;
      this.enabled := seq(|machines|, _ => true);
    }

    /** Gives exactly one reply. Every failed attempt disables one more machine for good, so there are
      at most as many as there were enabled machines. */
    method HandleRequest(r: Request, w: World) returns (reply: Reply, tried: seq<nat>)
      requires Valid()
      modifies this
      ensures Valid()
      ensures Attempts(machines, r, w, tried, old(enabled), enabled)
      ensures EnabledCount(enabled) == EnabledCount(old(enabled)) - |tried|
      ensures RightReply(machines, enabled, r, local, w, |tried|, reply) && !reply.DeclinePermanently?
    {
      tried := [];
      hide Attempts, EnabledCount, AsGood;
      var couldBuildLocally := local.maxBuildJobs > 0
                               && (r.neededSystem == local.thisSystem || r.neededSystem in local.extraPlatforms)
                               && AllSupportedLocally(local, r.requiredFeatures);
      var canBuildLocally := r.amWilling && couldBuildLocally;
      assert canBuildLocally <==> CanBuildLocally(local, r);
      assert Attempts(machines, r, w, tried, old(enabled), enabled) by {
        NoAttempts(machines, r, w, enabled);
      }
      while true
        invariant Valid()
        invariant Attempts(machines, r, w, tried, old(enabled), enabled)
        invariant EnabledCount(enabled) == EnabledCount(old(enabled)) - |tried|
        decreases EnabledCount(enabled)
      {
        var t := |tried|;
        var best, slot, rightType := SelectMachine(machines, enabled, r, BusyAt(w, t));
        if best.None? {
          if rightType && !canBuildLocally {
            return Postpone, tried;
          }
          return Decline, tried;
        }
        var i := best.value;
        if w.connects(t, i) {
          return Accept(i, slot), tried;
        }
        DisableOne(enabled, i);
        OneMoreAttempt(machines, r, w, tried, old(enabled), enabled, i);
        enabled := enabled[i := false];
        tried := tried + [i];
      }
    }

    method Answer(turn: Turn) returns (reply: Reply)
      requires Valid()
      modifies this
      ensures Valid() && Answered(machines, local, turn, old(enabled), enabled, reply)
    {
      var tried;
      reply, tried := HandleRequest(turn.request, turn.world);
    }

    /** The whole session: without machines no request is read; otherwise requests are answered up to the
      first that is accepted. */
    method Serve(turns: seq<Turn>) returns (replies: seq<Reply>)
      requires Valid()
      modifies this
      ensures Valid()
      ensures machines == [] ==> replies == [DeclinePermanently] && enabled == old(enabled)
      ensures machines != [] ==>
                && |replies| <= |turns| && OneAccept(replies)
                && Session(machines, local, turns[..|replies|], replies, old(enabled), enabled)
                && (|replies| < |turns| ==> replies != [] && replies[|replies| - 1].Accept?)
    {
      replies := [];
      if machines == [] {
        return [DeclinePermanently];
      }
      NothingSoFar(machines, local, turns, enabled);
      hide Session, Answered;
      var accepted := false;
      while |replies| < |turns| && !accepted
        invariant Valid() && SoFar(machines, local, turns, replies, old(enabled), enabled)
        invariant accepted <==> replies != [] && replies[|replies| - 1].Accept?
        decreases |turns| - |replies|
      {
        hide SoFar;
        ghost var before := enabled;
        var reply := Answer(turns[|replies|]);
        OneMoreReply(machines, local, turns, replies, old(enabled), before, reply, enabled);
        replies, accepted := replies + [reply], reply.Accept?;
      }
    }
  }
}
