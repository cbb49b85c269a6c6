/**
 The shared sender slot of an agent: callers send through it under a lock while the orchestrator
 swaps in the channel of a restarted message loop. Every lock section is one entry of a log.
 */
module HotSwap {
  import opened Base

  type Task = nat
  /** Message loops are numbered in the order they are spawned, which need not be the order in which
      they are installed in the slot. */
  type Generation = nat

  const CAPACITY: nat := 32

  /** A loop's channel: everything it accepted, how much of it was taken out, and whether the
      receiving side still exists. */
  datatype Channel = Channel(accepted: seq<string>, taken: nat, open: bool)

  /** A completed lock section. */
  datatype Section =
    | Sent(task: Task, msg: string, to: Generation)
    | NotFound(task: Task, msg: string, slotEmpty: bool)
    | Swapped(to: Generation)
    | Emptied

  /** A sender that holds the lock and has found a channel in the slot. */
  datatype Holder = Holder(task: Task, msg: string, to: Generation)

  /** `pending` holds the loops spawned by a restart that still waits for the lock to install them. */
  datatype System = System(
    slot: Option<Generation>,
    holder: Option<Holder>,
    channels: map<Generation, Channel>,
    nextGeneration: Generation,
    pending: set<Generation>,
    log: seq<Section>)

  datatype Action =
    | Lock(task: Task, msg: string)
    | Push
    | FailClosed
    | Take(from: Generation)
    | LoopExit(of: Generation)
    | Spawn
    | Install(loop: Generation)
    | Empty

  const NEW_CHANNEL := Channel([], 0, true)

  const SPAWNED := System(Some(0), None, map[0 := NEW_CHANNEL], 1, {}, [Swapped(0)])

  function Finish(s: System, section: Section): System {
    s.(holder := None, log := s.log + [section])
  }

  predicate HasRoom(c: Channel) {
    c.open && |c.accepted| < c.taken + CAPACITY
  }

  /** One step; an action whose guard does not hold changes nothing. */
  function Step(s: System, a: Action): System {
    match a
    case Lock(t, msg) =>
      if s.holder.Some? then s
      else if s.slot.None? then Finish(s, NotFound(t, msg, true))
      else s.(holder := Some(Holder(t, msg, s.slot.value)))
    case Push =>
      if s.holder.Some? && s.holder.value.to in s.channels && HasRoom(s.channels[s.holder.value.to]) then
        var h := s.holder.value;
        var c := s.channels[h.to];
        Finish(s.(channels := s.channels[h.to := c.(accepted := c.accepted + [h.msg])]), Sent(h.task, h.msg, h.to))
      else s
    case FailClosed =>
      if s.holder.Some? && s.holder.value.to in s.channels && !s.channels[s.holder.value.to].open then
        Finish(s, NotFound(s.holder.value.task, s.holder.value.msg, false))
      else s
    case Take(g) =>
      if g in s.channels && s.channels[g].open && s.channels[g].taken < |s.channels[g].accepted| then
        s.(channels := s.channels[g := s.channels[g].(taken := s.channels[g].taken + 1)])
      else s
    case LoopExit(g) =>
      if g in s.channels then s.(channels := s.channels[g := s.channels[g].(open := false)]) else s
    case Spawn =>
      var g := s.nextGeneration;
      s.(channels := s.channels[g := NEW_CHANNEL], nextGeneration := g + 1, pending := s.pending + {g})
    case Install(g) =>
      if s.holder.Some? || g !in s.pending then s
      else Finish(s.(slot := Some(g), pending := s.pending - {g}), Swapped(g))
    case Empty =>
      if s.holder.Some? then s else Finish(s.(slot := None), Emptied)
  }

  function Execute(actions: seq<Action>): System {
    if actions == [] then SPAWNED
    else Step(Execute(actions[..|actions| - 1]), actions[|actions| - 1])
  }

  // ---- what the log says ----

  /** The slot after the sections so far: the last swap or emptying decides. */
  function SlotAfter(log: seq<Section>): Option<Generation> {
    if log == [] then None
    else match log[|log| - 1]
      case Swapped(g) => Some(g)
      case Emptied => None
      case _ => SlotAfter(log[..|log| - 1])
  }

  /** The messages sent to a generation, in the order of their lock sections. */
  function SentTo(log: seq<Section>, g: Generation): seq<string> {
    if log == [] then []
    else
      var last := log[|log| - 1];
      SentTo(log[..|log| - 1], g) + if last.Sent? && last.to == g then [last.msg] else []
  }

  /** One section, given those before it: a send went to the generation then installed, a send
      failed for want of a channel exactly when the slot was empty, a swap installed a loop for the
      first time. */
  ghost predicate SectionOk(before: seq<Section>, section: Section) {
    match section
    case Sent(_, _, g) => SlotAfter(before) == Some(g)
    case NotFound(_, _, slotEmpty) => slotEmpty <==> SlotAfter(before) == None
    case Swapped(g) => forall i :: 0 <= i < |before| && before[i].Swapped? ==> before[i].to != g
    case Emptied => true
  }

  ghost predicate LogOk(log: seq<Section>) {
    forall i :: 0 <= i < |log| ==> SectionOk(log[..i], log[i])
  }

  /** A generation's channel holds what was sent to it; an unspawned one was sent nothing. */
  ghost predicate ChannelOk(s: System, g: Generation) {
    if g < s.nextGeneration then
      && g in s.channels
      && var c := s.channels[g];
         c.accepted == SentTo(s.log, g) && c.taken <= |c.accepted| <= c.taken + CAPACITY
    else
      g !in s.channels && SentTo(s.log, g) == []
  }

  /** The slot is what the log says, and a lock holder has read it. */
  ghost predicate SlotOk(s: System) {
    && s.slot == SlotAfter(s.log)
    && (s.slot.Some? ==> s.slot.value < s.nextGeneration)
    && (s.holder.Some? ==> s.slot == Some(s.holder.value.to))
  }

  ghost predicate Inv(s: System) {
    && LogOk(s.log)
    && SlotOk(s)
    && (forall g: Generation :: ChannelOk(s, g))
    && PendingOk(s)
  }

  /** Pending loops have been spawned and not yet been installed; installed ones have been spawned. */
  ghost predicate PendingOk(s: System) {
    && (forall g: Generation :: g in s.pending ==> g < s.nextGeneration)
    && (forall i :: 0 <= i < |s.log| && s.log[i].Swapped? ==> s.log[i].to < s.nextGeneration && s.log[i].to !in s.pending)
  }

  lemma LogGrows(log: seq<Section>, section: Section)
    requires LogOk(log) && SectionOk(log, section)
    ensures LogOk(log + [section])
    ensures SlotAfter(log + [section]) ==
              match section
              case Swapped(g) => Some(g)
              case Emptied => None
              case _ => SlotAfter(log)
  {
    var longer := log + [section];
    assert longer[..|log|] == log;
    forall i | 0 <= i < |longer|
      ensures SectionOk(longer[..i], longer[i])
    {
      if i < |log| {
        assert longer[..i] == log[..i];
      }
    }
  }

  lemma SentToGrows(log: seq<Section>, section: Section, g: Generation)
    ensures SentTo(log + [section], g) == SentTo(log, g) + if section.Sent? && section.to == g then [section.msg] else []
  {
    assert (log + [section])[..|log|] == log;
  }

  /** The section a step completes, if any. */
  function Completed(s: System, a: Action): Option<Section> {
    var s' := Step(s, a);
    if s'.log == s.log then None else Some(s'.log[|s'.log| - 1])
  }

  /** A section that sends nothing to `g` leaves what was sent there. */
  lemma SectionKeepsChannel(s: System, section: Section, g: Generation)
    requires ChannelOk(s, g) && (section.Sent? ==> section.to != g)
    ensures ChannelOk(Finish(s, section), g)
  {
    SentToGrows(s.log, section, g);
  }

  lemma PushKeepsChannel(s: System, g: Generation)
    requires ChannelOk(s, g)
    ensures ChannelOk(Step(s, Push), g)
  {
    if Completed(s, Push).Some? {
      SentToGrows(s.log, Completed(s, Push).value, g);
    }
  }

  lemma StepKeepsChannel(s: System, a: Action, g: Generation)
    requires ChannelOk(s, g)
    ensures ChannelOk(Step(s, a), g)
  {
    match a
    case Push => PushKeepsChannel(s, g);
    case Take(_) =>
    case LoopExit(_) =>
    case Spawn =>
    case _ =>
      if Completed(s, a).Some? {
        SectionKeepsChannel(s, Completed(s, a).value, g);
      }
  }

  lemma StepKeepsLog(s: System, a: Action)
    requires Inv(s)
    ensures var s' := Step(s, a);
            LogOk(s'.log) && SlotOk(s')
  {
    if Completed(s, a).Some? {
      var section := Completed(s, a).value;
      assert SectionOk(s.log, section) by {
        if section.Swapped? {
          forall i | 0 <= i < |s.log| && s.log[i].Swapped?
            ensures s.log[i].to != section.to
          {
          }
        }
      }
      LogGrows(s.log, section);
    }
  }

  lemma StepKeepsPending(s: System, a: Action)
    requires PendingOk(s)
    ensures PendingOk(Step(s, a))
  {
    var s' := Step(s, a);
    forall i | 0 <= i < |s'.log| && s'.log[i].Swapped?
      ensures s'.log[i].to < s'.nextGeneration && s'.log[i].to !in s'.pending
    {
      if i < |s.log| {
        assert s'.log[i] == s.log[i];
      }
    }
  }

  lemma StepKeepsInv(s: System, a: Action)
    requires Inv(s)
    ensures Inv(Step(s, a))
  {
    StepKeepsLog(s, a);
    StepKeepsPending(s, a);
    forall g: Generation
      ensures ChannelOk(Step(s, a), g)
    {
      StepKeepsChannel(s, a, g);
    }
  }

  lemma {:induction false} InvAlways(actions: seq<Action>)
    ensures Inv(Execute(actions))
  {
    if actions == [] {
      assert [Swapped(0)][..0] == [];
      assert forall g: Generation :: SentTo([Swapped(0)], g) == [];
    } else {
      InvAlways(actions[..|actions| - 1]);
      StepKeepsInv(Execute(actions[..|actions| - 1]), actions[|actions| - 1]);
    }
  }

  // ---- the theorems ----

  /** Each channel holds exactly the successful sends addressed to it, in lock order, with never more
      than its capacity outstanding. */
  lemma QueueOrderIsLockOrder(actions: seq<Action>, g: Generation)
    ensures var s := Execute(actions);
            && (g in s.channels <==> g < s.nextGeneration)
            && (g in s.channels ==> s.channels[g].accepted == SentTo(s.log, g)
                                    && |s.channels[g].accepted| - s.channels[g].taken <= CAPACITY)
            && (g !in s.channels ==> SentTo(s.log, g) == [])
  {
    InvAlways(actions);
    assert ChannelOk(Execute(actions), g);
  }

  /** A successful send went to the generation installed while it held the lock, and a send refused
      for an empty slot found none installed. */
  lemma SendsReachTheInstalledLoop(actions: seq<Action>, i: nat)
    ensures var log := Execute(actions).log;
            i < |log| ==>
              && (log[i].Sent? ==> SlotAfter(log[..i]) == Some(log[i].to))
              && (log[i].NotFound? ==> (log[i].slotEmpty <==> SlotAfter(log[..i]) == None))
  {
    InvAlways(actions);
    var log := Execute(actions).log;
    if i < |log| {
      assert SectionOk(log[..i], log[i]);
    }
  }

  /** The installed loop was put there by the last swap. */
  lemma {:induction false} LatestSwap(log: seq<Section>, g: Generation) returns (m: nat)
    requires SlotAfter(log) == Some(g)
    ensures m < |log| && log[m] == Swapped(g)
    ensures forall k :: m < k < |log| ==> !log[k].Swapped?
  {
    var n := |log| - 1;
    if log[n].Swapped? {
      m := n;
    } else {
      m := LatestSwap(log[..n], g);
    }
  }

  /** No send that takes the lock after a swap reaches a loop installed before it. */
  lemma NoSendReachesAnOlderLoop(actions: seq<Action>, k: nat, i: nat, j: nat)
    ensures var log := Execute(actions).log;
            k < i < j < |log| && log[k].Swapped? && log[i].Swapped? && log[j].Sent? ==> log[j].to != log[k].to
  {
    InvAlways(actions);
    var log := Execute(actions).log;
    if k < i < j < |log| && log[k].Swapped? && log[i].Swapped? && log[j].Sent? {
      assert SectionOk(log[..j], log[j]);
      var m := LatestSwap(log[..j], log[j].to);
      assert m >= i by {
        assert log[..j][i].Swapped?;
      }
      assert SectionOk(log[..m], log[m]) && log[..m][k] == log[k];
    }
  }

  // ---- conservation ----

  function Successes(log: seq<Section>): nat {
    if log == [] then 0 else Successes(log[..|log| - 1]) + if log[|log| - 1].Sent? then 1 else 0
  }

  ghost function AcceptedBelow(log: seq<Section>, n: Generation): nat {
    if n == 0 then 0 else AcceptedBelow(log, n - 1) + |SentTo(log, n - 1)|
  }

  lemma {:induction false} AcceptedBelowStep(log: seq<Section>, n: Generation)
    requires log != []
    ensures var last := log[|log| - 1];
            AcceptedBelow(log, n)
            == AcceptedBelow(log[..|log| - 1], n) + if last.Sent? && last.to < n then 1 else 0
  {
    if n == 0 {
    } else {
      AcceptedBelowStep(log, n - 1);
    }
  }

  lemma {:induction false} AcceptedBelowTotal(log: seq<Section>, n: Generation)
    requires forall i :: 0 <= i < |log| && log[i].Sent? ==> log[i].to < n
    ensures AcceptedBelow(log, n) == Successes(log)
  {
    if log == [] {
      NothingAccepted(n);
    } else {
      AcceptedBelowTotal(log[..|log| - 1], n);
      AcceptedBelowStep(log, n);
    }
  }

  lemma {:induction false} NothingAccepted(n: Generation)
    ensures AcceptedBelow([], n) == 0
  {
    if n == 0 {
    } else {
      NothingAccepted(n - 1);
    }
  }

  /** The place of a successful send in its queue: after those sent there before it. */
  function Place(log: seq<Section>, i: nat): nat
    requires i < |log| && log[i].Sent?
  {
    |SentTo(log[..i], log[i].to)|
  }

  lemma {:induction false} SentAtItsPlace(log: seq<Section>, i: nat)
    requires i < |log| && log[i].Sent?
    ensures Place(log, i) < |SentTo(log, log[i].to)| && SentTo(log, log[i].to)[Place(log, i)] == log[i].msg
  {
    var n := |log| - 1;
    if i == n {
    } else {
      SentAtItsPlace(log[..n], i);
      assert log[..n][..i] == log[..i];
    }
  }

  lemma {:induction false} SentToMonotone(log: seq<Section>, i: nat, j: nat, g: Generation)
    requires i <= j <= |log|
    ensures |SentTo(log[..i], g)| <= |SentTo(log[..j], g)|
    decreases j
  {
    if i == j {
    } else {
      SentToMonotone(log, i, j - 1, g);
      assert log[..j][..j - 1] == log[..j - 1];
    }
  }

  lemma PlacesDiffer(log: seq<Section>, i: nat, j: nat)
    requires i < j < |log| && log[i].Sent? && log[j].Sent? && log[i].to == log[j].to
    ensures Place(log, i) < Place(log, j)
  {
    assert log[..i + 1][..i] == log[..i];
    SentToMonotone(log, i + 1, j, log[i].to);
  }

  /** Messages accepted by the channels of the first `n` generations. */
  function TotalAccepted(channels: map<Generation, Channel>, n: Generation): nat
    requires forall g: Generation :: g < n ==> g in channels
  {
    if n == 0 then 0 else TotalAccepted(channels, n - 1) + |channels[n - 1].accepted|
  }

  lemma {:induction false} TotalIsLogged(s: System, n: Generation)
    requires n <= s.nextGeneration && forall g: Generation :: ChannelOk(s, g)
    ensures forall g: Generation :: g < n ==> g in s.channels
    ensures TotalAccepted(s.channels, n) == AcceptedBelow(s.log, n)
  {
    assert forall g: Generation :: g < n ==> ChannelOk(s, g);
    if n == 0 {
    } else {
      TotalIsLogged(s, n - 1);
      assert ChannelOk(s, n - 1);
    }
  }

  lemma SentToSpawned(s: System, i: nat)
    requires Inv(s) && i < |s.log| && s.log[i].Sent?
    ensures s.log[i].to < s.nextGeneration
  {
    assert SectionOk(s.log[..i], s.log[i]);
    var m := LatestSwap(s.log[..i], s.log[i].to);
    assert s.log[m].Swapped?;
  }

  /** Conservation: each successful send sits at a place of its own in the queue of the loop it was
      sent to, and the queues together hold nothing else. */
  lemma EverySuccessIsQueuedOnce(actions: seq<Action>)
    ensures var s := Execute(actions);
            && (forall i :: 0 <= i < |s.log| && s.log[i].Sent? ==>
                  var g := s.log[i].to;
                  && g in s.channels && Place(s.log, i) < |s.channels[g].accepted|
                  && s.channels[g].accepted[Place(s.log, i)] == s.log[i].msg)
            && (forall i, j :: 0 <= i < j < |s.log| && s.log[i].Sent? && s.log[j].Sent? && s.log[i].to == s.log[j].to ==>
                  Place(s.log, i) < Place(s.log, j))
            && (forall g: Generation :: g < s.nextGeneration <==> g in s.channels)
            && TotalAccepted(s.channels, s.nextGeneration) == Successes(s.log)
  {
    InvAlways(actions);
    var s := Execute(actions);
    forall i | 0 <= i < |s.log| && s.log[i].Sent?
      ensures s.log[i].to < s.nextGeneration && s.log[i].to in s.channels
      ensures Place(s.log, i) < |s.channels[s.log[i].to].accepted|
      ensures s.channels[s.log[i].to].accepted[Place(s.log, i)] == s.log[i].msg
    {
      SentToSpawned(s, i);
      SentAtItsPlace(s.log, i);
      assert ChannelOk(s, s.log[i].to);
    }
    forall i, j | 0 <= i < j < |s.log| && s.log[i].Sent? && s.log[j].Sent? && s.log[i].to == s.log[j].to
      ensures Place(s.log, i) < Place(s.log, j)
    {
      PlacesDiffer(s.log, i, j);
    }
    forall g: Generation
      ensures g < s.nextGeneration <==> g in s.channels
    {
      assert ChannelOk(s, g);
    }
    AcceptedBelowTotal(s.log, s.nextGeneration);
    TotalIsLogged(s, s.nextGeneration);
  }

  // ---- progress ----

  lemma ExecuteSnoc(actions: seq<Action>, a: Action)
    ensures Execute(actions + [a]) == Step(Execute(actions), a)
  {
    assert (actions + [a])[..|actions|] == actions;
  }

  /** With the lock free and an open loop installed that has fewer than 32 messages outstanding, a send
      queues its message there, succeeds, and gives the lock back. */
  lemma SendGoesThrough(actions: seq<Action>, t: Task, msg: string, g: Generation)
    requires var s := Execute(actions);
             && s.holder.None? && s.slot == Some(g) && g in s.channels
             && s.channels[g].open && |s.channels[g].accepted| < s.channels[g].taken + 32
    ensures var s, s' := Execute(actions), Execute(actions + [Lock(t, msg)] + [Push]);
            && s'.log == s.log + [Sent(t, msg, g)] && s'.holder.None? && s'.slot == s.slot
            && s'.channels == s.channels[g := Channel(s.channels[g].accepted + [msg], s.channels[g].taken, true)]
  {
    ExecuteSnoc(actions, Lock(t, msg));
    ExecuteSnoc(actions + [Lock(t, msg)], Push);
  }

  /** If the installed loop is gone, the send fails; if the slot is empty, it fails without waiting. */
  lemma SendFails(actions: seq<Action>, t: Task, msg: string)
    requires var s := Execute(actions);
             s.holder.None? && (s.slot.Some? ==> s.slot.value in s.channels && !s.channels[s.slot.value].open)
    ensures var s := Execute(actions);
            var s' := if s.slot.Some? then Execute(actions + [Lock(t, msg)] + [FailClosed]) else Execute(actions + [Lock(t, msg)]);
            && s'.log == s.log + [NotFound(t, msg, s.slot.None?)] && s'.holder.None?
            && s'.channels == s.channels && s'.slot == s.slot
  {
    ExecuteSnoc(actions, Lock(t, msg));
    ExecuteSnoc(actions + [Lock(t, msg)], FailClosed);
  }

  /** A sender that waits under the lock: it succeeds as soon as its loop has room, fails as soon as the
      loop is gone, and otherwise waits, until the loop takes a message. */
  lemma HeldLockReleases(actions: seq<Action>)
    requires Execute(actions).holder.Some?
    ensures var s := Execute(actions);
            var h := s.holder.value;
            && h.to in s.channels
            && var c := s.channels[h.to];
               var pushed, failed := Execute(actions + [Push]), Execute(actions + [FailClosed]);
               && (!c.open ==> failed.holder.None? && failed.log == s.log + [NotFound(h.task, h.msg, false)])
               && (c.open && |c.accepted| < c.taken + 32 ==>
                     pushed.holder.None? && pushed.log == s.log + [Sent(h.task, h.msg, h.to)])
               && (c.open && |c.accepted| == c.taken + 32 ==>
                     && pushed == failed == s
                     && var after := Execute(actions + [Take(h.to)] + [Push]);
                        after.holder.None? && after.log == s.log + [Sent(h.task, h.msg, h.to)])
  {
    InvAlways(actions);
    var g := Execute(actions).holder.value.to;
    assert ChannelOk(Execute(actions), g);
    ExecuteSnoc(actions, Push);
    ExecuteSnoc(actions, FailClosed);
    ExecuteSnoc(actions, Take(g));
    ExecuteSnoc(actions + [Take(g)], Push);
  }

  /** An open loop takes its messages one by one; a loop that exits closes its channel and keeps what it
      accepted. */
  lemma LoopSteps(actions: seq<Action>, g: Generation)
    requires g in Execute(actions).channels
    ensures var s := Execute(actions);
            var c := s.channels[g];
            && Execute(actions + [Take(g)]).channels
               == s.channels[g := if c.open && c.taken < |c.accepted| then Channel(c.accepted, c.taken + 1, true) else c]
            && Execute(actions + [LoopExit(g)]).channels == s.channels[g := Channel(c.accepted, c.taken, false)]
  {
    ExecuteSnoc(actions, Take(g));
    ExecuteSnoc(actions, LoopExit(g));
    assert Execute(actions).channels == Execute(actions).channels[g := Execute(actions).channels[g]];
  }

  /** Emptying the slot takes effect once the lock is free, and leaves the loops alone. */
  lemma EmptyingTakesEffect(actions: seq<Action>)
    ensures var s, s' := Execute(actions), Execute(actions + [Empty]);
            && s'.channels == s.channels
            && (s.holder.None? ==> s'.slot == None && s'.log == s.log + [Emptied])
            && (s.holder.Some? ==> s'.slot == s.slot && s'.log == s.log)
  {
    ExecuteSnoc(actions, Empty);
  }

  /** A restart: a new loop with an empty channel, put in the slot once the lock is free. */
  lemma RestartInstalls(actions: seq<Action>)
    ensures var s := Execute(actions);
            var g := s.nextGeneration;
            var s' := Execute(actions + [Spawn] + [Install(g)]);
            && g !in s.channels && s'.channels == s.channels[g := Channel([], 0, true)]
            && (s.holder.None? ==> s'.slot == Some(g) && s'.log == s.log + [Swapped(g)] && s'.holder.None?)
            && (s.holder.Some? ==> s'.slot == s.slot && s'.log == s.log)
  {
    InvAlways(actions);
    var g := Execute(actions).nextGeneration;
    assert ChannelOk(Execute(actions), g);
    ExecuteSnoc(actions, Spawn);
    ExecuteSnoc(actions + [Spawn], Install(g));
  }
}
