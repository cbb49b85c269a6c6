/**
 Laws of the cron scheduler over whole runs: firing consumes distinct occurrences, every job looks
 ahead after a tick, and the job map agrees with the stored records.
 */
module CronLaws {
  import opened Base
  import opened Cron

  /** `occurs(expr, t)`: the schedule of `expr` has an occurrence at `t`. */
  type Occurs = (string, Time) -> bool

  /** `next` yields the first occurrence strictly after a time, and None when there is none. */
  ghost predicate FirstAfter(occurs: Occurs, expr: string, t: Time, next: Option<Time>) {
    match next
    case Some(u) => u > t && occurs(expr, u) && forall v :: t < v < u ==> !occurs(expr, v)
    case None => forall v :: v > t ==> !occurs(expr, v)
  }

  ghost predicate Faithful(cal: Calendar, occurs: Occurs) {
    forall expr, t :: cal.parses(expr) ==> FirstAfter(occurs, expr, t, cal.next(expr, t))
  }

  // ---- runs of ticks ----

  datatype TickInput = TickInput(now: Time, clock: Clock)

  /** The later clock readings of a tick do not precede its own. */
  ghost predicate ClockAhead(tick: TickInput) {
    forall id :: tick.clock(id) >= tick.now
  }

  ghost predicate Forward(ticks: seq<TickInput>) {
    && (forall i :: 0 <= i < |ticks| ==> ClockAhead(ticks[i]))
    && (forall i, j :: 0 <= i < j < |ticks| ==> ticks[i].now <= ticks[j].now)
  }

  function RunJobs(cal: Calendar, jobs: Jobs, ticks: seq<TickInput>): Jobs {
    if ticks == [] then jobs
    else
      var n := |ticks| - 1;
      TickJobs(cal, RunJobs(cal, jobs, ticks[..n]), ticks[n].now, ticks[n].clock)
  }

  function RunStore(cal: Calendar, jobs: Jobs, store: Store, ticks: seq<TickInput>): Store {
    if ticks == [] then store
    else
      var n := |ticks| - 1;
      TickStore(cal, RunJobs(cal, jobs, ticks[..n]), RunStore(cal, jobs, store, ticks[..n]), ticks[n].now, ticks[n].clock)
  }

  /** The occurrences consumed by the fires of one job, one per TriggerFired event. */
  function Consumed(cal: Calendar, jobs: Jobs, ticks: seq<TickInput>, id: string): seq<Time> {
    if ticks == [] then []
    else
      var n := |ticks| - 1;
      var before := RunJobs(cal, jobs, ticks[..n]);
      Consumed(cal, jobs, ticks[..n], id)
        + if Due(before, ticks[n].now, id) then [before[id].nextFire] else []
  }

  /** Strictly increasing occurrences of `expr` after `start` and up to `end`. */
  ghost predicate Occurrences(occurs: Occurs, expr: string, start: Time, end: Time, times: seq<Time>) {
    && (forall i :: 0 <= i < |times| ==> start < times[i] <= end && occurs(expr, times[i]))
    && (forall i, j :: 0 <= i < j < |times| ==> times[i] < times[j])
  }

  /** A job registered at `start`, as a run of ticks leaves it. */
  ghost predicate OnSchedule(occurs: Occurs, expr: string, start: Time, times: seq<Time>, job: Job) {
    && job.expr == expr && start < job.nextFire && occurs(expr, job.nextFire)
    && Occurrences(occurs, expr, start, job.nextFire - 1, times)
  }

  lemma UpcomingOccurs(cal: Calendar, occurs: Occurs, expr: string, t: Time)
    requires Faithful(cal, occurs)
    ensures Upcoming(cal, expr, t).Some? ==>
              Upcoming(cal, expr, t).value > t && occurs(expr, Upcoming(cal, expr, t).value)
  {
    if cal.parses(expr) {
      assert FirstAfter(occurs, expr, t, cal.next(expr, t));
    }
  }

  /** Firing keeps the times consumed increasing: the next occurrence lies past the clock, and the
      clock past the occurrence that fired. */
  lemma FireKeepsSchedule(cal: Calendar, occurs: Occurs, start: Time, times: seq<Time>, jobs: Jobs, id: string, tick: TickInput)
    requires Faithful(cal, occurs) && ClockAhead(tick)
    requires id in jobs && OnSchedule(occurs, jobs[id].expr, start, times, jobs[id])
    ensures var expr := jobs[id].expr;
            var after := TickJobs(cal, jobs, tick.now, tick.clock);
            var times' := times + if Due(jobs, tick.now, id) then [jobs[id].nextFire] else [];
            && (id in after ==> OnSchedule(occurs, expr, start, times', after[id]))
            && (Due(jobs, tick.now, id) ==> Occurrences(occurs, expr, start, tick.now, times'))
  {
    UpcomingOccurs(cal, occurs, jobs[id].expr, tick.clock(id));
    assert tick.clock(id) >= tick.now;
  }

  lemma {:induction false} ConsumesOccurrences(cal: Calendar, occurs: Occurs, jobs: Jobs, ticks: seq<TickInput>,
                                               id: string, start: Time)
    requires Faithful(cal, occurs) && Forward(ticks)
    requires id in jobs && OnSchedule(occurs, jobs[id].expr, start, [], jobs[id])
    ensures var times := Consumed(cal, jobs, ticks, id);
            var after := RunJobs(cal, jobs, ticks);
            && (id in after ==> OnSchedule(occurs, jobs[id].expr, start, times, after[id]))
            && (ticks != [] ==> Occurrences(occurs, jobs[id].expr, start, ticks[|ticks| - 1].now, times))
            && (ticks == [] ==> times == [])
  {
    if ticks == [] {
    } else {
      var n := |ticks| - 1;
      ConsumesOccurrences(cal, occurs, jobs, ticks[..n], id, start);
      var before := RunJobs(cal, jobs, ticks[..n]);
      var times := Consumed(cal, jobs, ticks[..n], id);
      if n > 0 {
        assert ticks[n - 1].now <= ticks[n].now;
      }
      if id in before {
        FireKeepsSchedule(cal, occurs, start, times, before, id, ticks[n]);
      }
      assert times + [] == times;
    }
  }

  lemma {:induction false} IncreasingCount(times: seq<Time>, within: set<Time>)
    requires forall i :: 0 <= i < |times| ==> times[i] in within
    requires forall i, j :: 0 <= i < j < |times| ==> times[i] < times[j]
    ensures |times| <= |within|
  {
    if times == [] {
    } else {
      var n := |times| - 1;
      IncreasingCount(times[..n], within - {times[n]});
    }
  }

  /** The fires of a job never outnumber the occurrences of its schedule since it was registered. */
  lemma FiresBoundedByOccurrences(cal: Calendar, occurs: Occurs, jobs: Jobs, ticks: seq<TickInput>, id: string, start: Time)
    requires Faithful(cal, occurs) && Forward(ticks) && ticks != []
    requires id in jobs && Upcoming(cal, jobs[id].expr, start) == Some(jobs[id].nextFire)
    ensures var now := ticks[|ticks| - 1].now;
            |Consumed(cal, jobs, ticks, id)| <= |set t | start < t <= now && occurs(jobs[id].expr, t)|
  {
    UpcomingOccurs(cal, occurs, jobs[id].expr, start);
    ConsumesOccurrences(cal, occurs, jobs, ticks, id, start);
    var now := ticks[|ticks| - 1].now;
    IncreasingCount(Consumed(cal, jobs, ticks, id), set t | start < t <= now && occurs(jobs[id].expr, t));
  }

  // ---- occurrences passed over ----

  /** Tick `i` fires the job and then looks past `v`, which lay between the occurrence it fired for and
      the clock it read for the next. */
  ghost predicate PassedBy(cal: Calendar, jobs: Jobs, ticks: seq<TickInput>, id: string, v: Time, i: nat) {
    && i < |ticks|
    && var before := RunJobs(cal, jobs, ticks[..i]);
       Due(before, ticks[i].now, id) && before[id].nextFire < v <= ticks[i].clock(id)
  }

  ghost predicate PassedOver(cal: Calendar, jobs: Jobs, ticks: seq<TickInput>, id: string, v: Time) {
    exists i: nat :: PassedBy(cal, jobs, ticks, id, v, i)
  }

  /** An occurrence no longer ahead of the job is accounted for in exactly one of two ways. */
  ghost predicate Settled(cal: Calendar, jobs: Jobs, ticks: seq<TickInput>, id: string, v: Time) {
    v in Consumed(cal, jobs, ticks, id) <==> !PassedOver(cal, jobs, ticks, id, v)
  }

  /** And one still ahead in neither. */
  ghost predicate Untouched(cal: Calendar, jobs: Jobs, ticks: seq<TickInput>, id: string, v: Time) {
    v !in Consumed(cal, jobs, ticks, id) && !PassedOver(cal, jobs, ticks, id, v)
  }

  ghost predicate Ahead(after: Jobs, id: string, v: Time) {
    id in after && after[id].nextFire <= v
  }

  lemma PassedOverStep(cal: Calendar, jobs: Jobs, ticks: seq<TickInput>, id: string, v: Time)
    requires ticks != []
    ensures var n := |ticks| - 1;
            PassedOver(cal, jobs, ticks, id, v)
            <==> PassedOver(cal, jobs, ticks[..n], id, v) || PassedBy(cal, jobs, ticks, id, v, n)
  {
    var n := |ticks| - 1;
    forall i: nat | i < n
      ensures PassedBy(cal, jobs, ticks[..n], id, v, i) == PassedBy(cal, jobs, ticks, id, v, i)
    {
      assert ticks[..n][..i] == ticks[..i];
    }
    if PassedOver(cal, jobs, ticks[..n], id, v) {
      var i: nat :| PassedBy(cal, jobs, ticks[..n], id, v, i);
      assert PassedBy(cal, jobs, ticks, id, v, i);
    }
    if PassedOver(cal, jobs, ticks, id, v) {
      var i: nat :| PassedBy(cal, jobs, ticks, id, v, i);
      assert i < n ==> PassedBy(cal, jobs, ticks[..n], id, v, i);
    }
  }

  /** The next fire after a firing tick is the first occurrence past the clock, if there is one. */
  lemma NextIsFirst(cal: Calendar, occurs: Occurs, expr: string, t: Time, v: Time)
    requires Faithful(cal, occurs) && cal.parses(expr) && occurs(expr, v) && v > t
    ensures Upcoming(cal, expr, t).Some? && Upcoming(cal, expr, t).value <= v
  {
    assert FirstAfter(occurs, expr, t, cal.next(expr, t));
  }

  /** Every occurrence since registration is consumed by a fire or passed over by one, and never both,
      unless it is still ahead. */
  lemma {:induction false} OccurrencesAccounted(cal: Calendar, occurs: Occurs, jobs: Jobs, ticks: seq<TickInput>,
                                                id: string, start: Time, v: Time)
    requires Faithful(cal, occurs) && Forward(ticks)
    requires id in jobs && Upcoming(cal, jobs[id].expr, start) == Some(jobs[id].nextFire)
    requires start < v && occurs(jobs[id].expr, v)
    ensures var after := RunJobs(cal, jobs, ticks);
            && (id in after ==> after[id].expr == jobs[id].expr)
            && if Ahead(after, id, v) then Untouched(cal, jobs, ticks, id, v) else Settled(cal, jobs, ticks, id, v)
  {
    var expr := jobs[id].expr;
    if ticks == [] {
      NextIsFirst(cal, occurs, expr, start, v);
    } else {
      var n := |ticks| - 1;
      var before := RunJobs(cal, jobs, ticks[..n]);
      OccurrencesAccounted(cal, occurs, jobs, ticks[..n], id, start, v);
      PassedOverStep(cal, jobs, ticks, id, v);
      assert ClockAhead(ticks[n]);
      if Due(before, ticks[n].now, id) {
        assert ticks[n].clock(id) >= ticks[n].now;
        UpcomingOccurs(cal, occurs, expr, ticks[n].clock(id));
        if v > ticks[n].clock(id) {
          NextIsFirst(cal, occurs, expr, ticks[n].clock(id), v);
        }
      }
    }
  }

  lemma {:induction false} IncreasingSet(times: seq<Time>)
    requires forall i, j :: 0 <= i < j < |times| ==> times[i] < times[j]
    ensures |set t | t in times| == |times|
  {
    if times == [] {
    } else {
      var n := |times| - 1;
      IncreasingSet(times[..n]);
      assert times == times[..n] + [times[n]];
      assert (set t | t in times) == (set t | t in times[..n]) + {times[n]};
    }
  }

  /** So the fires of a job are as many as its occurrences so far exactly when none was passed over. */
  lemma FiresCountOccurrencesIff(cal: Calendar, occurs: Occurs, jobs: Jobs, ticks: seq<TickInput>, id: string, start: Time)
    requires Faithful(cal, occurs) && Forward(ticks)
    requires id in jobs && Upcoming(cal, jobs[id].expr, start) == Some(jobs[id].nextFire)
    requires id in RunJobs(cal, jobs, ticks)
    ensures var next := RunJobs(cal, jobs, ticks)[id].nextFire;
            |Consumed(cal, jobs, ticks, id)| == |set v | start < v < next && occurs(jobs[id].expr, v)|
            <==> forall v :: start < v < next && occurs(jobs[id].expr, v) ==> !PassedOver(cal, jobs, ticks, id, v)
  {
    var expr, times := jobs[id].expr, Consumed(cal, jobs, ticks, id);
    var next := RunJobs(cal, jobs, ticks)[id].nextFire;
    var all, fired := set v | start < v < next && occurs(expr, v), set t | t in times;
    UpcomingOccurs(cal, occurs, expr, start);
    ConsumesOccurrences(cal, occurs, jobs, ticks, id, start);
    IncreasingSet(times);
    assert fired <= all;
    forall v | v in all
      ensures v in fired <==> !PassedOver(cal, jobs, ticks, id, v)
    {
      OccurrencesAccounted(cal, occurs, jobs, ticks, id, start, v);
    }
    SubsetOfEqualSize(fired, all);
  }

  lemma SubsetOfEqualSize(a: set<Time>, b: set<Time>)
    requires a <= b
    ensures |a| == |b| <==> a == b
  {
    assert b == a + (b - a);
    assert |b| == |a| + |b - a|;
  }

  /** After a tick at `now` every enabled job fires next at a time past `now`. */
  lemma TickLooksAhead(cal: Calendar, occurs: Occurs, jobs: Jobs, tick: TickInput, id: string)
    requires Faithful(cal, occurs) && ClockAhead(tick)
    ensures var after := TickJobs(cal, jobs, tick.now, tick.clock);
            id in after && after[id].enabled ==> after[id].nextFire > tick.now
  {
    if id in jobs {
      UpcomingOccurs(cal, occurs, jobs[id].expr, tick.clock(id));
      assert tick.clock(id) >= tick.now;
    }
  }

  // ---- the job map and the store ----

  /** Every job is enabled and backed by a record with its expression and target. */
  ghost predicate Backed(jobs: Jobs, store: Store) {
    forall id :: id in jobs ==>
      && jobs[id].enabled
      && id in store
      && store[id].enabled && store[id].triggerType == "cron"
      && store[id].expr == Some(jobs[id].expr) && store[id].target == jobs[id].target
  }

  /** Every record that can be restored at `t` is loaded. */
  ghost predicate Loaded(cal: Calendar, jobs: Jobs, store: Store, t: Time) {
    forall id :: id in store && JobOf(cal, store[id], t).Some? ==> id in jobs
  }

  /** Every job still has an occurrence after `t`. */
  ghost predicate Live(cal: Calendar, jobs: Jobs, t: Time) {
    forall id :: id in jobs ==> Upcoming(cal, jobs[id].expr, t).Some?
  }

  /** The map holds exactly the records that a restart at `t` would restore. */
  ghost predicate Agrees(cal: Calendar, jobs: Jobs, store: Store, t: Time) {
    Backed(jobs, store) && Loaded(cal, jobs, store, t) && Live(cal, jobs, t)
  }

  /** Once an expression is exhausted it stays so. */
  lemma NeverAgain(cal: Calendar, occurs: Occurs, expr: string, t: Time, t': Time)
    requires Faithful(cal, occurs) && t <= t'
    ensures Upcoming(cal, expr, t).None? ==> Upcoming(cal, expr, t').None?
  {
    if cal.parses(expr) {
      assert FirstAfter(occurs, expr, t, cal.next(expr, t));
      assert FirstAfter(occurs, expr, t', cal.next(expr, t'));
    }
  }

  lemma StillAhead(cal: Calendar, occurs: Occurs, expr: string, t: Time, u: Time)
    requires Faithful(cal, occurs) && cal.parses(expr) && occurs(expr, u) && t < u
    ensures Upcoming(cal, expr, t).Some?
  {
    assert FirstAfter(occurs, expr, t, cal.next(expr, t));
  }

  /** Restoring into jobs registered before makes the map agree with the store, for every reading of
      the clock during the restore. */
  lemma RestoreAgrees(cal: Calendar, occurs: Occurs, jobs: Jobs, store: Store, clock: Clock, t: Time)
    requires Faithful(cal, occurs) && Backed(jobs, store) && forall id :: clock(id) <= t
    ensures var restored := RestoreJobs(cal, jobs, store, clock);
            && Backed(restored, store) && Loaded(cal, restored, store, t)
            && forall id :: id in restored && id !in jobs ==>
                 Upcoming(cal, restored[id].expr, clock(id)) == Some(restored[id].nextFire)
  {
    var restored := RestoreJobs(cal, jobs, store, clock);
    forall id | id in store && JobOf(cal, store[id], t).Some?
      ensures id in restored
    {
      NeverAgain(cal, occurs, store[id].expr.value, clock(id), t);
    }
  }

  /** Expressions that parse and next fires that are occurrences: what add and restore establish. */
  ghost predicate Scheduled(cal: Calendar, occurs: Occurs, jobs: Jobs) {
    forall id :: id in jobs ==> cal.parses(jobs[id].expr) && occurs(jobs[id].expr, jobs[id].nextFire)
  }

  lemma TickKeepsScheduled(cal: Calendar, occurs: Occurs, jobs: Jobs, tick: TickInput)
    requires Faithful(cal, occurs) && Scheduled(cal, occurs, jobs)
    ensures Scheduled(cal, occurs, TickJobs(cal, jobs, tick.now, tick.clock))
  {
    forall id | id in TickJobs(cal, jobs, tick.now, tick.clock)
      ensures occurs(jobs[id].expr, TickJobs(cal, jobs, tick.now, tick.clock)[id].nextFire)
    {
      UpcomingOccurs(cal, occurs, jobs[id].expr, tick.clock(id));
    }
  }

  /** A tick whose writes succeed leaves the map and the store in agreement. */
  lemma TickAgrees(cal: Calendar, occurs: Occurs, jobs: Jobs, store: Store, tick: TickInput, t: Time)
    requires Faithful(cal, occurs) && ClockAhead(tick) && Scheduled(cal, occurs, jobs)
    requires Backed(jobs, store) && Loaded(cal, jobs, store, t) && t <= tick.now
    ensures Agrees(cal, TickJobs(cal, jobs, tick.now, tick.clock), TickStore(cal, jobs, store, tick.now, tick.clock), tick.now)
  {
    var jobs', store' := TickJobs(cal, jobs, tick.now, tick.clock), TickStore(cal, jobs, store, tick.now, tick.clock);
    TickKeepsScheduled(cal, occurs, jobs, tick);
    forall id | id in jobs'
      ensures Upcoming(cal, jobs'[id].expr, tick.now).Some?
    {
      TickLooksAhead(cal, occurs, jobs, tick, id);
      assert jobs[id].enabled;
      StillAhead(cal, occurs, jobs'[id].expr, tick.now, jobs'[id].nextFire);
    }
    forall id | id in store' && JobOf(cal, store'[id], tick.now).Some?
      ensures id in jobs'
    {
      NeverAgain(cal, occurs, store[id].expr.value, t, tick.now);
      assert JobOf(cal, store[id], t).Some?;
    }
  }

  /** Over any run of ticks with successful writes, the map and the store agree after each. */
  lemma {:induction false} RunAgrees(cal: Calendar, occurs: Occurs, jobs: Jobs, store: Store, ticks: seq<TickInput>, t: Time)
    requires Faithful(cal, occurs) && Forward(ticks) && Scheduled(cal, occurs, jobs)
    requires Backed(jobs, store) && Loaded(cal, jobs, store, t)
    requires ticks != [] ==> t <= ticks[0].now
    ensures var now := if ticks == [] then t else ticks[|ticks| - 1].now;
            var jobs', store' := RunJobs(cal, jobs, ticks), RunStore(cal, jobs, store, ticks);
            && Scheduled(cal, occurs, jobs') && Backed(jobs', store') && Loaded(cal, jobs', store', now)
            && (ticks != [] ==> Agrees(cal, jobs', store', now))
  {
    if ticks == [] {
    } else {
      var n := |ticks| - 1;
      RunAgrees(cal, occurs, jobs, store, ticks[..n], t);
      var before := if n == 0 then t else ticks[n - 1].now;
      assert ClockAhead(ticks[n]);
      TickAgrees(cal, occurs, RunJobs(cal, jobs, ticks[..n]), RunStore(cal, jobs, store, ticks[..n]), ticks[n], before);
      TickKeepsScheduled(cal, occurs, RunJobs(cal, jobs, ticks[..n]), ticks[n]);
    }
  }

  // ---- from registration to restart ----

  /** The state before `run`: whatever a former scheduler left in the store, and the commands given. */
  function SetUpJobs(cal: Calendar, commands: seq<Command>): Jobs {
    if commands == [] then map[]
    else CommandJobs(cal, SetUpJobs(cal, commands[..|commands| - 1]), commands[|commands| - 1])
  }

  function SetUpStore(cal: Calendar, store: Store, commands: seq<Command>): Store {
    if commands == [] then store
    else
      var before := commands[..|commands| - 1];
      CommandStore(cal, SetUpJobs(cal, before), SetUpStore(cal, store, before), commands[|commands| - 1])
  }

  /** Adding and removing keep every job backed and on its schedule. */
  lemma {:induction false} SetUpKeeps(cal: Calendar, occurs: Occurs, store: Store, commands: seq<Command>)
    requires Faithful(cal, occurs)
    ensures Backed(SetUpJobs(cal, commands), SetUpStore(cal, store, commands))
    ensures Scheduled(cal, occurs, SetUpJobs(cal, commands))
  {
    if commands == [] {
    } else {
      var c := commands[|commands| - 1];
      SetUpKeeps(cal, occurs, store, commands[..|commands| - 1]);
      if c.AddJob? {
        UpcomingOccurs(cal, occurs, c.expr, c.now);
      }
    }
  }

  /** A job set up waits for the first occurrence of its expression after it was added. */
  lemma {:induction false} SetUpWaits(cal: Calendar, occurs: Occurs, commands: seq<Command>, id: string) returns (k: nat)
    requires Faithful(cal, occurs) && id in SetUpJobs(cal, commands)
    ensures k < |commands| && commands[k].AddJob? && commands[k].id == id
    ensures var job := SetUpJobs(cal, commands)[id];
            && job == Job(commands[k].expr, commands[k].target, job.nextFire, true)
            && Upcoming(cal, job.expr, commands[k].now) == Some(job.nextFire)
            && FirstAfter(occurs, job.expr, commands[k].now, Some(job.nextFire))
  {
    var n := |commands| - 1;
    var before, c := SetUpJobs(cal, commands[..n]), commands[n];
    if c.AddJob? && c.id == id && Accepts(cal, before, c) {
      k := n;
      assert FirstAfter(occurs, c.expr, c.now, cal.next(c.expr, c.now));
    } else {
      k := SetUpWaits(cal, occurs, commands[..n], id);
    }
  }

  lemma RestoreKeepsScheduled(cal: Calendar, occurs: Occurs, jobs: Jobs, store: Store, clock: Clock)
    requires Faithful(cal, occurs) && Scheduled(cal, occurs, jobs)
    ensures Scheduled(cal, occurs, RestoreJobs(cal, jobs, store, clock))
  {
    var restored := RestoreJobs(cal, jobs, store, clock);
    forall id | id in restored
      ensures cal.parses(restored[id].expr) && occurs(restored[id].expr, restored[id].nextFire)
    {
      UpcomingOccurs(cal, occurs, restored[id].expr, clock(id));
    }
  }

  /** The whole life of a scheduler over a store left by another: registrations and removals, the
      restore at the start of `run`, and any number of ticks. With successful writes the map and the
      store then agree. */
  lemma LifecycleAgrees(cal: Calendar, occurs: Occurs, store: Store, commands: seq<Command>, clock: Clock, t: Time,
                        ticks: seq<TickInput>)
    requires Faithful(cal, occurs) && (forall id :: clock(id) <= t)
    requires Forward(ticks) && ticks != [] && t <= ticks[0].now
    ensures var stored := SetUpStore(cal, store, commands);
            var restored := RestoreJobs(cal, SetUpJobs(cal, commands), stored, clock);
            Agrees(cal, RunJobs(cal, restored, ticks), RunStore(cal, restored, stored, ticks), ticks[|ticks| - 1].now)
  {
    var jobs, stored := SetUpJobs(cal, commands), SetUpStore(cal, store, commands);
    SetUpKeeps(cal, occurs, store, commands);
    RestoreAgrees(cal, occurs, jobs, stored, clock, t);
    RestoreKeepsScheduled(cal, occurs, jobs, stored, clock);
    RunAgrees(cal, occurs, RestoreJobs(cal, jobs, stored, clock), stored, ticks, t);
  }

  /** And its occurrences since it was added are accounted for over the whole life of the scheduler. */
  lemma LifecycleAccounts(cal: Calendar, occurs: Occurs, store: Store, commands: seq<Command>, clock: Clock,
                          ticks: seq<TickInput>, id: string, v: Time) returns (k: nat)
    requires Faithful(cal, occurs) && Forward(ticks) && id in SetUpJobs(cal, commands)
    ensures k < |commands| && commands[k].AddJob? && commands[k].id == id
    ensures FirstAfter(occurs, commands[k].expr, commands[k].now, Some(SetUpJobs(cal, commands)[id].nextFire))
    ensures var restored := RestoreJobs(cal, SetUpJobs(cal, commands), SetUpStore(cal, store, commands), clock);
            v > commands[k].now && occurs(commands[k].expr, v) ==>
              if Ahead(RunJobs(cal, restored, ticks), id, v) then Untouched(cal, restored, ticks, id, v)
              else Settled(cal, restored, ticks, id, v)
  {
    k := SetUpWaits(cal, occurs, commands, id);
    if v > commands[k].now && occurs(commands[k].expr, v) {
      var restored := RestoreJobs(cal, SetUpJobs(cal, commands), SetUpStore(cal, store, commands), clock);
      OccurrencesAccounted(cal, occurs, restored, ticks, id, commands[k].now, v);
    }
  }

  // ---- what the store counts ----

  /** When the job last fired. */
  function LastFiring(cal: Calendar, jobs: Jobs, ticks: seq<TickInput>, id: string): Option<Time> {
    if ticks == [] then None
    else
      var n := |ticks| - 1;
      if Due(RunJobs(cal, jobs, ticks[..n]), ticks[n].now, id) then Some(ticks[n].now)
      else LastFiring(cal, jobs, ticks[..n], id)
  }

  /** With successful writes a job's record, as long as it is kept, counts the fires and holds the time of
      the last; nothing else in it changes. */
  lemma {:induction false} RecordCountsFires(cal: Calendar, jobs: Jobs, store: Store, ticks: seq<TickInput>, id: string)
    requires id in store && id in RunStore(cal, jobs, store, ticks)
    ensures var last := LastFiring(cal, jobs, ticks, id);
            RunStore(cal, jobs, store, ticks)[id]
            == store[id].(lastFired := if last.Some? then last else store[id].lastFired,
                          fireCount := store[id].fireCount + |Consumed(cal, jobs, ticks, id)|)
  {
    if ticks == [] {
    } else {
      RecordCountsFires(cal, jobs, store, ticks[..|ticks| - 1], id);
    }
  }

  /** The jobs `rebuilt` by a restart are those of `jobs` that still have an occurrence after the clock
      read for them, unchanged but for a next fire past that clock. */
  ghost predicate RebuiltFrom(cal: Calendar, jobs: Jobs, clock: Clock, rebuilt: Jobs) {
    && (forall id :: id in rebuilt <==> id in jobs && Upcoming(cal, jobs[id].expr, clock(id)).Some?)
    && (forall id :: id in rebuilt ==>
          rebuilt[id] == jobs[id].(nextFire := Upcoming(cal, jobs[id].expr, clock(id)).value))
  }

  /** A restart any time after agreement was reached rebuilds exactly the jobs that are not exhausted
      by then. */
  lemma RestartRebuilds(cal: Calendar, occurs: Occurs, jobs: Jobs, store: Store, clock: Clock, t: Time)
    requires Faithful(cal, occurs) && Agrees(cal, jobs, store, t) && forall id :: clock(id) >= t
    ensures RebuiltFrom(cal, jobs, clock, RestoreJobs(cal, map[], store, clock))
  {
    var rebuilt := RestoreJobs(cal, map[], store, clock);
    forall id | id in rebuilt
      ensures id in jobs
    {
      NeverAgain(cal, occurs, store[id].expr.value, t, clock(id));
      assert JobOf(cal, store[id], t).Some?;
    }
  }

  /** So every job survives a restart exactly when each of them occurs again after it. */
  lemma RestartKeepsAllIff(cal: Calendar, occurs: Occurs, jobs: Jobs, store: Store, clock: Clock, t: Time)
    requires Faithful(cal, occurs) && Agrees(cal, jobs, store, t) && forall id :: clock(id) >= t
    ensures RestoreJobs(cal, map[], store, clock).Keys == jobs.Keys
       <==> forall id :: id in jobs ==> exists u :: u > clock(id) && occurs(jobs[id].expr, u)
  {
    var rebuilt := RestoreJobs(cal, map[], store, clock);
    RestartRebuilds(cal, occurs, jobs, store, clock, t);
    forall id | id in jobs
      ensures id in rebuilt <==> exists u :: u > clock(id) && occurs(jobs[id].expr, u)
    {
      assert Upcoming(cal, jobs[id].expr, t).Some?;
      assert FirstAfter(occurs, jobs[id].expr, clock(id), cal.next(jobs[id].expr, clock(id)));
    }
    assert rebuilt.Keys <= jobs.Keys;
    if forall id :: id in jobs ==> exists u :: u > clock(id) && occurs(jobs[id].expr, u) {
      assert rebuilt.Keys == jobs.Keys;
    }
  }

  /** Life of one scheduler and restart of the next: what comes back is what was left, less the jobs
      whose last occurrence fell into the downtime. */
  lemma LifecycleRestarts(cal: Calendar, occurs: Occurs, store: Store, commands: seq<Command>, clock: Clock, t: Time,
                          ticks: seq<TickInput>, restart: Clock)
    requires Faithful(cal, occurs) && (forall id :: clock(id) <= t)
    requires Forward(ticks) && ticks != [] && t <= ticks[0].now
    requires forall id :: restart(id) >= ticks[|ticks| - 1].now
    ensures var stored := SetUpStore(cal, store, commands);
            var restored := RestoreJobs(cal, SetUpJobs(cal, commands), stored, clock);
            RebuiltFrom(cal, RunJobs(cal, restored, ticks), restart,
                        RestoreJobs(cal, map[], RunStore(cal, restored, stored, ticks), restart))
  {
    LifecycleAgrees(cal, occurs, store, commands, clock, t, ticks);
    var stored := SetUpStore(cal, store, commands);
    var restored := RestoreJobs(cal, SetUpJobs(cal, commands), stored, clock);
    RestartRebuilds(cal, occurs, RunJobs(cal, restored, ticks), RunStore(cal, restored, stored, ticks), restart,
                    ticks[|ticks| - 1].now);
  }

  /** Such a job is lost without having fired: it is due once, at `due`, after the agreement at `t` and
      before the restart at `later`. */
  lemma DowntimeLosesAJob(expr: string, id: string, t: Time, due: Time, later: Time)
    requires t < due <= later
    ensures var cal := Calendar(_ => true, (_, u) => if u < due then Some(due) else None);
            var jobs: Jobs := map[id := Job(expr, None, due, true)];
            var store: Store := map[id := Record("cron", Some(expr), None, true, None, 0)];
            && Faithful(cal, (_, u) => u == due)
            && Agrees(cal, jobs, store, t)
            && RestoreJobs(cal, map[], store, _ => later) == map[]
  {
    var cal := Calendar(_ => true, (_, u) => if u < due then Some(due) else None);
    var store: Store := map[id := Record("cron", Some(expr), None, true, None, 0)];
    assert RestoreJobs(cal, map[], store, _ => later) == map[];
  }
}
