/**
 The cron scheduler and the trigger store behind it. Registration and removal come before `run`,
 which restores the stored jobs once and then ticks.
 */
module Cron {
  import opened Base

  type Time = int

  /** Cron expressions: whether one parses, and its first occurrence strictly after a time. */
  datatype Calendar = Calendar(parses: string -> bool, next: (string, Time) -> Option<Time>)

  function Upcoming(cal: Calendar, expr: string, t: Time): Option<Time> {
    if cal.parses(expr) then cal.next(expr, t) else None
  }

  datatype Job = Job(expr: string, target: Option<string>, nextFire: Time, enabled: bool)

  datatype Record = Record(
    triggerType: string,
    expr: Option<string>,
    target: Option<string>,
    enabled: bool,
    lastFired: Option<Time>,
    fireCount: nat)

  datatype CronError = InvalidExpression(expr: string) | NeverFires(expr: string) | AlreadyExists(id: string)

  type Jobs = map<string, Job>
  type Store = map<string, Record>

  /** A clock reading for each job handled. */
  type Clock = string -> Time

  // ---- what the operations compute ----

  /** The job a stored record stands for; only enabled records are listed. */
  function JobOf(cal: Calendar, r: Record, t: Time): Option<Job> {
    if r.enabled && r.triggerType == "cron" && r.expr.Some? && Upcoming(cal, r.expr.value, t).Some? then
      Some(Job(r.expr.value, r.target, Upcoming(cal, r.expr.value, t).value, true))
    else
      None
  }

  /** What is asked of a scheduler before it runs. */
  datatype Command =
    | AddJob(expr: string, id: string, target: Option<string>, now: Time)
    | RemoveJob(id: string)

  predicate Accepts(cal: Calendar, jobs: Jobs, c: Command) {
    match c
    case AddJob(expr, id, _, now) => Upcoming(cal, expr, now).Some? && id !in jobs
    case RemoveJob(id) => id in jobs
  }

  function CommandJobs(cal: Calendar, jobs: Jobs, c: Command): Jobs {
    if !Accepts(cal, jobs, c) then jobs
    else match c
      case AddJob(expr, id, target, now) => jobs[id := Job(expr, target, Upcoming(cal, expr, now).value, true)]
      case RemoveJob(id) => jobs - {id}
  }

  /** The store afterwards, when it accepts the write. */
  function CommandStore(cal: Calendar, jobs: Jobs, store: Store, c: Command): Store {
    if !Accepts(cal, jobs, c) then store
    else match c
      case AddJob(expr, id, target, _) => store[id := Record("cron", Some(expr), target, true, None, 0)]
      case RemoveJob(id) => store - {id}
  }

  function RestoreJobs(cal: Calendar, jobs: Jobs, store: Store, clock: Clock): Jobs {
    map id | id in jobs.Keys + store.Keys && (id in jobs || JobOf(cal, store[id], clock(id)).Some?) ::
      if id in jobs then jobs[id] else JobOf(cal, store[id], clock(id)).value
  }

  predicate Due(jobs: Jobs, now: Time, id: string) {
    id in jobs && jobs[id].enabled && now >= jobs[id].nextFire
  }

  /** The schedule of a due job has no further occurrence. */
  predicate Exhausted(cal: Calendar, jobs: Jobs, now: Time, clock: Clock, id: string) {
    Due(jobs, now, id) && Upcoming(cal, jobs[id].expr, clock(id)).None?
  }

  function TickJobs(cal: Calendar, jobs: Jobs, now: Time, clock: Clock): Jobs {
    map id | id in jobs && !Exhausted(cal, jobs, now, clock, id) ::
      if Due(jobs, now, id) then jobs[id].(nextFire := Upcoming(cal, jobs[id].expr, clock(id)).value) else jobs[id]
  }

  function Touched(r: Record, now: Time): Record {
    r.(lastFired := Some(now), fireCount := r.fireCount + 1)
  }

  function TickStore(cal: Calendar, jobs: Jobs, store: Store, now: Time, clock: Clock): Store {
    map id | id in store && !Exhausted(cal, jobs, now, clock, id) ::
      if Due(jobs, now, id) then Touched(store[id], now) else store[id]
  }

  function Moved(cal: Calendar, job: Job, t: Time): Job {
    var next := Upcoming(cal, job.expr, t);
    if next.Some? then job.(nextFire := next.value) else job
  }

  // ---- a tick, one job after another ----

  function FireInJobs(cal: Calendar, jobs: Jobs, id: string, clock: Clock): Jobs
    requires id in jobs
  {
    jobs[id := Moved(cal, jobs[id], clock(id))]
  }

  function FireInStore(store: Store, id: string, now: Time): Store {
    if id in store then store[id := Touched(store[id], now)] else store
  }

  predicate Within(ids: seq<string>, jobs: Jobs) {
    forall i :: 0 <= i < |ids| ==> ids[i] in jobs
  }

  function JobsAfter(cal: Calendar, jobs: Jobs, ids: seq<string>, clock: Clock): (r: Jobs)
    requires Within(ids, jobs)
    ensures r.Keys == jobs.Keys
  {
    if ids == [] then jobs
    else FireInJobs(cal, JobsAfter(cal, jobs, ids[..|ids| - 1], clock), ids[|ids| - 1], clock)
  }

  function StoreAfter(store: Store, ids: seq<string>, now: Time): Store {
    if ids == [] then store else FireInStore(StoreAfter(store, ids[..|ids| - 1], now), ids[|ids| - 1], now)
  }

  function EventsAfter(jobs: Jobs, ids: seq<string>): seq<(string, Option<string>)>
    requires Within(ids, jobs)
  {
    if ids == [] then []
    else EventsAfter(jobs, ids[..|ids| - 1]) + [(ids[|ids| - 1], jobs[ids[|ids| - 1]].target)]
  }

  function ExhaustedAfter(cal: Calendar, jobs: Jobs, ids: seq<string>, clock: Clock): set<string>
    requires Within(ids, jobs)
  {
    if ids == [] then {}
    else
      var id := ids[|ids| - 1];
      ExhaustedAfter(cal, jobs, ids[..|ids| - 1], clock)
        + if Upcoming(cal, jobs[id].expr, clock(id)).None? then {id} else {}
  }

  lemma {:induction false} JobsAfterAt(cal: Calendar, jobs: Jobs, ids: seq<string>, clock: Clock, id: string)
    requires Within(ids, jobs) && Distinct(ids) && id in jobs
    ensures JobsAfter(cal, jobs, ids, clock)[id] == if id in ids then Moved(cal, jobs[id], clock(id)) else jobs[id]
  {
    if ids == [] {
    } else {
      JobsAfterAt(cal, jobs, ids[..|ids| - 1], clock, id);
      assert ids == ids[..|ids| - 1] + [ids[|ids| - 1]];
    }
  }

  lemma {:induction false} StoreAfterAt(store: Store, ids: seq<string>, now: Time, id: string)
    requires Distinct(ids)
    ensures StoreAfter(store, ids, now).Keys == store.Keys
    ensures id in store ==> StoreAfter(store, ids, now)[id] == if id in ids then Touched(store[id], now) else store[id]
  {
    if ids == [] {
    } else {
      StoreAfterAt(store, ids[..|ids| - 1], now, id);
      assert ids == ids[..|ids| - 1] + [ids[|ids| - 1]];
    }
  }

  lemma {:induction false} ExhaustedAfterAt(cal: Calendar, jobs: Jobs, ids: seq<string>, clock: Clock, id: string)
    requires Within(ids, jobs)
    ensures id in ExhaustedAfter(cal, jobs, ids, clock)
       <==> id in ids && Upcoming(cal, jobs[id].expr, clock(id)).None?
  {
    if ids == [] {
    } else {
      ExhaustedAfterAt(cal, jobs, ids[..|ids| - 1], clock, id);
      assert ids == ids[..|ids| - 1] + [ids[|ids| - 1]];
    }
  }

  lemma {:induction false} EventsAfterAt(jobs: Jobs, ids: seq<string>)
    requires Within(ids, jobs)
    ensures |EventsAfter(jobs, ids)| == |ids|
    ensures forall i :: 0 <= i < |ids| ==> EventsAfter(jobs, ids)[i] == (ids[i], jobs[ids[i]].target)
  {
    if ids == [] {
    } else {
      EventsAfterAt(jobs, ids[..|ids| - 1]);
    }
  }

  lemma PrefixStep(ids: seq<string>, i: nat)
    requires i < |ids| && Distinct(ids)
    ensures ids[..i + 1] == ids[..i] + [ids[i]] && ids[i] !in ids[..i] && Distinct(ids[..i])
  {
  }

  /** The order of firing does not matter to the maps. */
  lemma FiredJobs(cal: Calendar, jobs: Jobs, now: Time, clock: Clock, due: seq<string>)
    requires Within(due, jobs) && Distinct(due) && forall id :: id in due <==> Due(jobs, now, id)
    ensures JobsAfter(cal, jobs, due, clock) - ExhaustedAfter(cal, jobs, due, clock) == TickJobs(cal, jobs, now, clock)
  {
    forall id | id in jobs
      ensures JobsAfter(cal, jobs, due, clock)[id] == if id in due then Moved(cal, jobs[id], clock(id)) else jobs[id]
      ensures id in ExhaustedAfter(cal, jobs, due, clock) <==> Exhausted(cal, jobs, now, clock, id)
    {
      JobsAfterAt(cal, jobs, due, clock, id);
      ExhaustedAfterAt(cal, jobs, due, clock, id);
    }
  }

  lemma FiredStore(cal: Calendar, jobs: Jobs, store: Store, now: Time, clock: Clock, due: seq<string>)
    requires Within(due, jobs) && Distinct(due) && forall id :: id in due <==> Due(jobs, now, id)
    ensures StoreAfter(store, due, now) - ExhaustedAfter(cal, jobs, due, clock) == TickStore(cal, jobs, store, now, clock)
  {
    StoreAfterAt(store, due, now, "");
    forall id | id in store
      ensures StoreAfter(store, due, now)[id] == if id in due then Touched(store[id], now) else store[id]
      ensures id in ExhaustedAfter(cal, jobs, due, clock) <==> Exhausted(cal, jobs, now, clock, id)
    {
      StoreAfterAt(store, due, now, id);
      ExhaustedAfterAt(cal, jobs, due, clock, id);
    }
  }

  class CronScheduler {
    const cal: Calendar
    const hasStore: bool
    var jobs: Jobs
    var store: Store
    /** The TriggerFired events published so far. */
    var published: seq<(string, Option<string>)>

    constructor (cal: Calendar, hasStore: bool, store: Store)
      ensures this.cal == cal && this.hasStore == hasStore && this.store == store
      ensures jobs == map[] && published == []
    {
      this.cal, this.hasStore, this.store := cal, hasStore, store;
      jobs, published := map[], [];
    }

    /** `saved` tells whether the store accepts the write; a failed write is only logged. */
    method Add(expr: string, id: string, target: Option<string>, now: Time, saved: bool)
      returns (r: Result<(), CronError>)
      modifies this`jobs, this`store
      ensures r.Ok? <==> Upcoming(cal, expr, now).Some? && id !in old(jobs)
      ensures r.Ok? ==>
                && cal.parses(expr) && id in jobs && cal.next(expr, now) == Some(jobs[id].nextFire)
                && jobs == old(jobs)[id := Job(expr, target, jobs[id].nextFire, true)]
                && (hasStore && saved ==> store == old(store)[id := Record("cron", Some(expr), target, true, None, 0)])
      ensures jobs == CommandJobs(cal, old(jobs), AddJob(expr, id, target, now))
      ensures store == if hasStore && saved then CommandStore(cal, old(jobs), old(store), AddJob(expr, id, target, now))
                       else old(store)
      ensures r.Err? ==>
                r.error == if !cal.parses(expr) then InvalidExpression(expr)
                           else if cal.next(expr, now).None? then NeverFires(expr)
                           else AlreadyExists(id)
    {
      if !cal.parses(expr) {
        return Err(InvalidExpression(expr));
      }
      var nextFire := cal.next(expr, now);
      if nextFire.None? {
        return Err(NeverFires(expr));
      }
      if id in jobs {
        return Err(AlreadyExists(id));
      }
      jobs := jobs[id := Job(expr, target, nextFire.value, true)];
      if hasStore && saved {
        store := store[id := Record("cron", Some(expr), target, true, None, 0)];
      }
      return Ok(());
    }

    method Remove(id: string, deleted: bool) returns (removed: bool)
      modifies this`jobs, this`store
      ensures removed == (id in old(jobs))
      ensures jobs == CommandJobs(cal, old(jobs), RemoveJob(id)) && id !in jobs
      ensures store == if hasStore && deleted then CommandStore(cal, old(jobs), old(store), RemoveJob(id)) else old(store)
    {
      removed := id in jobs;
      jobs := jobs - {id};
      if removed && hasStore && deleted {
        store := store - {id};
      }
    }

    /** `listed` tells whether the store could be read. */
    method RestoreFromStore(clock: Clock, listed: bool)
      modifies this`jobs
      ensures jobs == if hasStore && listed then RestoreJobs(cal, old(jobs), store, clock) else old(jobs)
    {
      if !hasStore || !listed {
        return;
      }
      var todo := store.Keys;
      ghost var goal := RestoreJobs(cal, jobs, store, clock);
      while todo != {}
        invariant todo <= store.Keys
        invariant jobs == map id | id in goal && (id in old(jobs) || id !in todo) :: goal[id]
        decreases todo
      {
        var id :| id in todo;
        todo := todo - {id};
        var record := store[id];
        if record.enabled && record.triggerType == "cron" && id !in jobs && record.expr.Some? {
          var expr := record.expr.value;
          if cal.parses(expr) {
            var nextFire := cal.next(expr, clock(id));
            if nextFire.Some? {
              jobs := jobs[id := Job(expr, record.target, nextFire.value, record.enabled)];
            }
          }
        }
      }
      assert jobs == goal;
    }

    /** The jobs to fire, in the order the job map happens to be walked. */
    method CollectDue(now: Time) returns (toFire: seq<string>)
      ensures Within(toFire, jobs) && Distinct(toFire)
      ensures forall id :: id in toFire <==> Due(jobs, now, id)
    {
      toFire := [];
      var todo := jobs.Keys;
      while todo != {}
        invariant todo <= jobs.Keys
        invariant Within(toFire, jobs) && Distinct(toFire)
        invariant forall id :: id in toFire <==> id !in todo && Due(jobs, now, id)
        decreases todo
      {
        var id :| id in todo;
        todo := todo - {id};
        if jobs[id].enabled && now >= jobs[id].nextFire {
          toFire := toFire + [id];
        }
      }
    }

    /** Publishes one event, records it and moves the job to its next occurrence. */
    method Fire(id: string, now: Time, clock: Clock, stored: bool) returns (over: bool)
      requires id in jobs
      modifies this`jobs, this`store, this`published
      ensures published == old(published) + [(id, old(jobs)[id].target)]
      ensures over == Upcoming(cal, old(jobs)[id].expr, clock(id)).None?
      ensures jobs == FireInJobs(cal, old(jobs), id, clock)
      ensures store == if hasStore && stored then FireInStore(old(store), id, now) else old(store)
    {
      published := published + [(id, jobs[id].target)];
      if hasStore && stored && id in store {
        store := store[id := Touched(store[id], now)];
      }
      var next := Upcoming(cal, jobs[id].expr, clock(id));
      over := next.None?;
      if next.Some? {
        jobs := jobs[id := jobs[id].(nextFire := next.value)];
      }
    }

    /** The jobs `ids` of a tick that began with these maps and events have been fired. */
    ghost predicate FiredSoFar(ids: seq<string>, jobs0: Jobs, store0: Store, sent: seq<(string, Option<string>)>,
                               exhausted: set<string>, now: Time, clock: Clock, written: bool)
      requires Within(ids, jobs0)
      reads this
    {
      && exhausted == ExhaustedAfter(cal, jobs0, ids, clock)
      && jobs == JobsAfter(cal, jobs0, ids, clock)
      && store == (if written then StoreAfter(store0, ids, now) else store0)
      && published == sent + EventsAfter(jobs0, ids)
    }

    /** Fires one more job. */
    method FireNext(id: string, now: Time, clock: Clock, stored: bool, exhausted: set<string>, ghost done: seq<string>,
                    ghost jobs0: Jobs, ghost store0: Store, ghost sent: seq<(string, Option<string>)>)
      returns (exhausted': set<string>)
      requires Within(done + [id], jobs0) && Within(done, jobs0) && Distinct(done) && id !in done
      requires FiredSoFar(done, jobs0, store0, sent, exhausted, now, clock, hasStore && stored)
      modifies this`jobs, this`store, this`published
      ensures FiredSoFar(done + [id], jobs0, store0, sent, exhausted', now, clock, hasStore && stored)
    {
      assert (done + [id])[..|done|] == done && (done + [id])[|done|] == id;
      JobsAfterAt(cal, jobs0, done, clock, id);
      var over := Fire(id, now, clock, stored);
      exhausted' := if over then exhausted + {id} else exhausted;
    }

    method FireAll(due: seq<string>, now: Time, clock: Clock, stored: bool) returns (exhausted: set<string>)
      requires Within(due, jobs) && Distinct(due)
      modifies this`jobs, this`store, this`published
      ensures FiredSoFar(due, old(jobs), old(store), old(published), exhausted, now, clock, hasStore && stored)
    {
      exhausted := {};
      for i := 0 to |due|
        invariant FiredSoFar(due[..i], old(jobs), old(store), old(published), exhausted, now, clock, hasStore && stored)
      {
        PrefixStep(due, i);
        exhausted := FireNext(due[i], now, clock, stored, exhausted, due[..i], old(jobs), old(store), old(published));
      }
      assert due[..|due|] == due;
    }

    /** One second of the scheduling loop: `now` decides what is due, later clock readings decide
        what comes next. `stored` tells whether the store accepts this tick's writes. Each due job
        is announced once, in an `order` that is not determined. */
    method Tick(now: Time, clock: Clock, stored: bool) returns (ghost order: seq<string>)
      modifies this`jobs, this`store, this`published
      ensures jobs == TickJobs(cal, old(jobs), now, clock)
      ensures store == if hasStore && stored then TickStore(cal, old(jobs), old(store), now, clock) else old(store)
      ensures Within(order, old(jobs)) && Distinct(order)
      ensures forall id :: id in order <==> id in old(jobs) && old(jobs)[id].enabled && now >= old(jobs)[id].nextFire
      ensures published == old(published) + EventsAfter(old(jobs), order)
      ensures |EventsAfter(old(jobs), order)| == |order|
      ensures forall k :: 0 <= k < |order| ==> EventsAfter(old(jobs), order)[k] == (order[k], old(jobs)[order[k]].target)
    {
      ghost var jobs0, store0 := jobs, store;
      var toFire := CollectDue(now);
      order := toFire;
      var exhausted := FireAll(toFire, now, clock, stored);
      EventsAfterAt(jobs0, toFire);
      FiredJobs(cal, jobs0, now, clock, toFire);
      FiredStore(cal, jobs0, store0, now, clock, toFire);
      jobs := jobs - exhausted;
      if hasStore && stored {
        store := store - exhausted;
      }
    }
  }
}
