/**
 * The application-instance table and the operations that change it: the
 * stop transition, the idle reaper and the timestamp backfill.
 *
 * Every instance row carries single_running_or_spawning_integrity, a unique
 * token: the public host while the instance is spawning or running, the
 * instance's own id once it is stopped, so that at most one live instance
 * holds each host.
 */
module ApplicationsRegistry {
  import opened Wrappers
  import opened AppModels

  /** Times are datetimes as microseconds on one scale. */
  const Hour: int := 3_600_000_000

  datatype Instance = Instance(
    owner: nat,
    publicHost: string,
    templateId: nat,
    spawner: string,
    state: InstanceState,
    token: string,
    createdDate: int,
    proxyUrl: string,
    spawnerOptions: string,
    spawnerInstanceId: string,
    spawnerCreatedAt: Option<int>,
    spawnerStoppedAt: Option<int>)

  predicate Active(i: Instance) { i.state == Spawning || i.state == Running }

  /** The unique constraint on the token column. */
  predicate TokensDistinct(m: map<string, Instance>)
  {
    forall a, b :: a in m && b in m && a != b ==> m[a].token != m[b].token
  }

  /** Tokens are the host while live and the id once stopped. */
  predicate TokenShape(m: map<string, Instance>)
  {
    forall a :: a in m ==> m[a].token == (if m[a].state == Stopped then a else m[a].publicHost)
  }

  /** Instance ids (UUID text) never coincide with public host names. */
  predicate IdsNotHosts(m: map<string, Instance>)
  {
    forall a, b :: a in m && b in m ==> a != m[b].publicHost
  }

  /** public_host is a CharField of at most 63 characters, the longest DNS label. */
  const MaxHostLength := 63

  predicate HostsFit(m: map<string, Instance>)
  {
    forall a :: a in m ==> |m[a].publicHost| <= MaxHostLength
  }

  predicate Consistent(m: map<string, Instance>)
  {
    TokensDistinct(m) && TokenShape(m) && IdsNotHosts(m) && HostsFit(m)
  }

  /** Under the token constraint two live instances never share a host. */
  lemma OneLiveInstancePerHost(m: map<string, Instance>, a: string, b: string)
    requires Consistent(m) && a in m && b in m
    requires Active(m[a]) && Active(m[b]) && m[a].publicHost == m[b].publicHost
    ensures a == b
  {
  }

  /** set_application_stopped: state STOPPED and token str(id); nothing else changes. */
  function StoppedAt(m: map<string, Instance>, id: string): map<string, Instance>
    requires id in m
  {
    m[id := m[id].(state := Stopped, token := id)]
  }

  /** The stopped row's new token clashes with no other row, so the save cannot violate the constraint. */
  lemma StopKeepsConsistent(m: map<string, Instance>, id: string)
    requires Consistent(m) && id in m
    ensures Consistent(StoppedAt(m, id))
    ensures forall b :: b in m && b != id ==> m[b].token != id
  {
  }

  /** Rows with the same keys, hosts, states and tokens satisfy the same constraints. */
  predicate SameIdentity(m: map<string, Instance>, m': map<string, Instance>)
  {
    m.Keys == m'.Keys
    && forall a :: a in m ==> m'[a].publicHost == m[a].publicHost && m'[a].state == m[a].state && m'[a].token == m[a].token
  }

  lemma SameIdentityConsistent(m: map<string, Instance>, m': map<string, Instance>)
    requires Consistent(m) && SameIdentity(m, m')
    ensures Consistent(m')
  {
  }

  datatype LookupError = DoesNotExist | MultipleObjectsReturned

  ghost function LiveIdsForHost(m: map<string, Instance>, host: string): set<string>
  {
    set a | a in m && m[a].publicHost == host && Active(m[a])
  }

  /** get_api_visible_application_instance_by_public_host: `.get(public_host=..., state__in=[RUNNING, SPAWNING])`. */
  ghost function ApiVisibleByHost(m: map<string, Instance>, host: string): (r: Result<string, LookupError>)
    ensures r.Ok? ==> r.value in m && m[r.value].publicHost == host && Active(m[r.value])
    ensures r == Err(DoesNotExist) <==> forall a :: a in m && m[a].publicHost == host ==> !Active(m[a])
  {
    var s := LiveIdsForHost(m, host);
    if s == {} then
      assert forall a :: a in m && m[a].publicHost == host && Active(m[a]) ==> a in s;
      Err(DoesNotExist)
    else if |s| > 1 then Err(MultipleObjectsReturned)
    else var a :| a in s; Ok(a)
  }

  /** With the token constraint the API lookup never finds several instances. */
  lemma ApiVisibleNeverMultiple(m: map<string, Instance>, host: string)
    requires Consistent(m)
    ensures ApiVisibleByHost(m, host) != Err(MultipleObjectsReturned)
  {
    var s := LiveIdsForHost(m, host);
    if |s| > 1 {
      var a :| a in s;
      assert |s - {a}| >= 1;
      var b :| b in s - {a};
      OneLiveInstancePerHost(m, a, b);
      assert false;
    }
  }

  /** kill_idle_fargate's query: FARGATE, live, created strictly more than two hours ago. */
  predicate ReaperCandidate(i: Instance, now: int)
  {
    i.spawner == "FARGATE" && Active(i) && i.createdDate < now - 2 * Hour
  }

  /** The rows kill_idle_fargate's query returns. */
  function CandidateIds(m: map<string, Instance>, now: int): set<string>
  {
    set a | a in m && ReaperCandidate(m[a], now)
  }

  /** The CPU lookup's result: the maximum CPU, or None when it raised. */
  function CpuOf(cpu: map<string, real>, id: string): Option<real>
  {
    if id in cpu then Some(cpu[id]) else None
  }

  /** A spawning candidate is always stopped; a running one only when its maximum CPU is known and below 1.0. */
  predicate ReaperStops(i: Instance, cpu: Option<real>)
  {
    i.state == Spawning || (cpu.Some? && cpu.value < 1.0)
  }

  /** The table after the reaper has handled the ids in `done`; stops whose enqueue raises change nothing. */
  function Reaped(m: map<string, Instance>, done: seq<string>, cpu: map<string, real>, down: set<string>): map<string, Instance>
  {
    map a | a in m :: if a in done && ReaperStops(m[a], CpuOf(cpu, a)) && a !in down
      then m[a].(state := Stopped, token := a) else m[a]
  }

  /** The backend stop tasks the reaper enqueues, in the order it visits the ids. */
  function Enqueued(m: map<string, Instance>, ids: seq<string>, cpu: map<string, real>, down: set<string>): seq<(string, string)>
  {
    if ids == [] then []
    else
      var a := ids[|ids| - 1];
      Enqueued(m, ids[..|ids| - 1], cpu, down)
      + (if a in m && ReaperStops(m[a], CpuOf(cpu, a)) && a !in down then [(m[a].spawner, a)] else [])
  }

  /** Stopping any set of instances keeps the token constraint. */
  lemma ReapedConsistent(m: map<string, Instance>, done: seq<string>, cpu: map<string, real>, down: set<string>)
    requires Consistent(m)
    ensures Consistent(Reaped(m, done, cpu, down))
  {
  }

  /**
   * The reaper never stops a running instance whose CPU lookup failed or
   * whose maximum CPU is at least 1.0, and never touches a non-candidate.
   */
  lemma ReaperKeeps(m: map<string, Instance>, done: seq<string>, cpu: map<string, real>, down: set<string>, a: string)
    requires a in m && m[a].state == Running && (a !in cpu || cpu[a] >= 1.0)
    ensures Reaped(m, done, cpu, down)[a] == m[a]
  {
  }

  /** Only candidates of the query are ever stopped, each one then marked stopped and given its id as token. */
  lemma ReapedOnlyCandidates(m: map<string, Instance>, now: int, done: seq<string>, cpu: map<string, real>,
                             down: set<string>, a: string)
    requires forall x :: x in done ==> x in CandidateIds(m, now)
    requires a in m && Reaped(m, done, cpu, down)[a] != m[a]
    ensures ReaperCandidate(m[a], now) && ReaperStops(m[a], CpuOf(cpu, a)) && a !in down
    ensures Reaped(m, done, cpu, down)[a].state == Stopped && Reaped(m, done, cpu, down)[a].token == a
  {
  }

  /**
   * Every enqueued stop task names an instance the reaper stops, with that
   * instance's spawner, and every instance it stops has its task enqueued.
   */
  lemma {:induction false} EnqueuedExactlyStopped(m: map<string, Instance>, ids: seq<string>, cpu: map<string, real>,
                                                  down: set<string>)
    ensures forall k :: 0 <= k < |Enqueued(m, ids, cpu, down)| ==>
      var a := Enqueued(m, ids, cpu, down)[k].1;
      a in ids && a in m && ReaperStops(m[a], CpuOf(cpu, a)) && a !in down
      && Enqueued(m, ids, cpu, down)[k].0 == m[a].spawner
    ensures forall a :: a in ids && a in m && ReaperStops(m[a], CpuOf(cpu, a)) && a !in down ==>
      (m[a].spawner, a) in Enqueued(m, ids, cpu, down)
  {
    if ids != [] {
      var init := ids[..|ids| - 1];
      EnqueuedExactlyStopped(m, init, cpu, down);
      assert ids == init + [ids[|ids| - 1]];
    }
  }

  /** A timestamp lookup: the Fargate task's cluster and ARN read from the instance's JSON fields. */
  datatype TaskKey = TaskKey(cluster: string, taskArn: string)

  /** _fargate_task_describe: raised, no task, or a task record whose keys may be missing. */
  datatype Described = DescribeFailed | NoTask | Task(createdAt: Option<int>, stoppedAt: Option<int>)

  /** json.loads of the options and the instance id, with `None` for ValueError or KeyError. */
  type OptionsParser = (string, string) -> Option<TaskKey>

  type Describer = TaskKey -> Described

  /** The rows the 48 one-hour windows select: FARGATE, created in the last 48 hours, a timestamp missing. */
  predicate BackfillEligible(i: Instance, now: int)
  {
    i.spawner == "FARGATE" && now - 48 * Hour <= i.createdDate < now
    && (i.spawnerCreatedAt.None? || i.spawnerStoppedAt.None?)
  }

  /** One instance's update: only a missing timestamp is written, and only from a key the Fargate task record has. */
  function Backfill(i: Instance, parse: OptionsParser, describe: Describer): Instance
  {
    match parse(i.spawnerOptions, i.spawnerInstanceId)
    case None => i
    case Some(key) =>
      match describe(key)
      case Task(c, s) =>
        i.(spawnerCreatedAt := if c.Some? && i.spawnerCreatedAt.None? then c else i.spawnerCreatedAt,
           spawnerStoppedAt := if s.Some? && i.spawnerStoppedAt.None? then s else i.spawnerStoppedAt)
      case _ => i
  }

  /**
   * The backfill never overwrites a timestamp already set, changes nothing
   * but the two timestamps, and a second pass changes nothing more.
   */
  lemma BackfillFillsOnlyNulls(i: Instance, parse: OptionsParser, describe: Describer)
    ensures var j := Backfill(i, parse, describe);
      (i.spawnerCreatedAt.Some? ==> j.spawnerCreatedAt == i.spawnerCreatedAt)
      && (i.spawnerStoppedAt.Some? ==> j.spawnerStoppedAt == i.spawnerStoppedAt)
      && j.(spawnerCreatedAt := i.spawnerCreatedAt, spawnerStoppedAt := i.spawnerStoppedAt) == i
      && Backfill(j, parse, describe) == j
  {
  }

  function BackfilledBefore(m: map<string, Instance>, now: int, hours: int, parse: OptionsParser, describe: Describer): map<string, Instance>
  {
    map a | a in m :: if m[a].spawner == "FARGATE" && now - hours * Hour <= m[a].createdDate < now
      && (m[a].spawnerCreatedAt.None? || m[a].spawnerStoppedAt.None?)
      then Backfill(m[a], parse, describe) else m[a]
  }

  lemma ReapedStep(m: map<string, Instance>, done: seq<string>, a: string, cpu: map<string, real>, down: set<string>)
    requires a in m && a !in done
    ensures Reaped(m, done + [a], cpu, down)
      == if ReaperStops(m[a], CpuOf(cpu, a)) && a !in down
         then StoppedAt(Reaped(m, done, cpu, down), a) else Reaped(m, done, cpu, down)
  {
  }

  lemma EnqueuedStep(m: map<string, Instance>, ids: seq<string>, a: string, cpu: map<string, real>, down: set<string>)
    ensures Enqueued(m, ids + [a], cpu, down)
      == Enqueued(m, ids, cpu, down)
         + (if a in m && ReaperStops(m[a], CpuOf(cpu, a)) && a !in down then [(m[a].spawner, a)] else [])
  {
    assert (ids + [a])[..|ids|] == ids;
  }

  /** The rows of one window's query: Fargate, created in that hour, a timestamp still missing. */
  predicate InWindow(i: Instance, now: int, hours: int)
  {
    i.spawner == "FARGATE"
    && now - (hours + 1) * Hour <= i.createdDate < now - hours * Hour
    && (i.spawnerCreatedAt.None? || i.spawnerStoppedAt.None?)
  }

  /** The rows of one window, as its query selects them from the table left by the earlier windows. */
  function WindowIds(m: map<string, Instance>, now: int, hours: int): set<string>
  {
    set a | a in m && InWindow(m[a], now, hours)
  }

  function PartlyFilled(m0: map<string, Instance>, before: map<string, Instance>, done: set<string>,
                        parse: OptionsParser, describe: Describer): map<string, Instance>
    requires before.Keys == m0.Keys
  {
    map a | a in before :: if a in done then Backfill(m0[a], parse, describe) else before[a]
  }

  lemma WindowUntouched(m0: map<string, Instance>, now: int, hours: nat, parse: OptionsParser, describe: Describer)
    ensures var before := BackfilledBefore(m0, now, hours, parse, describe);
      before.Keys == m0.Keys && WindowIds(before, now, hours) == WindowIds(m0, now, hours)
      && forall a :: a in WindowIds(m0, now, hours) ==> before[a] == m0[a]
  {
    var before := BackfilledBefore(m0, now, hours, parse, describe);
    assert forall a :: a in m0 && now - (hours + 1) * Hour <= m0[a].createdDate < now - hours * Hour ==> before[a] == m0[a];
  }

  lemma PartlyFilledNone(m0: map<string, Instance>, before: map<string, Instance>, parse: OptionsParser, describe: Describer)
    requires before.Keys == m0.Keys
    ensures PartlyFilled(m0, before, {}, parse, describe) == before
  {
  }

  lemma PartlyFilledStep(m0: map<string, Instance>, before: map<string, Instance>, done: set<string>, a: string,
                         parse: OptionsParser, describe: Describer)
    requires before.Keys == m0.Keys && a in m0 && before[a] == m0[a] && a !in done
    ensures a in PartlyFilled(m0, before, done, parse, describe)
    ensures PartlyFilled(m0, before, done, parse, describe)[a] == m0[a]
    ensures PartlyFilled(m0, before, done, parse, describe)[a := Backfill(m0[a], parse, describe)]
      == PartlyFilled(m0, before, done + {a}, parse, describe)
  {
  }

  lemma WindowDone(m0: map<string, Instance>, now: int, hours: nat, parse: OptionsParser, describe: Describer)
    ensures var before := BackfilledBefore(m0, now, hours, parse, describe);
      before.Keys == m0.Keys
      && PartlyFilled(m0, before, WindowIds(m0, now, hours), parse, describe)
         == BackfilledBefore(m0, now, hours + 1, parse, describe)
  {
    WindowUntouched(m0, now, hours, parse, describe);
    var before := BackfilledBefore(m0, now, hours, parse, describe);
    var after := BackfilledBefore(m0, now, hours + 1, parse, describe);
    var w := WindowIds(m0, now, hours);
    assert (hours + 1) * Hour == hours * Hour + Hour;
    forall a | a in m0
      ensures PartlyFilled(m0, before, w, parse, describe)[a] == after[a]
    {
      if a in w {
      } else {
      }
    }
  }

  lemma BackfillSameIdentity(m0: map<string, Instance>, now: int, hours: nat, parse: OptionsParser, describe: Describer)
    ensures SameIdentity(m0, BackfilledBefore(m0, now, hours, parse, describe))
  {
  }

  lemma BackfilledAll(m0: map<string, Instance>, now: int, parse: OptionsParser, describe: Describer)
    ensures BackfilledBefore(m0, now, 48, parse, describe)
      == map a | a in m0 :: if BackfillEligible(m0[a], now) then Backfill(m0[a], parse, describe) else m0[a]
  {
  }

  /** In a list without repeats, the next id is not among those already visited. */
  lemma NextUnvisited(order: seq<string>, k: nat)
    requires forall i, j :: 0 <= i < j < |order| ==> order[i] != order[j]
    requires k < |order|
    ensures order[..k + 1] == order[..k] + [order[k]]
    ensures order[k] !in order[..k]
  {
    assert order[..k + 1] == order[..k] + [order[k]];
  }

  /** Visiting one more unvisited id: its row is still the original, and it is stopped exactly when the reaper stops it. */
  lemma ReapNext(m0: map<string, Instance>, visited: seq<string>, id: string, cpu: map<string, real>, down: set<string>)
    requires id in m0 && id !in visited
    ensures id in Reaped(m0, visited, cpu, down) && Reaped(m0, visited, cpu, down)[id] == m0[id]
    ensures Reaped(m0, visited + [id], cpu, down)
      == if ReaperStops(m0[id], CpuOf(cpu, id)) && id !in down
         then StoppedAt(Reaped(m0, visited, cpu, down), id) else Reaped(m0, visited, cpu, down)
  {
    ReapedStep(m0, visited, id, cpu, down);
  }

  /** ... and its stop is enqueued, after the earlier ones, exactly when the reaper stops it. */
  lemma EnqueueNext(m0: map<string, Instance>, q0: seq<(string, string)>, visited: seq<string>, id: string,
                    cpu: map<string, real>, down: set<string>)
    requires id in m0
    ensures q0 + Enqueued(m0, visited + [id], cpu, down)
      == q0 + Enqueued(m0, visited, cpu, down)
         + (if ReaperStops(m0[id], CpuOf(cpu, id)) && id !in down then [(m0[id].spawner, id)] else [])
  {
    EnqueuedStep(m0, visited, id, cpu, down);
  }

  /** Rows that agree with `m0` on `done` are filled alike from either. */
  lemma PartlyFilledAgree(m0: map<string, Instance>, before: map<string, Instance>, done: set<string>,
                          parse: OptionsParser, describe: Describer)
    requires before.Keys == m0.Keys
    requires forall a :: a in done && a in before ==> before[a] == m0[a]
    ensures PartlyFilled(before, before, done, parse, describe) == PartlyFilled(m0, before, done, parse, describe)
  {
  }

  /** The rows named by `ids` are backfilled one at a time, in any order; the others stay as they were. */
  method BackfillEach(m: map<string, Instance>, ids: set<string>, parse: OptionsParser, describe: Describer)
    returns (r: map<string, Instance>)
    requires ids <= m.Keys
    ensures r == PartlyFilled(m, m, ids, parse, describe)
  {
    r := m;
    var pending := ids;
    ghost var done: set<string> := {};
    PartlyFilledNone(m, m, parse, describe);
    while pending != {}
      invariant done <= ids && pending == ids - done
      invariant r == PartlyFilled(m, m, done, parse, describe)
      decreases |pending|
    {
      var a :| a in pending;
      PartlyFilledStep(m, m, done, a, parse, describe);
      r := r[a := Backfill(r[a], parse, describe)];
      pending := pending - {a};
      done := done + {a};
    }
  }

  class InstanceRegistry {
    var instances: map<string, Instance>
    /** Backend stop tasks enqueued with stop.delay, as (spawner, instance id). */
    var stopQueue: seq<(string, string)>

    ghost predicate Valid()
      reads this
    {
      Consistent(instances)
    }

    constructor ()
      ensures Valid() && instances == map[] && stopQueue == []
    {
      instances := map[];
      stopQueue := [];
    }

    /**
     * A new row in its default state SPAWNING with the host as its token; the
     * database refuses it when the host is longer than the column allows,
     * and the unique constraint while another row holds that token.
     */
    method Create(id: string, owner: nat, host: string, templateId: nat, spawner: string, createdDate: int,
                  options: string, spawnerInstanceId: string) returns (ok: bool)
      requires Valid() && id !in instances && id != host
      requires forall b :: b in instances ==> b != host && instances[b].publicHost != id
      modifies this`instances
      ensures Valid()
      ensures ok <==> |host| <= MaxHostLength && forall b :: b in old(instances) ==> old(instances)[b].token != host
      ensures ok ==> instances == old(instances)[id := Instance(owner, host, templateId, spawner, DefaultInstanceState,
        host, createdDate, "", options, spawnerInstanceId, None, None)]
      ensures !ok ==> instances == old(instances)
    {
      ok := |host| <= MaxHostLength && forall b :: b in instances ==> instances[b].token != host;
      if ok {
        instances := instances[id := Instance(owner, host, templateId, spawner, DefaultInstanceState,
          host, createdDate, "", options, spawnerInstanceId, None, None)];
      }
    }

    /** set_application_stopped. */
    method SetApplicationStopped(id: string)
      requires Valid() && id in instances
      modifies this`instances
      ensures Valid()
      ensures instances == StoppedAt(old(instances), id)
    {
      StopKeepsConsistent(instances, id);
      instances := instances[id := instances[id].(state := Stopped, token := id)];
    }

    /** stop_spawner_and_application: enqueue the backend stop, then mark the row stopped; a failed enqueue raises first. */
    method StopSpawnerAndApplication(id: string, brokerUp: bool) returns (ok: bool)
      requires Valid() && id in instances
      modifies this
      ensures Valid()
      ensures ok == brokerUp
      ensures ok ==> stopQueue == old(stopQueue) + [(old(instances)[id].spawner, id)]
      ensures ok ==> instances == StoppedAt(old(instances), id)
      ensures !ok ==> stopQueue == old(stopQueue) && instances == old(instances)
    {
      if !brokerUp {
        return false;
      }
      stopQueue := stopQueue + [(instances[id].spawner, id)];
      SetApplicationStopped(id);
      ok := true;
    }

    /** One visit of the reaper's loop: returns false when a spawning instance's stop raised. */
    method ReapOne(ghost m0: map<string, Instance>, ghost q0: seq<(string, string)>,
                   ghost visited: seq<string>, id: string, cpu: map<string, real>, down: set<string>) returns (ok: bool)
      requires Valid() && id in m0 && id !in visited
      requires instances == Reaped(m0, visited, cpu, down)
      requires stopQueue == q0 + Enqueued(m0, visited, cpu, down)
      modifies this
      ensures Valid()
      ensures ok ==> instances == Reaped(m0, visited + [id], cpu, down)
      ensures ok ==> stopQueue == q0 + Enqueued(m0, visited + [id], cpu, down)
      ensures !ok ==> m0[id].state == Spawning && id in down
      ensures !ok ==> instances == old(instances) && stopQueue == old(stopQueue)
    {
      ReapNext(m0, visited, id, cpu, down);
      EnqueueNext(m0, q0, visited, id, cpu, down);
      if instances[id].state == Spawning {
        ok := StopSpawnerAndApplication(id, id !in down);
        if !ok {
          return;
        }
      } else {
        ok := true;
        if id in cpu && cpu[id] < 1.0 {
          var stopped := StopSpawnerAndApplication(id, id !in down);
        }
      }
    }

    /**
     * kill_idle_fargate over the candidates in query order. `cpu` holds the
     * maximum CPU of each instance whose lookup succeeded; `down` the ids
     * whose stop enqueue raises. Such a failure is logged for a running
     * instance, but for a spawning one it escapes the loop: `handled` is
     * then the position of that instance and the rest are not visited.
     */
    method KillIdleFargate(now: int, order: seq<string>, cpu: map<string, real>, down: set<string>) returns (handled: nat)
      requires Valid()
      requires forall i, j :: 0 <= i < j < |order| ==> order[i] != order[j]
      requires forall a :: a in order ==> a in instances
      requires (set a | a in order) == CandidateIds(instances, now)
      modifies this
      ensures Valid()
      ensures handled <= |order|
      ensures handled < |order| ==> old(instances)[order[handled]].state == Spawning && order[handled] in down
      ensures instances == Reaped(old(instances), order[..handled], cpu, down)
      ensures stopQueue == old(stopQueue) + Enqueued(old(instances), order[..handled], cpu, down)
    {
      handled := ReapInOrder(order, cpu, down);
    }

    /** The loop of kill_idle_fargate, over any duplicate-free list of instance ids. */
    method ReapInOrder(order: seq<string>, cpu: map<string, real>, down: set<string>) returns (handled: nat)
      requires Valid()
      requires forall i, j :: 0 <= i < j < |order| ==> order[i] != order[j]
      requires forall a :: a in order ==> a in instances
      modifies this
      ensures Valid()
      ensures handled <= |order|
      ensures handled < |order| ==> old(instances)[order[handled]].state == Spawning && order[handled] in down
      ensures instances == Reaped(old(instances), order[..handled], cpu, down)
      ensures stopQueue == old(stopQueue) + Enqueued(old(instances), order[..handled], cpu, down)
    {
      ghost var m0 := instances;
      ghost var q0 := stopQueue;
      handled := 0;
      assert order[..0] == [];
      while handled < |order|
        invariant handled <= |order|
        invariant Valid()
        invariant instances == Reaped(m0, order[..handled], cpu, down)
        invariant stopQueue == q0 + Enqueued(m0, order[..handled], cpu, down)
      {
        var id := order[handled];
        NextUnvisited(order, handled);
        var ok := ReapOne(m0, q0, order[..handled], id, cpu, down);
        if !ok {
          return;
        }
        handled := handled + 1;
      }
    }

    /** One window of the backfill: every row its query selects, one at a time. */
    method FillWindow(ghost m0: map<string, Instance>, now: int, hours: int, parse: OptionsParser, describe: Describer)
      requires instances.Keys == m0.Keys
      requires forall a :: a in WindowIds(m0, now, hours) ==> instances[a] == m0[a]
      requires WindowIds(instances, now, hours) == WindowIds(m0, now, hours)
      modifies this`instances
      ensures instances == PartlyFilled(m0, old(instances), WindowIds(m0, now, hours), parse, describe)
    {
      var ids := WindowIds(instances, now, hours);
      var filled := BackfillEach(instances, ids, parse, describe);
      PartlyFilledAgree(m0, instances, ids, parse, describe);
      instances := filled;
    }

    /**
     * populate_created_stopped_fargate: 48 one-hour windows back from `now`;
     * within a window the instances are handled one by one, each on its own.
     */
    method PopulateCreatedStoppedFargate(now: int, parse: OptionsParser, describe: Describer)
      requires Valid()
      modifies this`instances
      ensures Valid()
      ensures instances == map a | a in old(instances) :: if BackfillEligible(old(instances)[a], now)
        then Backfill(old(instances)[a], parse, describe) else old(instances)[a]
    {
      ghost var m0 := instances;
      var hours := 0;
      while hours < 48
        invariant 0 <= hours <= 48
        invariant instances == BackfilledBefore(m0, now, hours, parse, describe)
      {
        WindowUntouched(m0, now, hours, parse, describe);
        FillWindow(m0, now, hours, parse, describe);
        WindowDone(m0, now, hours, parse, describe);
        hours := hours + 1;
      }
      BackfilledAll(m0, now, parse, describe);
      BackfillSameIdentity(m0, now, 48, parse, describe);
      SameIdentityConsistent(m0, instances);
    }
  }
}
