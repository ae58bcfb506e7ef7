/** The permissions of administrator roles: one table, read directly by the audit service and through a
    30-second cache in every module that provides its own copy of the role-permission service. */
module PermissionCache {
  import opened Wrappers

  type Permission = string

  datatype Role = SuperAdmin | Admin | Moderator | Analyst

  // The permissions the code registers, and the ones each role has by default.
  datatype Registry = Registry(all: set<Permission>, defaults: map<Role, set<Permission>>) {
    predicate Valid() {
      all != {} && forall role: Role :: role in defaults && defaults[role] <= all
    }
  }

  // The rows of each role: a permission and whether it is enabled.
  type Table = map<Role, map<Permission, bool>>

  function RowsOf(table: Table, role: Role): map<Permission, bool> {
    if role in table then table[role] else map[]
  }

  // What the table means for a role: a role without rows has its defaults, a role with rows has the registered
  // permissions among its enabled ones.
  function Lookup(registry: Registry, table: Table, role: Role): set<Permission>
    requires registry.Valid()
  {
    var rows := RowsOf(table, role);
    if role == SuperAdmin then registry.all
    else if rows == map[] then registry.defaults[role]
    else set p | p in rows && rows[p] && p in registry.all
  }

  /* Changes of the table. */

  datatype Change = Custom(enabled: set<Permission>) | Reset

  predicate Acceptable(registry: Registry, change: Change) {
    change.Custom? ==> change.enabled <= registry.all
  }

  // An update writes one row for every registered permission; a reset deletes all rows of the role.
  function Written(registry: Registry, table: Table, role: Role, change: Change): Table {
    match change
    case Custom(enabled) => table[role := RowsOf(table, role) + map p | p in registry.all :: p in enabled]
    case Reset => table - {role}
  }

  function NextPermissions(registry: Registry, role: Role, change: Change): set<Permission>
    requires registry.Valid()
  {
    match change
    case Custom(enabled) => enabled
    case Reset => registry.defaults[role]
  }

  // The set an update reports is the one the table then means, so a role with every permission disabled is told
  // apart from a role without rows; other roles keep theirs.
  lemma WrittenMeans(registry: Registry, table: Table, role: Role, change: Change, other: Role)
    requires registry.Valid() && Acceptable(registry, change)
    ensures role != SuperAdmin ==>
      Lookup(registry, Written(registry, table, role, change), role) == NextPermissions(registry, role, change)
    ensures other != role ==>
      Lookup(registry, Written(registry, table, role, change), other) == Lookup(registry, table, other)
  {
    if change.Custom? {
      var p :| p in registry.all;
      assert p in RowsOf(Written(registry, table, role, change), role);
    }
  }

  /* The cache of one instance. */

  const TTL := 30_000

  datatype Entry = Entry(expiresAt: int, permissions: set<Permission>)

  type Cache = map<Role, Entry>

  predicate Hit(cache: Cache, role: Role, now: int) {
    role in cache && cache[role].expiresAt > now
  }

  function Served(registry: Registry, table: Table, cache: Cache, role: Role, now: int): set<Permission>
    requires registry.Valid()
  {
    if role == SuperAdmin then registry.all
    else if Hit(cache, role, now) then cache[role].permissions
    else Lookup(registry, table, role)
  }

  function CacheAfter(registry: Registry, table: Table, cache: Cache, role: Role, now: int): Cache
    requires registry.Valid()
  {
    if role == SuperAdmin || Hit(cache, role, now) then cache
    else cache[role := Entry(now + TTL, Lookup(registry, table, role))]
  }

  /* Many instances over one table. An update or reset is three steps, between which others may come: it drops
     the instance's entry, writes the table, and remembers the new set. */

  // The table from a moment on.
  datatype Moment = Moment(at: int, table: Table)

  datatype Pending = Pending(instance: nat, role: Role, permissions: set<Permission>, writtenAt: int)

  datatype World = World(caches: map<nat, Cache>, pending: map<nat, Pending>, log: seq<Moment>)

  datatype Event =
    | Serve(instance: nat, role: Role)
    | Drop(instance: nat, role: Role)
    | Write(request: nat, instance: nat, role: Role, change: Change)
    | Remember(request: nat)

  function Now(w: World): Table
    requires w.log != []
  {
    w.log[|w.log| - 1].table
  }

  function CacheOf(w: World, instance: nat): Cache {
    if instance in w.caches then w.caches[instance] else map[]
  }

  function Step(registry: Registry, w: World, event: Event, at: int): (after: World)
    requires registry.Valid() && w.log != []
    ensures after.log != []
  {
    match event
    case Serve(i, role) =>
      w.(caches := w.caches[i := CacheAfter(registry, Now(w), CacheOf(w, i), role, at)])
    case Drop(i, role) =>
      w.(caches := w.caches[i := CacheOf(w, i) - {role}])
    case Write(request, i, role, change) =>
      if !Acceptable(registry, change) || request in w.pending then w
      else
        w.(pending := w.pending[request := Pending(i, role, NextPermissions(registry, role, change), at)],
           log := w.log + [Moment(at, Written(registry, Now(w), role, change))])
    case Remember(request) =>
      if request !in w.pending then w
      else
        var p := w.pending[request];
        w.(pending := w.pending - {request},
           caches := w.caches[p.instance := CacheOf(w, p.instance)[p.role := Entry(at + TTL, p.permissions)]])
  }

  /* Staleness. */

  // The set was what the table meant at some moment from the given one on.
  ghost predicate MeantSince(registry: Registry, log: seq<Moment>, role: Role, permissions: set<Permission>, since: int)
    requires registry.Valid()
  {
    exists i :: 0 <= i < |log| && MeantAt(registry, log, i, role, permissions, since)
  }

  predicate MeantAt(registry: Registry, log: seq<Moment>, i: nat, role: Role, permissions: set<Permission>, since: int)
    requires registry.Valid() && i < |log|
  {
    Lookup(registry, log[i].table, role) == permissions && (i + 1 < |log| ==> since <= log[i + 1].at)
  }

  // Every entry was right no longer ago than its age plus the longest delay between a write and its being
  // remembered.
  ghost predicate Fresh(registry: Registry, w: World, clock: int, delay: nat)
    requires registry.Valid()
  {
    && w.log != [] && w.log[|w.log| - 1].at <= clock
    && (forall i, role :: i in w.caches && role in w.caches[i] && role != SuperAdmin ==>
          && w.caches[i][role].expiresAt <= clock + TTL
          && MeantSince(registry, w.log, role, w.caches[i][role].permissions,
              w.caches[i][role].expiresAt - TTL - delay))
    && (forall r :: r in w.pending && w.pending[r].role != SuperAdmin ==>
          && w.pending[r].writtenAt <= clock
          && MeantSince(registry, w.log, w.pending[r].role, w.pending[r].permissions, w.pending[r].writtenAt))
  }

  lemma LogGrows(
      registry: Registry, log: seq<Moment>, next: Moment, role: Role, permissions: set<Permission>, since: int)
    requires registry.Valid() && MeantSince(registry, log, role, permissions, since) && since <= next.at
    ensures MeantSince(registry, log + [next], role, permissions, since)
  {
    var i :| 0 <= i < |log| && MeantAt(registry, log, i, role, permissions, since);
    assert MeantAt(registry, log + [next], i, role, permissions, since);
  }

  lemma MeantEarlier(
      registry: Registry, log: seq<Moment>, role: Role, permissions: set<Permission>, since: int, earlier: int)
    requires registry.Valid() && MeantSince(registry, log, role, permissions, since) && earlier <= since
    ensures MeantSince(registry, log, role, permissions, earlier)
  {
    var i :| 0 <= i < |log| && MeantAt(registry, log, i, role, permissions, since);
    assert MeantAt(registry, log, i, role, permissions, earlier);
  }

  lemma MeansNow(registry: Registry, w: World, role: Role, since: int)
    requires registry.Valid() && w.log != []
    ensures MeantSince(registry, w.log, role, Lookup(registry, Now(w), role), since)
  {
    assert MeantAt(registry, w.log, |w.log| - 1, role, Lookup(registry, Now(w), role), since);
  }

  // A remembered write is at most the delay old.
  predicate InTime(w: World, event: Event, at: int, delay: nat) {
    event.Remember? && event.request in w.pending ==> at <= w.pending[event.request].writtenAt + delay
  }

  lemma WriteStaysFresh(registry: Registry, w: World, event: Event, clock: int, at: int, delay: nat)
    requires registry.Valid() && Fresh(registry, w, clock, delay) && clock <= at && event.Write?
    ensures Fresh(registry, Step(registry, w, event, at), at, delay)
  {
    hide Lookup, Written, NextPermissions, MeantSince;
    var after := Step(registry, w, event, at);
    if after.log != w.log {
      var next := after.log[|w.log|];
      forall i, role | i in after.caches && role in after.caches[i] && role != SuperAdmin
        ensures MeantSince(registry, after.log, role, after.caches[i][role].permissions,
                           after.caches[i][role].expiresAt - TTL - delay)
      {
        LogGrows(registry, w.log, next, role, w.caches[i][role].permissions, w.caches[i][role].expiresAt - TTL - delay);
      }
      forall r | r in after.pending && after.pending[r].role != SuperAdmin
        ensures MeantSince(registry, after.log, after.pending[r].role, after.pending[r].permissions,
            after.pending[r].writtenAt)
      {
        if r in w.pending {
          LogGrows(registry, w.log, next, w.pending[r].role, w.pending[r].permissions, w.pending[r].writtenAt);
        } else {
          WrittenMeans(registry, Now(w), event.role, event.change, event.role);
          MeansNow(registry, after, event.role, at);
        }
      }
    }
  }

  lemma CachingStaysFresh(registry: Registry, w: World, event: Event, clock: int, at: int, delay: nat)
    requires registry.Valid() && Fresh(registry, w, clock, delay) && clock <= at && (event.Serve? || event.Drop?)
    ensures Fresh(registry, Step(registry, w, event, at), at, delay)
  {
    hide Lookup, MeantSince;
    MeansNow(registry, w, event.role, at - delay);
  }

  lemma RememberingStaysFresh(registry: Registry, w: World, event: Event, clock: int, at: int, delay: nat)
    requires registry.Valid() && Fresh(registry, w, clock, delay) && clock <= at && InTime(w, event, at, delay)
    requires event.Remember?
    ensures Fresh(registry, Step(registry, w, event, at), at, delay)
  {
    hide Lookup, MeantSince;
    if event.request in w.pending && w.pending[event.request].role != SuperAdmin {
      var p := w.pending[event.request];
      MeantEarlier(registry, w.log, p.role, p.permissions, p.writtenAt, at - delay);
    }
  }

  lemma StepStaysFresh(registry: Registry, w: World, event: Event, clock: int, at: int, delay: nat)
    requires registry.Valid() && Fresh(registry, w, clock, delay) && clock <= at && InTime(w, event, at, delay)
    ensures Fresh(registry, Step(registry, w, event, at), at, delay)
  {
    hide Fresh, Step;
    match event
    case Serve(_, _) => CachingStaysFresh(registry, w, event, clock, at, delay);
    case Drop(_, _) => CachingStaysFresh(registry, w, event, clock, at, delay);
    case Write(_, _, _, _) => WriteStaysFresh(registry, w, event, clock, at, delay);
    case Remember(_) => RememberingStaysFresh(registry, w, event, clock, at, delay);
  }

  function Run(registry: Registry, w: World, events: seq<(Event, int)>): (after: World)
    requires registry.Valid() && w.log != []
    ensures after.log != []
    decreases |events|
  {
    if events == [] then w else Run(registry, Step(registry, w, events[0].0, events[0].1), events[1..])
  }

  // The clock does not go back, and every write is remembered within the delay.
  predicate InOrder(registry: Registry, w: World, clock: int, events: seq<(Event, int)>, delay: nat)
    requires registry.Valid() && w.log != []
    decreases |events|
  {
    events != [] ==>
      && clock <= events[0].1
      && InTime(w, events[0].0, events[0].1, delay)
      && InOrder(registry, Step(registry, w, events[0].0, events[0].1), events[0].1, events[1..], delay)
  }

  function ClockAfter(clock: int, events: seq<(Event, int)>): int {
    if events == [] then clock else events[|events| - 1].1
  }

  lemma {:induction false} RunStaysFresh(
      registry: Registry, w: World, clock: int, events: seq<(Event, int)>, delay: nat)
    requires registry.Valid() && Fresh(registry, w, clock, delay) && InOrder(registry, w, clock, events, delay)
    ensures Fresh(registry, Run(registry, w, events), ClockAfter(clock, events), delay)
    decreases |events|
  {
    if events != [] {
      StepStaysFresh(registry, w, events[0].0, clock, events[0].1, delay);
      RunStaysFresh(registry, Step(registry, w, events[0].0, events[0].1), events[0].1, events[1..], delay);
    }
  }

  // After any run over any number of instances, whatever an instance serves is what the uncached lookup gave at
  // some moment within the last 30 seconds, plus the delay between a write and its being remembered: with
  // updates that are not interrupted, within the last 30 seconds.
  lemma {:induction false} ServedIsRecent(
      registry: Registry, w: World, clock: int, events: seq<(Event, int)>, delay: nat, instance: nat, role: Role,
      now: int)
    requires registry.Valid() && Fresh(registry, w, clock, delay) && InOrder(registry, w, clock, events, delay)
    requires ClockAfter(clock, events) <= now
    ensures
      var after := Run(registry, w, events);
      MeantSince(registry, after.log, role, Served(registry, Now(after), CacheOf(after, instance), role, now),
          now - 30_000 - delay)
  {
    RunStaysFresh(registry, w, clock, events, delay);
    var after := Run(registry, w, events);
    var cache := CacheOf(after, instance);
    if role != SuperAdmin && Hit(cache, role, now) {
      MeantEarlier(registry, after.log, role, cache[role].permissions, cache[role].expiresAt - TTL - delay,
          now - TTL - delay);
    } else {
      MeansNow(registry, after, role, now - TTL - delay);
    }
  }

  // The empty caches of a fresh start.
  lemma StartIsFresh(registry: Registry, table: Table, clock: int, delay: nat)
    requires registry.Valid()
    ensures Fresh(registry, World(map[], map[], [Moment(clock, table)]), clock, delay)
  {
  }

  /* The exact condition for the 30 seconds. */

  // Every set that some instance would serve from now on is what the table meant within the last 30 seconds.
  ghost predicate RecentFrom(registry: Registry, w: World, clock: int)
    requires registry.Valid() && w.log != []
  {
    forall instance, role: Role, now ::
      clock <= now ==> IsRecent(registry, w, Served(registry, Now(w), CacheOf(w, instance), role, now), role, now)
  }

  ghost predicate IsRecent(registry: Registry, w: World, permissions: set<Permission>, role: Role, now: int)
    requires registry.Valid()
  {
    MeantSince(registry, w.log, role, permissions, now - 30_000)
  }

  ghost predicate AlwaysRecent(registry: Registry, w: World, clock: int, events: seq<(Event, int)>)
    requires registry.Valid() && w.log != []
    decreases |events|
  {
    && RecentFrom(registry, w, clock)
    && (events != [] ==>
          AlwaysRecent(registry, Step(registry, w, events[0].0, events[0].1), events[0].1, events[1..]))
  }

  // What an update puts into the cache is not overtaken: up to a millisecond ago the table meant it.
  ghost predicate Timely(registry: Registry, w: World, event: Event, at: int)
    requires registry.Valid()
  {
    event.Remember? && event.request in w.pending && w.pending[event.request].role != SuperAdmin ==>
      MeantSince(registry, w.log, w.pending[event.request].role, w.pending[event.request].permissions, at - 1)
  }

  ghost predicate AllTimely(registry: Registry, w: World, events: seq<(Event, int)>)
    requires registry.Valid() && w.log != []
    decreases |events|
  {
    events != [] ==>
      && Timely(registry, w, events[0].0, events[0].1)
      && AllTimely(registry, Step(registry, w, events[0].0, events[0].1), events[1..])
  }

  predicate ClockAdvances(clock: int, events: seq<(Event, int)>)
    decreases |events|
  {
    events != [] ==> clock <= events[0].1 && ClockAdvances(events[0].1, events[1..])
  }

  // An entry lives for 30 seconds and, up to its last millisecond, is no older than that.
  ghost predicate Sound(registry: Registry, w: World, clock: int, instance: nat, role: Role)
    requires registry.Valid()
  {
    Hit(CacheOf(w, instance), role, clock) && role != SuperAdmin ==>
      var e := CacheOf(w, instance)[role];
      e.expiresAt <= clock + TTL && MeantSince(registry, w.log, role, e.permissions, e.expiresAt - 1 - TTL)
  }

  ghost predicate AllSound(registry: Registry, w: World, clock: int)
    requires registry.Valid()
  {
    w.log != [] && forall instance, role: Role :: Sound(registry, w, clock, instance, role)
  }

  lemma SoundIsRecent(registry: Registry, w: World, clock: int)
    requires registry.Valid() && AllSound(registry, w, clock)
    ensures RecentFrom(registry, w, clock)
  {
    hide Lookup, MeantSince;
    forall instance, role: Role, now | clock <= now
      ensures IsRecent(registry, w, Served(registry, Now(w), CacheOf(w, instance), role, now), role, now)
    {
      var cache := CacheOf(w, instance);
      if role != SuperAdmin && Hit(cache, role, now) {
        assert Sound(registry, w, clock, instance, role);
        MeantEarlier(registry, w.log, role, cache[role].permissions, cache[role].expiresAt - 1 - TTL, now - TTL);
      } else {
        MeansNow(registry, w, role, now - TTL);
        assert Lookup(registry, Now(w), SuperAdmin) == registry.all by { SuperAdminHasAll(registry, Now(w)); }
      }
    }
  }

  lemma SuperAdminHasAll(registry: Registry, table: Table)
    requires registry.Valid()
    ensures Lookup(registry, table, SuperAdmin) == registry.all
  {
  }

  // A step keeps every entry sound, except one that remembers an overtaken set.
  lemma StepStaysSound(registry: Registry, w: World, event: Event, clock: int, at: int)
    requires registry.Valid() && AllSound(registry, w, clock) && clock <= at && Timely(registry, w, event, at)
    ensures AllSound(registry, Step(registry, w, event, at), at)
  {
    hide Lookup, Written, MeantSince, NextPermissions;
    var after := Step(registry, w, event, at);
    forall instance, role: Role ensures Sound(registry, after, at, instance, role) {
      assert Sound(registry, w, clock, instance, role);
      if Hit(CacheOf(after, instance), role, at) && role != SuperAdmin {
        var e := CacheOf(after, instance)[role];
        if Hit(CacheOf(w, instance), role, at) && CacheOf(w, instance)[role] == e {
          if after.log != w.log {
            LogGrows(registry, w.log, after.log[|w.log|], role, e.permissions, e.expiresAt - 1 - TTL);
          }
        } else if event.Serve? {
          MeansNow(registry, w, role, at - 1);
        }
      }
    }
  }

  // An overtaken set, once remembered, is served after it is 30 seconds old.
  lemma OvertakenIsServed(registry: Registry, w: World, event: Event, at: int)
    requires registry.Valid() && w.log != [] && !Timely(registry, w, event, at)
    ensures !RecentFrom(registry, Step(registry, w, event, at), at)
  {
    hide Lookup, MeantSince;
    var p, after := w.pending[event.request], Step(registry, w, event, at);
    var last := at + TTL - 1;
    assert !IsRecent(registry, after, Served(registry, Now(after), CacheOf(after, p.instance), p.role, last),
                     p.role, last);
  }

  // One update: as long as the entry it puts into the cache lives, what its instance serves is recent if and only if
  // the update was not overtaken.
  lemma RememberIsRecentExactly(registry: Registry, w: World, request: nat, at: int)
    requires registry.Valid() && w.log != [] && request in w.pending && w.pending[request].role != SuperAdmin
    ensures
      var p, after := w.pending[request], Step(registry, w, Remember(request), at);
      (forall now :: at <= now < at + TTL ==>
         IsRecent(registry, after, Served(registry, Now(after), CacheOf(after, p.instance), p.role, now), p.role, now))
      <==> MeantSince(registry, w.log, p.role, p.permissions, at - 1)
  {
    hide Lookup, MeantSince;
    var p, after := w.pending[request], Step(registry, w, Remember(request), at);
    if MeantSince(registry, w.log, p.role, p.permissions, at - 1) {
      forall now | at <= now < at + TTL
        ensures IsRecent(registry, after, Served(registry, Now(after), CacheOf(after, p.instance), p.role, now),
                         p.role, now)
      {
        MeantEarlier(registry, w.log, p.role, p.permissions, at - 1, now - TTL);
      }
    } else {
      var last := at + TTL - 1;
      assert !IsRecent(registry, after, Served(registry, Now(after), CacheOf(after, p.instance), p.role, last),
                       p.role, last);
    }
  }

  // Through any run, every instance serves only sets that the table meant within the last 30 seconds if and only if
  // no update puts an overtaken set into a cache.
  lemma {:induction false} RecentExactlyWhenTimely(registry: Registry, w: World, clock: int, events: seq<(Event, int)>)
    requires registry.Valid() && AllSound(registry, w, clock) && ClockAdvances(clock, events)
    ensures AlwaysRecent(registry, w, clock, events) <==> AllTimely(registry, w, events)
    decreases |events|
  {
    hide Lookup, MeantSince, RecentFrom, Step, Timely, AllSound;
    SoundIsRecent(registry, w, clock);
    if events != [] {
      var (event, at) := events[0];
      assert w.log != [] by { SoundHasLog(registry, w, clock); }
      if Timely(registry, w, event, at) {
        StepStaysSound(registry, w, event, clock, at);
        RecentExactlyWhenTimely(registry, Step(registry, w, event, at), at, events[1..]);
      } else {
        OvertakenIsServed(registry, w, event, at);
      }
    }
  }

  lemma SoundHasLog(registry: Registry, w: World, clock: int)
    requires registry.Valid() && AllSound(registry, w, clock)
    ensures w.log != []
  {
  }

  lemma StartIsSound(registry: Registry, table: Table, clock: int)
    requires registry.Valid()
    ensures AllSound(registry, World(map[], map[], [Moment(clock, table)]), clock)
  {
  }

  // An update during which nobody else writes the role is timely, however long it takes.
  lemma {:induction false} UninterruptedIsTimely(
      registry: Registry, w: World, request: nat, events: seq<(Event, int)>, at: int)
    requires registry.Valid() && w.log != [] && request in w.pending
    requires Lookup(registry, Now(w), w.pending[request].role) == w.pending[request].permissions
    requires forall i :: 0 <= i < |events| ==>
      events[i].0 != Remember(request) && (events[i].0.Write? ==> events[i].0.role != w.pending[request].role)
    ensures Timely(registry, Run(registry, w, events), Remember(request), at)
    decreases |events|
  {
    hide Lookup, Written, MeantSince, NextPermissions;
    var p := w.pending[request];
    if events == [] {
      MeansNow(registry, w, p.role, at - 1);
    } else {
      var (event, time) := events[0];
      var after := Step(registry, w, event, time);
      if after.log != w.log {
        WrittenMeans(registry, Now(w), event.role, event.change, p.role);
      }
      UninterruptedIsTimely(registry, after, request, events[1..], at);
    }
  }

  // One permission, which no role has by default.
  function OnePermission(p: Permission): (registry: Registry)
    ensures registry.Valid()
  {
    var none: set<Permission> := {};
    var defaults := map[SuperAdmin := none, Admin := none, Moderator := none, Analyst := none];
    EveryRole(defaults);
    Registry({p}, defaults)
  }

  lemma EveryRole(defaults: map<Role, set<Permission>>)
    requires {SuperAdmin, Admin, Moderator, Analyst} <= defaults.Keys
    ensures forall role: Role :: role in defaults
  {
    forall role: Role ensures role in defaults {
      match role
      case SuperAdmin =>
      case Admin =>
      case Moderator =>
      case Analyst =>
    }
  }

  // A run in which a second update overtakes the first: ten seconds after the second wrote, the first remembers its
  // own set, and its instance serves that set 38.999 seconds after the table last meant it.
  lemma OvertakenExample(p: Permission)
    ensures
      var registry := OnePermission(p);
      var start := World(map[], map[], [Moment(0, map[])]);
      var end := Run(registry, start, [(Write(1, 1, Admin, Custom({p})), 1000), (Write(2, 2, Admin, Custom({})), 2000),
                                       (Remember(1), 11000)]);
      var now := 11000 + TTL - 1;
      && Served(registry, Now(end), CacheOf(end, 1), Admin, now) == {p}
      && !MeantSince(registry, end.log, Admin, {p}, now - TTL)
  {
    var registry := OnePermission(p);
    var start := World(map[], map[], [Moment(0, map[])]);
    var first, second, late := Write(1, 1, Admin, Custom({p})), Write(2, 2, Admin, Custom({})), Remember(1);
    var one := Step(registry, start, first, 1000);
    var two := Step(registry, one, second, 2000);
    var end := Step(registry, two, late, 11000);
    RunOfThree(registry, start, (first, 1000), (second, 2000), (late, 11000));
    WrittenMeans(registry, map[], Admin, Custom({p}), Admin);
    WrittenMeans(registry, Now(one), Admin, Custom({}), Admin);
    hide Lookup, Written;
    assert two.pending[1] == Pending(1, Admin, {p}, 1000);
    assert |end.log| == 3 && end.log[1].at == 1000 && end.log[2].at == 2000;
    assert p in {p} && p !in {};
  }

  lemma {:induction false} RunOfThree(registry: Registry, w: World, a: (Event, int), b: (Event, int), c: (Event, int))
    requires registry.Valid() && w.log != []
    ensures Run(registry, w, [a, b, c])
         == Step(registry, Step(registry, Step(registry, w, a.0, a.1), b.0, b.1), c.0, c.1)
  {
    hide Step;
    assert [a, b, c][1..] == [b, c] && [b, c][1..] == [c] && [c][1..] == [];
    var first := Step(registry, w, a.0, a.1);
    var second := Step(registry, first, b.0, b.1);
    assert Run(registry, first, [b, c]) == Run(registry, second, [c]);
    assert Run(registry, second, [c]) == Run(registry, Step(registry, second, c.0, c.1), []);
  }

  /* Entries over runs. */

  // No event of the run drops the instance's entry for the role or replaces it by another update's.
  predicate Undisturbed(registry: Registry, w: World, events: seq<(Event, int)>, instance: nat, role: Role)
    requires registry.Valid() && w.log != []
    decreases |events|
  {
    events != [] ==>
      && events[0].0 != Drop(instance, role)
      && !(events[0].0.Remember? && events[0].0.request in w.pending
           && w.pending[events[0].0.request].instance == instance && w.pending[events[0].0.request].role == role)
      && Undisturbed(registry, Step(registry, w, events[0].0, events[0].1), events[1..], instance, role)
  }

  lemma {:induction false} EntryIsServed(
      registry: Registry, w: World, events: seq<(Event, int)>, instance: nat, role: Role, e: Entry, now: int)
    requires registry.Valid() && w.log != [] && role != SuperAdmin
    requires role in CacheOf(w, instance) && CacheOf(w, instance)[role] == e && now < e.expiresAt
    requires (forall i :: 0 <= i < |events| ==> events[i].1 <= now) && Undisturbed(registry, w, events, instance, role)
    ensures var after := Run(registry, w, events);
            Served(registry, Now(after), CacheOf(after, instance), role, now) == e.permissions
    decreases |events|
  {
    hide Lookup, Written, NextPermissions;
    if events != [] {
      var after := Step(registry, w, events[0].0, events[0].1);
      assert role in CacheOf(after, instance) && CacheOf(after, instance)[role] == e;
      EntryIsServed(registry, after, events[1..], instance, role, e, now);
    }
  }

  // The instance that ran an update or reset serves the new set at once and, whatever other instances and other
  // roles do, until its entry expires or the same instance changes the role again.
  lemma {:induction false} UpdaterServesUntilExpiry(
      registry: Registry, w: World, request: nat, at: int, events: seq<(Event, int)>, now: int)
    requires registry.Valid() && w.log != [] && request in w.pending && w.pending[request].role != SuperAdmin
    requires now < at + 30_000 && forall i :: 0 <= i < |events| ==> events[i].1 <= now
    requires var p := w.pending[request];
             Undisturbed(registry, Step(registry, w, Remember(request), at), events, p.instance, p.role)
    ensures
      var p, after := w.pending[request], Run(registry, Step(registry, w, Remember(request), at), events);
      Served(registry, Now(after), CacheOf(after, p.instance), p.role, now) == p.permissions
  {
    var p := w.pending[request];
    EntryIsServed(registry, Step(registry, w, Remember(request), at), events, p.instance, p.role,
                  Entry(at + TTL, p.permissions), now);
  }

  // An instance that looked a role up serves what it found for the next 30 seconds, whatever is written meanwhile, and
  // one that answered from its cache goes on until that entry expires.
  lemma {:induction false} LookupIsServedUntilExpiry(
      registry: Registry, w: World, instance: nat, role: Role, at: int, events: seq<(Event, int)>, now: int)
    requires registry.Valid() && w.log != [] && role != SuperAdmin
    requires at <= now && forall i :: 0 <= i < |events| ==> events[i].1 <= now
    requires Undisturbed(registry, Step(registry, w, Serve(instance, role), at), events, instance, role)
    requires var cache := CacheOf(w, instance);
             now < if role in cache && at < cache[role].expiresAt then cache[role].expiresAt else at + 30_000
    ensures
      var served, after := Served(registry, Now(w), CacheOf(w, instance), role, at),
                           Run(registry, Step(registry, w, Serve(instance, role), at), events);
      Served(registry, Now(after), CacheOf(after, instance), role, now) == served
  {
    var cached := Step(registry, w, Serve(instance, role), at);
    EntryIsServed(registry, cached, events, instance, role, CacheOf(cached, instance)[role], now);
  }

  // A change is written exactly if it names registered permissions only.
  lemma WritesExactly(registry: Registry, w: World, request: nat, instance: nat, role: Role, change: Change, at: int)
    requires registry.Valid() && w.log != [] && request !in w.pending
    ensures
      var after := Step(registry, w, Write(request, instance, role, change), at);
      && (after.log != w.log <==> change.Custom? ==> change.enabled <= registry.all)
      && (after.log != w.log <==> request in after.pending)
      && after.caches == w.caches
  {
    hide Written, NextPermissions;
  }

  /* The service itself. */

  class PermissionTable {
    var rows: Table

    constructor (rows: Table)
      ensures this.rows == rows
    {
      this.rows := rows;
    }
  }

  class AdminRolePermissionsService {
    const registry: Registry
    const table: PermissionTable
    var cache: Cache

    constructor (registry: Registry, table: PermissionTable)
      ensures this.registry == registry && this.table == table && cache == map[]
    {
      this.registry, this.table, cache := registry, table, map[];
    }

    method GetCachedEffectivePermissions(role: Role, now: int) returns (permissions: Option<set<Permission>>)
      modifies `cache
      ensures permissions == if Hit(old(cache), role, now) then Some(old(cache)[role].permissions) else None
      ensures cache == if Hit(old(cache), role, now) then old(cache) else old(cache) - {role}
    {
      if role !in cache {
        assert cache - {role} == cache;
        return None;
      }
      var cached := cache[role];
      if cached.expiresAt <= now {
        cache := cache - {role};
        return None;
      }
      permissions := Some(cached.permissions);
    }

    method SetCachedEffectivePermissions(role: Role, permissions: set<Permission>, now: int)
      modifies `cache
      ensures cache == old(cache)[role := Entry(now + TTL, permissions)]
    {
      cache := cache[role := Entry(now + TTL, permissions)];
    }

    method GetEffectivePermissions(role: Role, now: int) returns (permissions: set<Permission>)
      requires registry.Valid()
      modifies `cache
      ensures permissions == Served(registry, table.rows, old(cache), role, now)
      ensures cache == CacheAfter(registry, table.rows, old(cache), role, now)
    {
      if role == SuperAdmin {
        return registry.all;
      }
      var cached := GetCachedEffectivePermissions(role, now);
      if cached.Some? {
        return cached.value;
      }
      var rows := RowsOf(table.rows, role);
      permissions :=
        if rows == map[] then registry.defaults[role] else set p | p in rows && rows[p] && p in registry.all;
      SetCachedEffectivePermissions(role, permissions, now);
    }

    // The body of updateRolePermissions and resetRolePermissions once the actor is allowed to make the change,
    // run without interruption.
    method ChangeRolePermissions(role: Role, change: Change, now: int) returns (ok: bool)
      requires registry.Valid()
      modifies `cache, table
      ensures ok <==> change == Reset || change.enabled <= registry.all
      ensures !ok ==>
        table.rows == old(table.rows) && cache == CacheAfter(registry, old(table.rows), old(cache), role, now)
      ensures ok ==> table.rows == Written(registry, old(table.rows), role, change)
      ensures ok ==> role in cache && cache[role] == Entry(now + 30_000, NextPermissions(registry, role, change))
      ensures ok && role != SuperAdmin ==> cache[role].permissions == Lookup(registry, table.rows, role)
      ensures ok ==> cache - {role} == old(cache) - {role}
    {
      hide Lookup, Served, Hit;
      var previous := GetEffectivePermissions(role, now);
      if change.Custom? && !(change.enabled <= registry.all) {
        return false;
      }
      cache := cache - {role};
      match change {
        case Custom(enabled) =>
          table.rows := table.rows[role := RowsOf(table.rows, role) + map p | p in registry.all :: p in enabled];
        case Reset =>
          table.rows := table.rows - {role};
      }
      SetCachedEffectivePermissions(role, if change.Custom? then change.enabled else registry.defaults[role], now);
      WrittenMeans(registry, old(table.rows), role, change, role);
      ok := true;
    }
  }

  // The audit service reads the table every time.
  class AdminAuditService {
    const registry: Registry
    const table: PermissionTable

    constructor (registry: Registry, table: PermissionTable)
      ensures this.registry == registry && this.table == table
    {
      this.registry, this.table := registry, table;
    }

    method GetEffectivePermissions(role: Role) returns (permissions: set<Permission>)
      requires registry.Valid()
      ensures permissions == Lookup(registry, table.rows, role)
    {
      if role == SuperAdmin {
        return registry.all;
      }
      var rows := RowsOf(table.rows, role);
      if rows == map[] {
        return registry.defaults[role];
      }
      permissions := set p | p in rows && rows[p] && p in registry.all;
    }
  }
}
