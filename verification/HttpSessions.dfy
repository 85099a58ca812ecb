/**
 The HTTP session manager: its lock regions as operations on the manager's fields, and the
 system that any number of threads make out of them by interleaving.
 */
module HttpSessions {
  import opened Prelude

  const MAX_HTTP_SESSIONS := 128

  type SessionId = string

  /** A Runtime instance, identified by the factory call that made it. */
  type Runtime = nat

  datatype Record = Record(runtime: Runtime, lastSeen: int, active: nat, closing: bool)

  type Sessions = map<SessionId, Record>

  /** A record that eviction or expiry may take. */
  predicate Idle(r: Record, evictable: set<Runtime>) {
    r.active == 0 && !r.closing && r.runtime in evictable
  }

  ghost predicate OldestIdle(sessions: Sessions, evictable: set<Runtime>, id: SessionId) {
    && id in sessions && Idle(sessions[id], evictable)
    && forall other :: other in sessions && Idle(sessions[other], evictable) ==>
                         sessions[id].lastSeen <= sessions[other].lastSeen
  }

  /** The fields the manager's lock protects. */
  datatype Manager = Manager(sessions: Sessions, creating: int, closed: bool) {

    predicate Full() {
      |sessions| + creating >= MAX_HTTP_SESSIONS
    }

    /** First region of `create`: which session, if any, makes room. */
    ghost predicate Admits(evictable: set<Runtime>, victim: Option<SessionId>) {
      && !closed
      && (if Full() then victim.Some? && OldestIdle(sessions, evictable, victim.value) else victim.None?)
    }

    function Reserve(victim: Option<SessionId>): Manager {
      this.(sessions := if victim.Some? then sessions - {victim.value} else sessions, creating := creating + 1)
    }

    /** Second region of `create`. */
    predicate Accepts(id: SessionId) {
      !closed && id !in sessions
    }

    function Install(id: SessionId, runtime: Runtime, now: int): Manager {
      this.(sessions := sessions[id := Record(runtime, now, 1, false)])
    }

    /** Third region of `create`. */
    function Settle(): Manager {
      this.(creating := creating - 1)
    }

    predicate Serves(id: SessionId) {
      !closed && id in sessions && !sessions[id].closing
    }

    function Enter(id: SessionId, now: int): Manager
      requires id in sessions
    {
      this.(sessions := sessions[id := sessions[id].(lastSeen := now, active := sessions[id].active + 1)])
    }

    /** The record after one request has left it. */
    function Left(id: SessionId, now: int): Record
      requires id in sessions
    {
      var r := sessions[id];
      r.(active := if r.active > 0 then r.active - 1 else r.active, lastSeen := now)
    }

    function Leave(id: SessionId, now: int): (r: (Manager, set<Runtime>)) {
      if id !in sessions then (this, {})
      else
        var left := Left(id, now);
        if left.closing && left.active == 0 then (this.(sessions := sessions - {id}), {left.runtime})
        else (this.(sessions := sessions[id := left]), {})
    }

    function Delete(id: SessionId): (r: (Manager, set<Runtime>)) {
      if id !in sessions then (this, {})
      else if sessions[id].active == 0 then (this.(sessions := sessions - {id}), {sessions[id].runtime})
      else (this.(sessions := sessions[id := sessions[id].(closing := true)]), {})
    }

    function Expired(evictable: set<Runtime>, cutoff: int): set<SessionId> {
      set id | id in sessions && sessions[id].lastSeen < cutoff && Idle(sessions[id], evictable)
    }

    function Prune(evictable: set<Runtime>, cutoff: int): (r: (Manager, set<Runtime>)) {
      var gone := Expired(evictable, cutoff);
      (this.(sessions := sessions - gone), set id | id in gone && id in sessions :: sessions[id].runtime)
    }

    function Shut(): (r: (Manager, set<Runtime>)) {
      (this.(sessions := map[], closed := true), set id | id in sessions :: sessions[id].runtime)
    }
  }

  // ----- the class -----

  class HTTPSessionManager {
    var sessions: Sessions
    var creating: int
    var closed: bool

    constructor ()
      ensures View() == Manager(map[], 0, false)
    {
      sessions, creating, closed := map[], 0, false;
    }

    function View(): Manager
      reads this
    {
      Manager(sessions, creating, closed)
    }

    /** The idle session seen longest ago. */
    method FindOldestIdle(evictable: set<Runtime>) returns (r: Option<SessionId>)
      ensures r.Some? ==> OldestIdle(sessions, evictable, r.value)
      ensures r.None? ==> forall id :: id in sessions ==> !Idle(sessions[id], evictable)
    {
      r := None;
      var todo := sessions.Keys;
      while todo != {}
        invariant todo <= sessions.Keys
        invariant r.None? ==> forall id :: id in sessions && id !in todo ==> !Idle(sessions[id], evictable)
        invariant r.Some? ==> r.value in sessions && Idle(sessions[r.value], evictable)
        invariant r.Some? ==> forall id :: id in sessions && id !in todo && Idle(sessions[id], evictable) ==>
                                             sessions[r.value].lastSeen <= sessions[id].lastSeen
        decreases |todo|
      {
        var id :| id in todo;
        if Idle(sessions[id], evictable) && (r.None? || sessions[id].lastSeen < sessions[r.value].lastSeen) {
          r := Some(id);
        }
        todo := todo - {id};
      }
    }

    /** `create`, first region.  `victim` is the runtime to close outside the lock. */
    method BeginCreate(evictable: set<Runtime>) returns (ok: bool, victim: Option<Runtime>)
      modifies this
      ensures ok ==> exists v :: old(View()).Admits(evictable, v) && View() == old(View()).Reserve(v) &&
                                 victim == (if v.None? then None else Some(old(sessions)[v.value].runtime))
      ensures !ok ==> View() == old(View()) && victim.None? && forall v :: !View().Admits(evictable, v)
    {
      if closed { return false, None; }
      var v: Option<SessionId> := None;
      victim := None;
      if |sessions| + creating >= MAX_HTTP_SESSIONS {
        v := FindOldestIdle(evictable);
        if v.None? { return false, None; }
        victim := Some(sessions[v.value].runtime);
        sessions := sessions - {v.value};
      }
      creating := creating + 1;
      assert old(View()).Admits(evictable, v);
      ok := true;
    }

    method Install(id: SessionId, runtime: Runtime, now: int) returns (ok: bool)
      modifies this
      ensures ok == old(View()).Accepts(id)
      ensures View() == if ok then old(View()).Install(id, runtime, now) else old(View())
    {
      if closed || id in sessions { return false; }
      sessions := sessions[id := Record(runtime, now, 1, false)];
      ok := true;
    }

    method EndCreate()
      modifies this
      ensures View() == old(View()).Settle()
    {
      creating := creating - 1;
    }

    method Get(id: SessionId, now: int) returns (r: Option<Runtime>)
      modifies this
      ensures r.Some? == old(View()).Serves(id)
      ensures old(closed) ==> r.None?
      ensures r.Some? ==> r.value == old(sessions)[id].runtime && View() == old(View()).Enter(id, now)
      ensures r.None? ==> View() == old(View())
    {
      if closed || id !in sessions || sessions[id].closing { return None; }
      sessions := sessions[id := sessions[id].(lastSeen := now, active := sessions[id].active + 1)];
      r := Some(sessions[id].runtime);
    }

    method Release(id: SessionId, now: int) returns (toClose: set<Runtime>)
      modifies this
      ensures (View(), toClose) == old(View()).Leave(id, now)
    {
      if id !in sessions { return {}; }
      var record := sessions[id];
      if record.active > 0 { record := record.(active := record.active - 1); }
      record := record.(lastSeen := now);
      sessions := sessions[id := record];
      toClose := {};
      if record.closing && record.active == 0 {
        toClose := {record.runtime};
        sessions := sessions - {id};
        assert sessions == old(sessions) - {id};
      }
    }

    method Delete(id: SessionId) returns (existed: bool, toClose: set<Runtime>)
      modifies this
      ensures existed == (id in old(sessions))
      ensures (View(), toClose) == old(View()).Delete(id)
    {
      if id !in sessions { return false, {}; }
      sessions := sessions[id := sessions[id].(closing := true)];
      toClose := {};
      if sessions[id].active == 0 {
        toClose := {sessions[id].runtime};
        sessions := sessions - {id};
        assert sessions == old(sessions) - {id};
      }
      existed := true;
    }

    method Prune(evictable: set<Runtime>, cutoff: int) returns (toClose: set<Runtime>)
      modifies this
      ensures (View(), toClose) == old(View()).Prune(evictable, cutoff)
    {
      var expired := set id | id in sessions && sessions[id].lastSeen < cutoff && Idle(sessions[id], evictable);
      toClose := set id | id in expired && id in sessions :: sessions[id].runtime;
      sessions := sessions - expired;
    }

    method Close() returns (toClose: set<Runtime>)
      modifies this
      ensures (View(), toClose) == old(View()).Shut()
    {
      closed := true;
      toClose := set id | id in sessions :: sessions[id].runtime;
      sessions := map[];
    }
  }

  // ----- every interleaving -----

  type Thread = nat

  /** Where a thread inside `create` stands between two lock regions. */
  datatype Phase =
    | Evicting(victim: Runtime)   // room was made; the evicted runtime is not closed yet
    | Building                    // about to call the factory
    | Built(runtime: Runtime)     // the factory returned; not stored yet
    | Stored                      // stored; the reservation is still counted
    | Refused(runtime: Runtime)   // could not be stored; the reservation is still counted
    | Failed                      // raised before there was a runtime
    | Discarding(runtime: Runtime) // reservation returned; the unused runtime is not closed yet
  {
    /** The runtime only this thread knows. */
    function Held(): Option<Runtime> {
      match this
      case Evicting(v) => Some(v)
      case Built(r) => Some(r)
      case Refused(r) => Some(r)
      case Discarding(r) => Some(r)
      case _ => None
    }
  }

  /** All threads together. */
  datatype System = System(
    m: Manager,
    creators: map<Thread, Phase>,
    ids: map<Runtime, SessionId>,   // every runtime the factory made, with its session identifier
    doomed: set<Runtime>,           // taken out by eviction, expiry, release or delete; not closed yet
    shut: set<Runtime>,             // taken out by the manager's `close`; not closed yet
    closes: multiset<Runtime>,      // every `close()` call made on a runtime
    requests: multiset<Runtime>)    // requests that entered a runtime and have not left it
  {
    function Move(t: Thread, p: Phase): System {
      this.(creators := creators[t := p])
    }

    function Close(rt: Runtime): System {
      this.(closes := closes + multiset{rt})
    }

    function Take(taken: (Manager, set<Runtime>)): System {
      this.(m := taken.0, doomed := doomed + taken.1)
    }

    function Reserve(t: Thread, victim: Option<SessionId>): System
      requires victim.Some? ==> victim.value in m.sessions
    {
      this.(m := m.Reserve(victim)).Move(t, if victim.None? then Building else Evicting(m.sessions[victim.value].runtime))
    }

    function Build(t: Thread, rt: Runtime, id: SessionId): System {
      this.(ids := ids[rt := id]).Move(t, Built(rt))
    }

    function Install(t: Thread, rt: Runtime, now: int): System
      requires rt in ids
    {
      if m.Accepts(ids[rt]) then
        this.(m := m.Install(ids[rt], rt, now), requests := requests + multiset{rt}).Move(t, Stored)
      else Move(t, Refused(rt))
    }

    function Settle(t: Thread): System
      requires t in creators
    {
      var settled := this.(m := m.Settle());
      if creators[t].Refused? then settled.Move(t, Discarding(creators[t].runtime))
      else settled.(creators := creators - {t})
    }

    function Enter(id: SessionId, now: int): System
      requires id in m.sessions
    {
      this.(m := m.Enter(id, now), requests := requests + multiset{m.sessions[id].runtime})
    }

    function Leave(rt: Runtime, now: int): System
      requires rt in ids
    {
      this.(requests := requests - multiset{rt}).Take(m.Leave(ids[rt], now))
    }

    function Shut(): System {
      var taken := m.Shut();
      this.(m := taken.0, shut := shut + taken.1)
    }
  }

  datatype Step =
    | Reserve(t: Thread, victim: Option<SessionId>, evictable: set<Runtime>)
    | CloseVictim(t: Thread, raises: bool)
    | Build(t: Thread, rt: Runtime, id: SessionId)
    | BuildFails(t: Thread)
    | Install(t: Thread, now: int)
    | Settle(t: Thread)
    | Discard(t: Thread)
    | Enter(id: SessionId, now: int)
    | Leave(rt: Runtime, now: int)
    | Delete(id: SessionId)
    | Prune(evictable: set<Runtime>, cutoff: int)
    | Shut
    | CloseDoomed(rt: Runtime)
    | CloseShut(rt: Runtime)

  const INITIAL := System(Manager(map[], 0, false), map[], map[], {}, {}, multiset{}, multiset{})

  ghost predicate Enabled(s: System, step: Step) {
    match step
    case Reserve(t, victim, evictable) => t !in s.creators && s.m.Admits(evictable, victim)
    case CloseVictim(t, _) => t in s.creators && s.creators[t].Evicting?
    case Build(t, rt, _) => t in s.creators && s.creators[t].Building? && rt !in s.ids
    case BuildFails(t) => t in s.creators && s.creators[t].Building?
    case Install(t, _) => t in s.creators && s.creators[t].Built? && s.creators[t].runtime in s.ids
    case Settle(t) => t in s.creators && (s.creators[t].Stored? || s.creators[t].Refused? || s.creators[t].Failed?)
    case Discard(t) => t in s.creators && s.creators[t].Discarding?
    case Enter(id, _) => s.m.Serves(id)
    case Leave(rt, _) => rt in s.requests && rt in s.ids
    case Delete(_) => true
    case Prune(_, _) => true
    case Shut => true
    case CloseDoomed(rt) => rt in s.doomed
    case CloseShut(rt) => rt in s.shut
  }

  ghost function After(s: System, step: Step): System
    requires Enabled(s, step)
  {
    match step
    case Reserve(t, victim, _) => s.Reserve(t, victim)
    case CloseVictim(t, raises) => s.Close(s.creators[t].victim).Move(t, if raises then Failed else Building)
    case Build(t, rt, id) => s.Build(t, rt, id)
    case BuildFails(t) => s.Move(t, Failed)
    case Install(t, now) => s.Install(t, s.creators[t].runtime, now)
    case Settle(t) => s.Settle(t)
    case Discard(t) => s.(creators := s.creators - {t}).Close(s.creators[t].runtime)
    case Enter(id, now) => s.Enter(id, now)
    case Leave(rt, now) => s.Leave(rt, now)
    case Delete(id) => s.Take(s.m.Delete(id))
    case Prune(evictable, cutoff) => s.Take(s.m.Prune(evictable, cutoff))
    case Shut => s.Shut()
    case CloseDoomed(rt) => s.(doomed := s.doomed - {rt}).Close(rt)
    case CloseShut(rt) => s.(shut := s.shut - {rt}).Close(rt)
  }

  // ----- invariant -----

  /** Threads whose reservation is counted in `creating`. */
  function Counted(creators: map<Thread, Phase>): set<Thread> {
    set t | t in creators && !creators[t].Discarding?
  }

  /** Threads whose session may still come. */
  function Pending(creators: map<Thread, Phase>): set<Thread> {
    set t | t in creators && !creators[t].Discarding? && !creators[t].Stored?
  }

  ghost predicate Capacity(s: System) {
    && s.m.creating == |Counted(s.creators)|
    && |s.m.sessions| + |Pending(s.creators)| <= MAX_HTTP_SESSIONS
  }

  ghost predicate IsStored(s: System, rt: Runtime) {
    rt in s.ids && s.ids[rt] in s.m.sessions && s.m.sessions[s.ids[rt]].runtime == rt
  }

  /** A runtime is in one place: stored, waiting for its close, closed, or with a creator. */
  ghost predicate OnePlace(s: System, rt: Runtime) {
    && (rt !in s.ids ==> rt !in s.doomed && rt !in s.shut && rt !in s.closes && rt !in s.requests)
    && (IsStored(s, rt) ==>
          && rt !in s.doomed && rt !in s.shut && rt !in s.closes
          && s.requests[rt] == s.m.sessions[s.ids[rt]].active)
    && (rt in s.doomed ==> rt !in s.shut && rt !in s.closes && rt !in s.requests)
    && (rt in s.shut ==> rt !in s.closes)
    && s.closes[rt] <= 1
    && (rt in s.requests && !IsStored(s, rt) ==> s.m.closed)
  }

  /** What thread `t` holds is nowhere else and serves no request. */
  ghost predicate HeldAlone(s: System, t: Thread) {
    t in s.creators && s.creators[t].Held().Some? ==>
      var rt := s.creators[t].Held().value;
      && rt in s.ids && !IsStored(s, rt)
      && rt !in s.doomed && rt !in s.shut && rt !in s.closes && rt !in s.requests
  }

  ghost predicate HeldApart(s: System, t: Thread, u: Thread) {
    t in s.creators && u in s.creators && t != u && s.creators[t].Held().Some? ==>
      s.creators[t].Held() != s.creators[u].Held()
  }

  /** A record belongs to its identifier, and a record marked for closing is still in use. */
  ghost predicate GoodRecord(s: System, id: SessionId) {
    id in s.m.sessions ==>
      && Get(s.ids, s.m.sessions[id].runtime) == Some(id)
      && (s.m.sessions[id].closing ==> s.m.sessions[id].active > 0)
  }

  ghost predicate Sound(s: System) {
    && (forall rt {:trigger OnePlace(s, rt)} :: OnePlace(s, rt))
    && (forall t {:trigger HeldAlone(s, t)} :: HeldAlone(s, t))
    && (forall t, u {:trigger HeldApart(s, t, u)} :: HeldApart(s, t, u))
    && (forall id {:trigger GoodRecord(s, id)} :: GoodRecord(s, id))
    && (s.m.closed ==> s.m.sessions == map[])
  }

  function Counts(creators: map<Thread, Phase>, t: Thread): nat {
    if t in creators && !creators[t].Discarding? then 1 else 0
  }

  function Pends(creators: map<Thread, Phase>, t: Thread): nat {
    if t in creators && !creators[t].Discarding? && !creators[t].Stored? then 1 else 0
  }

  lemma ThreadMoves(creators: map<Thread, Phase>, creators': map<Thread, Phase>, t: Thread)
    requires forall u :: u != t ==> Get(creators', u) == Get(creators, u)
    ensures |Counted(creators')| - Counts(creators', t) == |Counted(creators)| - Counts(creators, t)
    ensures |Pending(creators')| - Pends(creators', t) == |Pending(creators)| - Pends(creators, t)
  {
    assert forall u :: u != t ==> (u in creators' <==> u in creators) && (u in creators ==> creators'[u] == creators[u]) by {
      forall u | u != t ensures (u in creators' <==> u in creators) && (u in creators ==> creators'[u] == creators[u]) {
        assert Get(creators', u) == Get(creators, u);
      }
    }
    SameOutside(Counted(creators), Counted(creators'), t);
    SameOutside(Pending(creators), Pending(creators'), t);
  }

  lemma SameOutside(a: set<Thread>, b: set<Thread>, t: Thread)
    requires forall u :: u != t ==> (u in a <==> u in b)
    ensures |a| - (if t in a then 1 else 0) == |b| - if t in b then 1 else 0
  {
    assert a - {t} == b - {t};
    if t !in a { assert a - {t} == a; }
    if t !in b { assert b - {t} == b; }
  }

  lemma FewerSessions(sessions: Sessions, gone: set<SessionId>)
    ensures |sessions - gone| <= |sessions|
    ensures forall id :: id in sessions && gone == {id} ==> |sessions - gone| == |sessions| - 1
  {}

  lemma MoreSessions(sessions: Sessions, id: SessionId, r: Record)
    ensures |sessions[id := r]| == if id in sessions then |sessions| else |sessions| + 1
  {}

  /** The thread a step of `create` belongs to. */
  function Creator(step: Step): Option<Thread> {
    match step
    case Reserve(t, _, _) => Some(t)
    case CloseVictim(t, _) => Some(t)
    case Build(t, _, _) => Some(t)
    case BuildFails(t) => Some(t)
    case Install(t, _) => Some(t)
    case Settle(t) => Some(t)
    case Discard(t) => Some(t)
    case _ => None
  }

  lemma CapacityOfCreators(s: System, step: Step)
    requires Capacity(s) && Enabled(s, step) && Creator(step).Some?
    ensures Capacity(After(s, step))
  {
    hide OldestIdle, Counted, Pending;
    ThreadMoves(s.creators, After(s, step).creators, Creator(step).value);
    if step.Reserve? {
      CapacityAfterReserve(s, step);
    } else if step.Install? {
      var rt := s.creators[Creator(step).value].runtime;
      MoreSessions(s.m.sessions, s.ids[rt], Record(rt, step.now, 1, false));
    }
  }

  lemma CapacityAfterReserve(s: System, step: Step)
    requires Capacity(s) && Enabled(s, step) && step.Reserve?
    ensures Capacity(After(s, step))
  {
    hide OldestIdle, Counted, Pending;
    ThreadMoves(s.creators, After(s, step).creators, Creator(step).value);
    PendingIsCounted(s.creators);
    if step.victim.Some? {
      VictimStored(s.m, step.evictable, step.victim.value);
      FewerSessions(s.m.sessions, {step.victim.value});
    }
  }

  lemma CapacityOfSessions(s: System, step: Step)
    requires Capacity(s) && Enabled(s, step)
    requires step.Enter? || step.Leave? || step.Delete? || step.Prune?
    ensures Capacity(After(s, step))
  {
    hide Counted, Pending, OldestIdle;
    SameCreators(s, step);
    match step
    case Enter(id, now) => FewerAfterEnter(s, step);
    case Leave(rt, now) => FewerAfterLeave(s, step);
    case Delete(id) => FewerAfterDelete(s, step);
    case Prune(evictable, cutoff) => FewerAfterPrune(s, step);
  }

  lemma SameCreators(s: System, step: Step)
    requires Enabled(s, step) && (step.Enter? || step.Leave? || step.Delete? || step.Prune?)
    ensures After(s, step).creators == s.creators && After(s, step).m.creating == s.m.creating
  {
    hide OldestIdle;
  }

  lemma FewerAfterEnter(s: System, step: Step)
    requires Enabled(s, step) && step.Enter?
    ensures |After(s, step).m.sessions| <= |s.m.sessions|
  {
    hide OldestIdle;
    var id := step.id;
    MoreSessions(s.m.sessions, id, s.m.sessions[id].(lastSeen := step.now, active := s.m.sessions[id].active + 1));
  }

  lemma FewerAfterLeave(s: System, step: Step)
    requires Enabled(s, step) && step.Leave?
    ensures |After(s, step).m.sessions| <= |s.m.sessions|
  {
    hide OldestIdle;
    var id := s.ids[step.rt];
    FewerSessions(s.m.sessions, {id});
    if id in s.m.sessions { MoreSessions(s.m.sessions, id, s.m.Left(id, step.now)); }
  }

  lemma FewerAfterDelete(s: System, step: Step)
    requires Enabled(s, step) && step.Delete?
    ensures |After(s, step).m.sessions| <= |s.m.sessions|
  {
    hide OldestIdle;
    var id := step.id;
    FewerSessions(s.m.sessions, {id});
    if id in s.m.sessions { MoreSessions(s.m.sessions, id, s.m.sessions[id].(closing := true)); }
  }

  lemma FewerAfterPrune(s: System, step: Step)
    requires Enabled(s, step) && step.Prune?
    ensures |After(s, step).m.sessions| <= |s.m.sessions|
  {
    hide OldestIdle;
    FewerSessions(s.m.sessions, s.m.Expired(step.evictable, step.cutoff));
  }

  /** Stored sessions and sessions to come never exceed the limit. */
  lemma CapacityKept(s: System, step: Step)
    requires Capacity(s) && Enabled(s, step)
    ensures Capacity(After(s, step))
  {
    match step
    case Enter(_, _) => CapacityOfSessions(s, step);
    case Leave(_, _) => CapacityOfSessions(s, step);
    case Delete(_) => CapacityOfSessions(s, step);
    case Prune(_, _) => CapacityOfSessions(s, step);
    case Shut =>
    case CloseDoomed(_) =>
    case CloseShut(_) =>
    case _ => CapacityOfCreators(s, step);
  }

  lemma PendingIsCounted(creators: map<Thread, Phase>)
    ensures |Pending(creators)| <= |Counted(creators)|
  {
    var p, c := Pending(creators), Counted(creators);
    assert p <= c;
    assert c == p + (c - p);
  }

  lemma VictimStored(m: Manager, evictable: set<Runtime>, id: SessionId)
    requires OldestIdle(m.sessions, evictable, id)
    ensures id in m.sessions && m.sessions[id].active == 0
  {}

  lemma SoundAfterReserve(s: System, t0: Thread, victim: Option<SessionId>)
    requires Sound(s) && t0 !in s.creators && !s.m.closed
    requires victim.Some? ==> victim.value in s.m.sessions && s.m.sessions[victim.value].active == 0
    ensures Sound(s.Reserve(t0, victim))
  {
    var s' := s.Reserve(t0, victim);
    forall rt ensures OnePlace(s', rt) { assert OnePlace(s, rt); Victim(s, victim); }
    forall t ensures HeldAlone(s', t) { assert HeldAlone(s, t); Victim(s, victim); HeldStored(s, t); }
    forall t, u ensures HeldApart(s', t, u) { assert HeldApart(s, t, u); Victim(s, victim); assert HeldAlone(s, t) && HeldAlone(s, u); }
    forall id ensures GoodRecord(s', id) { assert GoodRecord(s, id); }
  }

  lemma SoundAfterCloseVictim(s: System, t0: Thread, p: Phase)
    requires Sound(s) && t0 in s.creators && s.creators[t0].Evicting? && (p.Failed? || p.Building?)
    ensures Sound(s.Close(s.creators[t0].victim).Move(t0, p))
  {
    var s' := s.Close(s.creators[t0].victim).Move(t0, p);
    forall rt ensures OnePlace(s', rt) { assert OnePlace(s, rt); assert HeldAlone(s, t0); }
    forall t ensures HeldAlone(s', t) { assert HeldAlone(s, t); assert HeldApart(s, t0, t); }
    forall t, u ensures HeldApart(s', t, u) { assert HeldApart(s, t, u); }
    forall id ensures GoodRecord(s', id) { assert GoodRecord(s, id); }
  }

  lemma SoundAfterBuild(s: System, t0: Thread, rt0: Runtime, id0: SessionId)
    requires Sound(s) && t0 in s.creators && s.creators[t0].Building? && rt0 !in s.ids
    ensures Sound(s.Build(t0, rt0, id0))
  {
    var s' := s.Build(t0, rt0, id0);
    forall rt ensures OnePlace(s', rt) { assert OnePlace(s, rt); assert OnePlace(s, rt0); Unmade(s, rt0); }
    forall t ensures HeldAlone(s', t) { assert HeldAlone(s, t); assert OnePlace(s, rt0); Unmade(s, rt0); }
    forall t, u ensures HeldApart(s', t, u) { assert HeldApart(s, t, u); assert HeldAlone(s, t) && HeldAlone(s, u); }
    forall id ensures GoodRecord(s', id) { assert GoodRecord(s, id); }
  }

  lemma SoundAfterMove(s: System, t0: Thread, p: Phase)
    requires Sound(s) && t0 in s.creators && (p.Held().Some? ==> p.Held() == s.creators[t0].Held())
    ensures Sound(s.Move(t0, p))
  {
    var s' := s.Move(t0, p);
    forall rt ensures OnePlace(s', rt) { assert OnePlace(s, rt); }
    forall t ensures HeldAlone(s', t) { assert HeldAlone(s, t); }
    forall t, u ensures HeldApart(s', t, u) { assert HeldApart(s, t, u); }
    forall id ensures GoodRecord(s', id) { assert GoodRecord(s, id); }
  }

  lemma SoundAfterInstall(s: System, t0: Thread, now: int)
    requires Sound(s) && t0 in s.creators && s.creators[t0].Built? && s.creators[t0].runtime in s.ids
    ensures Sound(s.Install(t0, s.creators[t0].runtime, now))
  {
    var s' := s.Install(t0, s.creators[t0].runtime, now);
    forall rt ensures OnePlace(s', rt) { assert OnePlace(s, rt); assert HeldAlone(s, t0); }
    forall t ensures HeldAlone(s', t) { assert HeldAlone(s, t); assert HeldApart(s, t0, t) && HeldAlone(s, t0); }
    forall t, u ensures HeldApart(s', t, u) { assert HeldApart(s, t, u); }
    forall id ensures GoodRecord(s', id) { assert GoodRecord(s, id); assert HeldAlone(s, t0); }
  }

  lemma SoundAfterSettle(s: System, t0: Thread)
    requires Sound(s) && t0 in s.creators
    ensures Sound(s.Settle(t0))
  {
    var s' := s.Settle(t0);
    forall rt ensures OnePlace(s', rt) { assert OnePlace(s, rt); }
    forall t ensures HeldAlone(s', t) { assert HeldAlone(s, t); }
    forall t, u ensures HeldApart(s', t, u) { assert HeldApart(s, t, u); }
    forall id ensures GoodRecord(s', id) { assert GoodRecord(s, id); }
  }

  lemma SoundAfterDiscard(s: System, t0: Thread)
    requires Sound(s) && t0 in s.creators && s.creators[t0].Discarding?
    ensures Sound(s.(creators := s.creators - {t0}).Close(s.creators[t0].runtime))
  {
    var s' := s.(creators := s.creators - {t0}).Close(s.creators[t0].runtime);
    forall rt ensures OnePlace(s', rt) { assert OnePlace(s, rt); assert HeldAlone(s, t0); }
    forall t ensures HeldAlone(s', t) { assert HeldAlone(s, t); assert HeldApart(s, t0, t); }
    forall t, u ensures HeldApart(s', t, u) { assert HeldApart(s, t, u); }
    forall id ensures GoodRecord(s', id) { assert GoodRecord(s, id); }
  }

  lemma SoundAfterEnter(s: System, id0: SessionId, now: int)
    requires Sound(s) && s.m.Serves(id0)
    ensures Sound(s.Enter(id0, now))
  {
    var s' := s.Enter(id0, now);
    forall rt ensures OnePlace(s', rt) { assert OnePlace(s, rt); assert GoodRecord(s, id0); }
    forall t ensures HeldAlone(s', t) { assert HeldAlone(s, t); assert GoodRecord(s, id0); }
    forall t, u ensures HeldApart(s', t, u) { assert HeldApart(s, t, u); }
    forall id ensures GoodRecord(s', id) { assert GoodRecord(s, id); }
  }

  lemma SoundAfterLeave(s: System, rt0: Runtime, now: int)
    requires Sound(s) && rt0 in s.requests && rt0 in s.ids
    ensures Sound(s.Leave(rt0, now))
  {
    var s' := s.Leave(rt0, now);
    forall rt ensures OnePlace(s', rt) { assert OnePlace(s, rt); assert OnePlace(s, rt0); }
    forall t ensures HeldAlone(s', t) { assert HeldAlone(s, t); assert OnePlace(s, rt0); }
    forall t, u ensures HeldApart(s', t, u) { assert HeldApart(s, t, u); }
    forall id ensures GoodRecord(s', id) { assert GoodRecord(s, id); assert OnePlace(s, rt0); }
  }

  lemma SoundAfterDelete(s: System, id0: SessionId)
    requires Sound(s)
    ensures Sound(s.Take(s.m.Delete(id0)))
  {
    var s' := s.Take(s.m.Delete(id0));
    forall rt ensures OnePlace(s', rt) { assert OnePlace(s, rt); assert GoodRecord(s, id0); }
    forall t ensures HeldAlone(s', t) { assert HeldAlone(s, t); assert GoodRecord(s, id0); }
    forall t, u ensures HeldApart(s', t, u) { assert HeldApart(s, t, u); }
    forall id ensures GoodRecord(s', id) { assert GoodRecord(s, id); }
  }

  lemma SoundAfterPrune(s: System, evictable: set<Runtime>, cutoff: int)
    requires Sound(s)
    ensures Sound(s.Take(s.m.Prune(evictable, cutoff)))
  {
    var s' := s.Take(s.m.Prune(evictable, cutoff));
    forall rt ensures OnePlace(s', rt) { assert OnePlace(s, rt); PrunedOnes(s, evictable, cutoff, rt); }
    forall t ensures HeldAlone(s', t) { assert HeldAlone(s, t); if t in s.creators && s.creators[t].Held().Some? { PrunedOnes(s, evictable, cutoff, s.creators[t].Held().value); } }
    forall t, u ensures HeldApart(s', t, u) { assert HeldApart(s, t, u); }
    forall id ensures GoodRecord(s', id) { assert GoodRecord(s, id); }
  }

  lemma SoundAfterShut(s: System)
    requires Sound(s)
    ensures Sound(s.Shut())
  {
    var s' := s.Shut();
    forall rt ensures OnePlace(s', rt) { assert OnePlace(s, rt); ShutOnes(s, rt); }
    forall t ensures HeldAlone(s', t) { assert HeldAlone(s, t); if t in s.creators && s.creators[t].Held().Some? { ShutOnes(s, s.creators[t].Held().value); } }
    forall t, u ensures HeldApart(s', t, u) { assert HeldApart(s, t, u); }
    forall id ensures GoodRecord(s', id) { assert GoodRecord(s, id); }
  }

  lemma SoundAfterCloseDoomed(s: System, rt0: Runtime)
    requires Sound(s) && rt0 in s.doomed
    ensures Sound(s.(doomed := s.doomed - {rt0}).Close(rt0))
  {
    var s' := s.(doomed := s.doomed - {rt0}).Close(rt0);
    forall rt ensures OnePlace(s', rt) { assert OnePlace(s, rt); assert OnePlace(s, rt0); }
    forall t ensures HeldAlone(s', t) { assert HeldAlone(s, t);  }
    forall t, u ensures HeldApart(s', t, u) { assert HeldApart(s, t, u); }
    forall id ensures GoodRecord(s', id) { assert GoodRecord(s, id); }
  }

  lemma SoundAfterCloseShut(s: System, rt0: Runtime)
    requires Sound(s) && rt0 in s.shut
    ensures Sound(s.(shut := s.shut - {rt0}).Close(rt0))
  {
    var s' := s.(shut := s.shut - {rt0}).Close(rt0);
    forall rt ensures OnePlace(s', rt) { assert OnePlace(s, rt); assert OnePlace(s, rt0); }
    forall t ensures HeldAlone(s', t) { assert HeldAlone(s, t); }
    forall t, u ensures HeldApart(s', t, u) { assert HeldApart(s, t, u); }
    forall id ensures GoodRecord(s', id) { assert GoodRecord(s, id); }
  }

  /** The runtime that makes room was stored and idle. */
  lemma Victim(s: System, victim: Option<SessionId>)
    requires Sound(s) && (victim.Some? ==> victim.value in s.m.sessions && s.m.sessions[victim.value].active == 0)
    ensures victim.Some? ==>
              var rt := s.m.sessions[victim.value].runtime;
              && Get(s.ids, rt) == Some(victim.value) && IsStored(s, rt) && rt !in s.requests
              && rt !in s.doomed && rt !in s.shut && rt !in s.closes
  {
    if victim.Some? {
      assert GoodRecord(s, victim.value);
      assert OnePlace(s, s.m.sessions[victim.value].runtime);
    }
  }

  lemma HeldStored(s: System, t: Thread)
    requires Sound(s)
    ensures t in s.creators && s.creators[t].Held().Some? ==> !IsStored(s, s.creators[t].Held().value)
  {
    assert HeldAlone(s, t);
  }

  lemma Unmade(s: System, rt: Runtime)
    requires Sound(s) && rt !in s.ids
    ensures forall id :: id in s.m.sessions ==> s.m.sessions[id].runtime != rt
  {
    forall id | id in s.m.sessions ensures s.m.sessions[id].runtime != rt { assert GoodRecord(s, id); }
  }

  /** A pruned runtime was stored and idle. */
  lemma PrunedOnes(s: System, evictable: set<Runtime>, cutoff: int, rt: Runtime)
    requires Sound(s)
    ensures rt in s.m.Prune(evictable, cutoff).1 ==>
              IsStored(s, rt) && s.ids[rt] in s.m.Expired(evictable, cutoff) && rt !in s.requests
  {
    if rt in s.m.Prune(evictable, cutoff).1 {
      var id :| id in s.m.Expired(evictable, cutoff) && s.m.sessions[id].runtime == rt;
      assert GoodRecord(s, id) && OnePlace(s, rt);
    }
  }

  lemma ShutOnes(s: System, rt: Runtime)
    requires Sound(s)
    ensures rt in s.m.Shut().1 <==> IsStored(s, rt)
  {
    if rt in s.m.Shut().1 {
      var id :| id in s.m.sessions && s.m.sessions[id].runtime == rt;
      assert GoodRecord(s, id);
    }
  }

  // ----- the theorems -----

  ghost predicate Inv(s: System) {
    Capacity(s) && Sound(s)
  }

  lemma InvKept(s: System, step: Step)
    requires Inv(s) && Enabled(s, step)
    ensures Inv(After(s, step))
  {
    hide Capacity, Sound;
    CapacityKept(s, step);
    match step
    case Reserve(t, victim, evictable) =>
      if victim.Some? { VictimStored(s.m, evictable, victim.value); }
      SoundAfterReserve(s, t, victim);
    case CloseVictim(t, raises) => SoundAfterCloseVictim(s, t, if raises then Failed else Building);
    case Build(t, rt, id) => SoundAfterBuild(s, t, rt, id);
    case BuildFails(t) => SoundAfterMove(s, t, Failed);
    case Install(t, now) => SoundAfterInstall(s, t, now);
    case Settle(t) => SoundAfterSettle(s, t);
    case Discard(t) => SoundAfterDiscard(s, t);
    case Enter(id, now) => SoundAfterEnter(s, id, now);
    case Leave(rt, now) => SoundAfterLeave(s, rt, now);
    case Delete(id) => SoundAfterDelete(s, id);
    case Prune(evictable, cutoff) => SoundAfterPrune(s, evictable, cutoff);
    case Shut => SoundAfterShut(s);
    case CloseDoomed(rt) => SoundAfterCloseDoomed(s, rt);
    case CloseShut(rt) => SoundAfterCloseShut(s, rt);
  }

  /** The state after a run of steps, each enabled where it is taken. */
  ghost predicate Run(s: System, steps: seq<Step>, s': System)
    decreases |steps|
  {
    if steps == [] then s' == s
    else Enabled(s, steps[0]) && Run(After(s, steps[0]), steps[1..], s')
  }

  lemma {:induction false} InvAlways(s: System, steps: seq<Step>, s': System)
    requires Inv(s) && Run(s, steps, s')
    ensures Inv(s')
    decreases |steps|
  {
    if steps != [] {
      InvKept(s, steps[0]);
      InvAlways(After(s, steps[0]), steps[1..], s');
    }
  }

  /** In every interleaving: bounded, closed once, busy while closing, and empty once shut. */
  lemma EveryInterleaving(steps: seq<Step>, s: System)
    requires Run(INITIAL, steps, s)
    ensures |s.m.sessions| + |Pending(s.creators)| <= MAX_HTTP_SESSIONS
    ensures s.m.creating == |Counted(s.creators)|
    ensures forall rt :: s.closes[rt] <= 1
    ensures forall id :: id in s.m.sessions && s.m.sessions[id].closing ==> s.requests[s.m.sessions[id].runtime] > 0
    ensures forall id :: id in s.m.sessions ==> s.m.sessions[id].runtime !in s.closes
    ensures s.m.closed ==> s.m.sessions == map[]
  {
    InitialIsSound();
    InvAlways(INITIAL, steps, s);
    forall rt ensures s.closes[rt] <= 1 { assert OnePlace(s, rt); }
    forall id | id in s.m.sessions
      ensures s.m.sessions[id].runtime !in s.closes
      ensures s.m.sessions[id].closing ==> s.requests[s.m.sessions[id].runtime] > 0
    {
      assert GoodRecord(s, id) && OnePlace(s, s.m.sessions[id].runtime);
    }
  }

  lemma InitialIsSound()
    ensures Inv(INITIAL)
  {}

  /** A step that closes a runtime is the first to do so, and only the manager's own `close` may
      do it to a runtime that still serves a request. */
  lemma ClosedOnceAndIdle(steps: seq<Step>, s: System, step: Step, rt: Runtime)
    requires Run(INITIAL, steps, s) && Enabled(s, step)
    requires After(s, step).closes[rt] > s.closes[rt]
    ensures s.closes[rt] == 0 && !IsStored(s, rt)
    ensures !step.CloseShut? ==> rt !in s.requests
  {
    InitialIsSound();
    InvAlways(INITIAL, steps, s);
    assert OnePlace(s, rt);
    if Creator(step).Some? { assert HeldAlone(s, Creator(step).value); }
  }
}
