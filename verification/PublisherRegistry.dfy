/**
 * Publishers: a durable record of the highest boot and evidence generation observed for each
 * identity, and the volatile registration that says which incarnation holds a session.
 */
module PublisherRegistry {
  import opened Domain
  import opened Sorting

  datatype Publishers = Publishers(
    live: map<string, PublisherRegistration>,
    records: map<string, PublisherRecord>,
    maxPublishers: nat,
    idleTicks: nat)

  function EmptyPublishers(limits: ResourceLimits): Publishers {
    Publishers(map[], map[], limits.maxPublishers, limits.maxSessionIdleTicks)
  }

  // ---- what the operations compute ----------------------------------------

  /** A session being bound: who, which incarnation, under which coordinator, and when. */
  datatype Binding = Binding(
    id: string,
    boot: nat,
    epoch: nat,
    coordinatorBoot: nat,
    maxSource: EvidenceSource,
    session: string,
    tick: Tick,
    wallMillis: nat,
    description: string)

  function NewRecord(b: Binding): PublisherRecord {
    PublisherRecord(b.id, b.boot, 0, b.maxSource, b.tick, b.wallMillis, 0, b.description)
  }

  function RenewedRecord(r: PublisherRecord, b: Binding): PublisherRecord {
    r.(highestBoot := if b.boot > r.highestBoot then b.boot else r.highestBoot,
       highestGeneration := if b.boot > r.highestBoot then 0 else r.highestGeneration,
       lastSeenWallMillis := b.wallMillis,
       description := if r.description == "" then b.description else r.description,
       maxSource := if SourceRank(b.maxSource) > SourceRank(r.maxSource) then b.maxSource else r.maxSource)
  }

  function NewRegistration(b: Binding): PublisherRegistration {
    PublisherRegistration(b.id, b.boot, b.epoch, b.coordinatorBoot, b.session, PublisherLive, b.maxSource,
                          [b.session], b.tick, b.tick, 0, 1, b.description)
  }

  function SessionsAfter(r: PublisherRegistration, b: Binding): seq<string> {
    var kept := if b.boot > r.boot then [] else r.liveSessions;
    if b.session in kept then kept else kept + [b.session]
  }

  function RenewedRegistration(r: PublisherRegistration, b: Binding): PublisherRegistration {
    r.(boot := if b.boot > r.boot then b.boot else r.boot,
       highestGeneration := if b.boot > r.boot then 0 else r.highestGeneration,
       liveSessions := SessionsAfter(r, b),
       session := b.session,
       registeredEpoch := b.epoch,
       registeredBoot := b.coordinatorBoot,
       state := PublisherLive,
       lastSeenTick := b.tick,
       sessionsOpened := r.sessionsOpened + 1)
  }

  /** The volatile half of binding a session, once the durable record admitted the boot. */
  function BoundRegistration(p: Publishers, b: Binding): (Publishers, Result<PublisherRegistration>) {
    if b.id !in p.live then
      if |p.live| >= p.maxPublishers then
        (p, Err(CapacityExceeded))
      else
        (p.(live := p.live[b.id := NewRegistration(b)]), Ok(NewRegistration(b)))
    else if b.boot < p.live[b.id].boot then
      (p, Err(StaleBootId))
    else
      var r := RenewedRegistration(p.live[b.id], b);
      (p.(live := p.live[b.id := r]), Ok(r))
  }

  function Bound(p: Publishers, b: Binding): (Publishers, Result<PublisherRegistration>) {
    if b.boot == 0 then
      (p, Err(InvalidArgument))
    else if b.id !in p.records then
      if |p.records| >= p.maxPublishers then
        (p, Err(CapacityExceeded))
      else
        BoundRegistration(p.(records := p.records[b.id := NewRecord(b)]), b)
    else if b.boot < p.records[b.id].highestBoot then
      (p, Err(StaleBootId))
    else
      BoundRegistration(p.(records := p.records[b.id := RenewedRecord(p.records[b.id], b)]), b)
  }

  function NotSession(session: string): string -> bool {
    x => x != session
  }

  function Closed(r: PublisherRegistration, session: string, tick: Tick): PublisherRegistration {
    var sessions := if session != "" then Filter(NotSession(session), r.liveSessions) else [];
    var current :=
      if session == "" then ""
      else if r.session != session then r.session
      else if sessions == [] then ""
      else sessions[|sessions| - 1];
    r.(liveSessions := sessions,
       session := current,
       state := if sessions == [] then PublisherDead else r.state,
       lastSeenTick := if sessions == [] then tick else r.lastSeenTick)
  }

  function Ended(p: Publishers, id: string, boot: nat, session: string, tick: Tick): (Publishers, Result<()>) {
    if id !in p.live then (p, Err(UnknownPublisher))
    else if p.live[id].boot != boot then (p, Err(StaleBootId))
    else (p.(live := p.live[id := Closed(p.live[id], session, tick)]), Ok(()))
  }

  predicate IdleTooLong(r: PublisherRegistration, idleTicks: nat, tick: Tick) {
    r.state == PublisherLive && tick > r.lastSeenTick && tick - r.lastSeenTick > idleTicks
  }

  function ExpiredIds(p: Publishers, tick: Tick): set<string> {
    set id | id in p.live && IdleTooLong(p.live[id], p.idleTicks, tick)
  }

  function Expire(p: Publishers, tick: Tick): Publishers {
    p.(live := map id | id in p.live ::
                 if IdleTooLong(p.live[id], p.idleTicks, tick) then p.live[id].(state := PublisherIdle) else p.live[id])
  }

  function Touched(p: Publishers, id: string, boot: nat, tick: Tick, wallMillis: nat): (Publishers, Result<()>) {
    if id !in p.live then (p, Err(UnknownPublisher))
    else if p.live[id].boot != boot then (p, Err(StaleBootId))
    else
      var r := p.live[id];
      var touched := r.(lastSeenTick := tick, state := if r.state == PublisherDead then r.state else PublisherLive);
      (p.(live := p.live[id := touched],
          records := if id in p.records
                     then p.records[id := p.records[id].(lastSeenWallMillis := wallMillis)]
                     else p.records),
       Ok(()))
  }

  predicate HoldsSession(p: Publishers, id: string, boot: nat) {
    && id in p.live
    && p.live[id].state == PublisherLive
    && p.live[id].boot == boot
    && p.live[id].liveSessions != []
  }

  function Observed(p: Publishers, id: string, boot: nat, generation: nat): (Publishers, Result<()>) {
    if id !in p.live then (p, Err(UnknownPublisher))
    else if p.live[id].boot != boot then (p, Err(StaleBootId))
    else if generation == 0 then (p, Err(InvalidArgument))
    else if generation <= p.live[id].highestGeneration then (p, Err(ReplayDetected))
    else
      (p.(live := p.live[id := p.live[id].(highestGeneration := generation)],
          records := if id in p.records
                     then p.records[id := p.records[id].(highestGeneration := generation)]
                     else p.records),
       Ok(()))
  }

  function DormantRegistration(r: PublisherRecord, tick: Tick): PublisherRegistration {
    PublisherRegistration(r.id, r.highestBoot, 0, 0, "", PublisherIdle, r.maxSource, [], tick, 0,
                          r.highestGeneration, 0, r.description)
  }

  function StoredRecord(r: PublisherRecord, tick: Tick): PublisherRecord {
    if r.firstSeenTick == 0 then r.(firstSeenTick := tick) else r
  }

  function RestoredRecord(p: Publishers, r: PublisherRecord, tick: Tick): (Publishers, Result<()>) {
    if |p.records| >= p.maxPublishers && r.id !in p.records then
      (p, Err(CapacityExceeded))
    else
      (p.(records := p.records[r.id := StoredRecord(r, tick)],
          live := p.live[r.id := DormantRegistration(r, tick)]),
       Ok(()))
  }

  /** Restores the records in turn and stops at the first refusal. */
  function RestoredRecords(p: Publishers, rs: seq<PublisherRecord>, tick: Tick): (Publishers, Result<()>)
    decreases |rs|
  {
    if rs == [] then
      (p, Ok(()))
    else
      var (q, r) := RestoredRecord(p, rs[0], tick);
      if r.Err? then (q, r) else RestoredRecords(q, rs[1..], tick)
  }

  function ClearedRegistration(r: PublisherRegistration): PublisherRegistration {
    r.(state := PublisherIdle, session := "", lastSeenTick := 0)
  }

  function ClearedSessions(p: Publishers): Publishers {
    p.(live := map id | id in p.live :: ClearedRegistration(p.live[id]))
  }

  // ---- authority facts ----------------------------------------------------

  /** The incarnations the engine regards as live. */
  function LiveIncarnations(p: Publishers): set<(string, nat)> {
    set id | id in p.live && p.live[id].state == PublisherLive :: (id, p.live[id].boot)
  }

  /** The durable and the volatile half agree on who exists, which boot and which high-water mark. */
  ghost predicate RegistryInvariant(p: Publishers) {
    && p.live.Keys == p.records.Keys
    && |p.records| <= p.maxPublishers
    && forall id | id in p.live ::
         && p.live[id].id == id
         && p.records[id].id == id
         && p.live[id].boot == p.records[id].highestBoot
         && p.live[id].highestGeneration == p.records[id].highestGeneration
  }

  /** This evidence generation, or a later one, or a later boot, has been observed. */
  predicate Used(p: Publishers, id: string, boot: nat, generation: nat) {
    && id in p.records
    && (p.records[id].highestBoot > boot
        || (p.records[id].highestBoot == boot && p.records[id].highestGeneration >= generation))
  }

  /** Boots and high-water marks only move forward, and nobody is forgotten. */
  ghost predicate Forward(p: Publishers, q: Publishers) {
    forall id | id in p.records ::
      && id in q.records
      && (q.records[id].highestBoot > p.records[id].highestBoot
          || (q.records[id].highestBoot == p.records[id].highestBoot
              && q.records[id].highestGeneration >= p.records[id].highestGeneration))
  }

  lemma ForwardKeepsUsed(p: Publishers, q: Publishers, id: string, boot: nat, generation: nat)
    requires Forward(p, q) && Used(p, id, boot, generation)
    ensures Used(q, id, boot, generation)
  {
  }

  lemma ForwardTransitive(p: Publishers, q: Publishers, r: Publishers)
    requires Forward(p, q) && Forward(q, r)
    ensures Forward(p, r)
  {
  }

  lemma KeysFit(p: Publishers)
    requires RegistryInvariant(p)
    ensures |p.live| == |p.records|
  {
    assert |p.live| == |p.live.Keys| && |p.records| == |p.records.Keys|;
  }

  /** Replacing both halves of one publisher consistently, and not backwards, keeps the invariant. */
  lemma ReplaceKeepsInvariant(p: Publishers, id: string, registration: PublisherRegistration, record: PublisherRecord)
    requires RegistryInvariant(p)
    requires id !in p.records ==> |p.records| < p.maxPublishers
    requires registration.id == id && record.id == id
    requires registration.boot == record.highestBoot && registration.highestGeneration == record.highestGeneration
    ensures var q := p.(live := p.live[id := registration], records := p.records[id := record]);
            RegistryInvariant(q)
  {
    var q := p.(live := p.live[id := registration], records := p.records[id := record]);
    assert q.records.Keys == p.records.Keys + {id} && q.live.Keys == p.live.Keys + {id};
    assert |q.records| == |q.records.Keys| && |p.records| == |p.records.Keys|;
  }

  /** What binding leaves behind, when the two halves agree beforehand. */
  lemma BoundCases(p: Publishers, b: Binding)
    requires RegistryInvariant(p)
    ensures Bound(p, b).1.Err? ==> Bound(p, b).0 == p
    ensures Bound(p, b).1.Ok? && b.id !in p.records ==>
              && |p.records| < p.maxPublishers
              && Bound(p, b).0 == p.(live := p.live[b.id := NewRegistration(b)], records := p.records[b.id := NewRecord(b)])
    ensures Bound(p, b).1.Ok? && b.id in p.records ==>
              && b.boot >= p.records[b.id].highestBoot
              && Bound(p, b).0 == p.(live := p.live[b.id := RenewedRegistration(p.live[b.id], b)],
                                     records := p.records[b.id := RenewedRecord(p.records[b.id], b)])
  {
    KeysFit(p);
  }

  /** Binding a session keeps the two halves in step; the second capacity check never fires. */
  lemma BoundKeepsInvariant(p: Publishers, b: Binding)
    requires RegistryInvariant(p)
    ensures RegistryInvariant(Bound(p, b).0)
    ensures Forward(p, Bound(p, b).0)
    ensures Bound(p, b).1.Err? ==> Bound(p, b).0 == p
  {
    BoundCases(p, b);
    if Bound(p, b).1.Ok? {
      if b.id in p.records {
        ReplaceKeepsInvariant(p, b.id, RenewedRegistration(p.live[b.id], b), RenewedRecord(p.records[b.id], b));
      } else {
        ReplaceKeepsInvariant(p, b.id, NewRegistration(b), NewRecord(b));
      }
    }
  }

  lemma EndedKeepsInvariant(p: Publishers, id: string, boot: nat, session: string, tick: Tick)
    requires RegistryInvariant(p)
    ensures RegistryInvariant(Ended(p, id, boot, session, tick).0)
    ensures Forward(p, Ended(p, id, boot, session, tick).0)
  {
  }

  lemma ExpireKeepsInvariant(p: Publishers, tick: Tick)
    requires RegistryInvariant(p)
    ensures RegistryInvariant(Expire(p, tick))
    ensures Forward(p, Expire(p, tick))
  {
  }

  lemma RelabelKeepsCount(p: Publishers, q: Publishers)
    requires RegistryInvariant(p)
    requires q == p.(live := q.live, records := q.records)
    requires q.live.Keys == p.live.Keys && q.records.Keys == p.records.Keys
    ensures |q.records| <= q.maxPublishers
  {
    assert |q.records| == |q.records.Keys| && |p.records| == |p.records.Keys|;
  }

  lemma TouchedKeepsInvariant(p: Publishers, id: string, boot: nat, tick: Tick, wallMillis: nat)
    requires RegistryInvariant(p)
    ensures RegistryInvariant(Touched(p, id, boot, tick, wallMillis).0)
    ensures Forward(p, Touched(p, id, boot, tick, wallMillis).0)
  {
    RelabelKeepsCount(p, Touched(p, id, boot, tick, wallMillis).0);
  }

  /** An accepted generation was not used before and is used from then on. */
  lemma ObservedIsFresh(p: Publishers, id: string, boot: nat, generation: nat)
    requires RegistryInvariant(p)
    ensures RegistryInvariant(Observed(p, id, boot, generation).0)
    ensures Forward(p, Observed(p, id, boot, generation).0)
    ensures Observed(p, id, boot, generation).1.Ok? ==>
              !Used(p, id, boot, generation) && Used(Observed(p, id, boot, generation).0, id, boot, generation)
  {
    RelabelKeepsCount(p, Observed(p, id, boot, generation).0);
  }

  /** A generation that has been used is refused, whoever presents it. */
  lemma UsedIsRefused(p: Publishers, id: string, boot: nat, generation: nat)
    requires RegistryInvariant(p) && Used(p, id, boot, generation)
    ensures Observed(p, id, boot, generation).1.Err?
  {
  }

  lemma ClearedKeepsInvariant(p: Publishers)
    requires RegistryInvariant(p)
    ensures RegistryInvariant(ClearedSessions(p))
    ensures Forward(p, ClearedSessions(p))
    ensures LiveIncarnations(ClearedSessions(p)) == {}
  {
  }

  lemma RestoredRecordKeepsInvariant(p: Publishers, r: PublisherRecord, tick: Tick)
    requires RegistryInvariant(p)
    ensures RegistryInvariant(RestoredRecord(p, r, tick).0)
  {
    var q := RestoredRecord(p, r, tick).0;
    if q != p {
      assert q.records.Keys == p.records.Keys + {r.id};
      assert |q.records| == |q.records.Keys| && |p.records| == |p.records.Keys|;
    }
  }

  lemma {:induction false} RestoredRecordsKeepInvariant(p: Publishers, rs: seq<PublisherRecord>, tick: Tick)
    requires RegistryInvariant(p)
    ensures RegistryInvariant(RestoredRecords(p, rs, tick).0)
    decreases |rs|
  {
    if rs != [] {
      RestoredRecordKeepsInvariant(p, rs[0], tick);
      RestoredRecordsKeepInvariant(RestoredRecord(p, rs[0], tick).0, rs[1..], tick);
    }
  }

  // ---- the registry as it runs --------------------------------------------

  lemma LeftBehind(hit: set<string>, todo: set<string>, id: string)
    requires id in todo
    ensures |hit - (todo - {id})| == |hit - todo| + if id in hit then 1 else 0
  {
    assert hit - (todo - {id}) == (hit - todo) + if id in hit then {id} else {};
  }

  /** The table after every entry outside `todo` was looked at. */
  ghost function Swept(p: Publishers, todo: set<string>, tick: Tick): map<string, PublisherRegistration> {
    map id | id in p.live :: if id in todo then p.live[id] else Expire(p, tick).live[id]
  }

  lemma SweptEnds(p: Publishers, tick: Tick)
    ensures Swept(p, p.live.Keys, tick) == p.live && ExpiredIds(p, tick) - p.live.Keys == {}
    ensures Swept(p, {}, tick) == Expire(p, tick).live && ExpiredIds(p, tick) - {} == ExpiredIds(p, tick)
  {
    hide IdleTooLong;
  }

  lemma SweptStep(p: Publishers, todo: set<string>, id: string, tick: Tick)
    requires id in todo && todo <= p.live.Keys
    ensures Swept(p, todo - {id}, tick)
            == if id in ExpiredIds(p, tick) then Swept(p, todo, tick)[id := p.live[id].(state := PublisherIdle)]
               else Swept(p, todo, tick)
  {
    hide IdleTooLong;
    var now := Swept(p, todo - {id}, tick);
    if id in ExpiredIds(p, tick) {
      assert now == Swept(p, todo, tick)[id := p.live[id].(state := PublisherIdle)];
    } else {
      assert now == Swept(p, todo, tick);
    }
  }

  method SweepIdle(p: Publishers, tick: Tick) returns (swept: map<string, PublisherRegistration>, changed: nat)
    ensures swept == Expire(p, tick).live && changed == |ExpiredIds(p, tick)|
  {
    hide IdleTooLong, Swept, Expire;
    swept, changed := p.live, 0;
    var todo := p.live.Keys;
    SweptEnds(p, tick);
    while todo != {}
      invariant todo <= p.live.Keys && swept == Swept(p, todo, tick) && changed == |ExpiredIds(p, tick) - todo|
      decreases |todo|
    {
      var id :| id in todo;
      SweptStep(p, todo, id, tick);
      LeftBehind(ExpiredIds(p, tick), todo, id);
      if IdleTooLong(p.live[id], p.idleTicks, tick) {
        swept := swept[id := p.live[id].(state := PublisherIdle)];
        changed := changed + 1;
      }
      todo := todo - {id};
    }
  }

  class Registry {
    const maxPublishers: nat
    const idleTicks: nat
    var live: map<string, PublisherRegistration>
    var records: map<string, PublisherRecord>

    ghost function State(): Publishers
      reads this
    {
      Publishers(live, records, maxPublishers, idleTicks)
    }

    constructor (limits: ResourceLimits)
      ensures State() == EmptyPublishers(limits)
    {
      maxPublishers, idleTicks := limits.maxPublishers, limits.maxSessionIdleTicks;
      live, records := map[], map[];
    }

    /** The durable half: admits the boot and brings the record up to date. */
    method AdmitBoot(b: Binding) returns (r: Result<()>)
      requires b.boot != 0
      modifies this`records
      ensures r.Err? ==> records == old(records) && Bound(old(State()), b) == (old(State()), Err(r.code))
      ensures r.Ok? ==> Bound(old(State()), b) == BoundRegistration(State(), b)
    {
      if b.id !in records {
        if |records| >= maxPublishers {
          return Err(CapacityExceeded);
        }
        records := records[b.id := NewRecord(b)];
      } else {
        var record := records[b.id];
        if b.boot < record.highestBoot {
          return Err(StaleBootId);
        }
        if b.boot > record.highestBoot {
          record := record.(highestBoot := b.boot, highestGeneration := 0);
        }
        record := record.(lastSeenWallMillis := b.wallMillis);
        if record.description == "" {
          record := record.(description := b.description);
        }
        if SourceRank(b.maxSource) > SourceRank(record.maxSource) {
          record := record.(maxSource := b.maxSource);
        }
        records := records[b.id := record];
      }
      r := Ok(());
    }

    method BindSession(b: Binding) returns (r: Result<PublisherRegistration>)
      modifies this
      ensures (State(), r) == Bound(old(State()), b)
    {
      if b.boot == 0 {
        return Err(InvalidArgument);
      }
      var admitted := AdmitBoot(b);
      if admitted.Err? {
        return Err(admitted.code);
      }
      if b.id !in live {
        if |live| >= maxPublishers {
          return Err(CapacityExceeded);
        }
        live := live[b.id := NewRegistration(b)];
      } else {
        var registration := live[b.id];
        if b.boot < registration.boot {
          return Err(StaleBootId);
        }
        if b.boot > registration.boot {
          registration := registration.(boot := b.boot, highestGeneration := 0, liveSessions := []);
        }
        registration := registration.(session := b.session);
        if b.session !in registration.liveSessions {
          registration := registration.(liveSessions := registration.liveSessions + [b.session]);
        }
        registration := registration.(registeredEpoch := b.epoch, registeredBoot := b.coordinatorBoot,
                                      state := PublisherLive, lastSeenTick := b.tick,
                                      sessionsOpened := registration.sessionsOpened + 1);
        live := live[b.id := registration];
      }
      r := Ok(live[b.id]);
    }

    method RemoveSession(sessions: seq<string>, session: string) returns (rest: seq<string>)
      ensures rest == Filter(NotSession(session), sessions)
    {
      rest := [];
      for i := 0 to |sessions|
        invariant rest == Filter(NotSession(session), sessions[..i])
      {
        if sessions[i] != session {
          rest := rest + [sessions[i]];
        }
        assert sessions[..i + 1][..i] == sessions[..i];
      }
      assert sessions[..|sessions|] == sessions;
    }

    method EndSpecificSession(id: string, boot: nat, session: string, tick: Tick) returns (r: Result<()>)
      modifies this`live
      ensures (State(), r) == Ended(old(State()), id, boot, session, tick)
    {
      if id !in live {
        return Err(UnknownPublisher);
      }
      if live[id].boot != boot {
        return Err(StaleBootId);
      }
      var registration := live[id];
      if session != "" {
        var sessions := RemoveSession(registration.liveSessions, session);
        registration := registration.(liveSessions := sessions);
        if registration.session == session {
          registration := registration.(session := if sessions == [] then "" else sessions[|sessions| - 1]);
        }
      } else {
        registration := registration.(liveSessions := [], session := "");
      }
      if registration.liveSessions == [] {
        registration := registration.(state := PublisherDead, lastSeenTick := tick);
      }
      live := live[id := registration];
      r := Ok(());
    }

    method ExpireLiveness(tick: Tick) returns (changed: nat)
      modifies this`live
      ensures State() == Expire(old(State()), tick)
      ensures changed == |ExpiredIds(old(State()), tick)|
    {
      var p := Publishers(live, records, maxPublishers, idleTicks);
      live, changed := SweepIdle(p, tick);
    }

    method Touch(id: string, boot: nat, tick: Tick, wallMillis: nat) returns (r: Result<()>)
      modifies this
      ensures (State(), r) == Touched(old(State()), id, boot, tick, wallMillis)
    {
      if id !in live {
        return Err(UnknownPublisher);
      }
      if live[id].boot != boot {
        return Err(StaleBootId);
      }
      var registration := live[id].(lastSeenTick := tick);
      if registration.state == PublisherIdle {
        registration := registration.(state := PublisherLive);
      }
      if registration.state != PublisherDead {
        registration := registration.(state := PublisherLive);
      }
      live := live[id := registration];
      if id in records {
        records := records[id := records[id].(lastSeenWallMillis := wallMillis)];
      }
      r := Ok(());
    }

    method IsLive(id: string, boot: nat) returns (r: bool)
      ensures r == HoldsSession(State(), id, boot)
    {
      if id !in live {
        return false;
      }
      if live[id].state != PublisherLive || live[id].boot != boot {
        return false;
      }
      r := live[id].liveSessions != [];
    }

    method ObserveEvidenceGeneration(id: string, boot: nat, generation: nat) returns (r: Result<()>)
      modifies this
      ensures (State(), r) == Observed(old(State()), id, boot, generation)
    {
      if id !in live {
        return Err(UnknownPublisher);
      }
      if live[id].boot != boot {
        return Err(StaleBootId);
      }
      if generation == 0 {
        return Err(InvalidArgument);
      }
      if generation < live[id].highestGeneration {
        return Err(ReplayDetected);
      }
      if generation == live[id].highestGeneration {
        return Err(ReplayDetected);
      }
      live := live[id := live[id].(highestGeneration := generation)];
      if id in records {
        records := records[id := records[id].(highestGeneration := generation)];
      }
      r := Ok(());
    }

    method RestoreRecords(rs: seq<PublisherRecord>, tick: Tick) returns (r: Result<()>)
      modifies this
      ensures (State(), r) == RestoredRecords(old(State()), rs, tick)
    {
      var i := 0;
      while i < |rs|
        invariant 0 <= i <= |rs|
        invariant RestoredRecords(State(), rs[i..], tick) == RestoredRecords(old(State()), rs, tick)
      {
        assert rs[i..][0] == rs[i] && rs[i..][1..] == rs[i + 1..];
        if |records| >= maxPublishers && rs[i].id !in records {
          return Err(CapacityExceeded);
        }
        var stored := rs[i];
        if stored.firstSeenTick == 0 {
          stored := stored.(firstSeenTick := tick);
        }
        records := records[stored.id := stored];
        live := live[stored.id := DormantRegistration(stored, tick)];
        i := i + 1;
      }
      r := Ok(());
    }

    method ClearSessions()
      modifies this`live
      ensures State() == ClearedSessions(old(State()))
    {
      var was, cleared, todo := live, live, live.Keys;
      while todo != {}
        invariant todo <= was.Keys == cleared.Keys
        invariant forall id | id in was :: cleared[id] == if id in todo then was[id] else ClearedRegistration(was[id])
        decreases |todo|
      {
        var id :| id in todo;
        cleared := cleared[id := was[id].(state := PublisherIdle, session := "", lastSeenTick := 0)];
        todo := todo - {id};
      }
      live := cleared;
    }
  }
}
