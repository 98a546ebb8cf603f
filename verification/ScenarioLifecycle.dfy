/** Concurrent create and start requests over one database, as a state machine. A body step is one
    read or one committed write of create_scenario or start_scenario; between two steps of a request
    any other request, and any other workflow, may take its own. */
module ScenarioLifecycle {
  import opened Prelude
  import Locks = AdvisoryLocks

  type Pid = Locks.Pid

  /** A scenario reference: a fresh token for every scenario. The group is identified by it. */
  type Ref = nat

  type Flight = nat

  type IncidentId = nat

  /** What a lock stands for. Its key is a digest, which may collide. */
  datatype Identity = CreateKey(digest: string) | StartOf(ref: Ref) | FlightOf(flight: Flight)

  /** `opener` is the request that opened it, None for another workflow. */
  datatype Incident = Incident(flight: Flight, group: Option<Ref>, active: bool, opener: Option<Pid>)

  datatype ScenarioView = ScenarioView(ref: Ref, flights: seq<Flight>)

  /** One row of the membership query: a member flight with one of the group's incidents for it, or with
      none where there is none. A flight with two incidents has two rows. */
  datatype MemberRow = MemberRow(flight: Flight, incident: Option<IncidentId>)

  datatype StartView = StartView(ref: Ref, incidents: seq<IncidentId>, openedIds: seq<IncidentId>, startedBy: string)

  /** The decision-log entries of the lifecycle; `writer` is the request that wrote the entry. A creation
      may have been recorded without its result, though no request here does so. */
  datatype Record =
    | Created(writer: Pid, ref: Ref, digest: Option<string>, fingerprint: string, created: Option<ScenarioView>)
    | StartRequested(writer: Pid, ref: Ref, actor: string)
    | Started(writer: Pid, ref: Ref, started: StartView)

  datatype Db = Db(log: seq<Record>, groups: map<Ref, seq<Flight>>, incidents: map<IncidentId, Incident>)

  /** Unanswered: committed, but an error went out instead of the answer. */
  datatype CreateOutcome =
    | CreatedNow(now: ScenarioView)
    | CreatedBefore(before: ScenarioView)
    | KeyReused
    | CreateFailed
    | CreateUnanswered(unanswered: ScenarioView)

  datatype CreateStage = CheckKey | Validate | WriteScenario | CreateDone(outcome: CreateOutcome)

  datatype StartOutcome =
    | StartedNow(now: StartView)
    | StartedBefore(before: StartView)
    | StartConflict
    | StartFailed
    | StartUnanswered(unanswered: StartView)

  datatype StartStage =
    | CheckStarted
    | CheckForeign
    | FindRequest
    | WriteRequest
    | TakeSnapshot(actor: string)
    | Opening(actor: string, rows: seq<MemberRow>, members: seq<IncidentId>, openedIds: seq<IncidentId>)
    | CheckOwners(actor: string, members: seq<IncidentId>, openedIds: seq<IncidentId>)
    | WriteStarted(actor: string, members: seq<IncidentId>, openedIds: seq<IncidentId>)
    | StartDone(outcome: StartOutcome)

  datatype Job =
    | CreateJob(key: Option<string>, fingerprint: string, flights: seq<Flight>, create: CreateStage)
    | StartJob(ref: Ref, flights: seq<Flight>, actor: string, start: StartStage)
  {
    predicate Done() { if CreateJob? then create.CreateDone? else start.StartDone? }

    predicate Fresh() { if CreateJob? then create == CheckKey else start == CheckStarted }

    ghost function Identities(): set<Identity> {
      if CreateJob? then (if key.Some? then {CreateKey(key.value)} else {})
      else {StartOf(ref)} + set f | f in flights :: FlightOf(f)
    }

    function Failed(): Job {
      if CreateJob? then this.(create := CreateDone(CreateFailed)) else this.(start := StartDone(StartFailed))
    }

    /** Its body ended with an answer for the client. */
    predicate Answered() {
      if CreateJob? then create.CreateDone? && (create.outcome.CreatedNow? || create.outcome.CreatedBefore?)
      else start.StartDone? && (start.outcome.StartedNow? || start.outcome.StartedBefore?)
    }

    /** The same request when an error replaces what its body ended with. */
    function Unanswered(): Job {
      match this
      case CreateJob(_, _, _, CreateDone(CreatedNow(view))) => this.(create := CreateDone(CreateUnanswered(view)))
      case CreateJob(_, _, _, CreateDone(CreateUnanswered(_))) => this
      case StartJob(_, _, _, StartDone(StartedNow(view))) => this.(start := StartDone(StartUnanswered(view)))
      case StartJob(_, _, _, StartDone(StartUnanswered(_))) => this
      case _ => Failed()
    }
  }

  // ---------------------------------------------------------------- what the database answers

  /** A creation under this digest that settles what a request with this payload gets: it was for
      another payload, or has a result to replay. */
  predicate Decides(r: Record, digest: string, fingerprint: string) {
    r.Created? && r.digest == Some(digest) && (r.fingerprint != fingerprint || r.created.Some?)
  }

  function FirstDeciding(log: seq<Record>, digest: string, fingerprint: string): (r: Option<Record>)
    ensures r.Some? ==> Decides(r.value, digest, fingerprint)
  {
    if log == [] then None
    else if Decides(log[0], digest, fingerprint) then Some(log[0])
    else FirstDeciding(log[1..], digest, fingerprint)
  }

  /** _recorded_create: the log is read in order, and the first entry that decides is replayed or refuses. */
  method RecordedCreate(log: seq<Record>, digest: string, fingerprint: string) returns (replay: Option<CreateOutcome>)
    ensures var found := FirstDeciding(log, digest, fingerprint);
            if found.None? then replay == None
            else if found.value.fingerprint != fingerprint then replay == Some(KeyReused)
            else replay == Some(CreatedBefore(found.value.created.value))
  {
    for i := 0 to |log|
      invariant FirstDeciding(log, digest, fingerprint) == FirstDeciding(log[i..], digest, fingerprint)
    {
      var entry := log[i];
      assert log[i..][0] == entry && log[i..][1..] == log[i + 1..];
      if !entry.Created? || entry.digest != Some(digest) {
        continue;
      }
      if entry.fingerprint != fingerprint {
        return Some(KeyReused);
      }
      if entry.created.Some? {
        return Some(CreatedBefore(entry.created.value));
      }
    }
    return None;
  }

  function FirstRequested(log: seq<Record>, ref: Ref): Option<Record> {
    if log == [] then None
    else if log[0].StartRequested? && log[0].ref == ref then Some(log[0])
    else FirstRequested(log[1..], ref)
  }

  function FirstStarted(log: seq<Record>, ref: Ref): Option<Record> {
    if log == [] then None
    else if log[0].Started? && log[0].ref == ref then Some(log[0])
    else FirstStarted(log[1..], ref)
  }

  lemma FirstDecidingFinds(log: seq<Record>, digest: string, fingerprint: string)
    ensures var r := FirstDeciding(log, digest, fingerprint);
            if r.Some? then r.value in log else forall c :: c in log ==> !Decides(c, digest, fingerprint)
  {
  }

  lemma FirstRequestedFinds(log: seq<Record>, ref: Ref)
    ensures var r := FirstRequested(log, ref);
            if r.Some? then r.value in log && r.value.StartRequested? && r.value.ref == ref
            else forall c :: c in log && c.StartRequested? ==> c.ref != ref
  {
  }

  lemma FirstStartedFinds(log: seq<Record>, ref: Ref)
    ensures var r := FirstStarted(log, ref);
            if r.Some? then r.value in log && r.value.Started? && r.value.ref == ref
            else forall c :: c in log && c.Started? ==> c.ref != ref
  {
  }

  /** Some member flight belongs to another active workflow. */
  ghost predicate ForeignActive(db: Db, ref: Ref, flights: seq<Flight>) {
    exists id :: id in db.incidents && db.incidents[id].active && db.incidents[id].flight in flights
                 && db.incidents[id].group != Some(ref)
  }

  ghost predicate OfGroup(db: Db, id: IncidentId, ref: Ref, flight: Flight) {
    id in db.incidents && db.incidents[id].flight == flight && db.incidents[id].group == Some(ref)
  }

  /** The rows of the outer join of the group's members with its incidents, in some order. */
  ghost predicate RowsOk(db: Db, ref: Ref, flights: seq<Flight>, rows: seq<MemberRow>) {
    && NoRepeats(rows)
    && (forall row :: row in rows ==> RowOk(db, ref, flights, row))
    && (forall f :: f in flights ==> HasRow(rows, f))
    && (forall f, id :: f in flights && OfGroup(db, id, ref, f) ==> MemberRow(f, Some(id)) in rows)
  }

  ghost predicate RowOk(db: Db, ref: Ref, flights: seq<Flight>, row: MemberRow) {
    && row.flight in flights
    && if row.incident.Some? then OfGroup(db, row.incident.value, ref, row.flight)
       else forall id :: !OfGroup(db, id, ref, row.flight)
  }

  ghost predicate HasRow(rows: seq<MemberRow>, flight: Flight) {
    exists row :: row in rows && row.flight == flight
  }

  ghost predicate HasActive(db: Db, flight: Flight) {
    exists id :: id in db.incidents && db.incidents[id].active && db.incidents[id].flight == flight
  }

  // ---------------------------------------------------------------- body steps

  /** What the environment decides in a body step: the new reference, the incident opened or found,
      the rows of the membership query. */
  datatype Choice = Choice(ref: Ref, id: IncidentId, rows: seq<MemberRow>)

  /** Which incident open_incident ends up with: the active one of the flight, else a new one. */
  ghost predicate OpenChoice(db: Db, flight: Flight, id: IncidentId) {
    if HasActive(db, flight) then id in db.incidents && db.incidents[id].active && db.incidents[id].flight == flight
    else id !in db.incidents
  }

  ghost predicate ChoiceOk(db: Db, job: Job, choice: Choice) {
    && !job.Done()
    && (job.CreateJob? && job.create == WriteScenario ==> choice.ref !in db.groups)
    && (job.StartJob? && job.start.TakeSnapshot? ==> RowsOk(db, job.ref, job.flights, choice.rows))
    && (job.StartJob? && job.start.Opening? && |job.start.members| < |job.start.rows| ==>
          var row := job.start.rows[|job.start.members|];
          row.incident.Some? || OpenChoice(db, row.flight, choice.id))
  }

  ghost function CreateTurn(db: Db, pid: Pid, job: Job, choice: Choice): (Db, Job)
    requires job.CreateJob? && ChoiceOk(db, job, choice)
  {
    match job.create
    case CheckKey =>
      var found := if job.key.Some? then FirstDeciding(db.log, job.key.value, job.fingerprint) else None;
      (db, job.(create :=
        if found.None? then Validate
        else if found.value.fingerprint != job.fingerprint then CreateDone(KeyReused)
        else CreateDone(CreatedBefore(found.value.created.value))))
    case Validate => (db, job.(create := WriteScenario))
    case WriteScenario =>
      var view := ScenarioView(choice.ref, job.flights);
      (Db(db.log + [Created(pid, choice.ref, job.key, job.fingerprint, Some(view))],
          db.groups[choice.ref := job.flights], db.incidents),
       job.(create := CreateDone(CreatedNow(view))))
  }

  ghost function StartTurn(db: Db, pid: Pid, job: Job, choice: Choice): (Db, Job)
    requires job.StartJob? && ChoiceOk(db, job, choice)
  {
    match job.start
    case CheckStarted =>
      var found := FirstStarted(db.log, job.ref);
      FirstStartedFinds(db.log, job.ref);
      (db, job.(start := if found.None? then CheckForeign else StartDone(StartedBefore(found.value.started))))
    case CheckForeign =>
      (db, job.(start := if ForeignActive(db, job.ref, job.flights) then StartDone(StartConflict) else FindRequest))
    case FindRequest =>
      var found := FirstRequested(db.log, job.ref);
      FirstRequestedFinds(db.log, job.ref);
      (db, job.(start := if found.None? then WriteRequest else TakeSnapshot(found.value.actor)))
    case WriteRequest =>
      (db.(log := db.log + [StartRequested(pid, job.ref, job.actor)]), job.(start := TakeSnapshot(job.actor)))
    case TakeSnapshot(actor) =>
      (db, job.(start := if choice.rows == [] then StartDone(StartFailed) else Opening(actor, choice.rows, [], [])))
    case Opening(actor, rows, members, openedIds) =>
      if |members| >= |rows| then (db, job.(start := CheckOwners(actor, members, openedIds)))
      else
        var row := rows[|members|];
        if row.incident.Some? then (db, job.(start := Opening(actor, rows, members + [row.incident.value], openedIds)))
        else
          (if choice.id in db.incidents then db
           else db.(incidents := db.incidents[choice.id := Incident(row.flight, Some(job.ref), true, Some(pid))]),
           job.(start := Opening(actor, rows, members + [choice.id],
                                 if choice.id in openedIds then openedIds else openedIds + [choice.id])))
    case CheckOwners(actor, members, openedIds) =>
      var owned := forall id :: id in members ==> id in db.incidents && db.incidents[id].group == Some(job.ref);
      (db, job.(start := if owned then WriteStarted(actor, members, openedIds) else StartDone(StartConflict)))
    case WriteStarted(actor, members, openedIds) =>
      var view := StartView(job.ref, members, openedIds, actor);
      (db.(log := db.log + [Started(pid, job.ref, view)]), job.(start := StartDone(StartedNow(view))))
  }

  ghost function Turn(db: Db, pid: Pid, job: Job, choice: Choice): (Db, Job)
    requires ChoiceOk(db, job, choice)
  {
    if job.CreateJob? then CreateTurn(db, pid, job, choice) else StartTurn(db, pid, job, choice)
  }

  // ---------------------------------------------------------------- the machine

  datatype Sys = Sys(locks: Locks.Locks, jobs: map<Pid, Job>, db: Db)

  datatype Step =
    | ArriveCreate(pid: Pid, key: Option<string>, fingerprint: string, flights: seq<Flight>)
    | ArriveStart(pid: Pid, ref: Ref, actor: string)
    | Lock(lock: Locks.LockStep)
    | Body(pid: Pid, choice: Choice)
    | Fail(pid: Pid)
    | LoseAnswer(pid: Pid)
    | OtherOpens(id: IncidentId, flight: Flight, group: Option<Ref>)
    | OtherCloses(id: IncidentId)

  ghost predicate InsideUndone(s: Sys, pid: Pid) {
    pid in s.jobs && pid in s.locks.requests && s.locks.requests[pid].phase == Locks.Inside && !s.jobs[pid].Done()
  }

  /** A create request declares each flight once. A start arrives only for a scenario that was created;
      otherwise it ends before taking a lock. A request leaves its critical section when its body is over.
      It may be cancelled there when its commit has taken effect, and then loses its answer. Other
      workflows open incidents for flights that have no active one, and close incidents. */
  ghost predicate Enabled(s: Sys, step: Step) {
    match step
    case ArriveCreate(pid, _, _, flights) => pid !in s.jobs && pid !in s.locks.requests && NoRepeats(flights)
    case ArriveStart(pid, ref, _) => pid !in s.jobs && pid !in s.locks.requests && ref in s.db.groups
    case Lock(lock) => Locks.Enabled(s.locks, lock) && lock.pid in s.jobs && (lock.Leave? ==> s.jobs[lock.pid].Done())
    case Body(pid, choice) => InsideUndone(s, pid) && ChoiceOk(s.db, s.jobs[pid], choice)
    case Fail(pid) => InsideUndone(s, pid)
    case LoseAnswer(pid) =>
      && pid in s.jobs && pid in s.locks.requests && s.locks.requests[pid].phase == Locks.Inside && s.jobs[pid].Answered()
    case OtherOpens(id, flight, _) => id !in s.db.incidents && !HasActive(s.db, flight)
    case OtherCloses(id) => id in s.db.incidents
  }

  ghost function Arrive(s: Sys, pid: Pid, job: Job, hash: Identity -> Locks.Key): Sys {
    s.(locks := Locks.Enter(s.locks, pid, set i | i in job.Identities() :: hash(i)), jobs := s.jobs[pid := job])
  }

  /** A cancelled wait for a lock fails the request; an error while releasing replaces its answer. */
  function AfterLock(job: Job, lock: Locks.LockStep): Job {
    match lock
    case Cancel(_) => job.Failed()
    case Invalidate(_) => job.Unanswered()
    case _ => job
  }

  ghost function Apply(s: Sys, step: Step, hash: Identity -> Locks.Key): Sys
    requires Enabled(s, step)
  {
    match step
    case ArriveCreate(pid, key, fingerprint, flights) => Arrive(s, pid, CreateJob(key, fingerprint, flights, CheckKey), hash)
    case ArriveStart(pid, ref, actor) => Arrive(s, pid, StartJob(ref, s.db.groups[ref], actor, CheckStarted), hash)
    case Lock(lock) =>
      s.(locks := Locks.Apply(s.locks, lock), jobs := s.jobs[lock.pid := AfterLock(s.jobs[lock.pid], lock)])
    case Body(pid, choice) =>
      var (db, job) := Turn(s.db, pid, s.jobs[pid], choice);
      s.(db := db, jobs := s.jobs[pid := job])
    case Fail(pid) => s.(jobs := s.jobs[pid := s.jobs[pid].Failed()])
    case LoseAnswer(pid) => s.(jobs := s.jobs[pid := s.jobs[pid].Unanswered()])
    case OtherOpens(id, flight, group) =>
      s.(db := s.db.(incidents := s.db.incidents[id := Incident(flight, group, true, None)]))
    case OtherCloses(id) =>
      s.(db := s.db.(incidents := s.db.incidents[id := s.db.incidents[id].(active := false)]))
  }

  const START := Sys(Locks.NO_LOCKS, map[], Db([], map[], map[]))

  // ---------------------------------------------------------------- what the log may hold

  ghost predicate Clash(a: Record, b: Record) {
    || (a.Created? && b.Created? && (a.ref == b.ref || (a.digest.Some? && a.digest == b.digest)))
    || (a.StartRequested? && b.StartRequested? && a.ref == b.ref)
    || (a.Started? && b.Started? && a.ref == b.ref)
  }

  /** Incidents of declared members, at least one for each. */
  ghost predicate MembersCovered(db: Db, flights: seq<Flight>, members: seq<IncidentId>) {
    && (forall id :: id in members ==> id in db.incidents && db.incidents[id].flight in flights)
    && (forall f :: f in flights ==> Covers(db, members, f))
  }

  ghost predicate Covers(db: Db, members: seq<IncidentId>, flight: Flight) {
    exists id :: id in members && id in db.incidents && db.incidents[id].flight == flight
  }

  /** All of them the group's own. */
  ghost predicate OwnMembers(db: Db, ref: Ref, flights: seq<Flight>, members: seq<IncidentId>) {
    && MembersCovered(db, flights, members)
    && forall id :: id in members ==> db.incidents[id].group == Some(ref)
  }

  ghost predicate RecordOk(db: Db, r: Record) {
    match r
    case Created(_, ref, _, _, view) => ref in db.groups && view == Some(ScenarioView(ref, db.groups[ref]))
    case StartRequested(_, ref, _) => ref in db.groups
    case Started(_, ref, view) =>
      && ref in db.groups && view.ref == ref && OwnMembers(db, ref, db.groups[ref], view.incidents)
      && exists q :: q in db.log && q.StartRequested? && q.ref == ref && q.actor == view.startedBy
  }

  ghost predicate LogOk(db: Db) {
    && (forall i, j :: 0 <= i < j < |db.log| ==> !Clash(db.log[i], db.log[j]))
    && (forall r :: r in db.log ==> RecordOk(db, r))
  }

  ghost predicate WroteNothing(db: Db, pid: Pid) {
    forall r :: r in db.log ==> r.writer != pid
  }

  // ---------------------------------------------------------------- what a request knows

  ghost predicate CreateOk(db: Db, pid: Pid, job: Job)
    requires job.CreateJob?
  {
    match job.create
    case CheckKey => WroteNothing(db, pid)
    case CreateDone(CreatedNow(view)) => Created(pid, view.ref, job.key, job.fingerprint, Some(view)) in db.log
    case CreateDone(CreateUnanswered(view)) => Created(pid, view.ref, job.key, job.fingerprint, Some(view)) in db.log
    case CreateDone(CreatedBefore(view)) =>
      && WroteNothing(db, pid) && job.key.Some?
      && exists r :: r in db.log && r.Created? && r.digest == job.key && r.fingerprint == job.fingerprint && r.created == Some(view)
    case CreateDone(KeyReused) =>
      && WroteNothing(db, pid) && job.key.Some?
      && exists r :: r in db.log && r.Created? && r.digest == job.key && r.fingerprint != job.fingerprint
    case CreateDone(CreateFailed) => WroteNothing(db, pid)
    case _ => WroteNothing(db, pid)
              && (job.key.Some? ==> forall r :: r in db.log && r.Created? ==> r.digest != job.key)
  }

  ghost predicate NotStarted(db: Db, ref: Ref) {
    forall r :: r in db.log && r.Started? ==> r.ref != ref
  }

  ghost predicate NotRequested(db: Db, ref: Ref) {
    forall r :: r in db.log && r.StartRequested? ==> r.ref != ref
  }

  ghost predicate RequestedBy(db: Db, ref: Ref, actor: string) {
    exists r :: r in db.log && r.StartRequested? && r.ref == ref && r.actor == actor
  }

  /** Incidents found or opened so far, row by row, whosever they are. */
  ghost predicate FoundMembers(db: Db, rows: seq<MemberRow>, members: seq<IncidentId>) {
    && |members| <= |rows|
    && forall i :: 0 <= i < |members| ==> members[i] in db.incidents && db.incidents[members[i]].flight == rows[i].flight
  }

  /** What lasts of a snapshot: each row is of a member, the incidents it shows are the group's, and every
      member has a row. */
  ghost predicate RowsLast(db: Db, ref: Ref, flights: seq<Flight>, rows: seq<MemberRow>) {
    && NoRepeats(rows)
    && (forall row :: row in rows ==>
          row.flight in flights && (row.incident.Some? ==> OfGroup(db, row.incident.value, ref, row.flight)))
    && (forall f :: f in flights ==> HasRow(rows, f))
  }

  ghost predicate OpenedNothing(db: Db, pid: Pid) {
    forall id :: id in db.incidents ==> db.incidents[id].opener != Some(pid)
  }

  /** Opened by this request or by another workflow. */
  ghost predicate MineOrNobodys(db: Db, pid: Pid, id: IncidentId)
    requires id in db.incidents
  {
    db.incidents[id].opener == Some(pid) || db.incidents[id].opener == None
  }

  /** What a start lists as opened: members only, all it opened itself, and of the group's own nothing
      that another request opened. */
  ghost predicate ListsOpened(db: Db, pid: Pid, ref: Ref, members: seq<IncidentId>, openedIds: seq<IncidentId>) {
    && (forall id :: id in openedIds ==> id in members && id in db.incidents)
    && (forall id :: id in db.incidents && db.incidents[id].opener == Some(pid) ==> id in openedIds)
    && (forall id :: id in openedIds && db.incidents[id].group == Some(ref) ==> MineOrNobodys(db, pid, id))
  }

  /** No other request opened an incident of the group for a member the snapshot shows none for. */
  ghost predicate SnapshotCurrent(db: Db, pid: Pid, ref: Ref, rows: seq<MemberRow>) {
    forall id :: id in db.incidents && ShownWithout(db.incidents[id], ref, rows) ==> MineOrNobodys(db, pid, id)
  }

  ghost predicate ShownWithout(i: Incident, ref: Ref, rows: seq<MemberRow>) {
    i.group == Some(ref) && MemberRow(i.flight, None) in rows
  }

  /** What the request opened, it opened at a row without an incident that it has passed. */
  ghost predicate OpenedAtRows(db: Db, pid: Pid, rows: seq<MemberRow>, passed: nat)
    requires passed <= |rows|
  {
    forall id :: id in db.incidents && db.incidents[id].opener == Some(pid) ==>
      MemberRow(db.incidents[id].flight, None) in rows[..passed]
  }

  /** The incidents a start has opened so far, at every stage. */
  ghost predicate OpeningsOk(db: Db, pid: Pid, job: Job) {
    job.StartJob? ==>
    match job.start
    case Opening(_, rows, members, openedIds) =>
      && ListsOpened(db, pid, job.ref, members, openedIds) && SnapshotCurrent(db, pid, job.ref, rows)
      && |members| <= |rows| && OpenedAtRows(db, pid, rows, |members|)
    case CheckOwners(_, members, openedIds) => ListsOpened(db, pid, job.ref, members, openedIds)
    case WriteStarted(_, members, openedIds) => ListsOpened(db, pid, job.ref, members, openedIds)
    case StartDone(StartedNow(view)) => ListsOpened(db, pid, job.ref, view.incidents, view.openedIds)
    case StartDone(StartUnanswered(view)) => ListsOpened(db, pid, job.ref, view.incidents, view.openedIds)
    case StartDone(_) => true
    case _ => OpenedNothing(db, pid)
  }

  ghost predicate StartOk(db: Db, pid: Pid, job: Job)
    requires job.StartJob?
  {
    && job.ref in db.groups && db.groups[job.ref] == job.flights
    && match job.start
       case CheckStarted => WroteNothing(db, pid)
       case CheckForeign => WroteNothing(db, pid) && NotStarted(db, job.ref)
       case FindRequest => WroteNothing(db, pid) && NotStarted(db, job.ref)
       case WriteRequest => WroteNothing(db, pid) && NotStarted(db, job.ref) && NotRequested(db, job.ref)
       case TakeSnapshot(actor) => NotStarted(db, job.ref) && RequestedBy(db, job.ref, actor)
       case Opening(actor, rows, members, _) =>
         && NotStarted(db, job.ref) && RequestedBy(db, job.ref, actor)
         && RowsLast(db, job.ref, job.flights, rows) && FoundMembers(db, rows, members)
       case CheckOwners(actor, members, _) =>
         NotStarted(db, job.ref) && RequestedBy(db, job.ref, actor) && MembersCovered(db, job.flights, members)
       case WriteStarted(actor, members, _) =>
         NotStarted(db, job.ref) && RequestedBy(db, job.ref, actor) && OwnMembers(db, job.ref, job.flights, members)
       case StartDone(StartedNow(view)) => Started(pid, job.ref, view) in db.log
       case StartDone(StartUnanswered(view)) => Started(pid, job.ref, view) in db.log
       case StartDone(StartedBefore(view)) =>
         WroteNothing(db, pid) && exists r :: r in db.log && r.Started? && r.ref == job.ref && r.started == view
       case _ => true
  }

  ghost predicate JobOk(db: Db, pid: Pid, job: Job) {
    if job.CreateJob? then CreateOk(db, pid, job) else StartOk(db, pid, job)
  }

  /** The locks a request takes cover what its job must have to itself, and the body runs only inside. */
  ghost predicate LinkOk(request: Locks.Request, job: Job, hash: Identity -> Locks.Key) {
    && (forall i :: i in job.Identities() ==> hash(i) in request.keys)
    && (request.phase == Locks.Acquiring ==> job.Fresh())
    && (request.phase == Locks.Releasing || request.phase == Locks.Finished ==> job.Done())
  }

  ghost predicate WritersKnown(db: Db, jobs: map<Pid, Job>) {
    && (forall r :: r in db.log ==> r.writer in jobs)
    && (forall id :: id in db.incidents && db.incidents[id].opener.Some? ==> db.incidents[id].opener.value in jobs)
  }

  ghost predicate RequestInv(s: Sys, pid: Pid, hash: Identity -> Locks.Key) {
    && pid in s.jobs && pid in s.locks.requests
    && LinkOk(s.locks.requests[pid], s.jobs[pid], hash)
    && JobOk(s.db, pid, s.jobs[pid]) && OpeningsOk(s.db, pid, s.jobs[pid])
  }

  ghost predicate Inv(s: Sys, hash: Identity -> Locks.Key) {
    && Locks.Inv(s.locks)
    && s.jobs.Keys == s.locks.requests.Keys
    && LogOk(s.db) && WritersKnown(s.db, s.jobs)
    && forall pid :: pid in s.jobs ==> RequestInv(s, pid, hash)
  }

  // ---------------------------------------------------------------- how the database may change

  /** Nothing recorded is lost: groups stay as they are, incidents keep their flight, group and opener. */
  ghost predicate Extends(db: Db, next: Db) {
    && db.log <= next.log
    && (forall ref :: ref in db.groups ==> ref in next.groups && next.groups[ref] == db.groups[ref])
    && (forall id :: id in db.incidents ==>
          id in next.incidents && next.incidents[id].flight == db.incidents[id].flight
          && next.incidents[id].group == db.incidents[id].group && next.incidents[id].opener == db.incidents[id].opener)
  }

  /** A record that would make a running request act on an answer that is no longer true. */
  ghost predicate Threatens(job: Job, r: Record) {
    && !job.Done() && !job.Fresh()
    && if job.CreateJob? then r.Created? && job.key.Some? && r.digest == job.key
       else r.ref == job.ref && (r.Started? || (r.StartRequested? && job.start == WriteRequest))
  }

  /** An incident that would make a running start list what it did not open. */
  ghost predicate Intrudes(job: Job, i: Incident) {
    job.StartJob? && job.start.Opening? && i.group == Some(job.ref) && i.opener.Some?
  }

  ghost predicate NewIncidentsHarmless(db: Db, next: Db, pid: Pid, job: Job) {
    forall id :: id in next.incidents && id !in db.incidents ==>
      next.incidents[id].opener != Some(pid) && !Intrudes(job, next.incidents[id])
  }

  lemma JobKept(db: Db, next: Db, pid: Pid, job: Job)
    requires Extends(db, next) && JobOk(db, pid, job)
    requires forall r :: r in next.log && r !in db.log ==> r.writer != pid && !Threatens(job, r)
    ensures JobOk(next, pid, job)
  {
    assert forall r :: r in db.log ==> r in next.log;
  }

  lemma OpeningsKept(db: Db, next: Db, pid: Pid, job: Job)
    requires Extends(db, next) && OpeningsOk(db, pid, job) && NewIncidentsHarmless(db, next, pid, job)
    ensures OpeningsOk(next, pid, job)
  {
  }

  lemma RecordKept(db: Db, next: Db, r: Record)
    requires Extends(db, next) && RecordOk(db, r)
    ensures RecordOk(next, r)
  {
    assert forall q :: q in db.log ==> q in next.log;
  }

  /** One more record keeps the log in order when it clashes with none and is right itself. */
  lemma LogKept(db: Db, next: Db, r: Record)
    requires Extends(db, next) && LogOk(db) && next.log == db.log + [r]
    requires RecordOk(next, r) && forall q :: q in db.log ==> !Clash(q, r)
    ensures LogOk(next)
  {
    forall q | q in next.log ensures RecordOk(next, q) {
      if q in db.log { RecordKept(db, next, q); }
    }
    forall i, j | 0 <= i < j < |next.log| ensures !Clash(next.log[i], next.log[j]) {
      assert next.log[i] in db.log;
    }
  }

  lemma QuietLogKept(db: Db, next: Db)
    requires Extends(db, next) && LogOk(db) && next.log == db.log
    ensures LogOk(next)
  {
    forall q | q in next.log ensures RecordOk(next, q) {
      RecordKept(db, next, q);
    }
  }

  // ---------------------------------------------------------------- one body step

  /** What a body step does to its own job and to the database. */
  ghost predicate TurnOk(db: Db, pid: Pid, job: Job, next: Db, job': Job) {
    && Extends(db, next) && LogOk(next) && JobOk(next, pid, job')
    && job'.CreateJob? == job.CreateJob? && job'.Identities() == job.Identities()
    && (next.log == db.log || (|next.log| == |db.log| + 1 && Written(job, pid, next.log[|db.log|])))
  }

  /** The incidents a job may open: its own, for its own group. */
  ghost predicate Opens(db: Db, next: Db, pid: Pid, job: Job) {
    forall id :: id in next.incidents && id !in db.incidents ==>
      job.StartJob? && next.incidents[id].opener == Some(pid) && next.incidents[id].group == Some(job.ref)
  }

  /** The record a job may write at its stage. */
  ghost predicate Written(job: Job, pid: Pid, r: Record) {
    && r.writer == pid
    && if job.CreateJob? then r.Created? && r.digest == job.key
       else !r.Created? && r.ref == job.ref
  }

  lemma CreateTurnOk(db: Db, pid: Pid, job: Job, choice: Choice)
    requires job.CreateJob? && ChoiceOk(db, job, choice) && LogOk(db) && JobOk(db, pid, job)
    ensures var (next, job') := Turn(db, pid, job, choice); TurnOk(db, pid, job, next, job')
  {
    var (next, job') := Turn(db, pid, job, choice);
    match job.create
    case CheckKey =>
      if job.key.Some? { FirstDecidingFinds(db.log, job.key.value, job.fingerprint); }
      forall r | r in db.log ensures RecordOk(db, r) {
      }
    case Validate =>
    case WriteScenario =>
      var r := next.log[|db.log|];
      assert next.log == db.log + [r] && r in next.log;
      forall q | q in db.log ensures !Clash(q, r) {
        assert RecordOk(db, q);
      }
      LogKept(db, next, r);
  }

  lemma StartReadsOk(db: Db, pid: Pid, job: Job, choice: Choice)
    requires job.StartJob? && ChoiceOk(db, job, choice) && LogOk(db) && JobOk(db, pid, job)
    requires job.start in {CheckStarted, CheckForeign, FindRequest} || job.start.TakeSnapshot? || job.start.CheckOwners?
    ensures var (next, job') := Turn(db, pid, job, choice); TurnOk(db, pid, job, next, job')
  {
    match job.start
    case CheckStarted => FirstStartedFinds(db.log, job.ref);
    case FindRequest => FirstRequestedFinds(db.log, job.ref);
    case _ =>
  }

  lemma OpeningOk(db: Db, pid: Pid, job: Job, choice: Choice)
    requires job.StartJob? && job.start.Opening? && ChoiceOk(db, job, choice) && LogOk(db) && JobOk(db, pid, job)
    ensures var (next, job') := Turn(db, pid, job, choice); TurnOk(db, pid, job, next, job')
  {
    var (next, job') := Turn(db, pid, job, choice);
    QuietLogKept(db, next);
    if |job.start.members| == |job.start.rows| {
      AllRowsPassed(db, job.ref, job.flights, job.start.rows, job.start.members);
    }
  }

  /** When every row has its incident, every member is covered. */
  lemma AllRowsPassed(db: Db, ref: Ref, flights: seq<Flight>, rows: seq<MemberRow>, members: seq<IncidentId>)
    requires RowsLast(db, ref, flights, rows) && FoundMembers(db, rows, members) && |members| == |rows|
    ensures MembersCovered(db, flights, members)
  {
    forall id | id in members ensures id in db.incidents && db.incidents[id].flight in flights {
      var i :| 0 <= i < |members| && members[i] == id;
      assert rows[i] in rows;
    }
    forall f | f in flights ensures Covers(db, members, f) {
      assert HasRow(rows, f);
      var row :| row in rows && row.flight == f;
      var i :| 0 <= i < |rows| && rows[i] == row;
      assert members[i] in members;
    }
  }

  lemma StartWritesOk(db: Db, pid: Pid, job: Job, choice: Choice)
    requires job.StartJob? && ChoiceOk(db, job, choice) && LogOk(db) && JobOk(db, pid, job)
    requires job.start == WriteRequest || job.start.WriteStarted?
    ensures var (next, job') := Turn(db, pid, job, choice); TurnOk(db, pid, job, next, job')
  {
    var (next, job') := Turn(db, pid, job, choice);
    var r := next.log[|db.log|];
    assert next.log == db.log + [r] && r in next.log;
    assert forall q :: q in db.log ==> q in next.log;
    LogKept(db, next, r);
  }

  lemma TurnIsOk(db: Db, pid: Pid, job: Job, choice: Choice)
    requires ChoiceOk(db, job, choice) && LogOk(db) && JobOk(db, pid, job)
    ensures var (next, job') := Turn(db, pid, job, choice); TurnOk(db, pid, job, next, job')
  {
    if job.CreateJob? {
      CreateTurnOk(db, pid, job, choice);
    } else if job.start.Opening? {
      OpeningOk(db, pid, job, choice);
    } else if job.start == WriteRequest || job.start.WriteStarted? {
      StartWritesOk(db, pid, job, choice);
    } else {
      StartReadsOk(db, pid, job, choice);
    }
  }

  lemma TurnOpens(db: Db, pid: Pid, job: Job, choice: Choice)
    requires ChoiceOk(db, job, choice) && JobOk(db, pid, job) && OpeningsOk(db, pid, job)
    ensures var (next, job') := Turn(db, pid, job, choice); Opens(db, next, pid, job) && OpeningsOk(next, pid, job')
  {
    if job.StartJob? && job.start.Opening? && |job.start.members| < |job.start.rows| {
      OneMoreOpening(db, pid, job, choice);
    } else if job.StartJob? && job.start.TakeSnapshot? {
      NoneShownWithout(db, job.ref, job.flights, choice.rows);
    }
  }

  /** At the snapshot, a member shown without an incident has none in the group. */
  lemma NoneShownWithout(db: Db, ref: Ref, flights: seq<Flight>, rows: seq<MemberRow>)
    requires RowsOk(db, ref, flights, rows)
    ensures forall id :: id in db.incidents ==> !ShownWithout(db.incidents[id], ref, rows)
  {
    forall id | id in db.incidents ensures !ShownWithout(db.incidents[id], ref, rows) {
      var flight := db.incidents[id].flight;
      if MemberRow(flight, None) in rows {
        assert RowOk(db, ref, flights, MemberRow(flight, None));
        assert !OfGroup(db, id, ref, flight);
      }
    }
  }

  /** One row: its incident, or one through open_incident. Then the incident is listed as opened; it is a
      new one exactly when the flight had no active incident, and otherwise not one this request opened. */
  lemma OneMoreOpening(db: Db, pid: Pid, job: Job, choice: Choice)
    requires job.StartJob? && job.start.Opening? && |job.start.members| < |job.start.rows|
    requires ChoiceOk(db, job, choice) && JobOk(db, pid, job) && OpeningsOk(db, pid, job)
    ensures var (next, job') := Turn(db, pid, job, choice);
            var row := job.start.rows[|job.start.members|];
            && Opens(db, next, pid, job) && OpeningsOk(next, pid, job') && job'.start.Opening?
            && if row.incident.Some?
               then next == db && job'.start.openedIds == job.start.openedIds
                    && job'.start.members == job.start.members + [row.incident.value]
               else job'.start.members == job.start.members + [choice.id]
                    && (choice.id !in db.incidents <==> !HasActive(db, row.flight))
                    && (if HasActive(db, row.flight) then next == db && db.incidents[choice.id].opener != Some(pid)
                        else choice.id in next.incidents && next.incidents[choice.id].opener == Some(pid))
                    && (forall id :: id in job'.start.openedIds <==> id in job.start.openedIds || id == choice.id)
  {
    var (next, job') := Turn(db, pid, job, choice);
    var members, rows := job.start.members, job.start.rows;
    var more, row := job'.start.members, rows[|members|];
    assert forall id :: id in members ==> id in more;
    assert more[|more| - 1] in more;
    assert rows[..|members| + 1] == rows[..|members|] + [row];
    NotAmongEarlier(rows, |members|);
    assert row.incident.None? ==> row == MemberRow(row.flight, None);
  }

  /** Whether opened or found, the incident is an active one of the flight. */
  lemma OpeningIsActive(db: Db, pid: Pid, job: Job, choice: Choice)
    requires job.StartJob? && job.start.Opening? && |job.start.members| < |job.start.rows| && ChoiceOk(db, job, choice)
    ensures var row, next := job.start.rows[|job.start.members|], Turn(db, pid, job, choice).0;
            row.incident.None? ==>
              choice.id in next.incidents && next.incidents[choice.id].active && next.incidents[choice.id].flight == row.flight
  {
  }

  lemma NotAmongEarlier(rows: seq<MemberRow>, n: nat)
    requires NoRepeats(rows) && n < |rows|
    ensures rows[n] !in rows[..n]
  {
  }

  // ---------------------------------------------------------------- the invariant is kept

  /** While one request may write a record, no other request can be threatened by it: they would both
      be inside with a common lock. */
  lemma NobodyElseIsThreatened(s: Sys, pid: Pid, other: Pid, r: Record, hash: Identity -> Locks.Key)
    requires Inv(s, hash) && InsideUndone(s, pid) && other in s.jobs && other != pid
    requires Written(s.jobs[pid], pid, r)
    ensures !Threatens(s.jobs[other], r)
  {
    var job, rival := s.jobs[pid], s.jobs[other];
    assert RequestInv(s, pid, hash) && RequestInv(s, other, hash);
    if Threatens(rival, r) {
      var shared := if job.CreateJob? then CreateKey(job.key.value) else StartOf(job.ref);
      assert shared in job.Identities() && shared in rival.Identities();
      Locks.MutualExclusion(s.locks, pid, other, hash(shared));
    }
  }

  /** Nor can it open an incident that another running start would take for its own. */
  lemma NobodyElseIsIntruded(s: Sys, pid: Pid, next: Db, other: Pid, hash: Identity -> Locks.Key)
    requires Inv(s, hash) && InsideUndone(s, pid) && other in s.jobs && other != pid
    requires Opens(s.db, next, pid, s.jobs[pid])
    ensures NewIncidentsHarmless(s.db, next, other, s.jobs[other])
  {
    var job, rival := s.jobs[pid], s.jobs[other];
    assert RequestInv(s, pid, hash) && RequestInv(s, other, hash);
    if job.StartJob? && rival.StartJob? && rival.start.Opening? && rival.ref == job.ref {
      assert StartOf(job.ref) in job.Identities() && StartOf(job.ref) in rival.Identities();
      Locks.MutualExclusion(s.locks, pid, other, hash(StartOf(job.ref)));
    }
  }

  lemma BodyKeepsOtherJobs(s: Sys, pid: Pid, next: Db, other: Pid, hash: Identity -> Locks.Key)
    requires Inv(s, hash) && InsideUndone(s, pid) && other in s.jobs && other != pid && Extends(s.db, next)
    requires next.log == s.db.log || (|next.log| == |s.db.log| + 1 && Written(s.jobs[pid], pid, next.log[|s.db.log|]))
    ensures JobOk(next, other, s.jobs[other])
  {
    if |next.log| == |s.db.log| + 1 {
      var r := next.log[|s.db.log|];
      if next.log != s.db.log { NobodyElseIsThreatened(s, pid, other, r, hash); }
      OnlyNewRecord(s.db, next, r);
    }
    assert RequestInv(s, other, hash);
    JobKept(s.db, next, other, s.jobs[other]);
  }

  lemma OnlyNewRecord(db: Db, next: Db, r: Record)
    requires Extends(db, next) && |next.log| == |db.log| + 1 && next.log[|db.log|] == r
    ensures forall q :: q in next.log && q !in db.log ==> q == r
  {
    assert next.log == db.log + [r];
  }

  lemma BodyKeepsOtherOpenings(s: Sys, pid: Pid, next: Db, other: Pid, hash: Identity -> Locks.Key)
    requires Inv(s, hash) && InsideUndone(s, pid) && other in s.jobs && other != pid
    requires Extends(s.db, next) && Opens(s.db, next, pid, s.jobs[pid])
    ensures OpeningsOk(next, other, s.jobs[other])
  {
    assert RequestInv(s, other, hash);
    NobodyElseIsIntruded(s, pid, next, other, hash);
    OpeningsKept(s.db, next, other, s.jobs[other]);
  }

  /** One request's job and the database change: what is left to show. */
  lemma JobReplaced(s: Sys, pid: Pid, job: Job, db: Db, hash: Identity -> Locks.Key)
    requires Inv(s, hash) && pid in s.jobs && LogOk(db) && WritersKnown(db, s.jobs)
    requires pid in s.locks.requests && LinkOk(s.locks.requests[pid], job, hash) && JobOk(db, pid, job) && OpeningsOk(db, pid, job)
    requires forall other :: other in s.jobs && other != pid ==>
               JobOk(db, other, s.jobs[other]) && OpeningsOk(db, other, s.jobs[other])
    ensures Inv(Sys(s.locks, s.jobs[pid := job], db), hash)
  {
    var after := Sys(s.locks, s.jobs[pid := job], db);
    assert after.jobs.Keys == s.jobs.Keys;
    forall other | other in after.jobs ensures RequestInv(after, other, hash) {
      Linked(s, other, hash);
      assert after.jobs[other] == if other == pid then job else s.jobs[other];
    }
  }

  lemma Linked(s: Sys, pid: Pid, hash: Identity -> Locks.Key)
    requires Inv(s, hash) && pid in s.jobs
    ensures pid in s.locks.requests && LinkOk(s.locks.requests[pid], s.jobs[pid], hash)
  {
    assert RequestInv(s, pid, hash);
  }

  lemma BodyKeeps(s: Sys, pid: Pid, choice: Choice, hash: Identity -> Locks.Key)
    requires Inv(s, hash) && Enabled(s, Body(pid, choice))
    ensures Inv(Apply(s, Body(pid, choice), hash), hash)
  {
    assert RequestInv(s, pid, hash);
    TurnIsOk(s.db, pid, s.jobs[pid], choice);
    TurnOpens(s.db, pid, s.jobs[pid], choice);
    var (next, job') := Turn(s.db, pid, s.jobs[pid], choice);
    forall other | other in s.jobs && other != pid
      ensures JobOk(next, other, s.jobs[other]) && OpeningsOk(next, other, s.jobs[other])
    {
      BodyKeepsOtherJobs(s, pid, next, other, hash);
      BodyKeepsOtherOpenings(s, pid, next, other, hash);
    }
    WritersStayKnown(s.db, next, s.jobs, pid, s.jobs[pid]);
    JobReplaced(s, pid, job', next, hash);
  }

  lemma WritersStayKnown(db: Db, next: Db, jobs: map<Pid, Job>, pid: Pid, job: Job)
    requires Opens(db, next, pid, job)
    requires WritersKnown(db, jobs) && Extends(db, next) && pid in jobs
    requires next.log == db.log || (|next.log| == |db.log| + 1 && next.log[|db.log|].writer == pid)
    ensures WritersKnown(next, jobs)
  {
    forall r | r in next.log ensures r.writer in jobs {
      assert r in db.log || r == next.log[|db.log|];
    }
  }

  lemma ArriveKeeps(s: Sys, pid: Pid, job: Job, hash: Identity -> Locks.Key)
    requires Inv(s, hash) && pid !in s.jobs && job.Fresh() && !job.Done()
    requires job.StartJob? ==> job.ref in s.db.groups && s.db.groups[job.ref] == job.flights
    ensures Inv(Arrive(s, pid, job, hash), hash)
  {
    var keys := set i | i in job.Identities() :: hash(i);
    Locks.EnterKeeps(s.locks, pid, keys);
    var after := Arrive(s, pid, job, hash);
    assert WroteNothing(s.db, pid);
    assert LinkOk(after.locks.requests[pid], job, hash) && JobOk(after.db, pid, job);
    forall other | other in after.jobs ensures RequestInv(after, other, hash) {
      if other != pid { assert RequestInv(s, other, hash); }
    }
  }

  lemma LockKeepsRequest(s: Sys, lock: Locks.LockStep, pid: Pid, hash: Identity -> Locks.Key)
    requires Locks.Inv(s.locks) && Enabled(s, Lock(lock)) && RequestInv(s, pid, hash)
    ensures RequestInv(Apply(s, Lock(lock), hash), pid, hash)
  {
    Locks.StepDoesWork(s.locks, lock);
    if pid == lock.pid {
      FailedIsOk(s.db, pid, s.jobs[pid]);
      UnansweredIsOk(s.db, pid, s.jobs[pid]);
      LinkKept(s.locks, lock, s.jobs[pid], hash);
    }
  }

  lemma LockKeeps(s: Sys, lock: Locks.LockStep, hash: Identity -> Locks.Key)
    requires Inv(s, hash) && Enabled(s, Lock(lock))
    ensures Inv(Apply(s, Lock(lock), hash), hash)
  {
    Locks.StepKeeps(s.locks, lock);
    Locks.StepDoesWork(s.locks, lock);
    assert Apply(s, Lock(lock), hash).jobs.Keys == s.jobs.Keys;
    forall pid | pid in s.jobs ensures RequestInv(Apply(s, Lock(lock), hash), pid, hash) {
      LockKeepsRequest(s, lock, pid, hash);
    }
  }

  lemma LinkKept(locks: Locks.Locks, lock: Locks.LockStep, job: Job, hash: Identity -> Locks.Key)
    requires Locks.Inv(locks) && Locks.Enabled(locks, lock) && LinkOk(locks.requests[lock.pid], job, hash)
    requires lock.Leave? ==> job.Done()
    ensures LinkOk(Locks.Apply(locks, lock).requests[lock.pid], AfterLock(job, lock), hash)
  {
    assert job.Failed().Identities() == job.Identities() && job.Unanswered().Identities() == job.Identities();
  }

  lemma FailedIsOk(db: Db, pid: Pid, job: Job)
    requires JobOk(db, pid, job)
    ensures !job.Done() ==> JobOk(db, pid, job.Failed())
    ensures OpeningsOk(db, pid, job.Failed())
    ensures job.Failed().Done() && job.Failed().Identities() == job.Identities()
  {
  }

  lemma UnansweredIsOk(db: Db, pid: Pid, job: Job)
    requires JobOk(db, pid, job) && OpeningsOk(db, pid, job)
    ensures job.Done() ==> JobOk(db, pid, job.Unanswered())
    ensures OpeningsOk(db, pid, job.Unanswered())
    ensures job.Unanswered().Done() && !job.Unanswered().Answered() && job.Unanswered().Identities() == job.Identities()
  {
  }

  lemma LosingKeeps(s: Sys, pid: Pid, hash: Identity -> Locks.Key)
    requires Inv(s, hash) && Enabled(s, LoseAnswer(pid))
    ensures Inv(Apply(s, LoseAnswer(pid), hash), hash)
  {
    assert RequestInv(s, pid, hash);
    UnansweredIsOk(s.db, pid, s.jobs[pid]);
    OthersStayOk(s, hash);
    JobReplaced(s, pid, s.jobs[pid].Unanswered(), s.db, hash);
  }

  lemma OthersStayOk(s: Sys, hash: Identity -> Locks.Key)
    requires Inv(s, hash)
    ensures forall other :: other in s.jobs ==> JobOk(s.db, other, s.jobs[other]) && OpeningsOk(s.db, other, s.jobs[other])
  {
    forall other | other in s.jobs ensures JobOk(s.db, other, s.jobs[other]) && OpeningsOk(s.db, other, s.jobs[other]) {
      assert RequestInv(s, other, hash);
    }
  }

  lemma FailKeeps(s: Sys, pid: Pid, hash: Identity -> Locks.Key)
    requires Inv(s, hash) && Enabled(s, Fail(pid))
    ensures Inv(Apply(s, Fail(pid), hash), hash)
  {
    assert RequestInv(s, pid, hash);
    FailedIsOk(s.db, pid, s.jobs[pid]);
    OthersStayOk(s, hash);
    JobReplaced(s, pid, s.jobs[pid].Failed(), s.db, hash);
  }

  lemma OthersKeep(s: Sys, step: Step, hash: Identity -> Locks.Key)
    requires Inv(s, hash) && Enabled(s, step) && (step.OtherOpens? || step.OtherCloses?)
    ensures Inv(Apply(s, step, hash), hash)
  {
    var after := Apply(s, step, hash);
    assert Extends(s.db, after.db);
    QuietLogKept(s.db, after.db);
    forall pid | pid in s.jobs ensures RequestInv(after, pid, hash) {
      assert RequestInv(s, pid, hash);
      JobKept(s.db, after.db, pid, s.jobs[pid]);
      OpeningsKept(s.db, after.db, pid, s.jobs[pid]);
    }
  }

  lemma StepKeeps(s: Sys, step: Step, hash: Identity -> Locks.Key)
    requires Inv(s, hash) && Enabled(s, step)
    ensures Inv(Apply(s, step, hash), hash)
  {
    match step
    case ArriveCreate(pid, key, fingerprint, flights) => ArriveKeeps(s, pid, CreateJob(key, fingerprint, flights, CheckKey), hash);
    case ArriveStart(pid, ref, actor) => ArriveKeeps(s, pid, StartJob(ref, s.db.groups[ref], actor, CheckStarted), hash);
    case Lock(lock) => LockKeeps(s, lock, hash);
    case Body(pid, choice) => BodyKeeps(s, pid, choice, hash);
    case Fail(pid) => FailKeeps(s, pid, hash);
    case LoseAnswer(pid) => LosingKeeps(s, pid, hash);
    case _ => OthersKeep(s, step, hash);
  }

  /** The state a run of steps leads to from the empty system; None if some step was not enabled. */
  ghost function Run(steps: seq<Step>, hash: Identity -> Locks.Key): Option<Sys> {
    if steps == [] then Some(START)
    else
      match Run(steps[..|steps| - 1], hash)
      case None => None
      case Some(before) =>
        if Enabled(before, steps[|steps| - 1]) then Some(Apply(before, steps[|steps| - 1], hash)) else None
  }

  lemma {:induction false} ReachableIsOk(steps: seq<Step>, hash: Identity -> Locks.Key)
    requires Run(steps, hash).Some?
    ensures Inv(Run(steps, hash).value, hash)
  {
    if steps != [] {
      ReachableIsOk(steps[..|steps| - 1], hash);
      StepKeeps(Run(steps[..|steps| - 1], hash).value, steps[|steps| - 1], hash);
    }
  }

  // ---------------------------------------------------------------- what clients may rely on

  lemma SameRecord(db: Db, a: Record, b: Record)
    requires LogOk(db) && a in db.log && b in db.log && Clash(a, b)
    ensures a == b
  {
    var i :| 0 <= i < |db.log| && db.log[i] == a;
    var j :| 0 <= j < |db.log| && db.log[j] == b;
    assert Clash(db.log[i], db.log[j]) && Clash(db.log[j], db.log[i]);
    assert i == j;
  }

  /** The scenario a create request was answered with, or created without its answer getting out. */
  function ScenarioOf(job: Job): Option<ScenarioView> {
    if job.CreateJob? && job.create.CreateDone? then
      match job.create.outcome
      case CreatedNow(view) => Some(view)
      case CreatedBefore(view) => Some(view)
      case CreateUnanswered(view) => Some(view)
      case _ => None
    else None
  }

  /** It created that scenario itself. */
  predicate Committed(job: Job) {
    job.CreateJob? && job.create.CreateDone? && (job.create.outcome.CreatedNow? || job.create.outcome.CreateUnanswered?)
  }

  function ResultOf(job: Job): Option<StartView> {
    if job.StartJob? && job.start.StartDone? then
      match job.start.outcome
      case StartedNow(view) => Some(view)
      case StartedBefore(view) => Some(view)
      case StartUnanswered(view) => Some(view)
      case _ => None
    else None
  }

  /** It went through, answered or not. */
  predicate WentThrough(job: Job) {
    job.StartJob? && job.start.StartDone? && (job.start.outcome.StartedNow? || job.start.outcome.StartUnanswered?)
  }

  /** In every reachable state: an idempotency key has at most one scenario; all requests that used it and
      were answered, or committed, sent the same payload and have that one scenario. */
  lemma OneScenarioPerKey(steps: seq<Step>, hash: Identity -> Locks.Key, p: Pid, q: Pid)
    requires Run(steps, hash).Some?
    requires var s := Run(steps, hash).value;
             && p in s.jobs && q in s.jobs && ScenarioOf(s.jobs[p]).Some? && ScenarioOf(s.jobs[q]).Some?
             && s.jobs[p].key.Some? && s.jobs[p].key == s.jobs[q].key
    ensures var s := Run(steps, hash).value;
            && ScenarioOf(s.jobs[p]) == ScenarioOf(s.jobs[q])
            && s.jobs[p].fingerprint == s.jobs[q].fingerprint
            && (Committed(s.jobs[p]) && Committed(s.jobs[q]) ==> p == q)
  {
    var s := Run(steps, hash).value;
    ReachableIsOk(steps, hash);
    var a := CreationBehind(s, p, hash);
    var b := CreationBehind(s, q, hash);
    SameRecord(s.db, a, b);
  }

  lemma CreationBehind(s: Sys, p: Pid, hash: Identity -> Locks.Key) returns (r: Record)
    requires Inv(s, hash) && p in s.jobs && ScenarioOf(s.jobs[p]).Some?
    ensures r in s.db.log && r.Created? && r.digest == s.jobs[p].key && r.fingerprint == s.jobs[p].fingerprint
    ensures r.created == ScenarioOf(s.jobs[p])
    ensures Committed(s.jobs[p]) ==> r.writer == p
  {
    assert RequestInv(s, p, hash);
    var job := s.jobs[p];
    match job.create.outcome
    case CreatedNow(view) => r := Created(p, view.ref, job.key, job.fingerprint, Some(view));
    case CreateUnanswered(view) => r := Created(p, view.ref, job.key, job.fingerprint, Some(view));
    case CreatedBefore(view) =>
      r :| r in s.db.log && r.Created? && r.digest == job.key && r.fingerprint == job.fingerprint && r.created == Some(view);
  }

  /** A create request that is over wrote something exactly if it committed, answered or not; one refused
      because its key was used for something else met a different payload. */
  lemma ReuseWritesNothing(steps: seq<Step>, hash: Identity -> Locks.Key, p: Pid)
    requires Run(steps, hash).Some?
    requires var s := Run(steps, hash).value; p in s.jobs && s.jobs[p].CreateJob? && s.jobs[p].create.CreateDone?
    ensures var s := Run(steps, hash).value;
            && (WroteNothing(s.db, p) <==> !Committed(s.jobs[p]))
            && (s.jobs[p].create.outcome == KeyReused ==>
                  exists r :: r in s.db.log && r.Created? && r.digest == s.jobs[p].key && r.fingerprint != s.jobs[p].fingerprint)
  {
    var s := Run(steps, hash).value;
    ReachableIsOk(steps, hash);
    assert RequestInv(s, p, hash);
    if Committed(s.jobs[p]) {
      var r := CreationBehind(s, p, hash);
    }
  }

  /** A creation whose answer was lost is not lost: whoever then asks with the same key and payload gets
      that scenario, in its first step, and writes nothing. */
  lemma RetryIsAnswered(steps: seq<Step>, hash: Identity -> Locks.Key, p: Pid, q: Pid, choice: Choice)
    requires Run(steps, hash).Some?
    requires var s := Run(steps, hash).value;
             && p in s.jobs && q in s.jobs && ScenarioOf(s.jobs[p]).Some? && s.jobs[p].key.Some?
             && s.jobs[q].CreateJob? && s.jobs[q].create == CheckKey
             && s.jobs[q].key == s.jobs[p].key && s.jobs[q].fingerprint == s.jobs[p].fingerprint
    ensures var s := Run(steps, hash).value;
            && ChoiceOk(s.db, s.jobs[q], choice)
            && Turn(s.db, q, s.jobs[q], choice) ==
                 (s.db, s.jobs[q].(create := CreateDone(CreatedBefore(ScenarioOf(s.jobs[p]).value))))
  {
    var s := Run(steps, hash).value;
    ReachableIsOk(steps, hash);
    var a := CreationBehind(s, p, hash);
    var digest, fingerprint := s.jobs[q].key.value, s.jobs[q].fingerprint;
    FirstDecidingFinds(s.db.log, digest, fingerprint);
    assert Decides(a, digest, fingerprint);
    SameRecord(s.db, a, FirstDeciding(s.db.log, digest, fingerprint).value);
  }

  /** In every reachable state a scenario was started at most once: all start requests for it that were
      answered, or went through, have the one recorded result, whose incidents are the group's own, at
      least one for each declared member, and whose actor is the one who first asked. */
  lemma OneStartPerScenario(steps: seq<Step>, hash: Identity -> Locks.Key, p: Pid, q: Pid)
    requires Run(steps, hash).Some?
    requires var s := Run(steps, hash).value;
             && p in s.jobs && q in s.jobs && ResultOf(s.jobs[p]).Some? && ResultOf(s.jobs[q]).Some?
             && s.jobs[p].ref == s.jobs[q].ref
    ensures var s, ref := Run(steps, hash).value, Run(steps, hash).value.jobs[p].ref;
            && ResultOf(s.jobs[p]) == ResultOf(s.jobs[q])
            && (WentThrough(s.jobs[p]) && WentThrough(s.jobs[q]) ==> p == q)
            && ref in s.db.groups
            && OwnMembers(s.db, ref, s.db.groups[ref], ResultOf(s.jobs[p]).value.incidents)
            && RequestedBy(s.db, ref, ResultOf(s.jobs[p]).value.startedBy)
  {
    var s := Run(steps, hash).value;
    ReachableIsOk(steps, hash);
    var a := StartBehind(s, p, hash);
    var b := StartBehind(s, q, hash);
    SameRecord(s.db, a, b);
    assert RecordOk(s.db, a);
  }

  lemma StartBehind(s: Sys, p: Pid, hash: Identity -> Locks.Key) returns (r: Record)
    requires Inv(s, hash) && p in s.jobs && ResultOf(s.jobs[p]).Some?
    ensures r in s.db.log && r.Started? && r.ref == s.jobs[p].ref && ResultOf(s.jobs[p]) == Some(r.started)
    ensures WentThrough(s.jobs[p]) ==> r.writer == p
  {
    assert RequestInv(s, p, hash);
    var job := s.jobs[p];
    match job.start.outcome
    case StartedNow(view) => r := Started(p, job.ref, view);
    case StartUnanswered(view) => r := Started(p, job.ref, view);
    case StartedBefore(view) => r :| r in s.db.log && r.Started? && r.ref == job.ref && r.started == view;
  }

  /** What a start that went through lists as opened: members, among them all it opened itself, and
      nothing another request opened. */
  lemma OpenedIdsExactly(steps: seq<Step>, hash: Identity -> Locks.Key, p: Pid)
    requires Run(steps, hash).Some?
    requires var s := Run(steps, hash).value; p in s.jobs && WentThrough(s.jobs[p])
    ensures var s := Run(steps, hash).value;
            var view, created := ResultOf(s.jobs[p]).value, OpenedBy(s.db, Some(p));
            && (forall id :: id in created ==> id in view.openedIds)
            && (forall id :: id in view.openedIds ==>
                  id in view.incidents && id in s.db.incidents && (id in created || id in OpenedBy(s.db, None)))
            && ((forall id :: id in view.openedIds ==> id in created) <==>
                  forall id :: id in view.openedIds ==> id !in OpenedBy(s.db, None))
  {
    var s := Run(steps, hash).value;
    ReachableIsOk(steps, hash);
    var a := StartBehind(s, p, hash);
    assert RecordOk(s.db, a) && RequestInv(s, p, hash);
    OwnListsOpened(s.db, p, s.jobs[p].ref, s.db.groups[s.jobs[p].ref], ResultOf(s.jobs[p]).value);
  }

  lemma OwnListsOpened(db: Db, pid: Pid, ref: Ref, flights: seq<Flight>, view: StartView)
    requires ListsOpened(db, pid, ref, view.incidents, view.openedIds) && OwnMembers(db, ref, flights, view.incidents)
    ensures forall id :: id in OpenedBy(db, Some(pid)) ==> id in view.openedIds
    ensures forall id :: id in view.openedIds ==>
              id in view.incidents && id in db.incidents && (id in OpenedBy(db, Some(pid)) || id in OpenedBy(db, None))
  {
  }

  ghost function OpenedBy(db: Db, opener: Option<Pid>): set<IncidentId> {
    set id | id in db.incidents && db.incidents[id].opener == opener
  }

  /** Two starts that share the scenario or any member flight are never inside together. */
  lemma OverlappingStartsExclude(steps: seq<Step>, hash: Identity -> Locks.Key, p: Pid, q: Pid)
    requires Run(steps, hash).Some?
    requires var s := Run(steps, hash).value;
             && p in s.jobs && q in s.jobs && s.jobs[p].StartJob? && s.jobs[q].StartJob?
             && p in s.locks.requests && q in s.locks.requests
             && s.locks.requests[p].phase == Locks.Inside && s.locks.requests[q].phase == Locks.Inside
             && (s.jobs[p].ref == s.jobs[q].ref || exists f :: f in s.jobs[p].flights && f in s.jobs[q].flights)
    ensures p == q
  {
    var s := Run(steps, hash).value;
    ReachableIsOk(steps, hash);
    assert RequestInv(s, p, hash) && RequestInv(s, q, hash);
    var shared: Identity;
    if s.jobs[p].ref == s.jobs[q].ref {
      shared := StartOf(s.jobs[p].ref);
    } else {
      var f :| f in s.jobs[p].flights && f in s.jobs[q].flights;
      shared := FlightOf(f);
    }
    assert shared in s.jobs[p].Identities() && shared in s.jobs[q].Identities();
    Locks.MutualExclusion(s.locks, p, q, hash(shared));
  }

  // ---------------------------------------------------------------- progress

  lemma {:induction false} FreshNumber(used: set<nat>) returns (n: nat)
    ensures forall x :: x in used ==> x < n
  {
    n := 0;
    if used != {} {
      assert (forall x :: x !in used) ==> used == {};
      var x :| x in used;
      n := FreshNumber(used - {x});
      assert forall y :: y in used ==> y == x || y in used - {x};
      n := if n <= x then x + 1 else n;
    }
  }

  /** The membership query always has an answer. */
  lemma RowsExist(db: Db, ref: Ref, flights: seq<Flight>) returns (rows: seq<MemberRow>)
    ensures RowsOk(db, ref, flights, rows)
  {
    var shown := set f, id | f in flights && id in db.incidents && OfGroup(db, id, ref, f) :: MemberRow(f, Some(id));
    var bare := set f | f in flights && (forall id :: !OfGroup(db, id, ref, f)) :: MemberRow(f, None);
    rows := Listing(shown + bare);
    forall f | f in flights ensures HasRow(rows, f) {
      if id :| OfGroup(db, id, ref, f) {
        assert MemberRow(f, Some(id)) in rows;
      } else {
        assert MemberRow(f, None) in rows;
      }
    }
  }

  /** A request inside whose body is not over can always take its next body step. */
  lemma BodyCanStep(db: Db, job: Job) returns (choice: Choice)
    requires !job.Done()
    ensures ChoiceOk(db, job, choice)
  {
    var ref := FreshNumber(db.groups.Keys);
    var id := FreshNumber(db.incidents.Keys);
    var rows := [];
    if job.StartJob? && job.start.TakeSnapshot? {
      rows := RowsExist(db, job.ref, job.flights);
    }
    if job.StartJob? && job.start.Opening? && |job.start.members| < |job.start.rows| {
      var flight := job.start.rows[|job.start.members|].flight;
      if HasActive(db, flight) {
        id :| id in db.incidents && db.incidents[id].active && db.incidents[id].flight == flight;
      }
    }
    choice := Choice(ref, id, rows);
  }

  /** In every reachable state with an unfinished request some request can move forward, without
      anything failing: there is no deadlock, neither among locks nor in a body. */
  lemma NoDeadlock(steps: seq<Step>, hash: Identity -> Locks.Key, waiting: Pid) returns (step: Step)
    requires Run(steps, hash).Some?
    requires var s := Run(steps, hash).value;
             waiting in s.locks.requests && s.locks.requests[waiting].phase != Locks.Finished
    ensures Enabled(Run(steps, hash).value, step)
    ensures step.Body? || (step.Lock? && !step.lock.Cancel? && !step.lock.Invalidate?)
  {
    var s := Run(steps, hash).value;
    ReachableIsOk(steps, hash);
    var mover := Locks.SomeoneCanMove(s.locks, waiting);
    if s.locks.requests[mover].phase == Locks.Inside && !s.jobs[mover].Done() {
      var choice := BodyCanStep(s.db, s.jobs[mover]);
      step := Body(mover, choice);
    } else {
      step := Lock(Locks.Forward(s.locks, mover));
    }
  }

  /** How many stages a job has left at most; an answer can still be lost. */
  function StagesLeft(job: Job): nat {
    if job.Done() then (if job.Answered() then 1 else 0)
    else if job.CreateJob? then
      match job.create
      case CheckKey => 4
      case Validate => 3
      case _ => 2
    else
      match job.start
      case CheckStarted => 9
      case CheckForeign => 8
      case FindRequest => 7
      case WriteRequest => 6
      case TakeSnapshot(_) => 5
      case Opening(_, _, _, _) => 4
      case CheckOwners(_, _, _) => 3
      case _ => 2
  }

  /** How many rows the current stage has left. */
  function RowsLeft(job: Job): nat {
    if job.StartJob? && job.start.Opening? && |job.start.members| <= |job.start.rows|
    then |job.start.rows| - |job.start.members| else 0
  }

  datatype Work = Work(stages: nat, rows: nat)

  /** The order of pairs, which has no infinite descent. */
  predicate Less(a: Work, b: Work) { a.stages < b.stages || (a.stages == b.stages && a.rows < b.rows) }

  lemma TurnShrinks(db: Db, pid: Pid, job: Job, choice: Choice)
    requires ChoiceOk(db, job, choice)
    ensures var after := Turn(db, pid, job, choice).1;
            StagesLeft(after) < StagesLeft(job) || (StagesLeft(after) == StagesLeft(job) && RowsLeft(after) < RowsLeft(job))
  {
  }

  lemma EndingShrinks(job: Job)
    ensures StagesLeft(job.Failed()) == 0 == RowsLeft(job.Failed()) && RowsLeft(job.Unanswered()) == 0
    ensures StagesLeft(job.Unanswered()) <= StagesLeft(job) && (job.Answered() ==> StagesLeft(job.Unanswered()) < StagesLeft(job))
    ensures !job.Done() ==> StagesLeft(job) > 1
  {
  }

  /** What a request has still to do, locks and body together. */
  ghost function WorkLeft(s: Sys, pid: Pid): Work
    requires pid in s.jobs && pid in s.locks.requests && Locks.RequestOk(s.locks.requests[pid])
  {
    Work(Locks.Work(s.locks.requests[pid]) + StagesLeft(s.jobs[pid]), RowsLeft(s.jobs[pid]))
  }

  predicate TakenBy(step: Step, pid: Pid) {
    (step.Lock? && step.lock.pid == pid) || ((step.Body? || step.Fail? || step.LoseAnswer?) && step.pid == pid)
  }

  ghost predicate WorkFalls(s: Sys, after: Sys, step: Step, pid: Pid)
    requires pid in s.jobs && pid in s.locks.requests && Locks.RequestOk(s.locks.requests[pid])
  {
    && pid in after.jobs && pid in after.locks.requests && Locks.RequestOk(after.locks.requests[pid])
    && if TakenBy(step, pid) then Less(WorkLeft(after, pid), WorkLeft(s, pid)) else WorkLeft(after, pid) == WorkLeft(s, pid)
  }

  /** Every step a request takes, forward or failing, leaves it less to do, and steps of others leave it
      as much: no request goes on for ever. How many rows there will be is known at its snapshot. */
  lemma RequestsEnd(s: Sys, step: Step, hash: Identity -> Locks.Key, pid: Pid)
    requires Locks.Inv(s.locks) && Enabled(s, step) && pid in s.jobs && pid in s.locks.requests
    ensures WorkFalls(s, Apply(s, step, hash), step, pid)
  {
    match step
    case Lock(lock) =>
      Locks.StepDoesWork(s.locks, lock);
      EndingShrinks(s.jobs[lock.pid]);
    case Body(p, choice) => TurnShrinks(s.db, p, s.jobs[p], choice);
    case Fail(p) => EndingShrinks(s.jobs[p]);
    case LoseAnswer(p) => EndingShrinks(s.jobs[p]);
    case _ =>
  }

  /** A request that ended, however it ended, has an outcome and holds no lock. */
  lemma EndedRequestsHoldNothing(steps: seq<Step>, hash: Identity -> Locks.Key, pid: Pid)
    requires Run(steps, hash).Some?
    requires var s := Run(steps, hash).value; pid in s.locks.requests && s.locks.requests[pid].phase == Locks.Finished
    ensures var s := Run(steps, hash).value;
            pid in s.jobs && s.jobs[pid].Done() && forall key :: key in s.locks.owner ==> s.locks.owner[key] != pid
  {
    var s := Run(steps, hash).value;
    ReachableIsOk(steps, hash);
    assert RequestInv(s, pid, hash);
    Locks.FinishedHoldsNothing(s.locks, pid);
  }
}
