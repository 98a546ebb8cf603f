/** What the run behind a lifecycle request tells about its outcome: which incidents a start lists, which
    of them it created, and whether a creation was committed. */
module ScenarioHistory {
  import opened Prelude
  import opened ScenarioLifecycle
  import Locks = AdvisoryLocks

  // ---------------------------------------------------------------- turns of a run

  ghost predicate TurnAt(steps: seq<Step>, hash: Identity -> Locks.Key, p: Pid, i: int) {
    && 0 <= i < |steps| && steps[i].Body? && steps[i].pid == p
    && Run(steps[..i], hash).Some? && p in Run(steps[..i], hash).value.jobs
  }

  ghost function DbAt(steps: seq<Step>, hash: Identity -> Locks.Key, p: Pid, i: int): Db
    requires TurnAt(steps, hash, p, i)
  {
    Run(steps[..i], hash).value.db
  }

  ghost function JobAt(steps: seq<Step>, hash: Identity -> Locks.Key, p: Pid, i: int): Job
    requires TurnAt(steps, hash, p, i)
  {
    Run(steps[..i], hash).value.jobs[p]
  }

  /** A run is a shorter run and one more step. */
  lemma LastStep(steps: seq<Step>, hash: Identity -> Locks.Key) returns (before: Sys)
    requires Run(steps, hash).Some? && steps != []
    ensures var front, last := steps[..|steps| - 1], steps[|steps| - 1];
            && Run(front, hash) == Some(before) && Inv(before, hash)
            && Enabled(before, last) && Run(steps, hash) == Some(Apply(before, last, hash))
  {
    before := Run(steps[..|steps| - 1], hash).value;
    ReachableIsOk(steps[..|steps| - 1], hash);
  }

  /** Earlier turns are those of the shorter run. */
  lemma EarlierTurn(steps: seq<Step>, hash: Identity -> Locks.Key, p: Pid, i: int)
    requires steps != [] && i < |steps| - 1
    ensures var front := steps[..|steps| - 1];
            && (TurnAt(front, hash, p, i) <==> TurnAt(steps, hash, p, i))
            && (TurnAt(steps, hash, p, i) ==>
                  && front[i] == steps[i]
                  && JobAt(front, hash, p, i) == JobAt(steps, hash, p, i)
                  && DbAt(front, hash, p, i) == DbAt(steps, hash, p, i))
  {
    if 0 <= i {
      assert steps[..|steps| - 1][..i] == steps[..i];
    }
  }

  // ---------------------------------------------------------------- the snapshot behind a result

  predicate AtSnapshot(job: Job) { job.StartJob? && job.start.TakeSnapshot? }

  predicate BeforeSnapshot(job: Job) {
    job.StartJob? && (job.start.TakeSnapshot? || job.start in {CheckStarted, CheckForeign, FindRequest, WriteRequest})
  }

  predicate PastSnapshot(job: Job) {
    job.StartJob? && (job.start.Opening? || job.start.CheckOwners? || job.start.WriteStarted? || WentThrough(job))
  }

  /** The member incidents listed so far. */
  function Listed(job: Job): seq<IncidentId>
    requires PastSnapshot(job)
  {
    if job.start.StartDone? then ResultOf(job).value.incidents else job.start.members
  }

  /** The incidents listed as opened so far. */
  function ListedOpened(job: Job): seq<IncidentId>
    requires PastSnapshot(job)
  {
    if job.start.StartDone? then ResultOf(job).value.openedIds else job.start.openedIds
  }

  /** The job works through `rows`, or has gone through all of them. */
  ghost predicate Follows(db: Db, job: Job, rows: seq<MemberRow>) {
    && PastSnapshot(job)
    && (job.start.Opening? ==> job.start.rows == rows)
    && (!job.start.Opening? ==> |Listed(job)| == |rows|)
    && FoundMembers(db, rows, Listed(job))
  }

  ghost predicate TakesSnapshot(s: Sys, step: Step, p: Pid) {
    step.Body? && step.pid == p && p in s.jobs && AtSnapshot(s.jobs[p])
  }

  /** What a step other than its own turn does to a request: it is the one that arrives, or it stays as it
      was, or it fails before its body is over, or an error replaces what its body ended with. */
  ghost predicate Untouched(s: Sys, after: Sys, p: Pid) {
    && p in after.jobs
    && if p !in s.jobs then after.jobs[p].Fresh()
       else || after.jobs[p] == s.jobs[p]
            || (after.jobs[p] == s.jobs[p].Failed() && !s.jobs[p].Done())
            || (after.jobs[p] == s.jobs[p].Unanswered() && s.jobs[p].Done())
  }

  lemma OthersLeaveIt(s: Sys, step: Step, hash: Identity -> Locks.Key, p: Pid)
    requires Inv(s, hash) && Enabled(s, step) && p in Apply(s, step, hash).jobs
    requires !(step.Body? && step.pid == p)
    ensures Untouched(s, Apply(s, step, hash), p)
  {
    if step.Lock? && step.lock.pid == p {
      Linked(s, p, hash);
    }
  }

  /** A turn of a start past its snapshot keeps to the rows. */
  lemma TurnFollows(db: Db, p: Pid, job: Job, choice: Choice)
    requires ChoiceOk(db, job, choice) && LogOk(db) && JobOk(db, p, job)
    requires !AtSnapshot(job) && PastSnapshot(Turn(db, p, job, choice).1)
    ensures var (next, job') := Turn(db, p, job, choice);
            && PastSnapshot(job) && job'.ref == job.ref && job'.flights == job.flights
            && forall rows :: Follows(db, job, rows) ==> Follows(next, job', rows)
  {
    TurnIsOk(db, p, job, choice);
  }

  lemma FollowsKept(db: Db, next: Db, job: Job, rows: seq<MemberRow>)
    requires Extends(db, next) && Follows(db, job, rows)
    ensures Follows(next, job, rows)
  {
  }

  lemma UnansweredIsThrough(job: Job)
    requires PastSnapshot(job.Unanswered()) && job.Done()
    ensures PastSnapshot(job) && !job.start.Opening? && job.Unanswered().ref == job.ref && job.Unanswered().flights == job.flights
    ensures Listed(job.Unanswered()) == Listed(job) && ListedOpened(job.Unanswered()) == ListedOpened(job)
  {
  }

  /** One step of a start past its snapshot, by whomever. */
  lemma StepFollows(s: Sys, step: Step, hash: Identity -> Locks.Key, p: Pid)
    requires Inv(s, hash) && Enabled(s, step) && p in Apply(s, step, hash).jobs && PastSnapshot(Apply(s, step, hash).jobs[p])
    requires !TakesSnapshot(s, step, p)
    ensures var after := Apply(s, step, hash);
            && p in s.jobs && PastSnapshot(s.jobs[p])
            && after.jobs[p].ref == s.jobs[p].ref && after.jobs[p].flights == s.jobs[p].flights
            && forall rows :: Follows(s.db, s.jobs[p], rows) ==> Follows(after.db, after.jobs[p], rows)
  {
    var after := Apply(s, step, hash);
    if step.Body? && step.pid == p {
      assert RequestInv(s, p, hash);
      TurnFollows(s.db, p, s.jobs[p], step.choice);
    } else {
      OthersLeaveIt(s, step, hash, p);
      StepExtends(s, step, hash);
      LeftFollows(s.db, after.db, s.jobs[p], after.jobs[p]);
    }
  }

  lemma LeftFollows(db: Db, next: Db, job: Job, job': Job)
    requires Extends(db, next) && PastSnapshot(job')
    requires job' == job || (job' == job.Failed() && !job.Done()) || (job' == job.Unanswered() && job.Done())
    ensures PastSnapshot(job) && job'.ref == job.ref && job'.flights == job.flights
    ensures forall rows :: Follows(db, job, rows) ==> Follows(next, job', rows)
    ensures ListedOpened(job') == ListedOpened(job)
  {
    if job' != job { UnansweredIsThrough(job); }
    forall rows | Follows(db, job, rows) ensures Follows(next, job, rows) {
      FollowsKept(db, next, job, rows);
    }
  }

  lemma StepExtends(s: Sys, step: Step, hash: Identity -> Locks.Key)
    requires Inv(s, hash) && Enabled(s, step)
    ensures Extends(s.db, Apply(s, step, hash).db)
  {
    if step.Body? {
      assert RequestInv(s, step.pid, hash);
      TurnIsOk(s.db, step.pid, s.jobs[step.pid], step.choice);
    }
  }

  /** The snapshot's own turn. */
  lemma SnapshotStarts(s: Sys, step: Step, hash: Identity -> Locks.Key, p: Pid)
    requires Inv(s, hash) && Enabled(s, step) && TakesSnapshot(s, step, p)
    ensures var after := Apply(s, step, hash);
            && p in after.jobs && after.jobs[p].StartJob? && !BeforeSnapshot(after.jobs[p])
            && after.jobs[p].ref == s.jobs[p].ref && after.jobs[p].flights == s.jobs[p].flights
            && (PastSnapshot(after.jobs[p]) ==>
                  Follows(after.db, after.jobs[p], step.choice.rows) && ListedOpened(after.jobs[p]) == [])
  {
    SnapshotTurn(s.db, p, s.jobs[p], step.choice);
  }

  lemma SnapshotTurn(db: Db, p: Pid, job: Job, choice: Choice)
    requires ChoiceOk(db, job, choice) && AtSnapshot(job)
    ensures var (next, job') := Turn(db, p, job, choice);
            && job'.StartJob? && !BeforeSnapshot(job') && job'.ref == job.ref && job'.flights == job.flights
            && (PastSnapshot(job') ==> Follows(next, job', choice.rows) && ListedOpened(job') == [])
  {
  }

  /** Behind every start past its snapshot there is the turn that took it, and the start lists an incident
      for each of its rows, in order. */
  lemma {:induction false} SnapshotBehind(steps: seq<Step>, hash: Identity -> Locks.Key, p: Pid) returns (i: nat)
    requires Run(steps, hash).Some?
    requires var s := Run(steps, hash).value; p in s.jobs && PastSnapshot(s.jobs[p])
    ensures TurnAt(steps, hash, p, i) && AtSnapshot(JobAt(steps, hash, p, i))
    ensures ChoiceOk(DbAt(steps, hash, p, i), JobAt(steps, hash, p, i), steps[i].choice)
    ensures var s := Run(steps, hash).value;
            && Follows(s.db, s.jobs[p], steps[i].choice.rows)
            && JobAt(steps, hash, p, i).ref == s.jobs[p].ref && JobAt(steps, hash, p, i).flights == s.jobs[p].flights
  {
    var before := LastStep(steps, hash);
    var last := steps[|steps| - 1];
    if TakesSnapshot(before, last, p) {
      i := |steps| - 1;
      SnapshotStarts(before, last, hash, p);
    } else {
      StepFollows(before, last, hash, p);
      i := SnapshotBehind(steps[..|steps| - 1], hash, p);
      EarlierTurn(steps, hash, p, i);
    }
  }

  /** Two incidents of the group are for one of its members. */
  ghost predicate Doubled(db: Db, ref: Ref, flights: seq<Flight>) {
    exists f, a, b :: f in flights && a != b && OfGroup(db, a, ref, f) && OfGroup(db, b, ref, f)
  }

  /** No flight is listed twice. */
  ghost predicate OneEach(db: Db, members: seq<IncidentId>) {
    forall j, k :: 0 <= j < k < |members| ==>
      members[j] in db.incidents && members[k] in db.incidents
      && db.incidents[members[j]].flight != db.incidents[members[k]].flight
  }

  lemma RowsDoubleExactly(db: Db, ref: Ref, flights: seq<Flight>, rows: seq<MemberRow>)
    requires RowsOk(db, ref, flights, rows)
    ensures Doubled(db, ref, flights) <==> exists j, k :: 0 <= j < k < |rows| && rows[j].flight == rows[k].flight
  {
    if j, k :| 0 <= j < k < |rows| && rows[j].flight == rows[k].flight {
      assert rows[j] in rows && rows[k] in rows && rows[j] != rows[k];
      assert RowOk(db, ref, flights, rows[j]) && RowOk(db, ref, flights, rows[k]);
      TwoRowsTwoIncidents(db, ref, flights, rows[j], rows[k]);
    }
    if f, a, b :| f in flights && a != b && OfGroup(db, a, ref, f) && OfGroup(db, b, ref, f) {
      var j :| 0 <= j < |rows| && rows[j] == MemberRow(f, Some(a));
      var k :| 0 <= k < |rows| && rows[k] == MemberRow(f, Some(b));
      assert rows[if j < k then j else k].flight == rows[if j < k then k else j].flight;
    }
  }

  lemma TwoRowsTwoIncidents(db: Db, ref: Ref, flights: seq<Flight>, r: MemberRow, q: MemberRow)
    requires RowOk(db, ref, flights, r) && RowOk(db, ref, flights, q) && r != q && r.flight == q.flight
    ensures Doubled(db, ref, flights)
  {
    if r.incident.Some? {
      assert OfGroup(db, r.incident.value, ref, r.flight);
    }
    if q.incident.Some? {
      assert OfGroup(db, q.incident.value, ref, q.flight);
    }
  }

  /** A start that went through lists one incident for each declared member exactly when, at its snapshot,
      no member flight had two incidents in the group. */
  lemma OneEntryPerMemberExactly(steps: seq<Step>, hash: Identity -> Locks.Key, p: Pid) returns (i: nat)
    requires Run(steps, hash).Some?
    requires var s := Run(steps, hash).value; p in s.jobs && WentThrough(s.jobs[p])
    ensures TurnAt(steps, hash, p, i) && AtSnapshot(JobAt(steps, hash, p, i))
    ensures var s := Run(steps, hash).value;
            OneEach(s.db, ResultOf(s.jobs[p]).value.incidents) <==>
              !Doubled(DbAt(steps, hash, p, i), s.jobs[p].ref, s.jobs[p].flights)
  {
    i := SnapshotBehind(steps, hash, p);
    var s, rows := Run(steps, hash).value, steps[i].choice.rows;
    RowsDoubleExactly(DbAt(steps, hash, p, i), s.jobs[p].ref, s.jobs[p].flights, rows);
    ListedTwiceExactly(s.db, rows, ResultOf(s.jobs[p]).value.incidents);
  }

  lemma ListedTwiceExactly(db: Db, rows: seq<MemberRow>, members: seq<IncidentId>)
    requires FoundMembers(db, rows, members) && |members| == |rows|
    ensures OneEach(db, members) <==> !exists j, k :: 0 <= j < k < |rows| && rows[j].flight == rows[k].flight
  {
    if !OneEach(db, members) {
      var j, k :| 0 <= j < k < |members| && db.incidents[members[j]].flight == db.incidents[members[k]].flight;
      assert rows[j].flight == rows[k].flight;
    }
  }

  // ---------------------------------------------------------------- created or reused

  /** The member is shown without an incident, but by now its flight has an active one. */
  ghost predicate Reuses(db: Db, job: Job) {
    && job.StartJob? && job.start.Opening? && |job.start.members| < |job.start.rows|
    && job.start.rows[|job.start.members|].incident.None?
    && HasActive(db, job.start.rows[|job.start.members|].flight)
  }

  ghost predicate ReuseAt(steps: seq<Step>, hash: Identity -> Locks.Key, p: Pid, i: int) {
    TurnAt(steps, hash, p, i) && Reuses(DbAt(steps, hash, p, i), JobAt(steps, hash, p, i))
  }

  ghost predicate Reused(steps: seq<Step>, hash: Identity -> Locks.Key, p: Pid) {
    exists i :: ReuseAt(steps, hash, p, i)
  }

  ghost predicate ReusesNow(s: Sys, step: Step, p: Pid) {
    step.Body? && step.pid == p && p in s.jobs && Reuses(s.db, s.jobs[p])
  }

  lemma ReusedOneMore(steps: seq<Step>, hash: Identity -> Locks.Key, p: Pid, before: Sys)
    requires steps != [] && Run(steps[..|steps| - 1], hash) == Some(before)
    ensures Reused(steps, hash, p) <==> Reused(steps[..|steps| - 1], hash, p) || ReusesNow(before, steps[|steps| - 1], p)
  {
    var front := steps[..|steps| - 1];
    if i :| ReuseAt(steps, hash, p, i) {
      if i < |steps| - 1 {
        EarlierTurn(steps, hash, p, i);
        assert ReuseAt(front, hash, p, i);
      }
    }
    if i :| ReuseAt(front, hash, p, i) {
      EarlierTurn(steps, hash, p, i);
      assert ReuseAt(steps, hash, p, i);
    }
    if ReusesNow(before, steps[|steps| - 1], p) {
      assert ReuseAt(steps, hash, p, |steps| - 1);
    }
  }

  /** All the listed incidents were opened by the request itself. */
  ghost predicate AllCreated(db: Db, p: Pid, openedIds: seq<IncidentId>) {
    forall id :: id in openedIds ==> id in OpenedBy(db, Some(p))
  }

  lemma TurnTellsReuse(db: Db, p: Pid, job: Job, choice: Choice)
    requires ChoiceOk(db, job, choice) && LogOk(db) && JobOk(db, p, job) && OpeningsOk(db, p, job)
    requires PastSnapshot(job) && PastSnapshot(Turn(db, p, job, choice).1)
    ensures var (next, job') := Turn(db, p, job, choice);
            AllCreated(next, p, ListedOpened(job')) <==> AllCreated(db, p, ListedOpened(job)) && !Reuses(db, job)
  {
    var (next, job') := Turn(db, p, job, choice);
    TurnIsOk(db, p, job, choice);
    ListedOpenedExist(db, p, job);
    SameOpeners(db, next, p, ListedOpened(job));
    if job.start.Opening? && |job.start.members| < |job.start.rows| {
      OneMoreOpening(db, p, job, choice);
    }
  }

  lemma StepTellsReuse(s: Sys, step: Step, hash: Identity -> Locks.Key, p: Pid)
    requires Inv(s, hash) && Enabled(s, step) && p in Apply(s, step, hash).jobs && PastSnapshot(Apply(s, step, hash).jobs[p])
    requires p in s.jobs && PastSnapshot(s.jobs[p])
    ensures var after := Apply(s, step, hash);
            AllCreated(after.db, p, ListedOpened(after.jobs[p])) <==>
              AllCreated(s.db, p, ListedOpened(s.jobs[p])) && !ReusesNow(s, step, p)
  {
    assert RequestInv(s, p, hash);
    var after := Apply(s, step, hash);
    if step.Body? && step.pid == p {
      TurnTellsReuse(s.db, p, s.jobs[p], step.choice);
    } else {
      OthersLeaveIt(s, step, hash, p);
      StepExtends(s, step, hash);
      LeftFollows(s.db, after.db, s.jobs[p], after.jobs[p]);
      ListedOpenedExist(s.db, p, s.jobs[p]);
      SameOpeners(s.db, after.db, p, ListedOpened(s.jobs[p]));
    }
  }

  lemma TurnBefore(db: Db, p: Pid, job: Job, choice: Choice)
    requires ChoiceOk(db, job, choice) && BeforeSnapshot(Turn(db, p, job, choice).1)
    ensures BeforeSnapshot(job) && !Reuses(db, job)
  {
  }

  lemma LeftBefore(s: Sys, after: Sys, p: Pid)
    requires Untouched(s, after, p) && BeforeSnapshot(after.jobs[p])
    ensures p !in s.jobs || BeforeSnapshot(s.jobs[p])
  {
  }

  /** Before its snapshot, a start cannot have reused anything. */
  lemma StepBefore(s: Sys, step: Step, hash: Identity -> Locks.Key, p: Pid)
    requires Inv(s, hash) && Enabled(s, step)
    requires var after := Apply(s, step, hash); p !in after.jobs || BeforeSnapshot(after.jobs[p])
    ensures p !in s.jobs || BeforeSnapshot(s.jobs[p])
    ensures !ReusesNow(s, step, p)
  {
    if step.Body? && step.pid == p {
      TurnBefore(s.db, p, s.jobs[p], step.choice);
    } else if p in Apply(s, step, hash).jobs {
      OthersLeaveIt(s, step, hash, p);
      LeftBefore(s, Apply(s, step, hash), p);
    } else {
      assert p !in s.jobs;
    }
  }

  lemma ListedOpenedExist(db: Db, p: Pid, job: Job)
    requires OpeningsOk(db, p, job) && PastSnapshot(job)
    ensures forall id :: id in ListedOpened(job) ==> id in db.incidents
  {
  }

  lemma SameOpeners(db: Db, next: Db, p: Pid, openedIds: seq<IncidentId>)
    requires Extends(db, next) && forall id :: id in openedIds ==> id in db.incidents
    ensures AllCreated(db, p, openedIds) <==> AllCreated(next, p, openedIds)
  {
    forall id | id in openedIds ensures id in OpenedBy(db, Some(p)) <==> id in OpenedBy(next, Some(p)) {
    }
  }

  lemma {:induction false} ReuseTells(steps: seq<Step>, hash: Identity -> Locks.Key, p: Pid)
    requires Run(steps, hash).Some?
    ensures var s := Run(steps, hash).value;
            && (p !in s.jobs || BeforeSnapshot(s.jobs[p]) ==> !Reused(steps, hash, p))
            && (p in s.jobs && PastSnapshot(s.jobs[p]) ==>
                  (AllCreated(s.db, p, ListedOpened(s.jobs[p])) <==> !Reused(steps, hash, p)))
  {
    if steps != [] {
      var before := LastStep(steps, hash);
      var last, after := steps[|steps| - 1], Run(steps, hash).value;
      ReuseTells(steps[..|steps| - 1], hash, p);
      ReusedOneMore(steps, hash, p, before);
      if p !in after.jobs || BeforeSnapshot(after.jobs[p]) {
        StepBefore(before, last, hash, p);
      } else if PastSnapshot(after.jobs[p]) && TakesSnapshot(before, last, p) {
        SnapshotStarts(before, last, hash, p);
      } else if PastSnapshot(after.jobs[p]) {
        StepFollows(before, last, hash, p);
        StepTellsReuse(before, last, hash, p);
      }
    }
  }

  /** A start that went through lists as opened exactly the incidents it created, if and only if no member
      that its snapshot shows without an incident had an active one when its turn came. */
  lemma ListsCreatedExactly(steps: seq<Step>, hash: Identity -> Locks.Key, p: Pid)
    requires Run(steps, hash).Some?
    requires var s := Run(steps, hash).value; p in s.jobs && WentThrough(s.jobs[p])
    ensures var s := Run(steps, hash).value;
            (forall id :: id in ResultOf(s.jobs[p]).value.openedIds <==> id in OpenedBy(s.db, Some(p))) <==>
              forall i :: !ReuseAt(steps, hash, p, i)
  {
    ReuseTells(steps, hash, p);
    OpenedIdsExactly(steps, hash, p);
  }

  // ---------------------------------------------------------------- committed or not

  ghost predicate CommitAt(steps: seq<Step>, hash: Identity -> Locks.Key, p: Pid, i: int) {
    TurnAt(steps, hash, p, i) && JobAt(steps, hash, p, i).CreateJob? && JobAt(steps, hash, p, i).create == WriteScenario
  }

  ghost predicate CommitsNow(s: Sys, step: Step, p: Pid) {
    step.Body? && step.pid == p && p in s.jobs && s.jobs[p].CreateJob? && s.jobs[p].create == WriteScenario
  }

  lemma {:induction false} CommitTells(steps: seq<Step>, hash: Identity -> Locks.Key, p: Pid)
    requires Run(steps, hash).Some?
    ensures var s := Run(steps, hash).value;
            (exists i :: CommitAt(steps, hash, p, i)) <==> p in s.jobs && Committed(s.jobs[p])
  {
    if steps != [] {
      var before := LastStep(steps, hash);
      var front, last, after := steps[..|steps| - 1], steps[|steps| - 1], Run(steps, hash).value;
      CommitTells(front, hash, p);
      if i :| CommitAt(steps, hash, p, i) && i < |steps| - 1 {
        EarlierTurn(steps, hash, p, i);
        assert CommitAt(front, hash, p, i);
      }
      if i :| CommitAt(front, hash, p, i) {
        EarlierTurn(steps, hash, p, i);
        assert CommitAt(steps, hash, p, i);
      }
      if CommitsNow(before, last, p) {
        assert CommitAt(steps, hash, p, |steps| - 1);
      }
      StepTellsCommit(before, last, hash, p);
    }
  }

  lemma TurnTellsCommit(db: Db, p: Pid, job: Job, choice: Choice)
    requires ChoiceOk(db, job, choice)
    ensures Committed(Turn(db, p, job, choice).1) <==> job.CreateJob? && job.create == WriteScenario
    ensures !Committed(job)
  {
  }

  lemma StepTellsCommit(s: Sys, step: Step, hash: Identity -> Locks.Key, p: Pid)
    requires Inv(s, hash) && Enabled(s, step)
    ensures var after := Apply(s, step, hash);
            (p in after.jobs && Committed(after.jobs[p])) <==> ((p in s.jobs && Committed(s.jobs[p])) || CommitsNow(s, step, p))
  {
    if step.Body? && step.pid == p {
      TurnTellsCommit(s.db, p, s.jobs[p], step.choice);
    } else if p in Apply(s, step, hash).jobs {
      OthersLeaveIt(s, step, hash, p);
      LeftCommitted(s, Apply(s, step, hash), p);
    } else {
      assert p !in s.jobs;
    }
  }

  lemma LeftCommitted(s: Sys, after: Sys, p: Pid)
    requires Untouched(s, after, p)
    ensures Committed(after.jobs[p]) <==> p in s.jobs && Committed(s.jobs[p])
  {
  }

  /** A create request that is over, whether it answered, was refused or failed, wrote something exactly
      if its commit came before its end. */
  lemma WroteExactlyIfCommitted(steps: seq<Step>, hash: Identity -> Locks.Key, p: Pid)
    requires Run(steps, hash).Some?
    requires var s := Run(steps, hash).value; p in s.jobs && s.jobs[p].CreateJob? && s.jobs[p].create.CreateDone?
    ensures !WroteNothing(Run(steps, hash).value.db, p) <==> exists i :: CommitAt(steps, hash, p, i)
  {
    CommitTells(steps, hash, p);
    ReuseWritesNothing(steps, hash, p);
  }

  // ---------------------------------------------------------------- instances

  /** The state after some more steps, each enabled in turn. */
  ghost function After(s: Sys, steps: seq<Step>, hash: Identity -> Locks.Key): Option<Sys>
    decreases |steps|
  {
    if steps == [] then Some(s)
    else if Enabled(s, steps[0]) then After(Apply(s, steps[0], hash), steps[1..], hash)
    else None
  }

  lemma AfterOne(s: Sys, step: Step, rest: seq<Step>, hash: Identity -> Locks.Key)
    requires Enabled(s, step)
    ensures After(s, [step] + rest, hash) == After(Apply(s, step, hash), rest, hash)
  {
    assert ([step] + rest)[1..] == rest;
  }

  /** A create request whose unlock raises after its commit fails with its scenario on record. */
  lemma AnswerCanBeLost(s: Sys, p: Pid, hash: Identity -> Locks.Key)
    requires Inv(s, hash) && p in s.jobs && s.jobs[p].CreateJob? && s.jobs[p].create.CreateDone? && s.jobs[p].create.outcome.CreatedNow?
    requires p in s.locks.requests && s.locks.requests[p].phase == Locks.Releasing
    ensures var step := Lock(Locks.Invalidate(p));
            && Enabled(s, step)
            && var job := Apply(s, step, hash).jobs[p];
               && job.create == CreateDone(CreateUnanswered(s.jobs[p].create.outcome.now))
               && !job.Answered() && !WroteNothing(Apply(s, step, hash).db, p)
  {
    assert RequestInv(s, p, hash);
  }

  /** `p` is inside, about to take its snapshot of a scenario with one member. */
  ghost predicate ReadyForSnapshot(s: Sys, p: Pid, ref: Ref, f: Flight, actor: string) {
    && InsideUndone(s, p) && s.jobs[p].StartJob? && s.jobs[p].ref == ref && s.jobs[p].flights == [f]
    && s.jobs[p].start == TakeSnapshot(actor)
    && !HasActive(s.db, f) && forall id :: !OfGroup(s.db, id, ref, f)
  }

  /** Another workflow opens an incident of the group, closes it and opens a second one for the same
      flight. Nothing foreign is active, the snapshot shows both, and the start is about to record
      two members for the one flight. */
  lemma TwoIncidentsOfOneFlight(
    s: Sys, p: Pid, ref: Ref, f: Flight, actor: string, a: IncidentId, b: IncidentId, hash: Identity -> Locks.Key)
    returns (doubled: Sys, written: Sys)
    requires ReadyForSnapshot(s, p, ref, f, actor) && a !in s.db.incidents && b !in s.db.incidents && a != b
    ensures After(s, [OtherOpens(a, f, Some(ref)), OtherCloses(a), OtherOpens(b, f, Some(ref))], hash) == Some(doubled)
    ensures !ForeignActive(doubled.db, ref, [f]) && Doubled(doubled.db, ref, [f])
    ensures var choice := Choice(0, 0, [MemberRow(f, Some(a)), MemberRow(f, Some(b))]);
            After(doubled, [Body(p, choice), Body(p, choice), Body(p, choice), Body(p, choice), Body(p, choice)], hash)
              == Some(written)
    ensures p in written.jobs && written.jobs[p].StartJob? && written.jobs[p].start == WriteStarted(actor, [a, b], [])
  {
    doubled := OpenedTwice(s, ref, f, a, b, hash);
    RowsOfTwo(s.db, doubled.db, ref, f, a, b);
    written := ThroughTwoRows(doubled, p, ref, f, actor, a, b, hash);
  }

  /** A database with two more incidents of the group for the flight. */
  ghost predicate TwoMore(db: Db, next: Db, ref: Ref, f: Flight, a: IncidentId, b: IncidentId) {
    a != b && next.incidents == db.incidents[a := Incident(f, Some(ref), false, None)][b := Incident(f, Some(ref), true, None)]
  }

  lemma OpenedTwice(s: Sys, ref: Ref, f: Flight, a: IncidentId, b: IncidentId, hash: Identity -> Locks.Key)
    returns (doubled: Sys)
    requires a !in s.db.incidents && b !in s.db.incidents && a != b && !HasActive(s.db, f)
    ensures After(s, [OtherOpens(a, f, Some(ref)), OtherCloses(a), OtherOpens(b, f, Some(ref))], hash) == Some(doubled)
    ensures doubled.locks == s.locks && doubled.jobs == s.jobs && TwoMore(s.db, doubled.db, ref, f, a, b)
  {
    var first, close, second := OtherOpens(a, f, Some(ref)), OtherCloses(a), OtherOpens(b, f, Some(ref));
    var s1 := Apply(s, first, hash);
    var s2 := Apply(s1, close, hash);
    assert !HasActive(s2.db, f);
    doubled := Apply(s2, second, hash);
    assert [second] == [second] + [] && [close, second] == [close] + [second];
    assert [first, close, second] == [first] + [close, second];
    AfterOne(s2, second, [], hash);
    AfterOne(s1, close, [second], hash);
    AfterOne(s, first, [close, second], hash);
  }

  lemma RowsOfTwo(db: Db, next: Db, ref: Ref, f: Flight, a: IncidentId, b: IncidentId)
    requires TwoMore(db, next, ref, f, a, b) && a !in db.incidents && b !in db.incidents
    requires !HasActive(db, f) && forall id :: !OfGroup(db, id, ref, f)
    ensures RowsOk(next, ref, [f], [MemberRow(f, Some(a)), MemberRow(f, Some(b))])
    ensures OfGroup(next, a, ref, f) && OfGroup(next, b, ref, f) && Doubled(next, ref, [f])
    ensures !ForeignActive(next, ref, [f])
  {
    var rows := [MemberRow(f, Some(a)), MemberRow(f, Some(b))];
    assert OfGroup(next, a, ref, f) && OfGroup(next, b, ref, f) && f in [f];
    forall id | OfGroup(next, id, ref, f) ensures id == a || id == b {
      assert !OfGroup(db, id, ref, f);
    }
    assert rows[0] in rows && rows[1] in rows && HasRow(rows, f);
  }

  /** With an own incident for every row, two more turns lead to the write. */
  lemma ToWriting(s: Sys, p: Pid, choice: Choice, hash: Identity -> Locks.Key) returns (written: Sys)
    requires InsideUndone(s, p) && s.jobs[p].StartJob? && s.jobs[p].start.Opening?
    requires |s.jobs[p].start.members| == |s.jobs[p].start.rows|
    requires forall id :: id in s.jobs[p].start.members ==>
               id in s.db.incidents && s.db.incidents[id].group == Some(s.jobs[p].ref)
    ensures After(s, [Body(p, choice), Body(p, choice)], hash) == Some(written)
    ensures var start := s.jobs[p].start;
            && p in written.jobs && written.jobs[p].StartJob? && written.db == s.db
            && written.jobs[p].start == WriteStarted(start.actor, start.members, start.openedIds)
  {
    var start, body := s.jobs[p].start, Body(p, choice);
    var s1 := Apply(s, body, hash);
    assert s1.db == s.db && s1.jobs[p].start == CheckOwners(start.actor, start.members, start.openedIds);
    written := Apply(s1, body, hash);
    assert [body] == [body] + [] && [body, body] == [body] + [body];
    AfterOne(s1, body, [], hash);
    AfterOne(s, body, [body], hash);
  }

  /** A row that shows an incident: the start lists it and changes nothing. */
  lemma ShownRow(s: Sys, p: Pid, choice: Choice, hash: Identity -> Locks.Key) returns (after: Sys)
    requires InsideUndone(s, p) && s.jobs[p].StartJob? && s.jobs[p].start.Opening?
    requires |s.jobs[p].start.members| < |s.jobs[p].start.rows|
    requires s.jobs[p].start.rows[|s.jobs[p].start.members|].incident.Some?
    ensures Enabled(s, Body(p, choice)) && after == Apply(s, Body(p, choice), hash)
    ensures var start := s.jobs[p].start;
            var more := start.members + [start.rows[|start.members|].incident.value];
            after == s.(jobs := s.jobs[p := s.jobs[p].(start := Opening(start.actor, start.rows, more, start.openedIds))])
  {
    after := Apply(s, Body(p, choice), hash);
  }

  lemma ThroughTwoRows(
    s: Sys, p: Pid, ref: Ref, f: Flight, actor: string, a: IncidentId, b: IncidentId, hash: Identity -> Locks.Key)
    returns (written: Sys)
    requires InsideUndone(s, p) && s.jobs[p].StartJob? && s.jobs[p].ref == ref && s.jobs[p].flights == [f]
    requires s.jobs[p].start == TakeSnapshot(actor)
    requires RowsOk(s.db, ref, [f], [MemberRow(f, Some(a)), MemberRow(f, Some(b))])
    requires OfGroup(s.db, a, ref, f) && OfGroup(s.db, b, ref, f)
    ensures var choice := Choice(0, 0, [MemberRow(f, Some(a)), MemberRow(f, Some(b))]);
            After(s, [Body(p, choice), Body(p, choice), Body(p, choice), Body(p, choice), Body(p, choice)], hash) == Some(written)
    ensures p in written.jobs && written.jobs[p].StartJob? && written.jobs[p].start == WriteStarted(actor, [a, b], [])
  {
    var rows := [MemberRow(f, Some(a)), MemberRow(f, Some(b))];
    var step := Body(p, Choice(0, 0, rows));
    var s1 := Apply(s, step, hash);
    assert s1 == s.(jobs := s.jobs[p := s.jobs[p].(start := Opening(actor, rows, [], []))]);
    var s2 := ShownRow(s1, p, step.choice, hash);
    var s3 := ShownRow(s2, p, step.choice, hash);
    assert [] + [a] == [a] && [a] + [b] == [a, b];
    written := ToWriting(s3, p, step.choice, hash);
    AfterOne(s2, step, [step, step], hash);
    AfterOne(s1, step, [step, step, step], hash);
    AfterOne(s, step, [step, step, step, step], hash);
    assert [step, step, step, step, step] == [step] + [step, step, step, step];
  }

  /** Between a start's snapshot and its turn for a member, another workflow opens the incident of the
      group. The start lists it as opened, though it did not create it. */
  lemma ReusedIncidentIsListed(
    s: Sys, p: Pid, ref: Ref, f: Flight, actor: string, a: IncidentId, hash: Identity -> Locks.Key)
    returns (written: Sys)
    requires InsideUndone(s, p) && s.jobs[p].StartJob? && s.jobs[p].ref == ref
    requires s.jobs[p].start == Opening(actor, [MemberRow(f, None)], [], [])
    requires a !in s.db.incidents && !HasActive(s.db, f)
    ensures var body := Body(p, Choice(0, a, []));
            After(s, [OtherOpens(a, f, Some(ref)), body, body, body], hash) == Some(written)
    ensures p in written.jobs && written.jobs[p].StartJob? && written.jobs[p].start == WriteStarted(actor, [a], [a])
    ensures a in OpenedBy(written.db, None)
  {
    var rows, body := [MemberRow(f, None)], Body(p, Choice(0, a, []));
    var s1 := Apply(s, OtherOpens(a, f, Some(ref)), hash);
    assert a in s1.db.incidents && s1.db.incidents[a] == Incident(f, Some(ref), true, None);
    assert HasActive(s1.db, f);
    var s2 := Apply(s1, body, hash);
    assert s2.db == s1.db && s2.jobs[p].start == Opening(actor, rows, [a], [a]);
    written := ToWriting(s2, p, body.choice, hash);
    AfterOne(s1, body, [body, body], hash);
    AfterOne(s, OtherOpens(a, f, Some(ref)), [body, body, body], hash);
    assert [OtherOpens(a, f, Some(ref)), body, body, body] == [OtherOpens(a, f, Some(ref))] + [body, body, body];
  }
}
