/** Which starts are refused and which go through, told from the incidents a run has on record when the
    start looks at them. */
module ScenarioStarts {
  import opened Prelude
  import opened ScenarioLifecycle
  import opened ScenarioHistory
  import Locks = AdvisoryLocks

  // ---------------------------------------------------------------- what can stand in the way

  /** An active incident of one of the flights belongs to another group or to none. */
  ghost predicate HeldElsewhere(db: Db, ref: Ref, flights: seq<Flight>) {
    exists id :: id in db.incidents && db.incidents[id].active && db.incidents[id].flight in flights
                 && db.incidents[id].group != Some(ref)
  }

  /** One of the incidents belongs to another group or to none. */
  ghost predicate ListsForeign(db: Db, ref: Ref, members: seq<IncidentId>) {
    exists id :: id in members && id in db.incidents && db.incidents[id].group != Some(ref)
  }

  ghost predicate Opposed(db: Db, job: Job) {
    && job.StartJob?
    && ((job.start == CheckForeign && HeldElsewhere(db, job.ref, job.flights)) ||
        (job.start.CheckOwners? && ListsForeign(db, job.ref, job.start.members)))
  }

  /** The start's check turn, or its ownership turn, comes when something stands in its way. */
  ghost predicate OpposedAt(steps: seq<Step>, hash: Identity -> Locks.Key, p: Pid, i: int) {
    TurnAt(steps, hash, p, i) && Opposed(DbAt(steps, hash, p, i), JobAt(steps, hash, p, i))
  }

  ghost predicate WasOpposed(steps: seq<Step>, hash: Identity -> Locks.Key, p: Pid) {
    exists i :: OpposedAt(steps, hash, p, i)
  }

  /** An error came while its locks were given back. */
  ghost predicate UnlockFailed(steps: seq<Step>, p: Pid) {
    exists i :: 0 <= i < |steps| && steps[i] == Lock(Locks.Invalidate(p))
  }

  predicate EndedIn(s: Sys, p: Pid, outcome: StartOutcome) {
    p in s.jobs && Ended(s.jobs[p], outcome)
  }

  predicate Ended(job: Job, outcome: StartOutcome) { job.StartJob? && job.start == StartDone(outcome) }

  // ---------------------------------------------------------------- refused exactly when opposed

  lemma TurnRefuses(db: Db, p: Pid, job: Job, choice: Choice)
    requires ChoiceOk(db, job, choice) && JobOk(db, p, job)
    ensures var (_, job') := Turn(db, p, job, choice);
            (job'.StartJob? && job'.start == StartDone(StartConflict)) <==> Opposed(db, job)
  {
  }

  ghost predicate OpposedNow(s: Sys, step: Step, p: Pid) {
    step.Body? && step.pid == p && p in s.jobs && Opposed(s.db, s.jobs[p])
  }

  lemma OpposedOneMore(steps: seq<Step>, hash: Identity -> Locks.Key, p: Pid, before: Sys)
    requires steps != [] && Run(steps[..|steps| - 1], hash) == Some(before)
    ensures WasOpposed(steps, hash, p) <==>
              WasOpposed(steps[..|steps| - 1], hash, p) || OpposedNow(before, steps[|steps| - 1], p)
  {
    var front := steps[..|steps| - 1];
    forall i | 0 <= i < |front| ensures OpposedAt(front, hash, p, i) <==> OpposedAt(steps, hash, p, i) {
      EarlierTurn(steps, hash, p, i);
    }
    assert OpposedNow(before, steps[|steps| - 1], p) <==> OpposedAt(steps, hash, p, |steps| - 1) by {
      LastTurn(steps, hash, p, before);
    }
    forall i ensures OpposedAt(front, hash, p, i) ==> 0 <= i < |front| {
    }
    forall i ensures OpposedAt(steps, hash, p, i) ==> 0 <= i < |front| || i == |steps| - 1 {
    }
  }

  lemma LastTurn(steps: seq<Step>, hash: Identity -> Locks.Key, p: Pid, before: Sys)
    requires steps != [] && Run(steps[..|steps| - 1], hash) == Some(before)
    ensures OpposedNow(before, steps[|steps| - 1], p) <==> OpposedAt(steps, hash, p, |steps| - 1)
  {
  }

  lemma UnlockOneMore(steps: seq<Step>, p: Pid)
    requires steps != []
    ensures UnlockFailed(steps, p) <==>
              UnlockFailed(steps[..|steps| - 1], p) || steps[|steps| - 1] == Lock(Locks.Invalidate(p))
  {
    var front := steps[..|steps| - 1];
    assert forall i :: 0 <= i < |front| ==> front[i] == steps[i];
  }

  /** What the steps that are not its turns do to a start that is over. */
  lemma OthersEnd(s: Sys, step: Step, hash: Identity -> Locks.Key, p: Pid)
    requires Inv(s, hash) && Enabled(s, step) && !(step.Body? && step.pid == p)
    ensures StaysEnded(s, Apply(s, step, hash), p, step == Lock(Locks.Invalidate(p)))
  {
    var after := Apply(s, step, hash);
    if p in s.jobs {
      Linked(s, p, hash);
      if step.Lock? && step.lock.pid == p {
        LockEnds(s.locks, step.lock, s.jobs[p], hash);
        EndStays(s.jobs[p], after.jobs[p], step.lock.Invalidate?);
      } else {
        OtherEnds(s, step, hash, p);
        EndStays(s.jobs[p], after.jobs[p], false);
      }
    }
  }

  /** The end stays as it is, or an error replaces it. */
  ghost predicate EndKept(job: Job, job': Job, unlocks: bool) {
    if unlocks then job.Done() && job' == job.Unanswered()
    else job' == job || (!job.Done() && job' == job.Failed()) || (job.Answered() && job' == job.Unanswered())
  }

  lemma OtherEnds(s: Sys, step: Step, hash: Identity -> Locks.Key, p: Pid)
    requires Enabled(s, step) && !(step.Body? && step.pid == p) && !(step.Lock? && step.lock.pid == p) && p in s.jobs
    ensures p in Apply(s, step, hash).jobs && EndKept(s.jobs[p], Apply(s, step, hash).jobs[p], false)
  {
  }

  lemma EndStays(job: Job, job': Job, unlocks: bool)
    requires EndKept(job, job', unlocks)
    ensures Ended(job', StartConflict) <==> Ended(job, StartConflict) && !unlocks
    ensures Ended(job, StartFailed) || (Ended(job, StartConflict) && unlocks) ==> Ended(job', StartFailed)
    ensures unlocks || job.Done() ==> job'.Done()
  {
  }

  ghost predicate StaysEnded(s: Sys, after: Sys, p: Pid, unlocks: bool) {
    && (EndedIn(after, p, StartConflict) <==> EndedIn(s, p, StartConflict) && !unlocks)
    && (EndedIn(s, p, StartFailed) || (EndedIn(s, p, StartConflict) && unlocks) ==> EndedIn(after, p, StartFailed))
    && (unlocks || (p in s.jobs && s.jobs[p].Done()) ==> p in after.jobs && after.jobs[p].Done())
  }

  lemma LockEnds(locks: Locks.Locks, lock: Locks.LockStep, job: Job, hash: Identity -> Locks.Key)
    requires Locks.Enabled(locks, lock) && LinkOk(locks.requests[lock.pid], job, hash)
    ensures lock.Invalidate? ==> job.Done() && AfterLock(job, lock) == job.Unanswered()
    ensures lock.Cancel? ==> !job.Done() && AfterLock(job, lock) == job.Failed()
    ensures !lock.Invalidate? && !lock.Cancel? ==> AfterLock(job, lock) == job
  {
  }

  /** What is known of a start after any run, by whether it was opposed and whether its unlock failed. */
  ghost predicate EndsAsOpposed(s: Sys, p: Pid, opposed: bool, unlockFailed: bool) {
    && (opposed && !unlockFailed ==> EndedIn(s, p, StartConflict))
    && (opposed && unlockFailed ==> EndedIn(s, p, StartFailed))
    && (!opposed ==> !EndedIn(s, p, StartConflict))
    && (unlockFailed ==> p in s.jobs && s.jobs[p].Done())
  }

  lemma OwnTurnEnds(s: Sys, step: Step, hash: Identity -> Locks.Key, p: Pid, opposed: bool, unlockFailed: bool)
    requires Inv(s, hash) && Enabled(s, step) && step.Body? && step.pid == p && EndsAsOpposed(s, p, opposed, unlockFailed)
    ensures EndsAsOpposed(Apply(s, step, hash), p, opposed || OpposedNow(s, step, p), unlockFailed)
  {
    assert RequestInv(s, p, hash);
    TurnRefuses(s.db, p, s.jobs[p], step.choice);
  }

  lemma {:induction false} OpposedTells(steps: seq<Step>, hash: Identity -> Locks.Key, p: Pid)
    requires Run(steps, hash).Some?
    ensures EndsAsOpposed(Run(steps, hash).value, p, WasOpposed(steps, hash, p), UnlockFailed(steps, p))
  {
    if steps != [] {
      var before := LastStep(steps, hash);
      var front, last := steps[..|steps| - 1], steps[|steps| - 1];
      OpposedTells(front, hash, p);
      OpposedOneMore(steps, hash, p, before);
      UnlockOneMore(steps, p);
      if last.Body? && last.pid == p {
        OwnTurnEnds(before, last, hash, p, WasOpposed(front, hash, p), UnlockFailed(front, p));
      } else {
        OthersEnd(before, last, hash, p);
      }
    }
  }

  /** A start ends refused by a conflict exactly when an active incident of a member flight was another
      workflow's at its check turn, or an incident it lists was at its ownership turn; unless an error
      while its locks are given back turns the refusal into another failure. */
  lemma ConflictExactly(steps: seq<Step>, hash: Identity -> Locks.Key, p: Pid)
    requires Run(steps, hash).Some?
    ensures EndedIn(Run(steps, hash).value, p, StartConflict) <==>
              (exists i :: OpposedAt(steps, hash, p, i)) && !UnlockFailed(steps, p)
  {
    OpposedTells(steps, hash, p);
  }

  // ---------------------------------------------------------------- refused before anything is written

  ghost predicate RefusedUntouched(s: Sys, p: Pid) {
    && (EndedIn(s, p, StartConflict) || EndedIn(s, p, StartFailed))
    && WroteNothing(s.db, p) && OpenedNothing(s.db, p)
  }

  /** Only its own turns write a request's records and open its incidents. */
  lemma OthersWriteTheirOwn(s: Sys, step: Step, hash: Identity -> Locks.Key, p: Pid)
    requires Inv(s, hash) && Enabled(s, step) && !(step.Body? && step.pid == p)
    ensures WroteNothing(s.db, p) ==> WroteNothing(Apply(s, step, hash).db, p)
    ensures OpenedNothing(s.db, p) ==> OpenedNothing(Apply(s, step, hash).db, p)
  {
    if step.Body? {
      assert RequestInv(s, step.pid, hash);
      TurnIsOk(s.db, step.pid, s.jobs[step.pid], step.choice);
      TurnOpens(s.db, step.pid, s.jobs[step.pid], step.choice);
      OthersRecords(s.db, Turn(s.db, step.pid, s.jobs[step.pid], step.choice).0, step.pid, s.jobs[step.pid], p);
    }
  }

  lemma OthersRecords(db: Db, next: Db, q: Pid, job: Job, p: Pid)
    requires Extends(db, next) && Opens(db, next, q, job) && p != q
    requires next.log == db.log || (|next.log| == |db.log| + 1 && Written(job, q, next.log[|db.log|]))
    ensures WroteNothing(db, p) ==> WroteNothing(next, p)
    ensures OpenedNothing(db, p) ==> OpenedNothing(next, p)
  {
    forall r | r in next.log ensures r in db.log || r.writer == q {
      var i :| 0 <= i < |next.log| && next.log[i] == r;
      assert i < |db.log| ==> db.log[i] == r;
    }
  }

  lemma CheckRefuses(s: Sys, step: Step, hash: Identity -> Locks.Key, p: Pid)
    requires Inv(s, hash) && Enabled(s, step) && step.Body? && step.pid == p
    requires s.jobs[p].StartJob? && s.jobs[p].start == CheckForeign && HeldElsewhere(s.db, s.jobs[p].ref, s.jobs[p].flights)
    ensures RefusedUntouched(Apply(s, step, hash), p)
  {
    assert RequestInv(s, p, hash);
    TurnRefuses(s.db, p, s.jobs[p], step.choice);
  }

  /** If at a start's check turn some active incident of a member flight belongs to another group or to
      none, the start is refused, and has recorded and opened nothing, whatever the run does later. */
  lemma {:induction false} HeldFlightRefuses(steps: seq<Step>, hash: Identity -> Locks.Key, p: Pid, i: nat)
    requires Run(steps, hash).Some? && TurnAt(steps, hash, p, i)
    requires var db, job := DbAt(steps, hash, p, i), JobAt(steps, hash, p, i);
             && job.StartJob? && job.start == CheckForeign
             && exists id :: id in db.incidents && db.incidents[id].active && db.incidents[id].flight in job.flights
                             && db.incidents[id].group != Some(job.ref)
    ensures RefusedUntouched(Run(steps, hash).value, p)
  {
    var before := LastStep(steps, hash);
    var last := steps[|steps| - 1];
    if i == |steps| - 1 {
      CheckRefuses(before, last, hash, p);
    } else {
      EarlierTurn(steps, hash, p, i);
      HeldFlightRefuses(steps[..|steps| - 1], hash, p, i);
      OthersEnd(before, last, hash, p);
      OthersWriteTheirOwn(before, last, hash, p);
    }
  }

  // ---------------------------------------------------------------- nothing without the check

  predicate PastCheck(job: Job) {
    job.StartJob? && (job.start in {FindRequest, WriteRequest} || job.start.TakeSnapshot? || PastSnapshot(job))
  }

  /** The start is past its check, or has recorded or opened something. */
  ghost predicate Acted(s: Sys, p: Pid) {
    p in s.jobs && s.jobs[p].StartJob? && (PastCheck(s.jobs[p]) || !WroteNothing(s.db, p) || !OpenedNothing(s.db, p))
  }

  ghost predicate ChecksNow(s: Sys, step: Step, p: Pid) {
    && step.Body? && step.pid == p && p in s.jobs && s.jobs[p].StartJob? && s.jobs[p].start == CheckForeign
    && !HeldElsewhere(s.db, s.jobs[p].ref, s.jobs[p].flights)
  }

  lemma TurnActs(db: Db, p: Pid, job: Job, choice: Choice)
    requires ChoiceOk(db, job, choice) && JobOk(db, p, job) && OpeningsOk(db, p, job) && job.StartJob?
    ensures var (next, job') := Turn(db, p, job, choice);
            && job'.StartJob? && job'.ref == job.ref && job'.flights == job.flights
            && (PastCheck(job) ||
                (job.start == CheckForeign && !HeldElsewhere(db, job.ref, job.flights)) ||
                (!PastCheck(job') && WroteNothing(next, p) && OpenedNothing(next, p)))
  {
  }

  lemma LeftActs(s: Sys, after: Sys, p: Pid)
    requires Untouched(s, after, p) && after.jobs[p].StartJob? && p in s.jobs
    ensures s.jobs[p].StartJob? && after.jobs[p].ref == s.jobs[p].ref && after.jobs[p].flights == s.jobs[p].flights
    ensures PastCheck(after.jobs[p]) ==> PastCheck(s.jobs[p])
  {
  }

  lemma ActsAfterChecking(s: Sys, step: Step, hash: Identity -> Locks.Key, p: Pid)
    requires Inv(s, hash) && Enabled(s, step) && Acted(Apply(s, step, hash), p)
    ensures Acted(s, p) || ChecksNow(s, step, p)
    ensures p in s.jobs && s.jobs[p].StartJob?
    ensures Apply(s, step, hash).jobs[p].ref == s.jobs[p].ref && Apply(s, step, hash).jobs[p].flights == s.jobs[p].flights
  {
    var after := Apply(s, step, hash);
    if step.Body? && step.pid == p {
      assert RequestInv(s, p, hash);
      TurnActs(s.db, p, s.jobs[p], step.choice);
    } else {
      OthersLeaveIt(s, step, hash, p);
      OthersWriteTheirOwn(s, step, hash, p);
      if p in s.jobs { LeftActs(s, after, p); }
    }
  }

  /** A start that went through, and even one that failed after recording or opening something, had its
      check turn before, and then no active incident of a member flight was another workflow's. */
  lemma {:induction false} CheckedFirst(steps: seq<Step>, hash: Identity -> Locks.Key, p: Pid) returns (i: nat)
    requires Run(steps, hash).Some? && Acted(Run(steps, hash).value, p)
    ensures TurnAt(steps, hash, p, i) && JobAt(steps, hash, p, i).StartJob? && JobAt(steps, hash, p, i).start == CheckForeign
    ensures var s := Run(steps, hash).value;
            !HeldElsewhere(DbAt(steps, hash, p, i), s.jobs[p].ref, s.jobs[p].flights)
  {
    var before := LastStep(steps, hash);
    var last := steps[|steps| - 1];
    ActsAfterChecking(before, last, hash, p);
    if ChecksNow(before, last, p) {
      i := |steps| - 1;
    } else {
      i := CheckedFirst(steps[..|steps| - 1], hash, p);
      EarlierTurn(steps, hash, p, i);
    }
  }

  // ---------------------------------------------------------------- unopposed starts go through

  ghost predicate AllOwn(db: Db, ref: Ref, members: seq<IncidentId>) {
    forall id :: id in members ==> id in db.incidents && db.incidents[id].group == Some(ref)
  }

  /** Nothing stands in the way of the start, now or at any of its later turns. */
  ghost predicate Promising(db: Db, job: Job) {
    && job.StartJob? && job.flights != [] && !HeldElsewhere(db, job.ref, job.flights)
    && (job.start == CheckStarted ==> NotStarted(db, job.ref))
    && (job.start.Opening? || job.start.CheckOwners? ==> AllOwn(db, job.ref, job.start.members))
    && (job.start.StartDone? ==> job.start.outcome.StartedNow?)
  }

  lemma PromisingTurn(db: Db, p: Pid, job: Job, choice: Choice)
    requires ChoiceOk(db, job, choice) && JobOk(db, p, job) && Promising(db, job)
    ensures var (next, job') := Turn(db, p, job, choice);
            Promising(next, job') && job'.ref == job.ref && job'.flights == job.flights
  {
    match job.start
    case CheckStarted => FirstStartedFinds(db.log, job.ref);
    case TakeSnapshot(_) => assert HasRow(choice.rows, job.flights[0]);
    case Opening(_, rows, members, _) =>
      if |members| < |rows| { PromisingRow(db, p, job, choice); }
    case _ =>
  }

  lemma PromisingRow(db: Db, p: Pid, job: Job, choice: Choice)
    requires ChoiceOk(db, job, choice) && JobOk(db, p, job) && Promising(db, job)
    requires job.start.Opening? && |job.start.members| < |job.start.rows|
    ensures var (next, job') := Turn(db, p, job, choice);
            && !HeldElsewhere(next, job.ref, job.flights)
            && job'.start.Opening? && AllOwn(next, job.ref, job'.start.members)
  {
    var row := job.start.rows[|job.start.members|];
    assert row in job.start.rows;
  }

  /** A member flight without an incident in the group is going to get an active one, or has it. */
  ghost predicate Served(db: Db, job: Job, f: Flight) {
    && job.StartJob? && f in job.flights
    && if BeforeSnapshot(job) then forall id :: !OfGroup(db, id, job.ref, f)
       else HasActive(db, f) || (job.start.Opening? && ToCome(job.start.rows, |job.start.members|, f))
  }

  predicate ToCome(rows: seq<MemberRow>, passed: nat, f: Flight) {
    exists i :: passed <= i < |rows| && rows[i] == MemberRow(f, None)
  }

  lemma ServedTurn(db: Db, p: Pid, job: Job, choice: Choice, f: Flight)
    requires ChoiceOk(db, job, choice) && JobOk(db, p, job) && Promising(db, job) && Served(db, job, f)
    ensures var (next, job') := Turn(db, p, job, choice); Served(next, job', f)
  {
    var (next, job') := Turn(db, p, job, choice);
    PromisingTurn(db, p, job, choice);
    QuietTurn(db, p, job, choice, f);
    ActiveStays(db, next, p, job, choice, f);
    match job.start
    case TakeSnapshot(_) =>
      assert HasRow(choice.rows, f);
      var row :| row in choice.rows && row.flight == f;
      assert RowOk(db, job.ref, job.flights, row);
      var i :| 0 <= i < |choice.rows| && choice.rows[i] == row;
    case Opening(_, rows, members, _) =>
      if !HasActive(db, f) && |members| < |rows| {
        OpeningIsActive(db, p, job, choice);
        var i :| |members| <= i < |rows| && rows[i] == MemberRow(f, None);
        if i > |members| { assert |job'.start.members| <= i; }
      }
    case _ =>
  }

  lemma QuietTurn(db: Db, p: Pid, job: Job, choice: Choice, f: Flight)
    requires ChoiceOk(db, job, choice) && job.StartJob?
    ensures var next := Turn(db, p, job, choice).0;
            !job.start.Opening? ==>
              next.incidents == db.incidents && forall id :: OfGroup(next, id, job.ref, f) <==> OfGroup(db, id, job.ref, f)
  {
  }

  lemma ActiveStays(db: Db, next: Db, p: Pid, job: Job, choice: Choice, f: Flight)
    requires ChoiceOk(db, job, choice) && next == Turn(db, p, job, choice).0
    ensures HasActive(db, f) ==> HasActive(next, f)
  {
    if id :| id in db.incidents && db.incidents[id].active && db.incidents[id].flight == f {
      assert id in next.incidents && next.incidents[id].active && next.incidents[id].flight == f;
    }
  }

  ghost predicate AllServed(db: Db, job: Job, bare: set<Flight>) {
    forall f :: f in bare ==> Served(db, job, f)
  }

  /** The member flights the group has no incident for. */
  ghost function Bare(db: Db, job: Job): set<Flight>
    requires job.StartJob?
  {
    set f | f in job.flights && (forall id :: !OfGroup(db, id, job.ref, f))
  }

  lemma ServedAtEnd(db: Db, job: Job, bare: set<Flight>)
    requires AllServed(db, job, bare) && job.StartJob? && job.start.StartDone?
    ensures forall f :: f in bare ==> HasActive(db, f)
  {
  }

  /** One more step of a run. */
  lemma RunOn(steps: seq<Step>, step: Step, hash: Identity -> Locks.Key)
    requires Run(steps, hash).Some? && Enabled(Run(steps, hash).value, step)
    ensures Run(steps + [step], hash) == Some(Apply(Run(steps, hash).value, step, hash))
  {
    assert (steps + [step])[..|steps|] == steps;
  }

  predicate OwnTurns(turns: seq<Step>, p: Pid) {
    forall i :: 0 <= i < |turns| ==> turns[i].Body? && turns[i].pid == p
  }

  ghost predicate PromisingInside(s: Sys, p: Pid) {
    && p in s.jobs && p in s.locks.requests && s.locks.requests[p].phase == Locks.Inside
    && Promising(s.db, s.jobs[p])
  }

  /** The next turn of a promising start brings it nearer its end. */
  lemma PromisingStep(s: Sys, hash: Identity -> Locks.Key, p: Pid, bare: set<Flight>) returns (step: Step, after: Sys)
    requires Inv(s, hash) && PromisingInside(s, p) && !s.jobs[p].Done() && AllServed(s.db, s.jobs[p], bare)
    ensures step.Body? && step.pid == p && Enabled(s, step) && after == Apply(s, step, hash) && Inv(after, hash)
    ensures PromisingInside(after, p) && after.jobs[p].ref == s.jobs[p].ref && Nearer(after.jobs[p], s.jobs[p])
    ensures AllServed(after.db, after.jobs[p], bare)
  {
    assert RequestInv(s, p, hash);
    var choice := BodyCanStep(s.db, s.jobs[p]);
    PromisingTurn(s.db, p, s.jobs[p], choice);
    TurnShrinks(s.db, p, s.jobs[p], choice);
    forall f | f in bare ensures Served(Turn(s.db, p, s.jobs[p], choice).0, Turn(s.db, p, s.jobs[p], choice).1, f) {
      ServedTurn(s.db, p, s.jobs[p], choice, f);
    }
    step := Body(p, choice);
    after := Apply(s, step, hash);
    StepKeeps(s, step, hash);
  }

  predicate Nearer(a: Job, b: Job) {
    StagesLeft(a) < StagesLeft(b) || (StagesLeft(a) == StagesLeft(b) && RowsLeft(a) < RowsLeft(b))
  }

  ghost predicate LeadsTo(s: Sys, turns: seq<Step>, hash: Identity -> Locks.Key, end: Sys) {
    After(s, turns, hash) == Some(end)
  }

  lemma OneTurnMore(s: Sys, step: Step, hash: Identity -> Locks.Key, p: Pid, rest: seq<Step>, end: Sys) returns (turns: seq<Step>)
    requires Enabled(s, step) && step.Body? && step.pid == p
    requires OwnTurns(rest, p) && LeadsTo(Apply(s, step, hash), rest, hash, end)
    ensures OwnTurns(turns, p) && LeadsTo(s, turns, hash, end)
  {
    turns := [step] + rest;
    AfterOne(s, step, rest, hash);
  }

  lemma {:induction false} PromisingGoesThrough(s: Sys, hash: Identity -> Locks.Key, p: Pid, bare: set<Flight>)
    returns (turns: seq<Step>, end: Sys)
    requires Inv(s, hash) && PromisingInside(s, p) && AllServed(s.db, s.jobs[p], bare)
    ensures OwnTurns(turns, p) && LeadsTo(s, turns, hash, end)
    ensures PromisingInside(end, p) && end.jobs[p].Done() && end.jobs[p].ref == s.jobs[p].ref
    ensures AllServed(end.db, end.jobs[p], bare)
    decreases StagesLeft(s.jobs[p]), RowsLeft(s.jobs[p])
  {
    if s.jobs[p].Done() {
      return [], s;
    }
    var step, after := PromisingStep(s, hash, p, bare);
    var rest;
    rest, end := PromisingGoesThrough(after, hash, p, bare);
    turns := OneTurnMore(s, step, hash, p, rest, end);
  }

  /** A run and what follows it are one run. */
  lemma {:induction false} RunAfter(steps: seq<Step>, more: seq<Step>, hash: Identity -> Locks.Key, s: Sys)
    requires Run(steps, hash) == Some(s) && After(s, more, hash).Some?
    ensures Run(steps + more, hash) == After(s, more, hash)
    decreases |more|
  {
    if more == [] {
      assert steps + more == steps;
    } else {
      var first, rest := more[0], more[1..];
      assert steps + [first] + rest == steps + more;
      RunOn(steps, first, hash);
      RunAfter(steps + [first], rest, hash, Apply(s, first, hash));
    }
  }

  /** From every reachable state in which a start is inside, about to begin, the scenario has members and
      was not started, and no other workflow has an active incident of a member flight, the turns of its
      own body lead to the start of the scenario, with the group's own incidents for all members; a member
      that had none has an active one. */
  lemma UnopposedStartGoesThrough(steps: seq<Step>, hash: Identity -> Locks.Key, p: Pid) returns (turns: seq<Step>)
    requires Run(steps, hash).Some?
    requires var s := Run(steps, hash).value;
             && InsideUndone(s, p) && s.jobs[p].StartJob? && s.jobs[p].start == CheckStarted && s.jobs[p].flights != []
             && (forall r :: r in s.db.log && r.Started? ==> r.ref != s.jobs[p].ref)
             && !HeldElsewhere(s.db, s.jobs[p].ref, s.jobs[p].flights)
    ensures OwnTurns(turns, p) && Run(steps + turns, hash).Some?
    ensures var s, end := Run(steps, hash).value, Run(steps + turns, hash).value;
            && p in end.jobs && end.jobs[p].StartJob? && end.jobs[p].ref == s.jobs[p].ref
            && end.jobs[p].start.StartDone? && end.jobs[p].start.outcome.StartedNow?
            && end.jobs[p].ref in end.db.groups
            && OwnMembers(end.db, end.jobs[p].ref, end.db.groups[end.jobs[p].ref], end.jobs[p].start.outcome.now.incidents)
            && forall f :: f in Bare(s.db, s.jobs[p]) ==> HasActive(end.db, f)
  {
    var end;
    ReachableIsOk(steps, hash);
    var s := Run(steps, hash).value;
    turns, end := PromisingGoesThrough(s, hash, p, Bare(s.db, s.jobs[p]));
    ServedAtEnd(end.db, end.jobs[p], Bare(s.db, s.jobs[p]));
    RunAfter(steps, turns, hash, Run(steps, hash).value);
    OneStartPerScenario(steps + turns, hash, p, p);
  }

  /** A scenario that was started answers every later start with the recorded result, in its first turn,
      and writes nothing. */
  lemma RestartIsAnswered(steps: seq<Step>, hash: Identity -> Locks.Key, p: Pid, q: Pid, choice: Choice)
    requires Run(steps, hash).Some?
    requires var s := Run(steps, hash).value;
             && p in s.jobs && q in s.jobs && ResultOf(s.jobs[p]).Some?
             && s.jobs[q].StartJob? && s.jobs[q].start == CheckStarted && s.jobs[q].ref == s.jobs[p].ref
    ensures var s := Run(steps, hash).value;
            && ChoiceOk(s.db, s.jobs[q], choice)
            && Turn(s.db, q, s.jobs[q], choice) ==
                 (s.db, s.jobs[q].(start := StartDone(StartedBefore(ResultOf(s.jobs[p]).value))))
  {
    var s := Run(steps, hash).value;
    ReachableIsOk(steps, hash);
    var a := StartBehind(s, p, hash);
    FirstStartedFinds(s.db.log, s.jobs[q].ref);
    SameRecord(s.db, a, FirstStarted(s.db.log, s.jobs[q].ref).value);
  }

  // ---------------------------------------------------------------- one active incident

  ghost predicate OneActive(db: Db) {
    forall a, b :: BothActive(db, a, b) ==> a == b
  }

  ghost predicate BothActive(db: Db, a: IncidentId, b: IncidentId) {
    && a in db.incidents && b in db.incidents && db.incidents[a].active && db.incidents[b].active
    && db.incidents[a].flight == db.incidents[b].flight
  }

  lemma TurnKeepsOneActive(db: Db, p: Pid, job: Job, choice: Choice)
    requires ChoiceOk(db, job, choice) && OneActive(db)
    ensures OneActive(Turn(db, p, job, choice).0)
  {
    var next := Turn(db, p, job, choice).0;
    forall a, b | BothActive(next, a, b) ensures a == b {
      if a in db.incidents && b in db.incidents {
        assert BothActive(db, a, b);
      }
    }
  }

  lemma StepKeepsOneActive(s: Sys, step: Step, hash: Identity -> Locks.Key)
    requires Enabled(s, step) && OneActive(s.db)
    ensures OneActive(Apply(s, step, hash).db)
  {
    if step.Body? {
      TurnKeepsOneActive(s.db, step.pid, s.jobs[step.pid], step.choice);
    } else {
      var next := Apply(s, step, hash).db;
      forall a, b | BothActive(next, a, b) ensures a == b {
        if a in s.db.incidents && b in s.db.incidents {
          assert BothActive(s.db, a, b);
        }
      }
    }
  }

  /** In every reachable state a flight has at most one active incident, whoever opened it. */
  lemma {:induction false} OneActivePerFlight(steps: seq<Step>, hash: Identity -> Locks.Key)
    requires Run(steps, hash).Some?
    ensures OneActive(Run(steps, hash).value.db)
  {
    if steps != [] {
      var before := LastStep(steps, hash);
      OneActivePerFlight(steps[..|steps| - 1], hash);
      StepKeepsOneActive(before, steps[|steps| - 1], hash);
    }
  }

  // ---------------------------------------------------------------- creations

  /** A key that was used for something else is refused in the first turn, and nothing is written. */
  lemma ReuseIsRefused(steps: seq<Step>, hash: Identity -> Locks.Key, p: Pid, q: Pid, choice: Choice)
    requires Run(steps, hash).Some?
    requires var s := Run(steps, hash).value;
             && p in s.jobs && q in s.jobs && ScenarioOf(s.jobs[p]).Some? && s.jobs[p].key.Some?
             && s.jobs[q].CreateJob? && s.jobs[q].create == CheckKey
             && s.jobs[q].key == s.jobs[p].key && s.jobs[q].fingerprint != s.jobs[p].fingerprint
    ensures var s := Run(steps, hash).value;
            && ChoiceOk(s.db, s.jobs[q], choice)
            && Turn(s.db, q, s.jobs[q], choice) == (s.db, s.jobs[q].(create := CreateDone(KeyReused)))
  {
    var s := Run(steps, hash).value;
    ReachableIsOk(steps, hash);
    var a := CreationBehind(s, p, hash);
    var digest, fingerprint := s.jobs[q].key.value, s.jobs[q].fingerprint;
    FirstDecidingFinds(s.db.log, digest, fingerprint);
    assert Decides(a, digest, fingerprint);
    SameRecord(s.db, a, FirstDeciding(s.db.log, digest, fingerprint).value);
  }

  ghost predicate KeyUnused(db: Db, job: Job) {
    job.CreateJob? && forall r :: r in db.log && r.Created? && r.digest.Some? ==> r.digest != job.key
  }

  lemma KeyTurn(s: Sys, body: Step, hash: Identity -> Locks.Key)
    requires body.Body? && InsideUndone(s, body.pid) && KeyUnused(s.db, s.jobs[body.pid]) && s.jobs[body.pid].create == CheckKey
    ensures Enabled(s, body)
    ensures Apply(s, body, hash) == s.(jobs := s.jobs[body.pid := s.jobs[body.pid].(create := Validate)])
  {
    var job := s.jobs[body.pid];
    if job.key.Some? { FirstDecidingFinds(s.db.log, job.key.value, job.fingerprint); }
  }

  lemma WriteTurns(s: Sys, body: Step, hash: Identity -> Locks.Key) returns (ready: Sys, end: Sys)
    requires body.Body? && InsideUndone(s, body.pid) && s.jobs[body.pid].CreateJob? && s.jobs[body.pid].create == Validate
    requires body.choice.ref !in s.db.groups
    ensures Enabled(s, body) && ready == Apply(s, body, hash)
    ensures Enabled(ready, body) && end == Apply(ready, body, hash)
    ensures Declares(s, end, body.pid, body.choice.ref)
  {
    ready := Apply(s, body, hash);
    end := Apply(ready, body, hash);
    assert end.db.log[|s.db.log|] in end.db.log;
  }

  /** The creation ends with a new group of exactly the declared flights, and a record of it. */
  ghost predicate Declares(s: Sys, end: Sys, p: Pid, ref: Ref) {
    && p in s.jobs && p in end.jobs && s.jobs[p].CreateJob?
    && end.jobs[p] == s.jobs[p].(create := CreateDone(CreatedNow(ScenarioView(ref, s.jobs[p].flights))))
    && end.db.groups == s.db.groups[ref := s.jobs[p].flights] && end.db.incidents == s.db.incidents
    && !WroteNothing(end.db, p)
  }

  /** From every reachable state in which a creation is inside, about to begin, and its key, if it has one,
      was not used, three turns of its own body, where its validation raises nothing, create the scenario. */
  lemma NewKeyCreates(steps: seq<Step>, hash: Identity -> Locks.Key, p: Pid, choice: Choice) returns (end: Sys)
    requires Run(steps, hash).Some?
    requires var s := Run(steps, hash).value;
             InsideUndone(s, p) && KeyUnused(s.db, s.jobs[p]) && s.jobs[p].create == CheckKey && choice.ref !in s.db.groups
    ensures Run(steps + [Body(p, choice)] + [Body(p, choice)] + [Body(p, choice)], hash) == Some(end)
    ensures Declares(Run(steps, hash).value, end, p, choice.ref)
  {
    var s, body := Run(steps, hash).value, Body(p, choice);
    KeyTurn(s, body, hash);
    var checked := Apply(s, body, hash);
    var ready;
    ready, end := WriteTurns(checked, body, hash);
    ThreeMore(steps, body, hash, s, checked, ready);
  }

  lemma ThreeMore(steps: seq<Step>, step: Step, hash: Identity -> Locks.Key, s: Sys, a: Sys, b: Sys)
    requires Run(steps, hash) == Some(s)
    requires Enabled(s, step) && a == Apply(s, step, hash) && Enabled(a, step) && b == Apply(a, step, hash) && Enabled(b, step)
    ensures Run(steps + [step] + [step] + [step], hash) == Some(Apply(b, step, hash))
  {
    RunOn(steps, step, hash);
    RunOn(steps + [step], step, hash);
    RunOn(steps + [step] + [step], step, hash);
  }
}
