/** The advisory locks around a lifecycle operation, as a protocol of many requests. Each takes its
    deduplicated keys in ascending order, runs, and gives them back in reverse. */
module AdvisoryLocks {
  import opened Prelude

  type Pid = nat

  type Key = int

  datatype Phase = Acquiring | Inside | Releasing | Finished

  /** A request that has taken keys[..held]. */
  datatype Request = Request(keys: seq<Key>, held: nat, phase: Phase)

  datatype Locks = Locks(owner: map<Key, Pid>, requests: map<Pid, Request>)

  const NO_LOCKS := Locks(map[], map[])

  datatype LockStep =
    | Acquire(pid: Pid)
    | Cancel(pid: Pid)
    | Leave(pid: Pid)
    | Release(pid: Pid)
    | Invalidate(pid: Pid)

  // ---------------------------------------------------------------- the keys of a request

  ghost predicate StrictlyAscending(keys: seq<Key>) {
    forall i, j :: 0 <= i < j < |keys| ==> keys[i] < keys[j]
  }

  ghost predicate IsLeast(keys: set<Key>, least: Key) {
    least in keys && forall k :: k in keys ==> least <= k
  }

  lemma LeastOfMore(keys: set<Key>, k: Key, least: Key)
    requires k in keys && IsLeast(keys - {k}, least)
    ensures IsLeast(keys, if k < least then k else least)
  {
    forall x | x in keys ensures (if k < least then k else least) <= x {
      assert x == k || x in keys - {k};
    }
  }

  lemma {:induction false} HasLeast(keys: set<Key>)
    requires keys != {}
    ensures exists least :: IsLeast(keys, least)
  {
    assert (forall k :: k !in keys) ==> keys == {};
    var k :| k in keys;
    if keys - {k} == {} {
      forall x | x in keys ensures x == k {
        assert x !in keys - {k};
      }
      assert IsLeast(keys, k);
    } else {
      HasLeast(keys - {k});
      var least :| IsLeast(keys - {k}, least);
      LeastOfMore(keys, k, least);
    }
  }

  /** sorted(keys) */
  ghost function SortedKeys(keys: set<Key>): (r: seq<Key>)
    ensures StrictlyAscending(r)
    ensures forall k :: k in r <==> k in keys
  {
    if keys == {} then []
    else
      HasLeast(keys);
      var least :| IsLeast(keys, least);
      [least] + SortedKeys(keys - {least})
  }

  // ---------------------------------------------------------------- steps

  ghost function Enter(s: Locks, pid: Pid, keys: set<Key>): Locks {
    s.(requests := s.requests[pid := Request(SortedKeys(keys), 0, if keys == {} then Inside else Acquiring)])
  }

  predicate Enabled(s: Locks, step: LockStep) {
    && step.pid in s.requests
    && var r := s.requests[step.pid];
       match step
       case Acquire(_) => r.phase == Acquiring && r.held < |r.keys| && r.keys[r.held] !in s.owner
       case Cancel(_) => r.phase == Acquiring
       case Leave(_) => r.phase == Inside
       case Release(_) => r.phase == Releasing && 0 < r.held <= |r.keys|
       case Invalidate(_) => r.phase == Releasing
  }

  function DropAll(owner: map<Key, Pid>, pid: Pid): map<Key, Pid> {
    map k | k in owner && owner[k] != pid :: owner[k]
  }

  function Apply(s: Locks, step: LockStep): Locks
    requires Enabled(s, step)
  {
    var pid, r := step.pid, s.requests[step.pid];
    match step
    case Acquire(_) =>
      var phase := if r.held + 1 == |r.keys| then Inside else Acquiring;
      Locks(s.owner[r.keys[r.held] := pid], s.requests[pid := r.(held := r.held + 1, phase := phase)])
    case Leave(_) =>
      s.(requests := s.requests[pid := r.(phase := if r.held == 0 then Finished else Releasing)])
    case Release(_) =>
      Locks(s.owner - {r.keys[r.held - 1]},
            s.requests[pid := r.(held := r.held - 1, phase := if r.held == 1 then Finished else Releasing)])
    case _ =>
      // the lock connection is closed, which frees all it holds
      Locks(DropAll(s.owner, pid), s.requests[pid := r.(held := 0, phase := Finished)])
  }

  // ---------------------------------------------------------------- the invariant

  ghost predicate RequestOk(r: Request) {
    && StrictlyAscending(r.keys)
    && match r.phase
       case Acquiring => r.held < |r.keys|
       case Inside => r.held == |r.keys|
       case Releasing => 0 < r.held <= |r.keys|
       case Finished => r.held == 0
  }

  predicate Holds(s: Locks, pid: Pid, key: Key) {
    pid in s.requests && s.requests[pid].held <= |s.requests[pid].keys| && key in s.requests[pid].keys[..s.requests[pid].held]
  }

  /** A key is owned by exactly the request that has taken it and not yet given it back. */
  ghost predicate Inv(s: Locks) {
    && (forall pid :: pid in s.requests ==> RequestOk(s.requests[pid]))
    && (forall pid, key :: Holds(s, pid, key) <==> key in s.owner && s.owner[key] == pid)
  }

  lemma EnterKeeps(s: Locks, pid: Pid, keys: set<Key>)
    requires Inv(s) && pid !in s.requests
    ensures Inv(Enter(s, pid, keys))
  {
    var after := Enter(s, pid, keys);
    if keys == {} {
      assert SortedKeys(keys) == [];
    } else {
      var k :| k in keys;
      assert k in SortedKeys(keys);
    }
    forall p, key ensures Holds(after, p, key) <==> key in after.owner && after.owner[key] == p {
      assert Holds(after, p, key) <==> Holds(s, p, key);
    }
  }

  lemma StepKeeps(s: Locks, step: LockStep)
    requires Inv(s) && Enabled(s, step)
    ensures Inv(Apply(s, step))
  {
    var after, pid, r := Apply(s, step), step.pid, s.requests[step.pid];
    forall p, key ensures Holds(after, p, key) <==> key in after.owner && after.owner[key] == p {
      assert Holds(s, p, key) <==> key in s.owner && s.owner[key] == p;
      if p != pid {
        assert Holds(after, p, key) <==> Holds(s, p, key);
        if step.Release? {
          assert r.keys[r.held - 1] in r.keys[..r.held];
          assert Holds(s, pid, r.keys[r.held - 1]);
        }
      } else if step.Acquire? {
        assert r.keys[..r.held + 1] == r.keys[..r.held] + [r.keys[r.held]];
      } else if step.Release? {
        assert r.keys[..r.held] == r.keys[..r.held - 1] + [r.keys[r.held - 1]];
      }
    }
  }

  // ---------------------------------------------------------------- mutual exclusion, clean exit

  /** Two requests that need a common key are never inside together. */
  lemma MutualExclusion(s: Locks, p: Pid, q: Pid, key: Key)
    requires Inv(s) && p in s.requests && q in s.requests
    requires s.requests[p].phase == Inside && s.requests[q].phase == Inside
    requires key in s.requests[p].keys && key in s.requests[q].keys
    ensures p == q
  {
    assert s.requests[p].keys[..s.requests[p].held] == s.requests[p].keys;
    assert s.requests[q].keys[..s.requests[q].held] == s.requests[q].keys;
    assert Holds(s, p, key) && Holds(s, q, key);
  }

  /** Whichever way a request ended, it left no lock behind. */
  lemma FinishedHoldsNothing(s: Locks, pid: Pid)
    requires Inv(s) && pid in s.requests && s.requests[pid].phase == Finished
    ensures forall key :: key in s.owner ==> s.owner[key] != pid
  {
    forall key | key in s.owner ensures s.owner[key] != pid {
      assert !Holds(s, pid, key);
    }
  }

  // ---------------------------------------------------------------- no deadlock

  /** The way forward of an unfinished request: neither cancellation nor a lost connection. */
  function Forward(s: Locks, pid: Pid): LockStep
    requires pid in s.requests && s.requests[pid].phase != Finished
  {
    match s.requests[pid].phase
    case Acquiring => Acquire(pid)
    case Inside => Leave(pid)
    case _ => Release(pid)
  }

  ghost function AllKeys(s: Locks): set<Key> {
    set pid, key | pid in s.requests && key in s.requests[pid].keys :: key
  }

  /** Follow the owner of the key a request waits for: it waits, if at all, for a larger key. */
  lemma {:induction false} SomeoneCanMove(s: Locks, pid: Pid) returns (mover: Pid)
    requires Inv(s) && pid in s.requests && s.requests[pid].phase != Finished
    ensures mover in s.requests && s.requests[mover].phase != Finished && Enabled(s, Forward(s, mover))
    decreases if s.requests[pid].phase == Acquiring
              then |set k | k in AllKeys(s) && k > s.requests[pid].keys[s.requests[pid].held]| + 1 else 0
  {
    var r := s.requests[pid];
    if r.phase != Acquiring || r.keys[r.held] !in s.owner {
      return pid;
    }
    var wanted := r.keys[r.held];
    var holder := s.owner[wanted];
    assert Holds(s, holder, wanted);
    var h := s.requests[holder];
    if h.phase == Acquiring {
      var i :| 0 <= i < h.held && h.keys[..h.held][i] == wanted;
      assert wanted < h.keys[h.held];
      var above, fewer := set k | k in AllKeys(s) && k > wanted, set k | k in AllKeys(s) && k > h.keys[h.held];
      assert holder in s.requests && h.keys[h.held] in s.requests[holder].keys;
      assert fewer + {h.keys[h.held]} <= above && h.keys[h.held] !in fewer;
      assert |fewer + {h.keys[h.held]}| <= |above| by { SubsetSize(fewer + {h.keys[h.held]}, above); }
    }
    mover := SomeoneCanMove(s, holder);
  }

  // ---------------------------------------------------------------- every request ends

  /** How many steps a request has left at most. */
  function Work(r: Request): nat
    requires r.held <= |r.keys|
  {
    match r.phase
    case Acquiring => 2 * |r.keys| + 2 - r.held
    case Inside => |r.keys| + 1
    case Releasing => r.held
    case Finished => 0
  }

  lemma StepDoesWork(s: Locks, step: LockStep)
    requires Inv(s) && Enabled(s, step)
    ensures var after := Apply(s, step);
            && after.requests.Keys == s.requests.Keys
            && RequestOk(after.requests[step.pid])
            && Work(after.requests[step.pid]) < Work(s.requests[step.pid])
            && forall pid :: pid in s.requests && pid != step.pid ==> after.requests[pid] == s.requests[pid]
  {
    StepKeeps(s, step);
  }
}
