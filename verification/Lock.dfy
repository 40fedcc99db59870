/**
  The lock's operations as the program performs them, one S3 call after the other.  Between any two
  calls other instances take any number of steps.  Each operation is proved to be a run of the
  protocol, so that what every run of the protocol keeps holds of the program.
 */
module Lock {
  import opened Prelude
  import opened LockProtocol

  datatype Answer = Found(rec: Rec) | NotFound | CallFailed

  ghost predicate StepOfOthers(me: nat, s: State, s': State) {
    Ticks(s, s') || exists p :: p != me && StepOf(s, s', p)
  }

  /** What happens between two calls: steps of others, and time. */
  ghost predicate Meanwhile(me: nat, s: State, more: seq<State>) {
    forall i {:trigger Before(s, more, i)} :: 0 <= i < |more| ==> StepOfOthers(me, Before(s, more, i), more[i])
  }

  ghost predicate LeavesAlone(me: nat, s: State, s': State) {
    TheProc(s', me) == TheProc(s, me) && s.now <= s'.now && s.used <= s'.used && s.retired <= s'.retired
  }

  lemma QuietMeanwhile(me: nat, p: nat, s: State, s': State)
    requires p != me && Quiet(s, s', p)
    ensures LeavesAlone(me, s, s')
  {
    if MainMoves(s, s', p) {
    } else if AuxMoves(s, s', p) {
    } else if GivesUp(s, s', p) {
    }
  }

  lemma OneMeanwhile(me: nat, s: State, s': State)
    requires StepOfOthers(me, s, s')
    ensures LeavesAlone(me, s, s') && Next(s, s')
  {
    if !Ticks(s, s') {
      var p :| p != me && StepOf(s, s', p);
      if Quiet(s, s', p) { QuietMeanwhile(me, p, s, s'); }
    }
  }

  lemma {:induction false} MeanwhileKeeps(me: nat, s: State, more: seq<State>, k: nat)
    requires Meanwhile(me, s, more) && k < |more|
    ensures LeavesAlone(me, s, more[k])
  {
    if k > 0 { MeanwhileKeeps(me, s, more, k - 1); }
    OneMeanwhile(me, Before(s, more, k), more[k]);
  }

  /** A run with more steps of others is a run, and this instance's part in it stays as it was. */
  lemma MeanwhileRuns(me: nat, run: seq<State>, more: seq<State>, all: seq<State>)
    requires IsRun(run) && Meanwhile(me, run[|run| - 1], more) && all == run + more
    ensures IsRun(all) && LeavesAlone(me, run[|run| - 1], all[|all| - 1])
    ensures forall k :: |run| <= k < |all| ==> TheProc(all[k], me) == TheProc(run[|run| - 1], me)
  {
    var s := run[|run| - 1];
    forall k | |run| <= k < |all|
      ensures LeavesAlone(me, s, all[k])
    {
      MeanwhileKeeps(me, s, more, k - |run|);
    }
    forall i, j | 0 <= i < |all| - 1 && j == i + 1
      ensures Next(all[i], all[j])
    {
      if j < |run| {
        assert Next(run[i], run[j]);
      } else {
        OneMeanwhile(me, Before(s, more, j - |run|), more[j - |run|]);
      }
    }
  }

  predicate OwnedBy(obj: Option<Rec>, token: string) {
    obj.Some? && obj.value.owner == token
  }

  class Instance {
    var lockToken: string
    var world: State                          // the lock object, the clock and all instances
    var calls: nat
    const me: nat                             // this instance
    const others: (nat, State) -> seq<State>  // what the others do around each call
    const draw: set<string> -> string         // random tokens; they never collide
    const reliable: bool                      // no call of this instance ever fails
    ghost var run: seq<State>

    ghost predicate Surroundings() {
      && (forall n, s :: Meanwhile(me, s, others(n, s)))
      && (forall used :: draw(used) !in used && draw(used) != "")
    }

    ghost predicate Running()
      reads this
    {
      IsRun(run) && run[|run| - 1] == world && Surroundings()
    }

    function Mine(): Proc
      reads this
    {
      TheProc(world, me)
    }

    /** Between two operations. */
    ghost predicate Valid()
      reads this
    {
      && Running() && lockToken == Mine().token
      && (Mine().main.Free? || Mine().main.Holding? || Mine().main.Leaving?)
      && (Mine().main.Holding? <==> Mine().aux == Ticking)
      && (Mine().main.Free? || Mine().main.Leaving? ==> Mine().aux == Off)
      && (lockToken == "" <==> Mine().main.Free?)
    }

    /** The run has gone on, and since then this instance has been as it is now. */
    twostate predicate Onward()
      reads this
      requires |old(run)| > 0
    {
      && Running() && old(run) <= run
      && old(world).now <= world.now && old(world).used <= world.used && old(world).retired <= world.retired
      && (forall k :: |old(run)| <= k < |run| ==> TheProc(run[k], me) == Mine())
    }

    constructor (world: State, me: nat, others: (nat, State) -> seq<State>, draw: set<string> -> string, reliable: bool)
      requires Init(world)
      requires forall n, s :: Meanwhile(me, s, others(n, s))
      requires forall used :: draw(used) !in used && draw(used) != ""
      ensures Valid() && lockToken == "" && this.me == me && run == [world]
    {
      this.world, this.me, this.others, this.draw, this.reliable := world, me, others, draw, reliable;
      this.lockToken, this.calls, this.run := "", 0, [world];
    }

    /** Others take their steps. */
    method Interfere()
      requires Running()
      modifies `world, `calls, `run
      ensures Onward() && Mine() == old(Mine())
    {
      var more := others(calls, world);
      calls := calls + 1;
      MeanwhileRuns(me, run, more, run + more);
      world := Before(world, more, |more|);
      run := run + more;
    }

    /** This instance takes a step. */
    method Take(s': State)
      requires Running() && StepOf(world, s', me)
      modifies `world, `run
      ensures Running() && world == s' && run == old(run) + [s']
    {
      world := s';
      run := run + [s'];
    }

    /** Reads the lock; the answer is what the object was at one instant of the call. */
    method LoadLock() returns (answer: Answer)
      requires Running()
      modifies `world, `calls, `run
      ensures Onward() && Mine() == old(Mine())
      ensures answer.Found? ==> world.obj == Some(answer.rec)
      ensures answer.NotFound? ==> world.obj == None
      ensures reliable ==> !answer.CallFailed?
    {
      Interfere();
      var ok: bool := *;
      if !ok && !reliable {
        answer := CallFailed;
      } else if world.obj.Some? {
        answer := Found(world.obj.value);
      } else {
        answer := NotFound;
      }
    }

    /** Step number put was this instance's write of rec. */
    ghost predicate Wrote(put: nat, rec: Rec)
      reads this
    {
      && put < |run| - 1 && run[put + 1].obj == Some(rec)
      && (ClaimWrite(run[put], run[put + 1], me) || ExtendWrite(run[put], run[put + 1], me))
    }

    /** Writes the record that is due.  A put that fails may have taken effect. */
    method PutObject(rec: Rec) returns (ok: bool, ghost put: nat)
      requires Running()
      requires || (Mine().main.Claiming? && Mine().main.checked && Mine().main.rec == rec && Mine().aux == Off)
               || (Mine().main.Holding? && Mine().aux.Extending? && Mine().aux.rec == rec)
      modifies `world, `calls, `run
      ensures Running() && old(run) <= run && old(world).now <= world.now
      ensures Mine() == if old(Mine()).main.Holding? then old(Mine()).(aux := Ticking)
                        else old(Mine()).(main := if ok then Claimed(rec) else Free)
      ensures ok ==> |old(run)| - 1 <= put && Wrote(put, rec) && old(world).now <= run[put].now
                     && TheProc(run[put], me) == old(Mine())
      ensures old(Mine()).main.Holding? ==> forall k :: |old(run)| <= k < |run| ==> Holds(run[k], me, old(Mine()).token)
      ensures old(Mine()).main.Claiming? && ok ==> forall k :: put < k < |run| ==> Holds(run[k], me, rec.owner)
      ensures reliable ==> ok
    {
      Interfere();
      ok := *;
      ok := ok || reliable;
      var effect: bool := *;
      put := |run| - 1;
      if Mine().main.Holding? {
        Take(if ok || effect then Extend(world, me) else SetProc(world, me, Mine().(aux := Ticking)));
        Interfere();
      } else {
        if ok || effect {
          Take(Claim(world, me));
          Interfere();
        }
        if !ok { Take(SetProc(world, me, Mine().(main := Free))); }
      }
    }

    /** Where no lock may be there, a request of its own finds that out before the put. */
    method PutLock(rec: Rec, requireMissing: bool) returns (ok: bool, ghost put: nat)
      requires Running()
      requires || (Mine().main.Claiming? && Mine().main.checked == !requireMissing && Mine().main.rec == rec
                   && Mine().aux == Off)
               || (!requireMissing && Mine().main.Holding? && Mine().aux.Extending? && Mine().aux.rec == rec)
      modifies `world, `calls, `run
      ensures Running() && old(run) <= run && old(world).now <= world.now
      ensures Mine() == if old(Mine()).main.Holding? then old(Mine()).(aux := Ticking)
                        else old(Mine()).(main := if ok then Claimed(rec) else Free)
      ensures ok ==> |old(run)| - 1 <= put && Wrote(put, rec) && old(world).now <= run[put].now
                     && TheProc(run[put], me)
                        == if requireMissing then old(Mine()).(main := old(Mine()).main.(checked := true))
                           else old(Mine())
      ensures old(Mine()).main.Holding? ==> forall k :: |old(run)| <= k < |run| ==> Holds(run[k], me, old(Mine()).token)
      ensures old(Mine()).main.Claiming? && ok ==> forall k :: put < k < |run| ==> Holds(run[k], me, rec.owner)
      ensures reliable && !ok ==> requireMissing && |old(run)| - 1 <= put < |run| && run[put].obj.Some?
    {
      put := 0;
      if requireMissing {
        Interfere();
        var answered: bool := *;
        put := |run| - 1;
        if (!answered && !reliable) || world.obj.Some? {
          ok := false;
          Take(SetProc(world, me, Mine().(main := Free)));
          return;
        }
        Take(SetProc(world, me, Mine().(main := Mine().main.(checked := true))));
      }
      ok, put := PutObject(rec);
    }

    /** Reads the lock and, unless it is fresh, goes on with what it saw. */
    method Inspect() returns (stale: bool, seen: Option<Rec>, ghost look: nat)
      requires Running() && Mine() == IDLE
      modifies `world, `calls, `run
      ensures Running() && old(run) <= run && old(world).now <= world.now && old(world).used <= world.used
      ensures Mine() == if stale then Proc(Looked(seen), Off, "") else IDLE
      ensures stale ==> |old(run)| - 1 <= look < |run| && run[look].obj == seen && Stale(seen, world.now)
      ensures reliable && !stale ==> |old(run)| - 1 <= look < |run| && !Stale(run[look].obj, run[look].now)
    {
      var answer := LoadLock();
      if answer.CallFailed? { return false, None, 0; }
      look := |run| - 1;
      seen := world.obj;
      Take(SetProc(world, me, Mine().(main := Looked(seen))));
      Interfere();
      stale := !(answer.Found? && world.now < Expiry(answer.rec));
      if !stale { Take(SetProc(world, me, Mine().(main := Free))); }
    }

    /** Draws a token and makes the record, unless the source of randomness fails. */
    method Prepare(seen: Option<Rec>) returns (ok: bool, rec: Rec)
      requires Running() && Mine() == Proc(Looked(seen), Off, "") && Stale(seen, world.now)
      modifies `world, `run
      ensures Running() && world.now == old(world).now && old(run) <= run && old(world).used <= world.used
      ensures !ok ==> Mine() == IDLE
      ensures ok ==> rec.owner !in old(world).used && rec.owner != ""
                     && rec == Rec(rec.owner, world.now, world.now + LOCK_TTL)
                     && Mine() == Proc(Claiming(seen, rec, seen.Some?), Off, "")
      ensures reliable ==> ok
    {
      ok := *;
      ok := ok || reliable;
      var token := draw(world.used);
      rec := Rec(token, world.now, world.now + LOCK_TTL);
      if ok {
        Take(SetProc(world, me, Mine().(main := Claiming(seen, rec, seen.Some?))).(used := world.used + {token}));
      } else {
        Take(SetProc(world, me, Mine().(main := Free)));
      }
    }

    /** The lock was taken at step put with this token, over the stale record seen at step look or none. */
    ghost predicate Acquired(look: nat, put: nat, since: int, token: string)
      reads this
    {
      && look <= put < |run| - 1 && ClaimWrite(run[put], run[put + 1], me)
      && var claim := TheProc(run[put], me).main;
      && claim.seen == run[look].obj && Stale(run[look].obj, run[put].now)
      && claim.rec == Rec(token, claim.rec.acquiredAt, claim.rec.acquiredAt + LOCK_TTL)
      && since <= claim.rec.acquiredAt <= run[put].now
    }

    /** A fresh lock was there at step look, or none at look and one at step put. */
    ghost predicate Refused(look: nat, put: nat)
      reads this
    {
      && look < |run| && put < |run|
      && (!Stale(run[look].obj, run[look].now) || (look <= put && run[look].obj.None? && run[put].obj.Some?))
    }

    /** Puts the prepared record over what was seen at step look, and starts the refresher if that succeeds. */
    method PutClaim(rec: Rec, seen: Option<Rec>, ghost look: nat, ghost since: int) returns (ok: bool, ghost put: nat)
      requires Running() && lockToken == "" && rec.owner != ""
      requires Mine() == Proc(Claiming(seen, rec, seen.Some?), Off, "") && Stale(seen, world.now)
      requires rec == Rec(rec.owner, rec.acquiredAt, rec.acquiredAt + LOCK_TTL) && since <= rec.acquiredAt <= world.now
      requires look < |run| && run[look].obj == seen
      modifies this
      ensures Valid() && old(run) <= run && old(world).now <= world.now
      ensures !ok ==> lockToken == "" && Mine() == IDLE
      ensures ok ==> lockToken == rec.owner && Mine() == Proc(Holding, Ticking, lockToken)
      ensures ok ==> Acquired(look, put, since, lockToken)
      ensures ok ==> forall k :: put < k < |run| ==> Holds(run[k], me, lockToken)
      ensures reliable && !ok ==> Refused(look, put)
    {
      ok, put := PutLock(rec, seen.None?);
      if ok {
        Take(SetProc(world, me, Proc(Holding, Ticking, rec.owner)));
        lockToken := rec.owner;
      }
    }

    /**
      Takes the lock, or fails and leaves this instance without it.  Where no call fails, it does so
      only because a lock is there.
     */
    method AcquireLock() returns (ok: bool, ghost look: nat, ghost put: nat)
      requires Valid()
      modifies this
      ensures Valid() && old(run) <= run && old(world).now <= world.now
      ensures old(lockToken) != "" ==> !ok && run == old(run)
      ensures !ok ==> lockToken == old(lockToken) && Mine() == old(Mine())
      ensures ok ==> lockToken != "" && lockToken !in old(world).used && Mine() == Proc(Holding, Ticking, lockToken)
      ensures ok ==> |old(run)| - 1 <= look && Acquired(look, put, old(world).now, lockToken)
      ensures ok ==> forall k :: put < k < |run| ==> Holds(run[k], me, lockToken)
      ensures reliable && !ok && lockToken == "" ==> |old(run)| - 1 <= look && Refused(look, put)
    {
      ok, look, put := false, 0, 0;
      if lockToken != "" { return; }
      var stale, seen;
      stale, seen, look := Inspect();
      if !stale { return; }
      var rec;
      ok, rec := Prepare(seen);
      if !ok { return; }
      ok, put := PutClaim(rec, seen, look, old(world).now);
    }

    /** The record is extended at step put, to an expiry counted from an instant of the call. */
    ghost predicate Refreshed(look: nat, put: nat, since: int, token: string)
      reads this
    {
      && look <= put < |run| - 1 && ExtendWrite(run[put], run[put + 1], me)
      && var extension := TheProc(run[put], me).aux;
      && run[look].obj == Some(extension.seen) && extension.seen.owner == token
      && extension.rec == extension.seen.(expiresAt := extension.rec.expiresAt)
      && since <= extension.rec.expiresAt - LOCK_TTL <= run[put].now
    }

    /** Extends the lock; where no call fails, it does so unless the lock is no longer this instance's. */
    method RefreshLock() returns (ok: bool, ghost look: nat, ghost put: nat)
      requires Valid() && !Mine().main.Leaving?
      modifies `world, `calls, `run
      ensures Valid() && old(run) <= run && old(world).now <= world.now && Mine() == old(Mine())
      ensures lockToken == "" ==> !ok && run == old(run)
      ensures lockToken != "" ==> forall k :: |old(run)| <= k < |run| ==> Holds(run[k], me, lockToken)
      ensures ok ==> |old(run)| - 1 <= look && Refreshed(look, put, old(world).now, lockToken)
      ensures reliable && !ok && lockToken != "" ==>
                |old(run)| - 1 <= look < |run| && !OwnedBy(run[look].obj, lockToken)
    {
      ok, look, put := false, 0, 0;
      if lockToken == "" { return; }
      var answer := LoadLock();
      look := |run| - 1;
      if !answer.Found? || answer.rec.owner != lockToken { return; }
      Take(SetProc(world, me, Mine().(aux := Peeked(answer.rec))));
      Interfere();
      var rec := answer.rec.(expiresAt := world.now + LOCK_TTL);
      Take(SetProc(world, me, Mine().(aux := Extending(answer.rec, rec))));
      ok, put := PutLock(rec, false);
    }

    /** The refresher is told to stop, and has ended: no refresh is under way any more. */
    method StopRefresh()
      requires Valid() && Mine().main.Holding?
      modifies `world, `run
      ensures Valid() && Mine() == Proc(Leaving, Off, lockToken) && lockToken in world.retired
      ensures run == old(run) + [world] && world.now == old(world).now
    {
      Take(SetProc(world, me, Proc(Leaving, Off, lockToken)).(retired := world.retired + {lockToken}));
    }

    /** The deleting request names the ETag that was seen; it may take effect and yet be reported as failed. */
    method DeleteLock(seen: Rec)
      requires Running() && Mine() == Proc(Letting(seen), Off, seen.owner)
      modifies `world, `calls, `run
      ensures Running() && Mine() == IDLE && old(run) <= run && |run| > |old(run)|
      ensures old(world).now <= world.now && old(world).retired <= world.retired
      ensures forall k, token :: |old(run)| <= k < |run| ==> !Holds(run[k], me, token)
      ensures reliable ==> run[|run| - 2].obj != Some(seen) || world.obj == None
    {
      Interfere();
      var effect: bool := *;
      if (effect || reliable) && world.obj == Some(seen) {
        Take(SetProc(world, me, IDLE).(obj := None, leases := Ended(world.leases, seen.owner, world.now)));
      } else {
        Take(SetProc(world, me, IDLE));
      }
    }

    /** Deletes the lock if it is still this instance's, and forgets the token whatever happens. */
    method ReleaseLock() returns (ghost look: nat)
      requires Valid() && !Mine().main.Holding?
      modifies this
      ensures Valid() && lockToken == "" && Mine() == IDLE
      ensures old(run) <= run && old(world).now <= world.now && old(world).retired <= world.retired
      ensures old(lockToken) == "" ==> run == old(run)
      ensures forall k, token :: |old(run)| <= k < |run| ==> !Holds(run[k], me, token)
      // where no call fails, the lock is gone, unless it was not this instance's or has since changed
      ensures reliable && old(lockToken) != "" ==>
                && |old(run)| - 1 <= look < |run| - 1
                && (!OwnedBy(run[look].obj, old(lockToken)) || run[|run| - 2].obj != run[look].obj || world.obj == None)
    {
      look := 0;
      if lockToken == "" { return; }
      var token := lockToken;
      var answer := LoadLock();
      look := |run| - 1;
      if !answer.Found? || answer.rec.owner != token {
        Take(SetProc(world, me, IDLE));
        lockToken := "";
        return;
      }
      Take(SetProc(world, me, Mine().(main := Letting(answer.rec))));
      DeleteLock(answer.rec);
      lockToken := "";
    }

    /** From one step to another nobody takes the lock, as long as it is not later than until. */
    ghost predicate Alone(from: nat, to: nat, until: int)
      reads this
    {
      forall k: nat, q: nat :: from <= k < to < |run| && run[k].now < until ==> !TakenBy(run, k, q)
    }

    lemma KeptAlone(from: nat, to: nat, token: string, attempts: seq<Attempt>, at: seq<nat>)
      requires Running() && UndisturbedRun(run) && to < |run|
      requires Logged(run, token, attempts, at) && from == at[0] && attempts[0].ok
      requires forall k :: from <= k <= to ==> Holds(run[k], me, token)
      requires Punctual(attempts[0].read, attempts) && forall j :: !FailsFourTimes(attempts, j)
      ensures Alone(from, to, attempts[0].read + |attempts| * REFRESH_INTERVAL)
    {
      forall k: nat, q: nat | from <= k < to && run[k].now < attempts[0].read + |attempts| * REFRESH_INTERVAL
        ensures !TakenBy(run, k, q)
      {
        ClockRuns(run, from, k);
        LoggedTookEffect(run, k, token, attempts, at);
        CriticalSection(run, from, k, me, q, token, attempts[0].read, attempts);
      }
    }

    /** From one step to another the lock object is this token's. */
    ghost predicate OwnSince(from: int, to: int, token: string)
      reads this
    {
      forall k :: 0 <= from <= k <= to < |run| ==> OwnedBy(run[k].obj, token)
    }

    /** One tick of the refresher, entered in the log; where no call fails it succeeds while the lock is its own. */
    method Tick(ghost attempts: seq<Attempt>, ghost at: seq<nat>) returns (ghost attempt: Attempt, ghost step: nat)
      requires Valid() && Mine().main.Holding? && Logged(run, lockToken, attempts, at) && at[0] < |run|
      modifies `world, `calls, `run
      ensures Valid() && old(run) <= run && Mine() == old(Mine())
      ensures forall k :: |old(run)| <= k < |run| ==> Holds(run[k], me, lockToken)
      ensures Logged(run, lockToken, attempts + [attempt], at + [step])
      ensures reliable && OwnSince(|old(run)| - 1, |run| - 1, lockToken) ==> attempt.ok
    {
      Interfere();
      ghost var before := world.now;
      var ok;
      ghost var look, put;
      ok, look, put := RefreshLock();
      step := if ok then put + 1 else 0;
      attempt := Attempt(before, world.now, false);
      if ok {
        assert Holds(run[put], me, lockToken);
        RunInv(run, put);
        RunLeases(run, put);
        ExtendLeases(run[put], run[put + 1], me, lockToken);
        attempt := Attempt(TheProc(run[put], me).aux.rec.expiresAt - LOCK_TTL, run[step].now, true);
      }
      LogGrows(old(run), run, lockToken, attempts, at, attempt, step);
    }

    ghost predicate AllOk(attempts: seq<Attempt>) {
      forall j :: 0 <= j < |attempts| ==> attempts[j].ok
    }

    /** Until it is stopped the refresher ticks, while the instance goes about its work. */
    method KeepRefreshing(ticks: nat, ghost first: Attempt, ghost from: nat)
      returns (ghost attempts: seq<Attempt>, ghost at: seq<nat>)
      requires Valid() && Mine().main.Holding? && from < |run| && Logged(run, lockToken, [first], [from])
      modifies `world, `calls, `run
      ensures Valid() && old(run) <= run && Mine() == old(Mine())
      ensures forall k :: |old(run)| <= k < |run| ==> Holds(run[k], me, lockToken)
      ensures Logged(run, lockToken, attempts, at) && |attempts| == ticks + 1 && attempts[0] == first && at[0] == from
      ensures reliable && OwnSince(|old(run)| - 1, |run| - 1, lockToken) ==> AllOk(attempts[1..])
    {
      attempts, at := [first], [from];
      var i := 0;
      while i < ticks
        invariant i <= ticks && Valid() && old(run) <= run && Mine() == old(Mine())
        invariant forall k :: |old(run)| <= k < |run| ==> Holds(run[k], me, lockToken)
        invariant Logged(run, lockToken, attempts, at) && |attempts| == i + 1 && attempts[0] == first && at[0] == from
        invariant reliable && OwnSince(|old(run)| - 1, |run| - 1, lockToken) ==> AllOk(attempts[1..])
      {
        ghost var attempt, step := Tick(attempts, at);
        attempts, at := attempts + [attempt], at + [step];
        i := i + 1;
      }
    }

    /** The work under the lock: refresh, stop the refresher, let the lock go, in this order. */
    method WorkAndRelease(ticks: nat, ghost first: Attempt, ghost from: nat)
      returns (ghost to: nat, ghost attempts: seq<Attempt>, ghost at: seq<nat>)
      requires Valid() && Mine().main.Holding? && from < |run| && Logged(run, lockToken, [first], [from])
      modifies this
      ensures Valid() && old(run) <= run && lockToken == "" && old(lockToken) in world.retired
      ensures |old(run)| - 1 <= to < |run|
      ensures forall k :: |old(run)| <= k <= to ==> Holds(run[k], me, old(lockToken))
      ensures forall k :: to < k < |run| ==> !Holds(run[k], me, old(lockToken))
      ensures Logged(run, old(lockToken), attempts, at)
      ensures |attempts| == ticks + 1 && attempts[0] == first && at[0] == from
      ensures reliable && OwnSince(|old(run)| - 1, to, old(lockToken)) ==> AllOk(attempts[1..])
    {
      attempts, at := KeepRefreshing(ticks, first, from);
      to := |run| - 1;
      ghost var kept := run;
      StopRefresh();
      var _ := ReleaseLock();
      assert forall k {:trigger OwnedBy(kept[k].obj, old(lockToken))} :: 0 <= k <= to ==> kept[k] == run[k];
    }

    /**
      A run that needs the lock.  If the refreshes come on time and fail at most three times in a row,
      no other instance takes the lock before this one stops its refresher to let it go.
     */
    method WorkUnderLock(ticks: nat)
      returns (ok: bool, ghost token: string, ghost to: nat, ghost attempts: seq<Attempt>, ghost at: seq<nat>)
      requires Valid() && lockToken == ""
      modifies this
      ensures Valid() && old(run) <= run && lockToken == ""
      ensures ok ==> token !in old(world).used && token in world.retired
      ensures reliable && !ok ==> exists look, put :: |old(run)| - 1 <= look && Refused(look, put)
      ensures ok ==> |attempts| == ticks + 1 && Logged(run, token, attempts, at) && |old(run)| <= at[0] <= to < |run|
      ensures ok ==> forall k :: at[0] <= k <= to ==> Holds(run[k], me, token)
      ensures ok ==> forall k :: to < k < |run| ==> !Holds(run[k], me, token)
      ensures ok && reliable && OwnSince(at[0], to, token) ==> AllOk(attempts)
      ensures ok && UndisturbedRun(run) && Punctual(attempts[0].read, attempts)
              && (forall j :: !FailsFourTimes(attempts, j)) ==>
                Alone(at[0], to, attempts[0].read + |attempts| * REFRESH_INTERVAL)
    {
      to, attempts, at, token := 0, [], [], "";
      ghost var look, put;
      ok, look, put := AcquireLock();
      if !ok { return; }
      token := lockToken;
      ghost var rec := TheProc(run[put], me).main.rec;
      assert LeasedTo(run[put + 1], token, rec.acquiredAt + LOCK_TTL);
      to, attempts, at := WorkAndRelease(ticks, Attempt(rec.acquiredAt, run[put + 1].now, true), put + 1);
      assert attempts == [attempts[0]] + attempts[1..];
      if UndisturbedRun(run) && Punctual(attempts[0].read, attempts) && forall j :: !FailsFourTimes(attempts, j) {
        KeptAlone(at[0], to, token, attempts, at);
      }
    }
  }
}
