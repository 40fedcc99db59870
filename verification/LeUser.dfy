/**
  The ACME account as the program obtains it, one S3 call after the other.  Between any two calls other
  instances take any number of steps.  What the program does is proved to be a run of the account
  protocol.
 */
module LeUser {
  import opened Prelude
  import opened AccountProtocol

  datatype Answer = Found(user: User) | NotFound | Unusable

  /** The account file on the instance's own disk. */
  datatype LocalFile = NoPath | NoFile | Unreadable | Local(user: User)

  /** How the search for an account ends. */
  datatype Way =
    | AlreadyThere          // there was one
    | Unread                // the first load has failed
    | NothingToPropose      // there was none, and this instance has none to propose
    | CreatedHere           // this instance has put its own
    | StoringFailed
    | Appeared(seen: nat)   // one has appeared meanwhile, as step seen shows, and was loaded or not

  ghost predicate StepOfOthers(me: nat, s: State, s': State) {
    exists p :: p != me && StepOf(s, s', p)
  }

  /** What happens between two calls. */
  ghost predicate Meanwhile(me: nat, s: State, more: seq<State>) {
    forall i {:trigger Before(s, more, i)} :: 0 <= i < |more| ==> StepOfOthers(me, Before(s, more, i), more[i])
  }

  lemma OneMeanwhile(me: nat, s: State, s': State)
    requires StepOfOthers(me, s, s')
    ensures Next(s, s') && StageOf(s', me) == StageOf(s, me)
  {
  }

  lemma {:induction false} MeanwhileKeeps(me: nat, s: State, more: seq<State>, k: nat)
    requires Meanwhile(me, s, more) && k < |more|
    ensures StageOf(more[k], me) == StageOf(s, me)
  {
    if k > 0 { MeanwhileKeeps(me, s, more, k - 1); }
    OneMeanwhile(me, Before(s, more, k), more[k]);
  }

  /** A run with more steps of others is a run. */
  lemma MeanwhileRuns(me: nat, run: seq<State>, more: seq<State>, all: seq<State>)
    requires IsRun(run) && Meanwhile(me, run[|run| - 1], more) && all == run + more
    ensures IsRun(all) && StageOf(all[|all| - 1], me) == StageOf(run[|run| - 1], me)
    ensures forall k :: |run| <= k < |all| ==> StageOf(all[k], me) == StageOf(run[|run| - 1], me)
  {
    var s := run[|run| - 1];
    forall k | |run| <= k < |all|
      ensures StageOf(all[k], me) == StageOf(s, me)
    {
      MeanwhileKeeps(me, s, more, k - |run|);
    }
    forall i, j | 0 <= i < |all| - 1 && j == i + 1
      ensures Next(all[i], all[j])
    {
      if j < |run| {
        assert Next(run[i], run[j]);
      } else {
        OneMeanwhile(me, Before(s, more, j - |run|), more[j - |run|]);
      }
    }
  }

  class Instance {
    var world: State                          // the stored account and the stages of all instances
    var calls: nat
    const me: nat                             // this instance
    const others: (nat, State) -> seq<State>  // what the others do around each call
    const reliable: bool                      // no call of this instance ever fails
    ghost var run: seq<State>

    ghost predicate Valid()
      reads this
    {
      IsRun(run) && run[|run| - 1] == world && forall n, s :: Meanwhile(me, s, others(n, s))
    }

    function Mine(): Stage
      reads this
    {
      StageOf(world, me)
    }

    constructor (world: State, me: nat, others: (nat, State) -> seq<State>, reliable: bool)
      requires Init(world)
      requires forall n, s :: Meanwhile(me, s, others(n, s))
      ensures Valid() && this.me == me && Mine().Idle? && run == [world]
    {
      this.world, this.me, this.others, this.reliable := world, me, others, reliable;
      this.calls, this.run := 0, [world];
    }

    /** Others take their steps. */
    method Interfere()
      requires Valid()
      modifies this
      ensures Valid() && old(run) <= run && Mine() == old(Mine())
      ensures forall k :: |old(run)| <= k < |run| ==> StageOf(run[k], me) == old(Mine())
    {
      var more := others(calls, world);
      calls := calls + 1;
      MeanwhileRuns(me, run, more, run + more);
      world := Before(world, more, |more|);
      run := run + more;
    }

    /** This instance takes a step. */
    method Take(s': State)
      requires Valid() && StepOf(world, s', me)
      modifies `world, `run
      ensures Valid() && world == s' && run == old(run) + [s']
    {
      world := s';
      run := run + [s'];
    }

    /** Reads, decrypts and parses the stored account; the answer was true at one instant of the call. */
    method LoadACMEUser() returns (answer: Answer)
      requires Valid() && (Mine().Idle? || Mine().Reloading?)
      modifies this
      ensures Valid() && old(run) <= run
      ensures Mine() == if answer.Found? then Has(answer.user) else old(Mine())
      ensures answer.Found? ==> world.obj == Some(Account(answer.user))
      ensures answer.NotFound? ==> world.obj == None
      ensures reliable && answer.Unusable? ==> world.obj == Some(Garbled)
      ensures forall k :: |old(run)| <= k < |run| ==>
                StageOf(run[k], me) == old(Mine()) || (answer.Found? && StageOf(run[k], me) == Has(answer.user))
    {
      Interfere();
      var ok: bool := *;
      if !ok && !reliable {
        answer := Unusable;
      } else {
        match world.obj
        case None => answer := NotFound;
        case Some(Garbled) => answer := Unusable;
        case Some(Account(user)) =>
          answer := Found(user);
          Take(SetStage(world, me, Has(user)));
      }
    }

    /** From one step on this instance never proposes any account but this one. */
    ghost predicate OnlyProposes(from: nat, user: User)
      reads this
    {
      forall k :: from <= k < |run| ==>
        match StageOf(run[k], me)
        case Candidate(u) => u == user
        case Checked(u) => u == user
        case _ => true
    }

    /** Stores the account unless there is one: a look, and then a put.  Where there is one, step seen shows it. */
    method StoreIfNotExists(user: User) returns (ok: bool, stored: bool, ghost seen: nat)
      requires Valid() && Mine() == Candidate(user)
      modifies this
      ensures Valid() && old(run) <= run
      ensures Mine() == if !ok then Idle else if stored then Has(user) else Reloading
      ensures ok && stored ==>
                world.obj == Some(Account(user)) && |run| > |old(run)| && Creates(run[|run| - 2], run[|run| - 1], me)
      ensures OnlyProposes(|old(run)|, user)
      ensures ok && !stored ==> |old(run)| - 1 <= seen < |run| && run[seen].obj.Some?
      ensures reliable ==> ok
    {
      Interfere();
      seen := |run| - 1;
      var answered: bool := *;
      if !answered && !reliable {
        Take(SetStage(world, me, Idle));
        return false, false, seen;
      }
      var present := world.obj.Some?;
      Take(SetStage(world, me, if world.obj.None? then Checked(user) else Reloading));
      if present { return true, false, seen; }
      Interfere();
      ok := *;
      ok := ok || reliable;
      stored := ok;
      var effect: bool := *;
      if ok || effect { Take(Created(world, me)); }
      if !ok { Take(SetStage(world, me, Idle)); }
    }

    /** The account file of the disk, or else a new key. */
    method LoadLocalOrNewUser(email: string, local: LocalFile, drawn: Option<nat>) returns (user: Option<User>)
      ensures local.Local? ==> user == Some(local.user)
      ensures local.NoPath? || local.NoFile? ==>
                user == if drawn.Some? then Some(User(email, drawn.value, false)) else None
      ensures local.Unreadable? ==> user.None?
    {
      match local
      case Local(u) => return Some(u);
      case Unreadable => return None;
      case _ => user := if drawn.Some? then Some(User(email, drawn.value, false)) else None;
    }

    /** What an instance without a stored account is to propose: the one on its disk, or one with a new key. */
    ghost predicate IsProposal(user: User, email: string, local: LocalFile, drawn: Option<nat>) {
      || local == Local(user)
      || ((local == NoPath || local == NoFile) && drawn.Some?
          && user.email == email && user.key == drawn.value && !user.registered)
    }

    /** From one step on this instance proposes no account but that one. */
    ghost predicate Proposes(from: nat, email: string, local: LocalFile, drawn: Option<nat>)
      reads this
    {
      forall k :: from <= k < |run| ==>
        match StageOf(run[k], me)
        case Candidate(u) => IsProposal(u, email, local, drawn)
        case Checked(u) => IsProposal(u, email, local, drawn)
        case _ => true
    }

    /** So every account that it puts is that one, and it puts none if its file cannot be read. */
    lemma PutsItsProposal(from: nat, email: string, local: LocalFile, drawn: Option<nat>, k: nat)
      requires Proposes(from, email, local, drawn) && from <= k < |run| - 1 && Creates(run[k], run[k + 1], me)
      ensures run[k + 1].obj.Some? && run[k + 1].obj.value.Account? && !local.Unreadable?
      ensures local.Local? ==> run[k + 1].obj.value.user == local.user
      ensures !local.Local? ==> drawn.Some? && run[k + 1].obj.value.user == User(email, drawn.value, false)
    {
    }

    /** What each way of ending says about the stored account, and about what stood in the way. */
    ghost predicate Went(way: Way, from: nat, at: nat, user: Option<User>, email: string, local: LocalFile,
                         drawn: Option<nat>)
      reads this
    {
      && from <= at < |run|
      && match way
         case AlreadyThere => user.Some?
         case Unread => user.None? && (reliable ==> run[at].obj == Some(Garbled))
         case NothingToPropose =>
           user.None? && run[at].obj == None && (local.Unreadable? || (!local.Local? && drawn.None?))
         case CreatedHere =>
           && user.Some? && IsProposal(user.value, email, local, drawn)
           && from < at && Creates(run[at - 1], run[at], me)
         case StoringFailed => user.None? && !reliable
         case Appeared(seen) =>
           && from <= seen <= at && run[seen].obj.Some?
           && (reliable && user.None? ==> run[at].obj == Some(Garbled) || run[at].obj == None)
    }

    /**
      The account that this instance will use.  At step at of the run it was the stored one.  Only where
      none is stored does the instance propose its own, and it puts no other than that.
     */
    method LoadOrCreateUser(email: string, local: LocalFile, drawn: Option<nat>)
      returns (user: Option<User>, ghost at: nat, ghost way: Way)
      requires Valid() && Mine().Idle?
      modifies this
      ensures Valid() && old(run) <= run
      ensures Mine() == if user.Some? then Has(user.value) else Idle
      ensures user.Some? ==>
                && |old(run)| <= at < |run| && run[at].obj == Some(Account(user.value))
                && StageOf(run[at], me) == Has(user.value)
      ensures Proposes(|old(run)|, email, local, drawn)
      ensures Went(way, |old(run)| - 1, at, user, email, local, drawn)
    {
      var answer := LoadACMEUser();
      at := |run| - 1;
      if answer.Found? { return Some(answer.user), at, AlreadyThere; }
      if answer.Unusable? { return None, at, Unread; }
      user := LoadLocalOrNewUser(email, local, drawn);
      if user.None? { return user, at, NothingToPropose; }
      Take(SetStage(world, me, Candidate(user.value)));
      user, at, way := StoreOrReload(user.value);
    }

    /** Stores this account unless one has appeared, which is then loaded. */
    method StoreOrReload(mine: User) returns (user: Option<User>, ghost at: nat, ghost way: Way)
      requires Valid() && Mine() == Candidate(mine)
      modifies this
      ensures Valid() && old(run) <= run
      ensures Mine() == if user.Some? then Has(user.value) else Idle
      ensures |old(run)| - 1 <= at < |run| && OnlyProposes(|old(run)|, mine)
      ensures user.Some? ==>
                |old(run)| <= at && run[at].obj == Some(Account(user.value)) && StageOf(run[at], me) == Has(user.value)
      ensures way.CreatedHere? || way.StoringFailed? || way.Appeared?
      ensures way.CreatedHere? ==>
                user == Some(mine) && |old(run)| - 1 < at && Creates(run[at - 1], run[at], me)
      ensures way.StoringFailed? ==> user.None? && !reliable
      ensures way.Appeared? ==>
                && |old(run)| - 1 <= way.seen <= at && run[way.seen].obj.Some?
                && (reliable && user.None? ==> run[at].obj == Some(Garbled) || run[at].obj == None)
    {
      var ok, stored;
      ghost var seen;
      ok, stored, seen := StoreIfNotExists(mine);
      at := |run| - 1;
      if !ok { return None, at, StoringFailed; }
      if stored { return Some(mine), at, CreatedHere; }
      user, at := Reload();
      way := Appeared(seen);
    }

    /** Loads the account that another instance has stored. */
    method Reload() returns (user: Option<User>, ghost at: nat)
      requires Valid() && Mine().Reloading?
      modifies this
      ensures Valid() && old(run) <= run && |old(run)| - 1 <= at < |run|
      ensures Mine() == if user.Some? then Has(user.value) else Idle
      ensures user.Some? ==>
                |old(run)| <= at && run[at].obj == Some(Account(user.value)) && StageOf(run[at], me) == Has(user.value)
      ensures reliable && user.None? ==> run[at].obj == Some(Garbled) || run[at].obj == None
      ensures forall k :: |old(run)| <= k < |run| ==> !StageOf(run[k], me).Candidate? && !StageOf(run[k], me).Checked?
    {
      var answer := LoadACMEUser();
      at := |run| - 1;
      if answer.Found? { return Some(answer.user), at; }
      Take(SetStage(world, me, Idle));
      user := None;
    }

    /** Registers the account with the CA unless it is, and saves it; the key stays what it was. */
    method Register(user: User, accepted: bool) returns (ok: bool, registered: User)
      requires Valid() && Mine() == Has(user)
      modifies this
      ensures Valid() && old(run) <= run && registered.key == user.key && registered.email == user.email
      ensures user.registered ==> ok && registered == user && run == old(run)
      ensures ok ==> registered.registered && Mine() == Has(registered)
      ensures !ok ==> Mine().Idle?
      ensures ok && !user.registered ==> world.obj == Some(Account(registered))
      // what the CA does not accept is not saved
      ensures !user.registered && !accepted ==> !ok && run == old(run) + [world] && world.obj == old(world).obj
      ensures reliable && accepted ==> ok
    {
      registered := user;
      if user.registered { return true, registered; }
      if !accepted {
        Take(SetStage(world, me, Idle));
        return false, registered;
      }
      registered := user.(registered := true);
      Interfere();
      ok := *;
      ok := ok || reliable;
      var effect: bool := *;
      if ok || effect { Take(Saved(world, me)); }
      if !ok { Take(SetStage(world, me, Idle)); }
    }
  }
}
