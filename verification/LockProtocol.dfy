/**
  The distributed lock as a state machine of any number of instances, at the granularity of single S3
  calls.  Each instance has a main thread that acquires and releases and, while it holds the lock, a
  refresher.  Every call may fail, a failed write may have taken effect, and an instance may crash
  between any two calls.

  The S3 calls of one operation are not atomic, so mutual exclusion cannot hold without a condition.
  It holds in every run in which the lock object, when an operation overwrites it, is still what the
  operation had read; this is proved by reduction to a machine whose operations are atomic.
 */
module LockProtocol {
  import opened Prelude

  const LOCK_TTL := 5 * MINUTE

  /** The stored record.  One that does not decode reads as Rec("", 0, 0). */
  datatype Rec = Rec(owner: string, acquiredAt: int, expiresAt: int)

  /** A record without an expiry counts from its acquisition. */
  function Expiry(rec: Rec): int {
    if rec.expiresAt == 0 && rec.acquiredAt != 0 then rec.acquiredAt + LOCK_TTL else rec.expiresAt
  }

  predicate Stale(seen: Option<Rec>, now: int) {
    seen.None? || Expiry(seen.value) <= now
  }

  /**
    A lock is over once the expiry it carries has come.  One without an expiry is over five minutes after
    its acquisition, and one that does not decode always is.
   */
  lemma StaleIff(seen: Option<Rec>, now: int)
    ensures seen.None? ==> Stale(seen, now)
    ensures seen.Some? && seen.value.expiresAt != 0 ==> (Stale(seen, now) <==> now >= seen.value.expiresAt)
    ensures seen.Some? && seen.value.expiresAt == 0 && seen.value.acquiredAt != 0 ==>
              (Stale(seen, now) <==> now >= seen.value.acquiredAt + 300 * SECOND)
    ensures seen == Some(Rec("", 0, 0)) && now > 0 ==> Stale(seen, now)
  {
  }

  datatype Main =
    | Free
    | Looked(seen: Option<Rec>)                           // has loaded the record
    | Claiming(seen: Option<Rec>, rec: Rec, checked: bool)  // checked: may put, without a further look
    | Claimed(rec: Rec)                                   // the put has taken effect, its result is not known
    | Holding
    | Leaving                                             // the refresher has stopped
    | Letting(target: Rec)                                // about to delete what it saw

  datatype Refresher = Off | Ticking | Peeked(seen: Rec) | Extending(seen: Rec, rec: Rec)

  datatype Proc = Proc(main: Main, aux: Refresher, token: string)

  const IDLE := Proc(Free, Off, "")

  /** A lease lasts from the put that acquired it to the last expiry written for it, or its release. */
  datatype Lease = Lease(from: int, to: int)

  datatype State = State(
    now: int, obj: Option<Rec>, procs: map<nat, Proc>,
    used: set<string>,          // every token ever generated or found in the bucket
    leases: map<string, Lease>,
    retired: set<string>)       // tokens whose holder has begun to release

  function TheProc(s: State, p: nat): Proc {
    if p in s.procs then s.procs[p] else IDLE
  }

  function SetProc(s: State, p: nat, proc: Proc): State {
    s.(procs := s.procs[p := proc])
  }

  function Ended(leases: map<string, Lease>, token: string, now: int): map<string, Lease> {
    if token in leases && now < leases[token].to then leases[token := leases[token].(to := now)] else leases
  }

  function Extended(leases: map<string, Lease>, token: string, to: int): map<string, Lease> {
    if token in leases then leases[token := leases[token].(to := to)] else leases
  }

  // ---------------------------------------------------------------- the writes

  function Claim(s: State, p: nat): State
    requires TheProc(s, p).main.Claiming?
  {
    var rec := TheProc(s, p).main.rec;
    SetProc(s, p, TheProc(s, p).(main := Claimed(rec))).(
      obj := Some(rec), leases := s.leases[rec.owner := Lease(s.now, rec.expiresAt)])
  }

  function Extend(s: State, p: nat): State
    requires TheProc(s, p).aux.Extending?
  {
    var rec := TheProc(s, p).aux.rec;
    SetProc(s, p, TheProc(s, p).(aux := Ticking)).(
      obj := Some(rec), leases := Extended(s.leases, rec.owner, rec.expiresAt))
  }

  /** An acquiring put takes effect. */
  ghost predicate ClaimWrite(s: State, s': State, p: nat) {
    var proc := TheProc(s, p);
    proc.main.Claiming? && proc.main.checked && s' == Claim(s, p)
  }

  /** A refreshing put takes effect. */
  ghost predicate ExtendWrite(s: State, s': State, p: nat) {
    TheProc(s, p).aux.Extending? && s' == Extend(s, p)
  }

  /** The conditional delete takes effect: the object is still the one that was seen. */
  ghost predicate LetGo(s: State, s': State, p: nat) {
    var proc := TheProc(s, p);
    && proc.main.Letting?
    && s.obj == Some(proc.main.target)
    && s' == SetProc(s, p, IDLE).(obj := None, leases := Ended(s.leases, proc.main.target.owner, s.now))
  }

  // ---------------------------------------------------------------- the other steps of one instance

  ghost predicate MainMoves(s: State, s': State, p: nat) {
    var proc := TheProc(s, p);
    match proc.main
    case Free =>
      proc.token == "" && s' == SetProc(s, p, proc.(main := Looked(s.obj)))
    case Looked(seen) =>
      exists token ::
        && Stale(seen, s.now) && token !in s.used && token != ""
        && s' == SetProc(s, p, proc.(main := Claiming(seen, Rec(token, s.now, s.now + LOCK_TTL), seen.Some?))).(
                   used := s.used + {token})
    case Claiming(seen, rec, checked) =>
      // the head request finds nothing
      !checked && s.obj.None? && s' == SetProc(s, p, proc.(main := Claiming(seen, rec, true)))
    case Claimed(rec) =>
      s' == SetProc(s, p, Proc(Holding, Ticking, rec.owner))
    case Holding =>
      // the refresher is told to stop and has done so
      && proc.aux == Ticking
      && s' == SetProc(s, p, proc.(main := Leaving, aux := Off)).(retired := s.retired + {proc.token})
    case Leaving =>
      && s.obj.Some? && s.obj.value.owner == proc.token
      && s' == SetProc(s, p, proc.(main := Letting(s.obj.value)))
    case Letting(_) => false
  }

  ghost predicate AuxMoves(s: State, s': State, p: nat) {
    var proc := TheProc(s, p);
    match proc.aux
    case Off => false
    case Ticking =>
      && s.obj.Some? && s.obj.value.owner == proc.token
      && s' == SetProc(s, p, proc.(aux := Peeked(s.obj.value)))
    case Peeked(seen) =>
      s' == SetProc(s, p, proc.(aux := Extending(seen, seen.(expiresAt := s.now + LOCK_TTL))))
    case Extending(_, _) => false
  }

  /** An operation gives up: an error, or the end of a release. */
  ghost predicate GivesUp(s: State, s': State, p: nat) {
    var proc := TheProc(s, p);
    || (proc.main.Looked? && s' == SetProc(s, p, proc.(main := Free)))
    || (proc.main.Claiming? && s' == SetProc(s, p, proc.(main := Free)))
    || (proc.main.Claimed? && s' == SetProc(s, p, proc.(main := Free)))
    || ((proc.main.Leaving? || proc.main.Letting?) && s' == SetProc(s, p, IDLE))
    || (proc.aux.Extending? && s' == SetProc(s, p, proc.(aux := Ticking)))
  }

  /** The instance crashes and starts anew. */
  ghost predicate Crashes(s: State, s': State, p: nat) {
    var proc := TheProc(s, p);
    s' == SetProc(s, p, IDLE).(retired := s.retired + {proc.token})
  }

  ghost predicate Quiet(s: State, s': State, p: nat) {
    MainMoves(s, s', p) || AuxMoves(s, s', p) || GivesUp(s, s', p) || Crashes(s, s', p)
  }

  ghost predicate StepOf(s: State, s': State, p: nat) {
    Quiet(s, s', p) || ClaimWrite(s, s', p) || ExtendWrite(s, s', p) || LetGo(s, s', p)
  }

  ghost predicate Ticks(s: State, s': State) {
    s.now <= s'.now && s' == s.(now := s'.now)
  }

  ghost predicate Next(s: State, s': State) {
    Ticks(s, s') || exists p :: StepOf(s, s', p)
  }

  /** At the start the bucket holds any record or none, and every instance is idle. */
  ghost predicate Init(s: State) {
    && s.now > 0
    && (forall p :: p in s.procs ==> s.procs[p] == IDLE)
    && "" in s.used && s.retired <= s.used && "" in s.retired
    && match s.obj
       case None => s.leases == map[]
       case Some(rec) => rec.owner in s.used && s.leases == map[rec.owner := Lease(s.now, Expiry(rec))]
  }

  ghost predicate IsRun(run: seq<State>) {
    && |run| > 0 && Init(run[0])
    && forall i, j {:trigger Next(run[i], run[j])} :: 0 <= i < |run| - 1 && j == i + 1 ==> Next(run[i], run[j])
  }

  // ---------------------------------------------------------------- what every run keeps

  /** Tokens that an instance may still write. */
  ghost predicate Writes(proc: Proc, token: string) {
    || (proc.main.Claiming? && proc.main.rec.owner == token)
    || (proc.main.Claimed? && proc.main.rec.owner == token)
    || (proc.main.Holding? && proc.token == token)
  }

  ghost predicate ProcInv(s: State, proc: Proc) {
    && (proc.aux != Off ==> proc.main == Holding)
    && (proc.main == Holding ==> proc.aux != Off)
    && (proc.main.Holding? || proc.main.Leaving? || proc.main.Letting? ==> proc.token != "" && proc.token in s.used)
    && (proc.main.Free? || proc.main.Looked? || proc.main.Claiming? || proc.main.Claimed? ==> proc.token == "")
    && (proc.main.Claiming? ==> proc.main.rec.owner in s.used && proc.main.rec.owner != ""
                                && Stale(proc.main.seen, s.now) && proc.main.rec.expiresAt > 0)
    && (proc.main.Claimed? ==> proc.main.rec.owner in s.used && proc.main.rec.owner != "")
    && (proc.main.Leaving? || proc.main.Letting? ==> proc.token in s.retired)
    && (proc.main.Letting? ==> proc.main.target.owner == proc.token)
    && (proc.aux.Peeked? ==> proc.aux.seen.owner == proc.token)
    && (proc.aux.Extending? ==> proc.aux.seen.owner == proc.token
                                && proc.aux.rec == proc.aux.seen.(expiresAt := proc.aux.rec.expiresAt)
                                && proc.aux.rec.expiresAt > 0)
  }

  ghost predicate Inv(s: State) {
    && (forall p :: p in s.procs ==> ProcInv(s, s.procs[p]))
    && (forall p, q, token :: p in s.procs && q in s.procs && p != q && Writes(s.procs[p], token) ==>
          !Writes(s.procs[q], token))
    && (forall p, token :: p in s.procs && Writes(s.procs[p], token) ==> token !in s.retired)
    && s.now > 0 && "" in s.used && "" in s.retired
    && s.retired <= s.used
    && (s.obj.Some? ==> s.obj.value.owner in s.used)
    && (forall token :: token in s.leases ==> token in s.used)
    && (forall p :: p in s.procs && s.procs[p].main.Claiming? ==> s.procs[p].main.rec.owner !in s.leases)
  }

  lemma InitInv(s: State)
    requires Init(s)
    ensures Inv(s)
  {
  }

  lemma TickInv(s: State, s': State)
    requires Inv(s) && Ticks(s, s')
    ensures Inv(s')
  {
    forall p | p in s'.procs
      ensures ProcInv(s', s'.procs[p])
    {
      assert ProcInv(s, s.procs[p]);
    }
  }

  /** One instance moves, within what has been handed out and retired so far or more. */
  ghost predicate MovesOne(s: State, s': State, p: nat) {
    && s'.procs == s.procs[p := TheProc(s', p)] && s'.now == s.now
    && s.used <= s'.used && s.retired <= s'.retired <= s'.used
  }

  lemma OthersStayInOrder(s: State, s': State, p: nat)
    requires Inv(s) && MovesOne(s, s', p) && ProcInv(s', TheProc(s', p))
    ensures forall q :: q in s'.procs ==> ProcInv(s', s'.procs[q])
  {
    forall q | q in s'.procs
      ensures ProcInv(s', s'.procs[q])
    {
      if q != p { assert ProcInv(s, s.procs[q]); }
    }
  }

  /** What any instance may write is known, and nobody else may write it. */
  lemma TokensApart(s: State, s': State, p: nat)
    requires Inv(s) && MovesOne(s, s', p)
    requires forall token :: Writes(TheProc(s', p), token) ==> Writes(TheProc(s, p), token) || token !in s.used
    ensures forall q, r, token :: q in s'.procs && r in s'.procs && q != r && Writes(s'.procs[q], token) ==>
              !Writes(s'.procs[r], token)
  {
    forall q, token | q in s'.procs && q != p && Writes(s'.procs[q], token)
      ensures !Writes(s'.procs[p], token)
    {
      assert ProcInv(s, s.procs[q]);
    }
  }

  /** An instance whose own part stays in order, and which takes up no token but a new one, keeps all in order. */
  lemma ProcChangeInv(s: State, s': State, p: nat)
    requires Inv(s) && MovesOne(s, s', p) && ProcInv(s', TheProc(s', p))
    requires forall token :: Writes(TheProc(s', p), token) ==> Writes(TheProc(s, p), token) || token !in s.used
    requires forall token :: Writes(TheProc(s', p), token) ==> token !in s'.retired
    requires forall q, token :: q in s.procs && q != p && Writes(s.procs[q], token) ==> token !in s'.retired
    requires s'.obj.Some? ==> s'.obj.value.owner in s'.used
    requires forall token :: token in s'.leases ==> token in s'.used
    requires TheProc(s', p).main.Claiming? ==> TheProc(s', p).main.rec.owner !in s'.leases
    requires forall q :: q in s.procs && q != p && s.procs[q].main.Claiming? ==> s.procs[q].main.rec.owner !in s'.leases
    ensures Inv(s')
  {
    OthersStayInOrder(s, s', p);
    TokensApart(s, s', p);
  }

  lemma ProcInOrder(s: State, p: nat)
    requires Inv(s)
    ensures ProcInv(s, TheProc(s, p))
  {
  }

  /** What one instance may write is no other's token. */
  lemma OthersNotRetired(s: State, p: nat)
    requires Inv(s)
    ensures forall q, token :: q in s.procs && q != p && Writes(s.procs[q], token) ==>
              token !in s.retired && !Writes(TheProc(s, p), token)
  {
  }

  lemma MainInv(s: State, s': State, p: nat)
    requires Inv(s) && MainMoves(s, s', p)
    ensures Inv(s')
  {
    ProcInOrder(s, p);
    OthersNotRetired(s, p);
    ProcChangeInv(s, s', p);
  }

  lemma QuietInv(s: State, s': State, p: nat)
    requires Inv(s) && Quiet(s, s', p)
    ensures Inv(s')
  {
    if MainMoves(s, s', p) {
      MainInv(s, s', p);
    } else {
      ProcInOrder(s, p);
      OthersNotRetired(s, p);
      ProcChangeInv(s, s', p);
    }
  }

  lemma WriteInv(s: State, s': State, p: nat)
    requires Inv(s) && (ClaimWrite(s, s', p) || ExtendWrite(s, s', p) || LetGo(s, s', p))
    ensures Inv(s')
  {
    ProcInOrder(s, p);
    OthersNotRetired(s, p);
    ProcChangeInv(s, s', p);
  }

  lemma StepInv(s: State, s': State)
    requires Inv(s) && Next(s, s')
    ensures Inv(s')
  {
    if Ticks(s, s') {
      TickInv(s, s');
    } else {
      var p :| StepOf(s, s', p);
      if Quiet(s, s', p) { QuietInv(s, s', p); } else { WriteInv(s, s', p); }
    }
  }

  lemma {:induction false} RunInv(run: seq<State>, k: nat)
    requires IsRun(run) && k < |run|
    ensures Inv(run[k])
  {
    if k == 0 {
      InitInv(run[0]);
    } else {
      RunInv(run, k - 1);
      StepInv(run[k - 1], run[k]);
    }
  }

  // ---------------------------------------------------------------- without any condition

  /** No instance ever deletes a record that is not its own. */
  lemma NoForeignDelete(run: seq<State>, k: nat, p: nat)
    requires IsRun(run) && k < |run| && TheProc(run[k], p).main.Letting?
    requires exists s' :: LetGo(run[k], s', p)
    ensures run[k].obj.Some? && run[k].obj.value.owner == TheProc(run[k], p).token != ""
  {
    RunInv(run, k);
    ProcInOrder(run[k], p);
  }

  /** Retired tokens stay retired. */
  lemma {:induction false} RetiredGrows(run: seq<State>, i: nat, j: nat)
    requires IsRun(run) && i <= j < |run|
    ensures run[i].retired <= run[j].retired
  {
    if i < j {
      RetiredGrows(run, i, j - 1);
      assert Next(run[j - 1], run[j]);
    }
  }

  /**
    Once the holder of a token has stopped its refresher in order to release the lock, or has crashed,
    no lock record with that token is ever written again.
   */
  lemma NoResurrection(run: seq<State>, i: nat, j: nat, p: nat, token: string)
    requires IsRun(run) && i <= j < |run| - 1 && token in run[i].retired
    requires ClaimWrite(run[j], run[j + 1], p) || ExtendWrite(run[j], run[j + 1], p)
    ensures run[j + 1].obj.Some? && run[j + 1].obj.value.owner != token
  {
    RetiredGrows(run, i, j);
    RunInv(run, j);
    ProcInOrder(run[j], p);
    var proc := TheProc(run[j], p);
    var written := if proc.main.Claiming? && ClaimWrite(run[j], run[j + 1], p) then proc.main.rec.owner else proc.token;
    assert Writes(proc, written);
  }

  /** A release begins by retiring the token; so after it the instance writes no record of its own. */
  lemma ReleaseRetires(run: seq<State>, k: nat, p: nat)
    requires IsRun(run) && k < |run| - 1
    requires TheProc(run[k], p).main.Holding? && TheProc(run[k + 1], p).main != TheProc(run[k], p).main
    requires StepOf(run[k], run[k + 1], p)
    ensures TheProc(run[k], p).token in run[k + 1].retired && TheProc(run[k + 1], p).aux == Off
  {
    RunInv(run, k);
    ProcInOrder(run[k], p);
  }

  // ---------------------------------------------------------------- the machine with atomic operations

  datatype Atomic = Atomic(now: int, obj: Option<Rec>, leases: map<string, Lease>)

  function Abstract(s: State): Atomic {
    Atomic(s.now, s.obj, s.leases)
  }

  ghost predicate AtomicAcquire(a: Atomic, a': Atomic) {
    exists rec: Rec ::
      && Stale(a.obj, a.now) && rec.owner !in a.leases && rec.expiresAt > 0
      && a' == Atomic(a.now, Some(rec), a.leases[rec.owner := Lease(a.now, rec.expiresAt)])
  }

  ghost predicate AtomicRefresh(a: Atomic, a': Atomic) {
    exists to ::
      && to > 0 && a.obj.Some?
      && a' == Atomic(a.now, Some(a.obj.value.(expiresAt := to)), Extended(a.leases, a.obj.value.owner, to))
  }

  ghost predicate AtomicRelease(a: Atomic, a': Atomic) {
    a.obj.Some? && a' == Atomic(a.now, None, Ended(a.leases, a.obj.value.owner, a.now))
  }

  ghost predicate AtomicNext(a: Atomic, a': Atomic) {
    || (a.now <= a'.now && a' == a.(now := a'.now))
    || AtomicAcquire(a, a') || AtomicRefresh(a, a') || AtomicRelease(a, a')
  }

  /** Two leases that have no instant in common. */
  predicate Apart(l: Lease, m: Lease) {
    l.to <= l.from || m.to <= m.from || l.to <= m.from || m.to <= l.from
  }

  ghost predicate Disjoint(leases: map<string, Lease>) {
    forall t, u :: t in leases && u in leases && t != u ==> Apart(leases[t], leases[u])
  }

  ghost predicate AtomicInv(a: Atomic) {
    && a.now > 0
    && Disjoint(a.leases)
    && (forall t :: t in a.leases ==> a.leases[t].from <= a.now)
    && match a.obj
       case None => forall t :: t in a.leases ==> a.leases[t].to <= a.now
       case Some(rec) =>
         && rec.owner in a.leases && a.leases[rec.owner].to == Expiry(rec)
         && forall t :: t in a.leases && t != rec.owner ==> a.leases[t].to <= a.leases[rec.owner].from
  }

  lemma AcquireKeeps(a: Atomic, a': Atomic)
    requires AtomicInv(a) && AtomicAcquire(a, a')
    ensures AtomicInv(a')
  {
    assert forall t :: t in a.leases ==> a.leases[t].to <= a.now;
  }

  lemma RefreshKeeps(a: Atomic, a': Atomic)
    requires AtomicInv(a) && AtomicRefresh(a, a')
    ensures AtomicInv(a')
  {
  }

  lemma ReleaseKeeps(a: Atomic, a': Atomic)
    requires AtomicInv(a) && AtomicRelease(a, a')
    ensures AtomicInv(a')
  {
    assert a.leases[a.obj.value.owner].from <= a.now;
  }

  lemma AtomicStep(a: Atomic, a': Atomic)
    requires AtomicInv(a) && AtomicNext(a, a')
    ensures AtomicInv(a')
  {
    if AtomicAcquire(a, a') { AcquireKeeps(a, a'); }
    else if AtomicRefresh(a, a') { RefreshKeeps(a, a'); }
    else if AtomicRelease(a, a') { ReleaseKeeps(a, a'); }
  }

  // ---------------------------------------------------------------- the reduction

  /** The lock object, when an operation overwrites it, is what the operation had read. */
  ghost predicate Undisturbed(s: State, s': State) {
    && (forall p :: ClaimWrite(s, s', p) ==> s.obj == TheProc(s, p).main.seen)
    && (forall p :: ExtendWrite(s, s', p) ==> s.obj == Some(TheProc(s, p).aux.seen))
  }

  ghost predicate UndisturbedRun(run: seq<State>) {
    && IsRun(run)
    && forall i, j {:trigger Undisturbed(run[i], run[j])} :: 0 <= i < |run| - 1 && j == i + 1 ==>
         Undisturbed(run[i], run[j])
  }

  /** Each undisturbed S3 call amounts to an atomic operation or to none. */
  lemma Reduction(s: State, s': State)
    requires Inv(s) && Next(s, s') && Undisturbed(s, s')
    ensures AtomicNext(Abstract(s), Abstract(s'))
  {
    if !Ticks(s, s') {
      var p :| StepOf(s, s', p);
      ProcInOrder(s, p);
      var proc := TheProc(s, p);
      if ClaimWrite(s, s', p) {
        var rec := proc.main.rec;
        assert Stale(s.obj, s.now) && rec.owner !in s.leases;
      } else if ExtendWrite(s, s', p) {
        var to := proc.aux.rec.expiresAt;
        assert s'.obj == Some(s.obj.value.(expiresAt := to));
      } else if LetGo(s, s', p) {
        assert AtomicRelease(Abstract(s), Abstract(s'));
      } else {
        assert Abstract(s') == Abstract(s);
      }
    }
  }

  lemma AtomicStart(s: State)
    requires Init(s)
    ensures AtomicInv(Abstract(s))
  {
  }

  lemma UndisturbedStep(run: seq<State>, k: nat)
    requires UndisturbedRun(run) && k < |run| - 1
    ensures AtomicNext(Abstract(run[k]), Abstract(run[k + 1]))
  {
    RunInv(run, k);
    Reduction(run[k], run[k + 1]);
  }

  lemma {:induction false} UndisturbedInv(run: seq<State>, k: nat)
    requires UndisturbedRun(run) && k < |run|
    ensures AtomicInv(Abstract(run[k]))
  {
    if k == 0 {
      AtomicStart(run[0]);
    } else {
      UndisturbedInv(run, k - 1);
      UndisturbedStep(run, k - 1);
      AtomicStep(Abstract(run[k - 1]), Abstract(run[k]));
    }
  }

  /** In an undisturbed run of any number of instances the leases of different tokens never overlap. */
  lemma LeasesDisjoint(run: seq<State>, k: nat, t: string, u: string)
    requires UndisturbedRun(run) && k < |run| && t in run[k].leases && u in run[k].leases && t != u
    ensures Apart(run[k].leases[t], run[k].leases[u])
  {
    UndisturbedInv(run, k);
  }

  /** While a lease lasts, no undisturbed acquisition succeeds. */
  lemma NoTakeover(run: seq<State>, k: nat, p: nat)
    requires UndisturbedRun(run) && k < |run| - 1 && ClaimWrite(run[k], run[k + 1], p)
    ensures forall t :: t in run[k].leases ==> run[k].leases[t].to <= run[k].now
  {
    assert Undisturbed(run[k], run[k + 1]);
    RunInv(run, k);
    ProcInOrder(run[k], p);
    UndisturbedInv(run, k);
  }

  /**
    For an acquisition the condition is exact: where the leases were disjoint, they stay so if and
    only if the record that the put overwrites is stale by then, or the put comes so late that its own
    lease is over.
   */
  lemma ClaimKeepsDisjointIffStale(s: State, s': State, p: nat)
    requires Inv(s) && AtomicInv(Abstract(s)) && ClaimWrite(s, s', p)
    ensures Disjoint(s'.leases) <==> Stale(s.obj, s.now) || TheProc(s, p).main.rec.expiresAt <= s.now
  {
    ProcInOrder(s, p);
    var rec := TheProc(s, p).main.rec;
    assert s'.leases[rec.owner] == Lease(s.now, rec.expiresAt);
    if !Stale(s.obj, s.now) && s.now < rec.expiresAt {
      var t := s.obj.value.owner;
      assert s'.leases[t] == s.leases[t] && !Apart(s'.leases[t], s'.leases[rec.owner]);
    }
  }

  // ---------------------------------------------------------------- mutual exclusion fails without the condition

  /** Both instances look before either puts. */
  ghost function RacingRun(): (run: seq<State>)
    ensures |run| == 11
    ensures TheProc(run[10], 0) == Proc(Holding, Ticking, "a") && TheProc(run[10], 1) == Proc(Holding, Ticking, "b")
    ensures run[10].leases == map["a" := Lease(1, 1 + LOCK_TTL), "b" := Lease(1, 1 + LOCK_TTL)]
  {
    var a, b := Rec("a", 1, 1 + LOCK_TTL), Rec("b", 1, 1 + LOCK_TTL);
    var s0 := State(1, None, map[], {""}, map[], {""});
    var s1 := SetProc(s0, 0, Proc(Looked(None), Off, ""));
    var s2 := SetProc(s1, 0, Proc(Claiming(None, a, false), Off, "")).(used := {"", "a"});
    var s3 := SetProc(s2, 0, Proc(Claiming(None, a, true), Off, ""));
    var s4 := SetProc(s3, 1, Proc(Looked(None), Off, ""));
    var s5 := SetProc(s4, 1, Proc(Claiming(None, b, false), Off, "")).(used := {"", "a", "b"});
    var s6 := SetProc(s5, 1, Proc(Claiming(None, b, true), Off, ""));
    var s7 := SetProc(s6, 0, Proc(Claimed(a), Off, "")).(obj := Some(a), leases := map["a" := Lease(1, 1 + LOCK_TTL)]);
    var s8 := SetProc(s7, 1, Proc(Claimed(b), Off, "")).(
                obj := Some(b), leases := map["a" := Lease(1, 1 + LOCK_TTL), "b" := Lease(1, 1 + LOCK_TTL)]);
    var s9 := SetProc(s8, 0, Proc(Holding, Ticking, "a"));
    var s10 := SetProc(s9, 1, Proc(Holding, Ticking, "b"));
    [s0, s1, s2, s3, s4, s5, s6, s7, s8, s9, s10]
  }

  /** Every step between the two indexes is one of the machine. */
  ghost predicate Steps(run: seq<State>, from: nat, to: nat) {
    to < |run| && forall i, j {:trigger Next(run[i], run[j])} :: from <= i < to && j == i + 1 ==> Next(run[i], run[j])
  }

  lemma OneStep(run: seq<State>, i: nat)
    requires i + 1 < |run| && Next(run[i], run[i + 1])
    ensures Steps(run, i, i + 1)
  {
  }

  lemma StepsJoin(run: seq<State>, i: nat, j: nat, k: nat)
    requires i <= j <= k && Steps(run, i, j) && Steps(run, j, k)
    ensures Steps(run, i, k)
  {
  }

  lemma ThreeSteps(run: seq<State>, i: nat)
    requires i + 3 < |run| && Next(run[i], run[i + 1]) && Next(run[i + 1], run[i + 2]) && Next(run[i + 2], run[i + 3])
    ensures Steps(run, i, i + 3)
  {
    OneStep(run, i);
    OneStep(run, i + 1);
    OneStep(run, i + 2);
    StepsJoin(run, i, i + 1, i + 2);
    StepsJoin(run, i, i + 2, i + 3);
  }

  lemma RacingBegins()
    ensures Init(RacingRun()[0])
  {
  }

  lemma RacingDraws()
    ensures Steps(RacingRun(), 1, 2)
  {
    var run := RacingRun();
    assert {""} + {"a"} == {"", "a"};
    assert Stale(None, run[1].now) && "a" !in run[1].used;
    assert StepOf(run[1], run[2], 0);
    OneStep(run, 1);
  }

  lemma RacingLooks()
    ensures Steps(RacingRun(), 0, 3)
  {
    var run := RacingRun();
    assert StepOf(run[0], run[1], 0);
    OneStep(run, 0);
    RacingDraws();
    assert StepOf(run[2], run[3], 0);
    OneStep(run, 2);
    StepsJoin(run, 0, 1, 2);
    StepsJoin(run, 0, 2, 3);
  }

  lemma RacingLooksAgain()
    ensures Steps(RacingRun(), 3, 6)
  {
    var run := RacingRun();
    assert StepOf(run[3], run[4], 1);
    assert {"", "a"} + {"b"} == {"", "a", "b"};
    assert Stale(None, run[4].now) && "b" !in run[4].used;
    assert StepOf(run[4], run[5], 1);
    assert StepOf(run[5], run[6], 1);
    ThreeSteps(run, 3);
  }

  lemma RacingPuts()
    ensures Steps(RacingRun(), 6, 9)
  {
    var run := RacingRun();
    assert ClaimWrite(run[6], run[7], 0) && StepOf(run[6], run[7], 0);
    assert ClaimWrite(run[7], run[8], 1) && StepOf(run[7], run[8], 1);
    assert StepOf(run[8], run[9], 0);
    ThreeSteps(run, 6);
  }

  lemma RacingEnds()
    ensures Steps(RacingRun(), 9, 10)
  {
    var run := RacingRun();
    assert StepOf(run[9], run[10], 1);
    OneStep(run, 9);
  }

  lemma RacingIsRun()
    ensures IsRun(RacingRun())
  {
    var run := RacingRun();
    RacingBegins();
    RacingLooks();
    RacingLooksAgain();
    RacingPuts();
    RacingEnds();
    StepsJoin(run, 0, 3, 6);
    StepsJoin(run, 0, 6, 9);
    StepsJoin(run, 0, 9, 10);
  }

  /** A head request and a put are two calls: two instances can hold the lock at once. */
  lemma MutualExclusionCanFail()
    ensures exists run: seq<State>, k: nat, t: string, u: string :: IsRun(run) && k < |run| && Overlap(run[k], t, u)
  {
    RacingIsRun();
    var run := RacingRun();
    assert Overlap(run[10], "a", "b");
  }

  // ---------------------------------------------------------------- the refreshing put

  predicate Lasts(l: Lease) { l.from < l.to }

  /** Nobody else took the lock after this lease began and before its new end. */
  ghost predicate NobodySince(leases: map<string, Lease>, token: string, to: int)
    requires token in leases
  {
    forall t :: t in leases && t != token && Lasts(leases[t]) ==>
      leases[t].from < leases[token].from || to <= leases[t].from
  }

  lemma ProlongedApartIff(leases: map<string, Lease>, token: string, to: int, t: string)
    requires Disjoint(leases) && token in leases && t in leases && t != token
    requires Lasts(leases[token]) && Lasts(leases[t]) && leases[token].to <= to
    ensures Apart(leases[t], leases[token].(to := to)) <==> leases[t].from < leases[token].from || to <= leases[t].from
  {
    assert Apart(leases[t], leases[token]);
  }

  lemma ProlongedDisjointIff(leases: map<string, Lease>, token: string, to: int)
    requires Disjoint(leases) && token in leases && Lasts(leases[token]) && leases[token].to <= to
    ensures Disjoint(leases[token := leases[token].(to := to)]) <==> NobodySince(leases, token, to)
  {
    var leases' := leases[token := leases[token].(to := to)];
    forall t | t in leases && t != token && Lasts(leases[t])
      ensures Apart(leases'[t], leases'[token]) <==> leases[t].from < leases[token].from || to <= leases[t].from
    {
      ProlongedApartIff(leases, token, to, t);
    }
    if NobodySince(leases, token, to) {
      forall t, u | t in leases' && u in leases' && t != u
        ensures Apart(leases'[t], leases'[u])
      {
        assert t != token && u != token ==> Apart(leases[t], leases[u]);
      }
    } else {
      var t :| t in leases && t != token && Lasts(leases[t])
               && !(leases[t].from < leases[token].from || to <= leases[t].from);
      assert !Apart(leases'[t], leases'[token]);
    }
  }

  /**
    For the refreshing put, which nothing guards, the condition is exact as well, whether it finds a
    lock or none: the leases stay disjoint if and only if nobody else has taken the lock since.
   */
  lemma ExtendKeepsDisjointIff(s: State, s': State, p: nat)
    requires Inv(s) && LeaseInv(s) && AtomicInv(Abstract(s)) && ExtendWrite(s, s', p)
    requires TheProc(s, p).token in s.leases && Lasts(s.leases[TheProc(s, p).token])
    ensures Disjoint(s'.leases) <==> NobodySince(s.leases, TheProc(s, p).token, TheProc(s, p).aux.rec.expiresAt)
  {
    ProcInOrder(s, p);
    assert Lent(s, TheProc(s, p));
    ProlongedDisjointIff(s.leases, TheProc(s, p).token, TheProc(s, p).aux.rec.expiresAt);
  }

  /**
    Where it finds a lock, and writes an expiry beyond the beginning of the present owner's lease, that
    is to say that the lock is still its own.
   */
  lemma ExtendKeepsDisjointIffOwn(s: State, s': State, p: nat)
    requires Inv(s) && LeaseInv(s) && AtomicInv(Abstract(s)) && ExtendWrite(s, s', p) && s.obj.Some?
    requires TheProc(s, p).token in s.leases && Lasts(s.leases[TheProc(s, p).token])
    requires Lasts(s.leases[s.obj.value.owner]) && s.leases[s.obj.value.owner].from < TheProc(s, p).aux.rec.expiresAt
    ensures Disjoint(s'.leases) <==> s.obj.value.owner == TheProc(s, p).token
  {
    ExtendKeepsDisjointIff(s, s', p);
  }

  /** A refresh reads the clock, is held up while its lease runs out, and overwrites the next owner's lock. */
  ghost function LateRefreshRun(): (run: seq<State>)
    ensures |run| == 14
    ensures run[13].leases == map["a" := Lease(1, 2 + LOCK_TTL), "b" := Lease(1 + LOCK_TTL, 1 + 2 * LOCK_TTL)]
    ensures TheProc(run[13], 0) == Proc(Holding, Ticking, "a") && TheProc(run[13], 1).main.Claimed?
  {
    var late := 1 + LOCK_TTL;
    var a, a', b := Rec("a", 1, late), Rec("a", 1, 2 + LOCK_TTL), Rec("b", late, late + LOCK_TTL);
    var s0 := State(1, None, map[], {""}, map[], {""});
    var s1 := SetProc(s0, 0, Proc(Looked(None), Off, ""));
    var s2 := SetProc(s1, 0, Proc(Claiming(None, a, false), Off, "")).(used := {"", "a"});
    var s3 := SetProc(s2, 0, Proc(Claiming(None, a, true), Off, ""));
    var s4 := SetProc(s3, 0, Proc(Claimed(a), Off, "")).(obj := Some(a), leases := map["a" := Lease(1, late)]);
    var s5 := SetProc(s4, 0, Proc(Holding, Ticking, "a"));
    var s6 := SetProc(s5, 0, Proc(Holding, Peeked(a), "a"));
    var s7 := s6.(now := 2);
    var s8 := SetProc(s7, 0, Proc(Holding, Extending(a, a'), "a"));
    var s9 := s8.(now := late);
    var s10 := SetProc(s9, 1, Proc(Looked(Some(a)), Off, ""));
    var s11 := SetProc(s10, 1, Proc(Claiming(Some(a), b, true), Off, "")).(used := {"", "a", "b"});
    var s12 := SetProc(s11, 1, Proc(Claimed(b), Off, "")).(
                 obj := Some(b), leases := map["a" := Lease(1, late), "b" := Lease(late, late + LOCK_TTL)]);
    var s13 := SetProc(s12, 0, Proc(Holding, Ticking, "a")).(
                 obj := Some(a'), leases := map["a" := Lease(1, 2 + LOCK_TTL), "b" := Lease(late, late + LOCK_TTL)]);
    [s0, s1, s2, s3, s4, s5, s6, s7, s8, s9, s10, s11, s12, s13]
  }

  lemma LateBegins()
    ensures Init(LateRefreshRun()[0])
  {
  }

  lemma LateDraws()
    ensures Steps(LateRefreshRun(), 1, 2)
  {
    var run := LateRefreshRun();
    assert {""} + {"a"} == {"", "a"};
    assert Stale(None, run[1].now) && "a" !in run[1].used;
    assert StepOf(run[1], run[2], 0);
    OneStep(run, 1);
  }

  lemma LateAcquires()
    ensures Steps(LateRefreshRun(), 0, 3)
  {
    var run := LateRefreshRun();
    assert StepOf(run[0], run[1], 0);
    OneStep(run, 0);
    LateDraws();
    assert StepOf(run[2], run[3], 0);
    OneStep(run, 2);
    StepsJoin(run, 0, 1, 2);
    StepsJoin(run, 0, 2, 3);
  }

  lemma LateHolds()
    ensures Steps(LateRefreshRun(), 3, 6)
  {
    var run := LateRefreshRun();
    assert ClaimWrite(run[3], run[4], 0) && StepOf(run[3], run[4], 0);
    assert StepOf(run[4], run[5], 0);
    assert StepOf(run[5], run[6], 0);
    ThreeSteps(run, 3);
  }

  lemma LateReads()
    ensures Steps(LateRefreshRun(), 6, 9)
  {
    var run := LateRefreshRun();
    assert Ticks(run[6], run[7]);
    assert StepOf(run[7], run[8], 0);
    assert Ticks(run[8], run[9]);
    ThreeSteps(run, 6);
  }

  lemma LateTakenOver()
    ensures Steps(LateRefreshRun(), 9, 12)
  {
    var run := LateRefreshRun();
    assert StepOf(run[9], run[10], 1);
    assert {"", "a"} + {"b"} == {"", "a", "b"};
    assert Stale(Some(Rec("a", 1, 1 + LOCK_TTL)), run[10].now) && "b" !in run[10].used;
    assert StepOf(run[10], run[11], 1);
    assert ClaimWrite(run[11], run[12], 1) && StepOf(run[11], run[12], 1);
    ThreeSteps(run, 9);
  }

  lemma LateOverwrites()
    ensures Steps(LateRefreshRun(), 12, 13)
  {
    var run := LateRefreshRun();
    assert ExtendWrite(run[12], run[13], 0) && StepOf(run[12], run[13], 0);
    OneStep(run, 12);
  }

  lemma LateRefreshIsRun()
    ensures IsRun(LateRefreshRun())
  {
    var run := LateRefreshRun();
    LateBegins();
    LateAcquires();
    LateHolds();
    LateReads();
    LateTakenOver();
    LateOverwrites();
    StepsJoin(run, 0, 3, 6);
    StepsJoin(run, 0, 6, 9);
    StepsJoin(run, 0, 9, 12);
    StepsJoin(run, 0, 12, 13);
  }

  lemma LateClaimsUndisturbed(i: nat, p: nat)
    requires i < 13 && TheProc(LateRefreshRun()[i], p).main.Claiming? && TheProc(LateRefreshRun()[i], p).main.checked
    ensures LateRefreshRun()[i].obj == TheProc(LateRefreshRun()[i], p).main.seen
  {
    assert i in {0, 1, 2, 3, 4, 5, 6, 7, 8, 9, 10, 11, 12};
  }

  /** All acquisitions overwrite just what they had seen. */
  ghost predicate ClaimsUndisturbed(run: seq<State>) {
    forall i: nat, p: nat :: i < |run| - 1 && TheProc(run[i], p).main.Claiming? && TheProc(run[i], p).main.checked ==>
      run[i].obj == TheProc(run[i], p).main.seen
  }

  ghost predicate Overlap(s: State, t: string, u: string) {
    t in s.leases && u in s.leases && t != u && !Apart(s.leases[t], s.leases[u])
  }

  /** A refresh that comes too late makes two instances hold the lock at once, though no acquisition raced. */
  lemma LateRefreshBreaksExclusion()
    ensures exists run: seq<State>, k: nat, t: string, u: string ::
              IsRun(run) && ClaimsUndisturbed(run) && k < |run| && Overlap(run[k], t, u)
  {
    LateRefreshIsRun();
    var run := LateRefreshRun();
    forall i: nat, p: nat | i < |run| - 1 && TheProc(run[i], p).main.Claiming? && TheProc(run[i], p).main.checked
      ensures run[i].obj == TheProc(run[i], p).main.seen
    {
      LateClaimsUndisturbed(i, p);
    }
    assert Overlap(run[13], "a", "b");
  }

  // ---------------------------------------------------------------- keeping a lease alive

  /** A put that sets the expiry: when the clock was read, when the put took effect, if it did. */
  datatype Attempt = Attempt(read: int, written: int, ok: bool)

  const REFRESH_INTERVAL := MINUTE

  /** The acquisition, then a refresh at every tick; latency and jitter stay under one interval in all. */
  ghost predicate Punctual(start: int, attempts: seq<Attempt>) {
    && |attempts| > 0 && attempts[0].ok && attempts[0].read == start
    && forall i :: 0 <= i < |attempts| ==>
         start + i * REFRESH_INTERVAL <= attempts[i].read <= attempts[i].written < start + (i + 1) * REFRESH_INTERVAL
  }

  ghost predicate FailsFourTimes(attempts: seq<Attempt>, i: int) {
    0 <= i < |attempts| - 3 && !attempts[i].ok && !attempts[i + 1].ok && !attempts[i + 2].ok && !attempts[i + 3].ok
  }

  ghost predicate FailsFiveTimes(attempts: seq<Attempt>, i: int) {
    0 <= i < |attempts| - 4 && FailsFourTimes(attempts, i) && !attempts[i + 4].ok
  }

  /** Put j has taken effect before instant t, or at t the acquisition, and its expiry lies beyond t. */
  predicate InForce(attempts: seq<Attempt>, j: nat, t: int)
    requires j < |attempts|
  {
    && attempts[j].ok
    && (attempts[j].written < t || (j == 0 && attempts[j].written == t))
    && t < attempts[j].read + LOCK_TTL
  }

  ghost predicate Alive(attempts: seq<Attempt>, t: int) {
    exists j: nat :: j < |attempts| && InForce(attempts, j, t)
  }

  /** A put that succeeds at tick j covers the ticks j + 1 to j + 4; the acquisition covers its own as well. */
  lemma Covers(start: int, attempts: seq<Attempt>, j: int, m: int, t: int)
    requires Punctual(start, attempts) && 0 <= j < |attempts| && attempts[j].ok
    requires start + m * REFRESH_INTERVAL <= t < start + (m + 1) * REFRESH_INTERVAL
    requires j < m <= j + 4 || (j == 0 && attempts[0].written <= t && m <= 4)
    ensures Alive(attempts, t)
  {
    assert InForce(attempts, j, t);
  }

  /** As long as at most three refreshes in a row fail, the lease has no gap. */
  lemma KeepAlive(start: int, attempts: seq<Attempt>, t: int)
    requires Punctual(start, attempts) && forall i :: !FailsFourTimes(attempts, i)
    requires attempts[0].written <= t < start + |attempts| * REFRESH_INTERVAL
    ensures Alive(attempts, t)
  {
    var m := (t - start) / REFRESH_INTERVAL;
    assert start + m * REFRESH_INTERVAL <= t < start + (m + 1) * REFRESH_INTERVAL;
    if m < 5 {
      Covers(start, attempts, 0, m, t);
    } else {
      assert !FailsFourTimes(attempts, m - 4);
      var j := if attempts[m - 4].ok then m - 4 else if attempts[m - 3].ok then m - 3
               else if attempts[m - 2].ok then m - 2 else m - 1;
      Covers(start, attempts, j, m, t);
    }
  }

  // ---------------------------------------------------------------- a live lease keeps others out

  /** What an instance may still write for its lease reaches at least as far as the lease does. */
  ghost predicate Lent(s: State, proc: Proc) {
    && (proc.main.Claiming? ==> proc.main.rec.expiresAt <= s.now + LOCK_TTL)
    && (proc.main.Claimed? ==> proc.main.rec.owner in s.leases && s.leases[proc.main.rec.owner].to <= s.now + LOCK_TTL)
    && (proc.main.Holding? ==> proc.token in s.leases && s.leases[proc.token].to <= s.now + LOCK_TTL)
    && (proc.main.Holding? && proc.aux.Extending? ==>
          proc.aux.rec.owner == proc.token && s.leases[proc.token].to <= proc.aux.rec.expiresAt <= s.now + LOCK_TTL)
  }

  ghost predicate LeaseInv(s: State) {
    forall p :: p in s.procs ==> Lent(s, s.procs[p])
  }

  /** From the acquiring put on. */
  ghost predicate Holds(s: State, p: nat, token: string) {
    var proc := TheProc(s, p);
    (proc.main.Holding? && proc.token == token) || (proc.main.Claimed? && proc.main.rec.owner == token)
  }

  ghost predicate SameLease(s: State, s': State, token: string) {
    token in s.leases ==> token in s'.leases && s'.leases[token] == s.leases[token]
  }

  /** A step of p changes no lease but one that p may write, or has begun to release. */
  lemma OwnLeases(s: State, s': State, p: nat)
    requires Inv(s) && StepOf(s, s', p)
    ensures forall token :: !Writes(TheProc(s, p), token) && token !in s.retired ==> SameLease(s, s', token)
  {
    ProcInOrder(s, p);
    var proc := TheProc(s, p);
    if ClaimWrite(s, s', p) {
      assert Writes(proc, proc.main.rec.owner);
    } else if ExtendWrite(s, s', p) {
      assert Writes(proc, proc.aux.rec.owner);
    } else if LetGo(s, s', p) {
      assert proc.token in s.retired;
    } else {
      assert s'.leases == s.leases;
    }
  }

  /** A step of p leaves another instance alone, and the leases that it may still write. */
  lemma OthersLeases(s: State, s': State, p: nat, q: nat)
    requires Inv(s) && StepOf(s, s', p) && p != q
    ensures s'.now == s.now && TheProc(s', q) == TheProc(s, q)
    ensures forall token :: Writes(TheProc(s, q), token) ==> SameLease(s, s', token)
  {
    OwnLeases(s, s', p);
    forall token | Writes(TheProc(s, q), token)
      ensures SameLease(s, s', token)
    {
      OthersNotRetired(s, p);
    }
  }

  lemma OwnLent(s: State, s': State, p: nat)
    requires Inv(s) && Lent(s, TheProc(s, p)) && StepOf(s, s', p)
    ensures Lent(s', TheProc(s', p))
  {
    ProcInOrder(s, p);
    if MainMoves(s, s', p) {
    } else if AuxMoves(s, s', p) {
    } else if GivesUp(s, s', p) {
    }
  }

  lemma LentAlike(s: State, s': State, proc: Proc)
    requires Lent(s, proc) && ProcInv(s, proc) && s'.now == s.now
    requires forall token :: Writes(proc, token) ==> SameLease(s, s', token)
    ensures Lent(s', proc)
  {
    assert proc.main.Holding? ==> Writes(proc, proc.token);
    assert proc.main.Claimed? ==> Writes(proc, proc.main.rec.owner);
  }

  lemma LeaseStep(s: State, s': State)
    requires Inv(s) && LeaseInv(s) && Next(s, s')
    ensures LeaseInv(s')
  {
    forall q | q in s'.procs
      ensures Lent(s', s'.procs[q])
    {
      assert Lent(s, TheProc(s, q));
      if !Ticks(s, s') {
        var p :| StepOf(s, s', p);
        if q == p {
          OwnLent(s, s', p);
        } else {
          ProcInOrder(s, q);
          OthersLeases(s, s', p, q);
          LentAlike(s, s', TheProc(s, q));
        }
        assert TheProc(s', q) == s'.procs[q];
      }
    }
  }

  lemma FirstLeases(s: State)
    requires Init(s)
    ensures LeaseInv(s)
  {
  }

  lemma {:induction false} RunLeases(run: seq<State>, k: nat)
    requires IsRun(run) && k < |run|
    ensures LeaseInv(run[k])
  {
    if k == 0 {
      FirstLeases(run[0]);
    } else {
      RunLeases(run, k - 1);
      RunInv(run, k - 1);
      LeaseStep(run[k - 1], run[k]);
    }
  }

  ghost predicate NoShorter(s: State, s': State, token: string) {
    token in s.leases && token in s'.leases && s.leases[token].to <= s'.leases[token].to
  }

  lemma OwnGrows(s: State, s': State, p: nat, token: string)
    requires Inv(s) && Lent(s, TheProc(s, p)) && StepOf(s, s', p) && Holds(s, p, token) && Holds(s', p, token)
    ensures NoShorter(s, s', token)
  {
    ProcInOrder(s, p);
    if ExtendWrite(s, s', p) {
    } else if LetGo(s, s', p) {
    } else {
      assert s'.leases == s.leases by {
        if MainMoves(s, s', p) {
        } else if AuxMoves(s, s', p) {
        } else if GivesUp(s, s', p) {
        }
      }
    }
  }

  /** While an instance has the lock its lease only ever gets longer. */
  lemma LeaseGrows(s: State, s': State, p: nat, token: string)
    requires Inv(s) && LeaseInv(s) && Next(s, s') && Holds(s, p, token) && Holds(s', p, token)
    ensures NoShorter(s, s', token)
  {
    assert Lent(s, TheProc(s, p));
    if !Ticks(s, s') {
      var q :| StepOf(s, s', q);
      if q != p {
        OthersLeases(s, s', q, p);
        assert Writes(TheProc(s, p), token);
      } else {
        OwnGrows(s, s', p, token);
      }
    }
  }

  lemma HolderHasLease(run: seq<State>, k: nat, p: nat, token: string)
    requires IsRun(run) && k < |run| && Holds(run[k], p, token)
    ensures token in run[k].leases
  {
    RunLeases(run, k);
    assert Lent(run[k], TheProc(run[k], p));
  }

  lemma LeaseGrowsAt(run: seq<State>, k: nat, p: nat, token: string)
    requires IsRun(run) && k < |run| - 1 && Holds(run[k], p, token) && Holds(run[k + 1], p, token)
    ensures NoShorter(run[k], run[k + 1], token)
  {
    RunInv(run, k);
    RunLeases(run, k);
    LeaseGrows(run[k], run[k + 1], p, token);
  }

  lemma {:induction false} NoShorterOver(run: seq<State>, i: nat, k: nat, token: string)
    requires i <= k < |run| && token in run[i].leases
    requires forall j :: i < j <= k ==> NoShorter(run[j - 1], run[j], token)
    ensures NoShorter(run[i], run[k], token)
  {
    if i < k { NoShorterOver(run, i, k - 1, token); }
  }

  lemma LeaseGrowsOver(run: seq<State>, i: nat, k: nat, p: nat, token: string)
    requires IsRun(run) && i <= k < |run| && forall j :: i <= j <= k ==> Holds(run[j], p, token)
    ensures NoShorter(run[i], run[k], token)
  {
    HolderHasLease(run, i, p, token);
    forall j | i < j <= k
      ensures NoShorter(run[j - 1], run[j], token)
    {
      LeaseGrowsAt(run, j - 1, p, token);
    }
    NoShorterOver(run, i, k, token);
  }

  /** By step k the puts that succeeded before have given the lease the expiries they were to give. */
  ghost predicate TookEffect(run: seq<State>, i: nat, k: nat, token: string, attempts: seq<Attempt>)
    requires i <= k < |run|
  {
    forall j: nat :: j < |attempts| && InForce(attempts, j, run[k].now) ==>
      exists n :: i <= n <= k && LeasedTo(run[n], token, attempts[j].read + LOCK_TTL)
  }

  ghost predicate LeasedTo(s: State, token: string, to: int) {
    token in s.leases && s.leases[token].to == to
  }

  /**
    A holder whose refreshes come on time, and fail at most three times in a row, is alone: in an
    undisturbed run nobody acquires the lock before the holder lets it go.
   */
  lemma CriticalSection(run: seq<State>, i: nat, k: nat, p: nat, q: nat, token: string, start: int,
                        attempts: seq<Attempt>)
    requires UndisturbedRun(run) && i <= k < |run| - 1
    requires forall j :: i <= j <= k ==> Holds(run[j], p, token)
    requires Punctual(start, attempts) && forall j :: !FailsFourTimes(attempts, j)
    requires attempts[0].written <= run[k].now < start + |attempts| * REFRESH_INTERVAL
    requires TookEffect(run, i, k, token, attempts)
    ensures !ClaimWrite(run[k], run[k + 1], q)
  {
    KeepAlive(start, attempts, run[k].now);
    var j: nat :| j < |attempts| && InForce(attempts, j, run[k].now);
    var n :| i <= n <= k && LeasedTo(run[n], token, attempts[j].read + LOCK_TTL);
    LeaseGrowsOver(run, n, k, p, token);
    if ClaimWrite(run[k], run[k + 1], q) { NoTakeover(run, k, q); }
  }

  lemma {:induction false} ClockRuns(run: seq<State>, i: nat, k: nat)
    requires IsRun(run) && i <= k < |run|
    ensures run[i].now <= run[k].now
  {
    if i < k {
      ClockRuns(run, i, k - 1);
      assert Next(run[k - 1], run[k]);
    }
  }

  /** Attempt j, if it succeeded, is the write that led to step at[j] of the run. */
  ghost predicate Logged(run: seq<State>, token: string, attempts: seq<Attempt>, at: seq<nat>) {
    && |attempts| == |at| > 0
    && forall j: nat :: j < |attempts| && attempts[j].ok ==>
         && at[0] <= at[j] < |run| && run[at[j]].now == attempts[j].written
         && LeasedTo(run[at[j]], token, attempts[j].read + LOCK_TTL)
  }

  lemma LogGrows(run: seq<State>, run': seq<State>, token: string, attempts: seq<Attempt>, at: seq<nat>,
                 attempt: Attempt, step: nat)
    requires Logged(run, token, attempts, at) && run <= run'
    requires attempt.ok ==>
               && at[0] <= step < |run'| && run'[step].now == attempt.written
               && LeasedTo(run'[step], token, attempt.read + LOCK_TTL)
    ensures Logged(run', token, attempts + [attempt], at + [step])
  {
  }

  lemma ExtendLeases(s: State, s': State, p: nat, token: string)
    requires Inv(s) && LeaseInv(s) && Holds(s, p, token) && ExtendWrite(s, s', p)
    ensures s'.now == s.now && LeasedTo(s', token, TheProc(s, p).aux.rec.expiresAt)
  {
    ProcInOrder(s, p);
    assert Lent(s, TheProc(s, p));
  }

  ghost predicate TakenBy(run: seq<State>, k: nat, q: nat) {
    k < |run| - 1 && ClaimWrite(run[k], run[k + 1], q)
  }

  lemma LoggedTookEffect(run: seq<State>, k: nat, token: string, attempts: seq<Attempt>, at: seq<nat>)
    requires IsRun(run) && Logged(run, token, attempts, at) && at[0] <= k < |run|
    ensures TookEffect(run, at[0], k, token, attempts)
  {
    forall j: nat | j < |attempts| && InForce(attempts, j, run[k].now)
      ensures at[0] <= at[j] <= k && LeasedTo(run[at[j]], token, attempts[j].read + LOCK_TTL)
    {
      if k < at[j] { ClockRuns(run, k, at[j]); }
    }
  }

  /** Four failures in a row can be one too many, so the bound cannot be improved. */
  lemma FourFailuresBreak(start: int)
    ensures exists attempts: seq<Attempt>, t ::
              && Punctual(start, attempts)
              && attempts[0].written <= t < start + |attempts| * REFRESH_INTERVAL
              && (forall i :: !FailsFiveTimes(attempts, i))
              && !Alive(attempts, t)
  {
    var first := Attempt(start, start, true);
    var missed := seq(4, k requires 0 <= k < 4 =>
      Attempt(start + (k + 1) * REFRESH_INTERVAL, start + (k + 1) * REFRESH_INTERVAL, false));
    var late := start + 5 * REFRESH_INTERVAL;
    var attempts := [first] + missed + [Attempt(late, late + 2, true)];
    assert Punctual(start, attempts);
    assert !Alive(attempts, late + 1);
    assert forall i :: !FailsFiveTimes(attempts, i);
  }
}
