/**
  How any number of instances come to share one ACME account, at the granularity of single S3 calls.
  An instance loads the account, or else stores one of its own unless one has appeared, or else loads
  the one that has; later it may save its registration.  Any call may fail and any instance may crash.
 */
module AccountProtocol {
  import opened Prelude

  datatype User = User(email: string, key: nat, registered: bool)

  /** An object that cannot be decrypted or parsed is garbled. */
  datatype Stored = Account(user: User) | Garbled

  datatype Stage =
    | Idle
    | Candidate(user: User)   // found no account and has one to store
    | Checked(user: User)     // has been told once more that there is none
    | Reloading               // has been told that there is one after all
    | Has(user: User)

  datatype State = State(obj: Option<Stored>, stages: map<nat, Stage>)

  function StageOf(s: State, p: nat): Stage {
    if p in s.stages then s.stages[p] else Idle
  }

  function SetStage(s: State, p: nat, stage: Stage): State {
    s.(stages := s.stages[p := stage])
  }

  /** A load finds an account. */
  ghost predicate Loads(s: State, s': State, p: nat) {
    (StageOf(s, p).Idle? || StageOf(s, p).Reloading?) && s.obj.Some? && s.obj.value.Account?
    && s' == SetStage(s, p, Has(s.obj.value.user))
  }

  /** A load finds nothing; the instance takes an account from its disk or makes one. */
  ghost predicate Proposes(s: State, s': State, p: nat) {
    StageOf(s, p).Idle? && s.obj.None? && exists user: User :: s' == SetStage(s, p, Candidate(user))
  }

  /** Just before storing it looks again. */
  ghost predicate Checks(s: State, s': State, p: nat) {
    StageOf(s, p).Candidate? && s' == SetStage(s, p, if s.obj.None? then Checked(StageOf(s, p).user) else Reloading)
  }

  function Created(s: State, p: nat): State
    requires StageOf(s, p).Checked?
  {
    SetStage(s, p, Has(StageOf(s, p).user)).(obj := Some(Account(StageOf(s, p).user)))
  }

  ghost predicate Creates(s: State, s': State, p: nat) {
    StageOf(s, p).Checked? && s' == Created(s, p)
  }

  function Saved(s: State, p: nat): State
    requires StageOf(s, p).Has?
  {
    var user := StageOf(s, p).user.(registered := true);
    SetStage(s, p, Has(user)).(obj := Some(Account(user)))
  }

  /** The registration is saved over whatever is there. */
  ghost predicate Saves(s: State, s': State, p: nat) {
    StageOf(s, p).Has? && !StageOf(s, p).user.registered && s' == Saved(s, p)
  }

  ghost predicate GivesUp(s: State, s': State, p: nat) {
    s' == SetStage(s, p, Idle)
  }

  ghost predicate StepOf(s: State, s': State, p: nat) {
    || Loads(s, s', p) || Proposes(s, s', p) || Checks(s, s', p)
    || Creates(s, s', p) || Saves(s, s', p) || GivesUp(s, s', p)
  }

  ghost predicate Next(s: State, s': State) {
    exists p :: StepOf(s, s', p)
  }

  ghost predicate Init(s: State) {
    forall p :: StageOf(s, p).Idle?
  }

  ghost predicate IsRun(run: seq<State>) {
    && |run| > 0 && Init(run[0])
    && forall i, j {:trigger Next(run[i], run[j])} :: 0 <= i < |run| - 1 && j == i + 1 ==> Next(run[i], run[j])
  }

  /** Look and put come to one atomic operation: no account appears in between. */
  ghost predicate Undisturbed(s: State, s': State) {
    forall p :: Creates(s, s', p) ==> s.obj.None?
  }

  ghost predicate UndisturbedRun(run: seq<State>) {
    && IsRun(run)
    && forall i, j {:trigger Undisturbed(run[i], run[j])} :: 0 <= i < |run| - 1 && j == i + 1 ==>
         Undisturbed(run[i], run[j])
  }

  predicate SameAccount(obj: Option<Stored>, user: User) {
    obj.Some? && obj.value.Account? && obj.value.user.key == user.key
  }

  /** Whoever has an account has the stored one. */
  ghost predicate Agreement(s: State) {
    forall p :: StageOf(s, p).Has? ==> SameAccount(s.obj, StageOf(s, p).user)
  }

  /** A stored account is only ever replaced by one with the same key. */
  ghost predicate KeyStays(s: State, s': State) {
    s.obj.Some? && s.obj.value.Account? ==> SameAccount(s'.obj, s.obj.value.user)
  }

  lemma StepAgrees(s: State, s': State)
    requires Agreement(s) && Next(s, s') && Undisturbed(s, s')
    ensures Agreement(s') && KeyStays(s, s')
  {
    var p :| StepOf(s, s', p);
    assert forall q :: q != p ==> StageOf(s', q) == StageOf(s, q);
    if Saves(s, s', p) { assert SameAccount(s.obj, StageOf(s, p).user); }
  }

  lemma {:induction false} RunAgrees(run: seq<State>, k: nat)
    requires UndisturbedRun(run) && k < |run|
    ensures Agreement(run[k])
  {
    if k > 0 {
      RunAgrees(run, k - 1);
      assert Next(run[k - 1], run[k]) && Undisturbed(run[k - 1], run[k]);
      StepAgrees(run[k - 1], run[k]);
    }
  }

  lemma {:induction false} KeyStaysOver(run: seq<State>, i: nat, j: nat)
    requires UndisturbedRun(run) && i <= j < |run|
    ensures KeyStays(run[i], run[j])
  {
    if i < j {
      KeyStaysOver(run, i, j - 1);
      RunAgrees(run, j - 1);
      assert Next(run[j - 1], run[j]) && Undisturbed(run[j - 1], run[j]);
      StepAgrees(run[j - 1], run[j]);
    }
  }

  /** All instances that ever have an account, at whatever times, have one and the same key. */
  lemma AccountAgreement(run: seq<State>, i: nat, j: nat, p: nat, q: nat)
    requires UndisturbedRun(run) && i <= j < |run|
    requires StageOf(run[i], p).Has? && StageOf(run[j], q).Has?
    ensures StageOf(run[i], p).user.key == StageOf(run[j], q).user.key
  {
    RunAgrees(run, i);
    RunAgrees(run, j);
    KeyStaysOver(run, i, j);
  }

  /** Storing over an account with another key breaks agreement exactly if an instance already has that account. */
  lemma OverwritingAgreesIff(s: State, s': State, p: nat)
    requires Agreement(s) && Creates(s, s', p) && s.obj.Some? && !SameAccount(s.obj, StageOf(s, p).user)
    ensures Agreement(s') <==> forall q :: !StageOf(s, q).Has?
  {
    assert forall q :: q != p ==> StageOf(s', q) == StageOf(s, q);
    if q :| StageOf(s, q).Has? {
      assert q != p && SameAccount(s.obj, StageOf(s, q).user);
      assert StageOf(s', q).Has? && !SameAccount(s'.obj, StageOf(s', q).user);
    }
  }

  /** Look and put are two calls, so two instances can end up with different keys. */
  ghost function RacingRun(): seq<State> {
    var a, b := User("a@example.org", 1, false), User("a@example.org", 2, false);
    var s0 := State(None, map[]);
    var s1 := SetStage(s0, 0, Candidate(a));
    var s2 := SetStage(s1, 1, Candidate(b));
    var s3 := SetStage(s2, 0, Checked(a));
    var s4 := SetStage(s3, 1, Checked(b));
    [s0, s1, s2, s3, s4, Created(s4, 0), Created(Created(s4, 0), 1)]
  }

  lemma AgreementCanFail()
    ensures exists run, k :: IsRun(run) && 0 <= k < |run| && !Agreement(run[k])
  {
    var run := RacingRun();
    assert Proposes(run[0], run[1], 0) && StepOf(run[0], run[1], 0);
    assert Proposes(run[1], run[2], 1) && StepOf(run[1], run[2], 1);
    assert StepOf(run[2], run[3], 0);
    assert StepOf(run[3], run[4], 1);
    assert StepOf(run[4], run[5], 0);
    assert StepOf(run[5], run[6], 1);
    assert IsRun(run);
    assert StageOf(run[6], 0).Has? && !SameAccount(run[6].obj, StageOf(run[6], 0).user);
  }
}
