// The lock Brain init and import take in the guest: one directory made with mkdir, a
// token inside it that says whose it is, and recovery of a directory left too long.

module InitLock {
  import opened Options

  // Tokens are random and never repeat, so a token names the call that drew it.
  type Token = nat

  // Seconds after which a directory nobody touched counts as left behind.
  const STALE_AGE: nat := 600

  // What is at the lock's path. `madeBy` is its identity: the call whose mkdir made it, or
  // whose touch made a plain file there.
  datatype LockDir = LockDir(madeBy: Token, token: Option<Token>, touched: nat, secure: bool, directory: bool)

  predicate Stale(lock: LockDir, now: nat) { now > lock.touched + STALE_AGE }

  predicate Verifies(lock: Option<LockDir>, me: Token) {
    lock.Some? && lock.value.secure && lock.value.token == Some(me)
  }

  datatype Phase =
    | Idle
    | Mkdir(attempt: nat)
    | WriteToken | ProtectToken | VerifyOwn | Undo
    | FindLock | CheckOwner | CheckAge | Quarantine | RemoveQuarantine
    | Holding
    | VerifyRefresh | Touch
    | VerifyRelease | RemoveToken | RemoveDir
    | Done

  // A command works, exits 1 without effect, fails in another way without effect, or has
  // its effect and is still seen to fail.
  datatype Outcome = Works | Refused | Fails | Lost

  datatype State = State(lock: Option<LockDir>, now: nat, phases: map<Token, Phase>)
  {
    function PhaseOf(me: Token): Phase { if me in phases then phases[me] else Idle }
    function At(me: Token, p: Phase): State { this.(phases := phases[me := p]) }
  }

  datatype Action =
    | Start(me: Token)
    | Go(me: Token, outcome: Outcome)   // the next command of this call
    | Refresh(me: Token)
    | Release(me: Token)
    | Stop(me: Token)                   // the process ends here
    | Wait(seconds: nat)

  // What a command does to the lock directory when it takes effect. None: it cannot.
  function Effect(s: State, me: Token): Option<Option<LockDir>> {
    match s.PhaseOf(me)
    case Mkdir(_) => if s.lock.None? then Some(Some(LockDir(me, None, s.now, true, true))) else None
    case WriteToken => if s.lock.Some? && s.lock.value.directory then Some(Some(s.lock.value.(token := Some(me), touched := s.now))) else None
    case ProtectToken => if s.lock.Some? && s.lock.value.token.Some? then Some(s.lock) else None
    case VerifyOwn => if Verifies(s.lock, me) then Some(s.lock) else None
    case Undo => Some(None)
    case FindLock => if s.lock.Some? && s.lock.value.directory then Some(s.lock) else None
    case CheckOwner => if s.lock.Some? && s.lock.value.secure then Some(s.lock) else None
    case CheckAge => if s.lock.Some? && Stale(s.lock.value, s.now) then Some(s.lock) else None
    case Quarantine => if s.lock.Some? then Some(None) else None
    case RemoveQuarantine => Some(s.lock)
    case VerifyRefresh => if Verifies(s.lock, me) then Some(s.lock) else None
    // Where nothing is, touch makes a plain file.
    case Touch => if s.lock.Some? then Some(Some(s.lock.value.(touched := s.now)))
                  else Some(Some(LockDir(me, None, s.now, false, false)))
    case VerifyRelease => if Verifies(s.lock, me) then Some(s.lock) else None
    case RemoveToken => if s.lock.Some? && s.lock.value.directory then Some(Some(s.lock.value.(token := None, touched := s.now))) else None
    case RemoveDir => if s.lock.Some? && s.lock.value.directory && s.lock.value.token.None? then Some(None) else None
    case _ => None
  }

  // Where a call goes after a command that worked.
  function Onward(p: Phase): Phase {
    match p
    case Mkdir(_) => WriteToken
    case WriteToken => ProtectToken
    case ProtectToken => VerifyOwn
    case VerifyOwn => Holding
    case FindLock => CheckOwner
    case CheckOwner => CheckAge
    case CheckAge => Quarantine
    case Quarantine => RemoveQuarantine
    case RemoveQuarantine => Mkdir(1)
    case VerifyRefresh => Touch
    case Touch => Holding
    case VerifyRelease => RemoveToken
    case RemoveToken => RemoveDir
    case _ => Done
  }

  // Where a call goes after a command that could not, or was seen to fail.
  function Otherwise(p: Phase, seenToFail: bool): Phase {
    match p
    case Mkdir(attempt) => if seenToFail || attempt > 0 then Done else FindLock
    case WriteToken => Undo
    case ProtectToken => Undo
    case VerifyOwn => Undo
    case FindLock => if seenToFail then Done else Mkdir(1)
    case VerifyRefresh => VerifyRelease
    case Touch => VerifyRelease
    case _ => Done
  }

  predicate Running(p: Phase) { p != Idle && p != Holding && p != Done }

  function Do(s: State, a: Action): State {
    match a
    case Start(me) => if s.PhaseOf(me) == Idle then s.At(me, Mkdir(0)) else s
    case Go(me, outcome) => if Running(s.PhaseOf(me)) then Command(s, me, outcome) else s
    case Refresh(me) => if s.PhaseOf(me) == Holding then s.At(me, VerifyRefresh) else s
    case Release(me) => if s.PhaseOf(me) == Holding then s.At(me, VerifyRelease) else s
    case Stop(me) => s.At(me, Done)
    case Wait(seconds) => s.(now := s.now + seconds)
  }

  function Command(s: State, me: Token, outcome: Outcome): State {
    var p := s.PhaseOf(me);
    var effect := Effect(s, me);
    if outcome == Fails || outcome == Refused then s.At(me, Otherwise(p, outcome == Fails || !p.Mkdir?))
    else if effect.None? then s.At(me, Otherwise(p, outcome == Lost))
    else s.At(me, if outcome == Works then Onward(p) else Otherwise(p, true)).(lock := effect.value)
  }

  function Exec(s: State, actions: seq<Action>): State
    decreases |actions|
  {
    if actions == [] then s else Exec(Do(s, actions[0]), actions[1..])
  }

  // Between a successful acquire and the end of its release.
  predicate Holds(p: Phase) { p.Holding? || p.VerifyRefresh? || p.Touch? || p.VerifyRelease? || p.RemoveToken? || p.RemoveDir? }

  // From its own mkdir on, a call is working on a directory it takes for its own.
  predicate Active(p: Phase) { Holds(p) || p.WriteToken? || p.ProtectToken? || p.VerifyOwn? || p.Undo? }

  // Every active call made the directory that is there, and no other token is in it.
  ghost predicate Exclusive(s: State) {
    && (s.lock.Some? ==> s.lock.value.token in {None, Some(s.lock.value.madeBy)})
    && forall me | Active(s.PhaseOf(me)) :: s.lock.Some? && s.lock.value.madeBy == me
  }

  // This action moves aside a directory whose maker is still at work.
  predicate TakesActiveLock(s: State, a: Action) {
    && a.Go? && (a.outcome == Works || a.outcome == Lost) && s.PhaseOf(a.me) == Quarantine
    && s.lock.Some? && Active(s.PhaseOf(s.lock.value.madeBy))
  }

  /** One step keeps exclusion exactly when it does not take a live call's directory. */
  lemma StepKeepsExclusion(s: State, a: Action)
    requires Exclusive(s)
    ensures Exclusive(Do(s, a)) <==> !TakesActiveLock(s, a)
  {
    if TakesActiveLock(s, a) {
      var maker := s.lock.value.madeBy;
      assert Active(Do(s, a).PhaseOf(maker));
    } else {
      match a
      case Go(me, outcome) => if Running(s.PhaseOf(me)) { CommandKeepsExclusion(s, me, outcome); }
      case Start(me) => assert forall other | other != me :: Do(s, a).PhaseOf(other) == s.PhaseOf(other);
      case Release(me) => assert forall other | other != me :: Do(s, a).PhaseOf(other) == s.PhaseOf(other);
      case Stop(me) => assert forall other | other != me :: Do(s, a).PhaseOf(other) == s.PhaseOf(other);
      case Refresh(me) => assert forall other | other != me :: Do(s, a).PhaseOf(other) == s.PhaseOf(other);
      case Wait(_) => assert forall other :: Do(s, a).PhaseOf(other) == s.PhaseOf(other);
    }
  }

  lemma CommandKeepsExclusion(s: State, me: Token, outcome: Outcome)
    requires Exclusive(s) && Running(s.PhaseOf(me)) && !TakesActiveLock(s, Go(me, outcome))
    ensures Exclusive(Command(s, me, outcome))
  {
    var s' := Command(s, me, outcome);
    forall other | Active(s'.PhaseOf(other))
      ensures s'.lock.Some? && s'.lock.value.madeBy == other
    {
      if other != me {
        assert Active(s.PhaseOf(other));
      } else if !Active(s.PhaseOf(me)) {
        assert s.PhaseOf(me).Mkdir?;
      }
    }
  }

  // The run never moves aside a directory whose maker is still at work.
  predicate NeverTakesActive(s: State, actions: seq<Action>)
    decreases |actions|
  {
    actions == [] || (!TakesActiveLock(s, actions[0]) && NeverTakesActive(Do(s, actions[0]), actions[1..]))
  }

  // No directory in the run is ever old enough to be recovered.
  predicate NeverStale(s: State, actions: seq<Action>)
    decreases |actions|
  {
    && (s.lock.Some? ==> !Stale(s.lock.value, s.now))
    && (actions == [] || NeverStale(Do(s, actions[0]), actions[1..]))
  }

  ghost predicate NobodyRecovers(s: State) {
    forall me :: s.PhaseOf(me) != Quarantine
  }

  lemma {:induction false} ExclusionHolds(s: State, actions: seq<Action>)
    requires Exclusive(s) && NeverTakesActive(s, actions)
    ensures Exclusive(Exec(s, actions))
    decreases |actions|
  {
    if actions != [] {
      StepKeepsExclusion(s, actions[0]);
      ExclusionHolds(Do(s, actions[0]), actions[1..]);
    }
  }

  lemma {:induction false} FreshLocksAreNeverTaken(s: State, actions: seq<Action>)
    requires NobodyRecovers(s) && NeverStale(s, actions)
    ensures NeverTakesActive(s, actions) && NobodyRecovers(Exec(s, actions))
    decreases |actions|
  {
    if actions != [] {
      forall me
        ensures Do(s, actions[0]).PhaseOf(me) != Quarantine
      {
        assert s.PhaseOf(me) != Quarantine;
      }
      FreshLocksAreNeverTaken(Do(s, actions[0]), actions[1..]);
    }
  }

  /** For any calls in any interleaving, with any command failing and any process stopping:
      while no directory reaches the stale age, at most one call is between a successful
      acquire and the end of its release. */
  lemma AtMostOneHolder(s: State, actions: seq<Action>, a: Token, b: Token)
    requires Exclusive(s) && NobodyRecovers(s) && NeverStale(s, actions)
    requires Holds(Exec(s, actions).PhaseOf(a)) && Holds(Exec(s, actions).PhaseOf(b))
    ensures a == b
  {
    FreshLocksAreNeverTaken(s, actions);
    ExclusionHolds(s, actions);
    var r := Exec(s, actions);
    assert Active(r.PhaseOf(a)) && Active(r.PhaseOf(b));
  }

  /** While no directory reaches the stale age, whoever takes the lock directory away is
      the call that made it. */
  lemma OnlyTheMakerRemoves(s: State, actions: seq<Action>, a: Action)
    requires Exclusive(s) && NobodyRecovers(s) && NeverStale(s, actions)
    ensures var r := Exec(s, actions); var r' := Do(r, a);
            r.lock.Some? && (r'.lock.None? || r'.lock.value.madeBy != r.lock.value.madeBy) ==>
              a.Go? && a.me == r.lock.value.madeBy
  {
    FreshLocksAreNeverTaken(s, actions);
    ExclusionHolds(s, actions);
    var r := Exec(s, actions);
    if a.Go? && Running(r.PhaseOf(a.me)) && Active(r.PhaseOf(a.me)) {
      assert r.lock.value.madeBy == a.me;
    }
  }

  // The same call's next n commands, all of which work.
  function Alone(s: State, me: Token, n: nat): State
    decreases n
  {
    if n == 0 then s else Alone(Do(s, Go(me, Works)), me, n - 1)
  }

  /** A directory left by a call that stopped is taken over by the next lone call once it
      is stale, and not a second before; one with another owner or mode is left alone. */
  lemma StaleLockIsTakenOver(s: State, me: Token)
    requires s.PhaseOf(me) == Mkdir(0) && s.lock.Some?
    ensures var after := Alone(s, me, 10);
            if s.lock.value.directory && s.lock.value.secure && Stale(s.lock.value, s.now)
            then after == s.At(me, Holding).(lock := Some(LockDir(me, Some(me), s.now, true, true)))
            else after == s.At(me, Done)
  {
    if !s.lock.value.directory {
      PlainFileBlocks(s, me);
      return;
    }
    ReachCheckOwner(s, me);
    AloneInParts(s, me, 2, 8);
    var owner := s.At(me, CheckOwner);
    if !s.lock.value.secure {
      assert Do(owner, Go(me, Works)) == s.At(me, Done);
      DoneStays(s.At(me, Done), me, 7);
    } else {
      assert Do(owner, Go(me, Works)) == s.At(me, CheckAge);
      if Stale(s.lock.value, s.now) {
        TakeOverFromCheckAge(s, me);
      } else {
        assert Do(s.At(me, CheckAge), Go(me, Works)) == s.At(me, Done);
        DoneStays(s.At(me, Done), me, 6);
      }
    }
  }

  lemma PlainFileBlocks(s: State, me: Token)
    requires s.PhaseOf(me) == Mkdir(0) && s.lock.Some? && !s.lock.value.directory
    ensures Alone(s, me, 10) == s.At(me, Done)
  {
    var s1 := Do(s, Go(me, Works));
    var s2 := Do(s1, Go(me, Works));
    var s3 := Do(s2, Go(me, Works));
    assert s1 == s.At(me, FindLock) && s2 == s.At(me, Mkdir(1)) && s3 == s.At(me, Done);
    DoneStays(s3, me, 7);
    assert Alone(s, me, 10) == Alone(s1, me, 9) == Alone(s2, me, 8) == Alone(s3, me, 7);
  }

  /** A refresh whose directory is moved away between its two commands leaves a plain file,
      and that shuts every later call out, however long it waits: it is no directory, so no
      recovery takes it away, and mkdir cannot replace it. */
  lemma TouchedFileShutsOut(s: State, me: Token, other: Token, seconds: nat)
    requires s.PhaseOf(me) == Touch && s.lock.None? && other != me && s.PhaseOf(other) == Mkdir(0)
    ensures var t := Do(Do(s, Go(me, Works)), Wait(seconds));
            t.PhaseOf(me) == Holding && Alone(t, other, 10) == t.At(other, Done)
  {
    PlainFileBlocks(Do(Do(s, Go(me, Works)), Wait(seconds)), other);
  }

  lemma ReachCheckOwner(s: State, me: Token)
    requires s.PhaseOf(me) == Mkdir(0) && s.lock.Some? && s.lock.value.directory
    ensures Alone(s, me, 2) == s.At(me, CheckOwner)
  {
    var s1 := Do(s, Go(me, Works));
    assert s1 == s.At(me, FindLock);
    assert Do(s1, Go(me, Works)) == s.At(me, CheckOwner);
    assert Alone(s1, me, 1) == Alone(Do(s1, Go(me, Works)), me, 0);
  }

  lemma {:induction false} AloneInParts(s: State, me: Token, m: nat, n: nat)
    ensures Alone(s, me, m + n) == Alone(Alone(s, me, m), me, n)
    decreases m
  {
    if m > 0 {
      AloneInParts(Do(s, Go(me, Works)), me, m - 1, n);
    }
  }

  lemma {:induction false} DoneStays(s: State, me: Token, n: nat)
    requires s.PhaseOf(me) == Done
    ensures Alone(s, me, n) == s
    decreases n
  {
    if n > 0 {
      DoneStays(s, me, n - 1);
    }
  }

  lemma TakeOverFromCheckAge(s: State, me: Token)
    requires s.lock.Some? && Stale(s.lock.value, s.now)
    ensures Alone(s.At(me, CheckAge), me, 7) == s.At(me, Holding).(lock := Some(LockDir(me, Some(me), s.now, true, true)))
  {
    var gone := s.(lock := None);
    var c := s.At(me, CheckAge);
    var c1 := Do(c, Go(me, Works));
    var c2 := Do(c1, Go(me, Works));
    var c3 := Do(c2, Go(me, Works));
    var c4 := Do(c3, Go(me, Works));
    assert c1 == s.At(me, Quarantine);
    assert c2 == gone.At(me, RemoveQuarantine);
    assert c3 == gone.At(me, Mkdir(1));
    FreshAcquire(gone, me, 1);
    assert Alone(c, me, 7) == Alone(c1, me, 6) == Alone(c2, me, 5) == Alone(c3, me, 4);
  }

  lemma FreshAcquire(s: State, me: Token, attempt: nat)
    requires s.lock.None?
    ensures Alone(s.At(me, Mkdir(attempt)), me, 4) == s.At(me, Holding).(lock := Some(LockDir(me, Some(me), s.now, true, true)))
  {
    var made := LockDir(me, None, s.now, true, true);
    var c1 := s.At(me, WriteToken).(lock := Some(made));
    var c2 := s.At(me, ProtectToken).(lock := Some(made.(token := Some(me))));
    var c3 := s.At(me, VerifyOwn).(lock := Some(made.(token := Some(me))));
    assert Do(s.At(me, Mkdir(attempt)), Go(me, Works)) == c1;
    assert Do(c1, Go(me, Works)) == c2;
    assert Do(c2, Go(me, Works)) == c3;
    assert Alone(c2, me, 2) == Alone(c3, me, 1) == Alone(Do(c3, Go(me, Works)), me, 0);
  }

  /** A lone call takes a lock that is free, with its first attempt. */
  lemma FreeLockIsTaken(s: State, me: Token)
    requires s.PhaseOf(me) == Mkdir(0) && s.lock.None?
    ensures Alone(s, me, 4) == s.At(me, Holding).(lock := Some(LockDir(me, Some(me), s.now, true, true)))
  {
    FreshAcquire(s, me, 0);
    assert s == s.At(me, Mkdir(0));
  }

  /** A call that releases the lock it took leaves it free, whatever its age. */
  lemma ReleaseFreesTheLock(s: State, me: Token)
    requires s.PhaseOf(me) == VerifyRelease && Verifies(s.lock, me) && s.lock.value.directory
    ensures Alone(s, me, 3) == s.At(me, Done).(lock := None)
  {
    var emptied := s.(lock := Some(s.lock.value.(token := None, touched := s.now)));
    assert Do(s, Go(me, Works)) == s.At(me, RemoveToken);
    assert Do(s.At(me, RemoveToken), Go(me, Works)) == emptied.At(me, RemoveDir);
    assert Do(emptied.At(me, RemoveDir), Go(me, Works)) == s.At(me, Done).(lock := None);
    assert Alone(s.At(me, RemoveToken), me, 2) == Alone(emptied.At(me, RemoveDir), me, 1)
           == Alone(Do(emptied.At(me, RemoveDir), Go(me, Works)), me, 0);
  }

  /** A call that has its directory and cannot finish taking the lock removes what it made. */
  lemma FailedCallUndoes(s: State, me: Token, outcome: Outcome)
    requires s.PhaseOf(me) in {WriteToken, ProtectToken, VerifyOwn} && outcome != Works
    ensures Alone(Do(s, Go(me, outcome)), me, 1) == s.At(me, Done).(lock := None)
  {
    var t := Do(s, Go(me, outcome));
    assert t.PhaseOf(me) == Undo;
    assert Do(t, Go(me, Works)) == t.At(me, Done).(lock := None);
    assert t.At(me, Done).(lock := None) == s.At(me, Done).(lock := None);
    assert Alone(t, me, 1) == Alone(Do(t, Go(me, Works)), me, 0);
  }

  // --- Two recoveries at once ---

  function Repeat(me: Token, n: nat): seq<Action> { seq(n, _ => Go(me, Works)) }

  lemma {:induction false} AloneIsExec(s: State, me: Token, n: nat)
    ensures Exec(s, Repeat(me, n)) == Alone(s, me, n)
    decreases n
  {
    if n > 0 {
      assert Repeat(me, n)[1..] == Repeat(me, n - 1);
      AloneIsExec(Do(s, Go(me, Works)), me, n - 1);
    }
  }

  lemma {:induction false} ExecInParts(s: State, front: seq<Action>, back: seq<Action>)
    ensures Exec(s, front + back) == Exec(Exec(s, front), back)
    decreases |front|
  {
    if front == [] {
      assert front + back == back;
    } else {
      assert (front + back)[1..] == front[1..] + back;
      ExecInParts(Do(s, front[0]), front[1..], back);
    }
  }

  lemma ReachQuarantine(s: State, me: Token)
    requires s.PhaseOf(me) == Mkdir(0) && s.lock.Some? && s.lock.value.directory && s.lock.value.secure && Stale(s.lock.value, s.now)
    ensures Alone(s, me, 4) == s.At(me, Quarantine)
  {
    ReachCheckOwner(s, me);
    AloneInParts(s, me, 2, 2);
    var c := s.At(me, CheckOwner);
    assert Do(c, Go(me, Works)) == s.At(me, CheckAge);
    assert Do(s.At(me, CheckAge), Go(me, Works)) == s.At(me, Quarantine);
    assert Alone(s.At(me, CheckAge), me, 1) == Alone(s.At(me, Quarantine), me, 0);
  }

  lemma QuarantineAndAcquire(s: State, me: Token)
    requires s.PhaseOf(me) == Quarantine && s.lock.Some?
    ensures Alone(s, me, 6) == s.At(me, Holding).(lock := Some(LockDir(me, Some(me), s.now, true, true)))
  {
    var gone := s.(lock := None);
    assert Do(s, Go(me, Works)) == gone.At(me, RemoveQuarantine);
    assert Do(gone.At(me, RemoveQuarantine), Go(me, Works)) == gone.At(me, Mkdir(1));
    assert Alone(gone.At(me, RemoveQuarantine), me, 5) == Alone(gone.At(me, Mkdir(1)), me, 4);
    FreshAcquire(gone, me, 1);
  }

  // a finds the directory stale, then b does, then a takes it over, then b does.
  function Turns(s: State, a: Token, b: Token): State {
    Alone(Alone(Alone(Alone(s, a, 4), b, 4), a, 6), b, 6)
  }

  lemma BothHoldAfterTurns(s: State, a: Token, b: Token)
    requires a != b && s.PhaseOf(a) == s.PhaseOf(b) == Mkdir(0)
    requires s.lock.Some? && s.lock.value.directory && s.lock.value.secure && Stale(s.lock.value, s.now)
    ensures Turns(s, a, b).PhaseOf(a) == Holding && Turns(s, a, b).PhaseOf(b) == Holding
  {
    ReachQuarantine(s, a);
    var s1 := s.At(a, Quarantine);
    ReachQuarantine(s1, b);
    var s2 := s1.At(b, Quarantine);
    QuarantineAndAcquire(s2, a);
    var s3 := s2.At(a, Holding).(lock := Some(LockDir(a, Some(a), s.now, true, true)));
    QuarantineAndAcquire(s3, b);
  }

  function TurnActions(a: Token, b: Token): seq<Action> { Repeat(a, 4) + Repeat(b, 4) + Repeat(a, 6) + Repeat(b, 6) }

  lemma TurnsAreARun(s: State, a: Token, b: Token)
    ensures Exec(s, TurnActions(a, b)) == Turns(s, a, b)
  {
    var first := Repeat(a, 4);
    var second := first + Repeat(b, 4);
    var third := second + Repeat(a, 6);
    AloneIsExec(s, a, 4);
    AloneAfter(s, first, b, 4);
    AloneAfter(s, second, a, 6);
    AloneAfter(s, third, b, 6);
  }

  lemma BothHoldAfterARun(s: State, end: State, actions: seq<Action>, a: Token, b: Token)
    requires Exec(s, actions) == end && BothHold(end, a, b)
    ensures exists run :: BothHold(Exec(s, run), a, b)
  {
  }

  /** The condition is needed: two calls that both find the directory stale before either
      moves it can both end up holding the lock, the second by moving the first's. */
  lemma TwoRecoveriesCanBothHold(s: State, a: Token, b: Token)
    requires a != b && s.PhaseOf(a) == s.PhaseOf(b) == Mkdir(0)
    requires s.lock.Some? && s.lock.value.directory && s.lock.value.secure && Stale(s.lock.value, s.now)
    ensures exists actions :: BothHold(Exec(s, actions), a, b)
  {
    BothHoldAfterTurns(s, a, b);
    TurnsAreARun(s, a, b);
    BothHoldAfterARun(s, Turns(s, a, b), TurnActions(a, b), a, b);
  }

  // --- A touch that finds nothing ---

  predicate PlainFileThere(lock: Option<LockDir>) { lock.Some? && !lock.value.directory }

  /** A plain file appears at the path exactly when a touch takes effect where nothing is. */
  lemma PlainFileAppearsExactlyThen(s: State, a: Action)
    requires !PlainFileThere(s.lock)
    ensures PlainFileThere(Do(s, a).lock) <==>
            a.Go? && s.PhaseOf(a.me) == Touch && s.lock.None? && (a.outcome == Works || a.outcome == Lost)
  {
  }

  lemma TouchMakesAPlainFile(s: State, me: Token)
    requires s.PhaseOf(me) == Touch && s.lock.None?
    ensures var t := Do(s, Go(me, Works)); t.PhaseOf(me) == Holding && PlainFileThere(t.lock)
  {
  }

  // The holder finds the directory its own; the other finds it stale and moves it aside;
  // the holder touches.
  function LateTouch(me: Token, other: Token): seq<Action> {
    [Refresh(me), Go(me, Works)] + Repeat(other, 5) + [Go(me, Works)]
  }

  // Where that leaves them before the touch.
  function Moved(s: State, me: Token, other: Token): State {
    s.At(me, Touch).At(other, RemoveQuarantine).(lock := None)
  }

  lemma RecovererMovesIt(s: State, me: Token, other: Token)
    requires me != other && s.PhaseOf(me) == Touch && s.PhaseOf(other) == Mkdir(0)
    requires s.lock.Some? && s.lock.value.directory && s.lock.value.secure && Stale(s.lock.value, s.now)
    ensures Alone(s, other, 5) == s.At(other, RemoveQuarantine).(lock := None)
  {
    ReachQuarantine(s, other);
    AloneInParts(s, other, 4, 1);
    var c := s.At(other, Quarantine);
    assert Do(c, Go(other, Works)) == s.At(other, RemoveQuarantine).(lock := None);
    assert Alone(c, other, 1) == Alone(Do(c, Go(other, Works)), other, 0);
  }

  lemma RefreshReachesTouch(s: State, me: Token)
    requires s.PhaseOf(me) == Holding && Verifies(s.lock, me)
    ensures Exec(s, [Refresh(me), Go(me, Works)]) == s.At(me, Touch)
  {
    var actions, verify := [Refresh(me), Go(me, Works)], [Go(me, Works)];
    assert actions[1..] == verify && verify[1..] == [];
    assert Do(s, Refresh(me)) == s.At(me, VerifyRefresh);
    assert Do(s.At(me, VerifyRefresh), Go(me, Works)) == s.At(me, Touch);
    assert Exec(s, actions) == Exec(s.At(me, VerifyRefresh), verify) == Exec(s.At(me, Touch), []);
  }

  lemma LateTouchRuns(s: State, me: Token, other: Token)
    requires me != other && s.PhaseOf(me) == Holding && Verifies(s.lock, me) && s.PhaseOf(other) == Mkdir(0)
    requires s.lock.value.directory && Stale(s.lock.value, s.now)
    ensures Exec(s, LateTouch(me, other)) == Do(Moved(s, me, other), Go(me, Works))
  {
    var first := [Refresh(me), Go(me, Works)];
    var second := first + Repeat(other, 5);
    var gone := Moved(s, me, other);
    RefreshReachesTouch(s, me);
    RecovererMovesIt(s.At(me, Touch), me, other);
    AloneAfter(s, first, other, 5);
    ExecInParts(s, second, [Go(me, Works)]);
    assert [Go(me, Works)][1..] == [];
    assert Exec(gone, [Go(me, Works)]) == Exec(Do(gone, Go(me, Works)), []);
  }

  /** A run from any stale lock whose holder is still at work leaves a plain file under a
      holder that goes on, and from then on shuts out whoever comes. */
  lemma RefreshCanTouchTooLate(s: State, me: Token, other: Token, late: Token, seconds: nat)
    requires me != other && late != me && late != other
    requires s.PhaseOf(me) == Holding && Verifies(s.lock, me) && s.lock.value.directory && Stale(s.lock.value, s.now)
    requires s.PhaseOf(other) == Mkdir(0) && s.PhaseOf(late) == Mkdir(0)
    ensures var t := Exec(s, LateTouch(me, other));
            && t.PhaseOf(me) == Holding && PlainFileThere(t.lock)
            && Alone(Do(t, Wait(seconds)), late, 10) == Do(t, Wait(seconds)).At(late, Done)
  {
    var moved := Moved(s, me, other);
    LateTouchRuns(s, me, other);
    assert moved.PhaseOf(me) == Touch && moved.lock.None? && moved.PhaseOf(late) == Mkdir(0);
    TouchMakesAPlainFile(moved, me);
    TouchedFileShutsOut(moved, me, late, seconds);
  }

  predicate BothHold(s: State, a: Token, b: Token) { s.PhaseOf(a) == Holding && s.PhaseOf(b) == Holding }

  lemma AloneAfter(s: State, front: seq<Action>, me: Token, n: nat)
    ensures Exec(s, front + Repeat(me, n)) == Alone(Exec(s, front), me, n)
  {
    ExecInParts(s, front, Repeat(me, n));
    AloneIsExec(Exec(s, front), me, n);
  }

  // --- One caller's code ---

  // How the commands of a run go that do not simply work.
  type Troubles = map<Phase, Outcome>

  function OutcomeOf(p: Phase, troubles: Troubles): Outcome { if p in troubles then troubles[p] else Works }

  // A command that fails and does not merely exit 1.
  predicate Broken(p: Phase, troubles: Troubles) { OutcomeOf(p, troubles) == Fails || OutcomeOf(p, troubles) == Lost }

  predicate Troubled(p: Phase, troubles: Troubles) { OutcomeOf(p, troubles) != Works }

  // The call's next command.
  function Its(s: State, me: Token, troubles: Troubles): State { Do(s, Go(me, OutcomeOf(s.PhaseOf(me), troubles))) }

  ghost predicate IsWalk(trace: seq<State>, start: State, me: Token, troubles: Troubles, end: State) {
    && |trace| > 0 && trace[0] == start && trace[|trace| - 1] == end
    && forall i :: 0 < i < |trace| ==> trace[i] == Its(trace[i - 1], me, troubles)
  }

  // Some number of the call's commands lead from start to end.
  ghost predicate Leads(start: State, me: Token, troubles: Troubles, end: State) {
    exists trace :: IsWalk(trace, start, me, troubles, end)
  }

  lemma LeadsNowhere(start: State, me: Token, troubles: Troubles)
    ensures Leads(start, me, troubles, start)
  {
    assert IsWalk([start], start, me, troubles, start);
  }

  lemma LeadsOn(start: State, me: Token, troubles: Troubles, s: State)
    requires Leads(start, me, troubles, s)
    ensures Leads(start, me, troubles, Its(s, me, troubles))
  {
    var trace :| IsWalk(trace, start, me, troubles, s);
    assert IsWalk(trace + [Its(s, me, troubles)], start, me, troubles, Its(s, me, troubles));
  }

  // What one caller sees: the path, the clock, and how far it has come itself.
  function View(lock: Option<LockDir>, now: nat, me: Token, p: Phase): State {
    State(lock, now, map[me := p])
  }

  // What a command leaves at the path.
  function Left(lock: Option<LockDir>, now: nat, me: Token, p: Phase, troubles: Troubles): Option<LockDir> {
    var effect, outcome := Effect(View(lock, now, me, p), me), OutcomeOf(p, troubles);
    if effect.Some? && (outcome == Works || outcome == Lost) then effect.value else lock
  }

  predicate SeenToWork(lock: Option<LockDir>, now: nat, me: Token, p: Phase, troubles: Troubles) {
    Effect(View(lock, now, me, p), me).Some? && !Troubled(p, troubles)
  }

  // Whether a command that did not work was seen to fail, not merely to say no.
  predicate SeenToFail(p: Phase, troubles: Troubles) {
    Broken(p, troubles) || (Troubled(p, troubles) && !p.Mkdir?)
  }

  lemma CommandLeadsOn(start: State, me: Token, troubles: Troubles, lock: Option<LockDir>, now: nat, p: Phase)
    requires Running(p) && Leads(start, me, troubles, View(lock, now, me, p))
    ensures Leads(start, me, troubles, View(Left(lock, now, me, p, troubles), now, me,
                                            if SeenToWork(lock, now, me, p, troubles) then Onward(p)
                                            else Otherwise(p, SeenToFail(p, troubles))))
  {
    LeadsOn(start, me, troubles, View(lock, now, me, p));
    assert forall r: Phase :: map[me := p][me := r] == map[me := r];
  }

  // A directory of the right owner and mode that nobody has touched for too long.
  predicate LeftBehind(lock: Option<LockDir>, now: nat) {
    lock.Some? && lock.value.directory && lock.value.secure && now > lock.value.touched + 600
  }

  // The commands that only look whose lock it is.
  predicate Inspects(p: Phase) { p.VerifyOwn? || p.VerifyRefresh? || p.VerifyRelease? }

  // The path and the clock as one caller's commands meet them.
  class GuestLock {
    var lock: Option<LockDir>
    var now: nat

    constructor (lock: Option<LockDir>, now: nat)
      ensures this.lock == lock && this.now == now
    {
      this.lock, this.now := lock, now;
    }

    // Runs the one command of phase p of the call that began in `start`, and tells
    // whether it was seen to work.
    method Run(me: Token, p: Phase, troubles: Troubles, ghost start: State) returns (worked: bool)
      requires Running(p) && Leads(start, me, troubles, View(lock, now, me, p))
      modifies this`lock
      ensures worked == SeenToWork(old(lock), now, me, p, troubles) && lock == Left(old(lock), now, me, p, troubles)
      ensures Leads(start, me, troubles, View(lock, now, me, if worked then Onward(p) else Otherwise(p, SeenToFail(p, troubles))))
    {
      CommandLeadsOn(start, me, troubles, lock, now, p);
      var effect, outcome := Effect(View(lock, now, me, p), me), OutcomeOf(p, troubles);
      worked := effect.Some? && outcome == Works;
      if effect.Some? && (outcome == Works || outcome == Lost) { lock := effect.value; }
    }

    method AcquireInitLock(me: Token, troubles: Troubles) returns (held: bool)
      modifies this`lock
      ensures Leads(View(old(lock), now, me, Mkdir(0)), me, troubles, View(lock, now, me, if held then Holding else Done))
      ensures held ==> Verifies(lock, me)
      // Untroubled, it takes a free lock or a stale one, and leaves any other as it is; and
      // it never leaves what it made of a free one and could not finish.
      ensures troubles == map[] ==>
                && (held <==> old(lock).None? || LeftBehind(old(lock), now))
                && lock == if held then Some(LockDir(me, Some(me), now, true, true)) else old(lock)
      ensures old(lock).None? && !held && Undo !in troubles && OutcomeOf(Mkdir(0), troubles) in {Works, Refused} ==>
                lock.None? || OutcomeOf(Mkdir(1), troubles) == Lost
    {
      ghost var start := View(lock, now, me, Mkdir(0));
      LeadsNowhere(start, me, troubles);
      var attempt := 0;
      while attempt < 2
        invariant attempt < 2 && Leads(start, me, troubles, View(lock, now, me, Mkdir(attempt)))
        invariant old(lock).None? ==> lock.None?
        invariant attempt == 0 ==> lock == old(lock)
        invariant attempt == 1 && troubles == map[] ==>
                    if LeftBehind(old(lock), now) then lock.None? else lock == old(lock) && lock.Some?
        decreases 2 - attempt
      {
        var made := Run(me, Mkdir(attempt), troubles, start);
        if made {
          held := FinishAcquire(me, troubles, start);
          return;
        }
        if Broken(Mkdir(attempt), troubles) || attempt > 0 { return false; }
        var recovered := RecoverStaleInitLock(me, troubles, start);
        if !recovered { return false; }
        attempt := attempt + 1;
      }
    }

    // The directory is this call's: put the token in, and check that it stayed.
    method FinishAcquire(me: Token, troubles: Troubles, ghost start: State) returns (held: bool)
      requires Leads(start, me, troubles, View(lock, now, me, WriteToken))
      modifies this`lock
      ensures Leads(start, me, troubles, View(lock, now, me, if held then Holding else Done))
      ensures held ==> Verifies(lock, me)
      ensures troubles == map[] && old(lock) == Some(LockDir(me, None, now, true, true)) ==>
                held && lock == Some(LockDir(me, Some(me), now, true, true))
      ensures !held && Undo !in troubles ==> lock.None?
    {
      var ok := Run(me, WriteToken, troubles, start);
      if ok {
        ok := Run(me, ProtectToken, troubles, start);
        if ok {
          ok := VerifyInitLock(me, VerifyOwn, troubles, start);
          if ok { return true; }
        }
      }
      var removed := Run(me, Undo, troubles, start);
      return false;
    }

    method RecoverStaleInitLock(me: Token, troubles: Troubles, ghost start: State) returns (recovered: bool)
      requires Leads(start, me, troubles, View(lock, now, me, FindLock))
      modifies this`lock
      ensures Leads(start, me, troubles, View(lock, now, me, if recovered then Mkdir(1) else Done))
      ensures troubles == map[] ==> if LeftBehind(old(lock), now) then recovered && lock.None? else lock == old(lock)
      ensures old(lock).None? ==> lock.None?
    {
      var present := Run(me, FindLock, troubles, start);
      if !present { return !Troubled(FindLock, troubles); }
      var ok := Run(me, CheckOwner, troubles, start);
      if !ok { return false; }
      ok := Run(me, CheckAge, troubles, start);
      if !ok { return false; }
      recovered := MoveAside(me, troubles, start);
    }

    method MoveAside(me: Token, troubles: Troubles, ghost start: State) returns (recovered: bool)
      requires Leads(start, me, troubles, View(lock, now, me, Quarantine))
      modifies this`lock
      ensures Leads(start, me, troubles, View(lock, now, me, if recovered then Mkdir(1) else Done))
      ensures troubles == map[] && old(lock).Some? ==> recovered && lock.None?
      ensures old(lock).None? ==> lock.None?
    {
      var ok := Run(me, Quarantine, troubles, start);
      if !ok { return false; }
      recovered := Run(me, RemoveQuarantine, troubles, start);
    }

    method VerifyInitLock(me: Token, p: Phase, troubles: Troubles, ghost start: State) returns (mine: bool)
      requires Inspects(p) && Leads(start, me, troubles, View(lock, now, me, p))
      modifies this`lock
      ensures mine == (!Troubled(p, troubles) && Verifies(lock, me)) && lock == old(lock)
      ensures Leads(start, me, troubles, View(lock, now, me, if mine then Onward(p) else Otherwise(p, SeenToFail(p, troubles))))
    {
      mine := Run(me, p, troubles, start);
    }

    // Two commands: whose lock it is, and a touch. A run that cannot refresh goes on to
    // release.
    method RefreshInitLock(me: Token, troubles: Troubles) returns (ok: bool)
      modifies this`lock
      ensures Leads(View(old(lock), now, me, VerifyRefresh), me, troubles,
                    View(lock, now, me, if ok then Holding else VerifyRelease))
      ensures ok == (Verifies(old(lock), me) && !Troubled(VerifyRefresh, troubles) && !Troubled(Touch, troubles))
      ensures ok ==> lock == Some(old(lock).value.(touched := now))
      ensures old(lock).None? || old(lock).value.token != Some(me) ==> !ok && lock == old(lock)
      ensures !Verifies(old(lock), me) ==> lock == old(lock)
    {
      ghost var start := View(lock, now, me, VerifyRefresh);
      LeadsNowhere(start, me, troubles);
      ok := VerifyInitLock(me, VerifyRefresh, troubles, start);
      if !ok { return; }
      ok := Run(me, Touch, troubles, start);
    }

    method ReleaseInitLock(me: Token, troubles: Troubles) returns (ok: bool)
      modifies this`lock
      ensures Leads(View(old(lock), now, me, VerifyRelease), me, troubles, View(lock, now, me, Done))
      ensures ok ==> lock == None
      ensures troubles == map[] ==> (ok <==> Verifies(old(lock), me) && old(lock).value.directory)
      ensures old(lock).None? || old(lock).value.token != Some(me) ==> !ok && lock == old(lock)
      ensures !Verifies(old(lock), me) ==> !ok && lock == old(lock)
    {
      ghost var start := View(lock, now, me, VerifyRelease);
      LeadsNowhere(start, me, troubles);
      ok := VerifyInitLock(me, VerifyRelease, troubles, start);
      if !ok { return; }
      ok := Run(me, RemoveToken, troubles, start);
      if !ok { return; }
      ok := Run(me, RemoveDir, troubles, start);
    }
  }
}
