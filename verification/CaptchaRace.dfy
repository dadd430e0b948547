/** Logins that race each other: the user is read, the captcha is read, checked and consumed, and
    the password is compared in separate steps. */
module CaptchaRace {
  import opened Wrappers
  import opened LoginRules

  type AttemptId = nat

  /** Where a login is: about to read its captcha, about to consume it after a right or a wrong
      answer, past every gate, or finished. */
  datatype Phase =
    | AtCaptcha | Consuming | Burning | Admitted(token: Option<Token>) | Done(result: Answer)

  /** `via` is history: the captcha that let the attempt through. */
  datatype Attempt = Attempt(input: LoginInput, now: int, failedSeen: nat, phase: Phase, via: Option<Token>)

  datatype State = State(db: Db, attempts: map<AttemptId, Attempt>)

  datatype Step =
    | Serial(e: Event)
    | Begin(a: AttemptId, input: LoginInput, now: int)
    | ReadCaptcha(a: AttemptId)
    | UseCaptcha(a: AttemptId)
    | Compare(a: AttemptId)

  function Start(db: Db, input: LoginInput, now: int): Attempt {
    if input.user !in db.users then Attempt(input, now, 0, Done(CredentialInvalid), None)
    else
      var u := db.users[input.user];
      Attempt(input, now, u.failed,
              if u.IsLocked(now) then Done(Locked)
              else if !u.CaptchaRequired() then Admitted(None)
              else if input.token == "" || input.answer == "" then Done(CaptchaRequired)
              else AtCaptcha,
              None)
  }

  function AfterRead(cs: Captchas, t: Attempt): Attempt {
    var token := t.input.token;
    t.(phase := if token !in cs || cs[token].consumed || t.now > cs[token].expires then Done(CaptchaInvalid)
                else if TrimSpace(t.input.answer) != cs[token].answer then Burning
                else Consuming)
  }

  /** The conditional update decides: an attempt whose update changes no row is turned away. */
  function AfterUse(cs: Captchas, t: Attempt): Attempt {
    if t.phase.Consuming? && Consume(cs, t.input.token).0
    then t.(phase := Admitted(Some(t.input.token)), via := Some(t.input.token))
    else t.(phase := Done(if t.phase.Consuming? then CaptchaGone else CaptchaInvalid))
  }

  /** The counter goes up in the database; whether to lock is decided from the user as first read. */
  function Compared(db: Db, t: Attempt): (Answer, Db)
    requires t.input.user in db.users
  {
    if t.input.passwordOk then Succeed(db, t.input, t.now)
    else
      var u := db.users[t.input.user];
      var u' := u.(failed := u.failed + 1, failures := u.failures + [Failure(t.now, t.via)]);
      if t.failedSeen + 1 >= LOCKOUT_THRESHOLD
      then (Locked, db.(users := db.users[t.input.user := u'.(lockedUntil := Some(t.now + LOCKOUT_DURATION))]))
      else (CredentialInvalid, db.(users := db.users[t.input.user := u']))
  }

  function Next(s: State, step: Step): State {
    match step
    case Serial(e) => if e.Login? then s else s.(db := LoginRules.Step(s.db, e))
    case Begin(a, input, now) =>
      if a in s.attempts then s else s.(attempts := s.attempts[a := Start(s.db, input, now)])
    case ReadCaptcha(a) =>
      if a in s.attempts && s.attempts[a].phase.AtCaptcha?
      then s.(attempts := s.attempts[a := AfterRead(s.db.captchas, s.attempts[a])])
      else s
    case UseCaptcha(a) =>
      if a in s.attempts && (s.attempts[a].phase.Consuming? || s.attempts[a].phase.Burning?) then
        var t := s.attempts[a];
        State(s.db.(captchas := Consume(s.db.captchas, t.input.token).1),
              s.attempts[a := AfterUse(s.db.captchas, t)])
      else s
    case Compare(a) =>
      if a in s.attempts && s.attempts[a].phase.Admitted? && s.attempts[a].input.user in s.db.users then
        var t := s.attempts[a];
        var (r, db) := Compared(s.db, t);
        State(db, s.attempts[a := t.(phase := Done(r))])
      else s
  }

  function Run(steps: seq<Step>): State {
    if steps == [] then State(Init(), map[]) else Next(Run(steps[..|steps| - 1]), steps[|steps| - 1])
  }

  ghost predicate Inv(s: State) {
    && (forall a :: a in s.attempts && s.attempts[a].via.Some? ==>
          s.attempts[a].via.value in s.db.captchas && s.db.captchas[s.attempts[a].via.value].consumed)
    && (forall a, b :: (a in s.attempts && b in s.attempts && s.attempts[a].via.Some?
                        && s.attempts[a].via == s.attempts[b].via) ==> a == b)
    && (forall a :: a in s.attempts && s.attempts[a].phase.Admitted? ==>
          s.attempts[a].phase.token == s.attempts[a].via && (s.attempts[a].via.None? ==> s.attempts[a].failedSeen < 2))
  }

  /** An attempt that stays as it was let through, or is let through by a captcha nobody used. */
  lemma AttemptKeeps(s: State, db: Db, a: AttemptId, t: Attempt)
    requires Inv(s) && MoreConsumed(s.db.captchas, db.captchas)
    requires if t.via.None? then true
             else if a in s.attempts && t.via == s.attempts[a].via then true
             else t.via.value in s.db.captchas && !s.db.captchas[t.via.value].consumed
                  && t.via.value in db.captchas && db.captchas[t.via.value].consumed
    requires t.phase.Admitted? ==> t.phase.token == t.via && (t.via.None? ==> t.failedSeen < 2)
    ensures Inv(State(db, s.attempts[a := t]))
  {
    forall b | b in s.attempts && b != a && t.via.Some? ensures s.attempts[b].via != t.via {
      assert s.attempts[b].via.Some? ==> s.attempts[b].via.value in s.db.captchas;
    }
  }

  lemma NextKeeps(s: State, step: Step)
    requires Inv(s)
    ensures Inv(Next(s, step))
  {
    var s' := Next(s, step);
    assert MoreConsumed(s.db.captchas, s'.db.captchas);
    if s' != s && !step.Serial? {
      AttemptKeeps(s, s'.db, step.a, s'.attempts[step.a]);
      assert s'.attempts == s.attempts[step.a := s'.attempts[step.a]];
    }
  }

  lemma {:induction false} RunKeeps(steps: seq<Step>)
    ensures Inv(Run(steps))
  {
    if steps != [] {
      RunKeeps(steps[..|steps| - 1]);
      NextKeeps(Run(steps[..|steps| - 1]), steps[|steps| - 1]);
    }
  }

  /** In every interleaving one captcha lets at most one attempt through to the password check, and
      an attempt gets there without one only if it saw fewer than two failures. */
  lemma {:induction false} OneCaptchaOneAttempt(steps: seq<Step>, a: AttemptId, b: AttemptId)
    requires a in Run(steps).attempts && b in Run(steps).attempts && a != b
    ensures var s := Run(steps);
            && (s.attempts[a].via.Some? ==> s.attempts[a].via != s.attempts[b].via)
            && (s.attempts[a].phase.Admitted? ==> s.attempts[a].via.Some? || s.attempts[a].failedSeen < 2)
  {
    RunKeeps(steps);
  }

  /** The four steps of one attempt with nothing in between are the serial login. */
  lemma SerialLoginIsUninterrupted(s: State, a: AttemptId, input: LoginInput, now: int)
    requires a !in s.attempts
    ensures var s' := Next(Next(Next(Next(s, Begin(a, input, now)), ReadCaptcha(a)), UseCaptcha(a)), Compare(a));
            && s'.db == LoginStep(s.db, input, now).1
            && s'.attempts[a].phase == Done(LoginStep(s.db, input, now).0)
  {
    var s1 := Next(s, Begin(a, input, now));
    var s2 := Next(s1, ReadCaptcha(a));
    var s3 := Next(s2, UseCaptcha(a));
    if input.user in s.db.users {
      var u := s.db.users[input.user];
      if !u.IsLocked(now) {
        assert s3.db.captchas == Gate(u, s.db.captchas, input, now).1;
        assert s3.attempts[a].phase.Admitted? <==> Gate(u, s.db.captchas, input, now).0.None?;
      }
    }
  }
}
