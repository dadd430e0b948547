/** The login service over its users and captcha challenges, changed in place. */
module LoginServer {
  import opened Wrappers
  import opened LoginRules

  class Server {
    var users: map<UserId, User>
    var captchas: Captchas
    var sessions: seq<Session>

    ghost function View(): Db
      reads this
    {
      Db(users, captchas, sessions)
    }

    constructor ()
      ensures View() == Init()
    {
      users, captchas, sessions := map[], map[], [];
    }

    /** The conditional update; false when no row changed. */
    method Consume(token: Token) returns (changed: bool)
      modifies this`captchas
      ensures (changed, captchas) == LoginRules.Consume(old(captchas), token)
      ensures changed <==> token in old(captchas) && !old(captchas)[token].consumed
      ensures captchas == if changed then old(captchas)[token := old(captchas)[token].(consumed := true)] else old(captchas)
    {
      changed := token in captchas && !captchas[token].consumed;
      if changed {
        captchas := captchas[token := captchas[token].(consumed := true)];
      }
    }

    /** None when the answer is right; a challenge is never passed twice. */
    method VerifyCaptcha(token: Token, answer: string, now: int) returns (stop: Option<Answer>)
      modifies this`captchas
      ensures (stop, captchas) == LoginRules.VerifyCaptcha(old(captchas), token, answer, now)
      ensures stop.None? <==>
                token in old(captchas) && var c := old(captchas)[token];
                !c.consumed && now <= c.expires && TrimSpace(answer) == c.answer
      ensures token in old(captchas) && now <= old(captchas)[token].expires ==> token in captchas && captchas[token].consumed
      ensures forall t :: t in old(captchas) && t != token ==> t in captchas && captchas[t] == old(captchas)[t]
    {
      if token !in captchas {
        return Some(CaptchaInvalid);
      }
      var c := captchas[token];
      if c.consumed || now > c.expires {
        return Some(CaptchaInvalid);
      }
      if TrimSpace(answer) != c.answer {
        var _ := Consume(token);
        return Some(CaptchaInvalid);
      }
      var changed := Consume(token);
      return if changed then None else Some(CaptchaGone);
    }

    /** Does nothing when the user is gone. */
    method RecordFailedLogin(user: UserId, lockUntil: Option<int>, f: Failure)
      modifies this`users
      ensures user !in old(users) ==> users == old(users)
      ensures user in old(users) ==>
                var u := old(users)[user];
                users == old(users)[user := User(u.failed + 1, if lockUntil.Some? then lockUntil else u.lockedUntil, u.failures + [f])]
    {
      if user !in users {
        return;
      }
      var u := users[user];
      var lockedUntil := u.lockedUntil;
      if lockUntil.Some? {
        lockedUntil := lockUntil;
      }
      users := users[user := User(u.failed + 1, lockedUntil, u.failures + [f])];
    }

    /** Lockout first, then the captcha from the third attempt on, then the password. */
    method Login(input: LoginInput, now: int) returns (r: Answer)
      modifies this
      ensures (r, View()) == LoginStep(old(View()), input, now)
      ensures LoginAnswers(old(View()), input, now, r) && LoginChanges(old(View()), View(), input, now)
      ensures old(Inv(View())) ==> Inv(View())
    {
      StepKeepsView(View(), input, now);
      LoginStepAnswers(View(), input, now);
      if input.user !in users {
        return CredentialInvalid;
      }
      var u := users[input.user];
      if u.lockedUntil.Some? && u.lockedUntil.value > now {
        return Locked;
      }
      if u.failed >= CAPTCHA_THRESHOLD {
        if input.token == "" || input.answer == "" {
          return CaptchaRequired;
        }
        var stop := VerifyCaptcha(input.token, input.answer, now);
        if stop.Some? {
          return stop.value;
        }
      }
      if !input.passwordOk {
        var lockUntil: Option<int> := None;
        if u.failed + 1 >= LOCKOUT_THRESHOLD {
          lockUntil := Some(now + LOCKOUT_DURATION);
        }
        RecordFailedLogin(input.user, lockUntil,
                          Failure(now, if u.failed >= CAPTCHA_THRESHOLD then Some(input.token) else None));
        return if lockUntil.Some? then Locked else CredentialInvalid;
      }
      users := users[input.user := User(0, None, [])];
      if !input.sessionOk {
        return SessionFailed;
      }
      sessions := sessions + [Session(input.user, now, now + SESSION_INACTIVITY)];
      return Success;
    }
  }

  // ---- what a login is answered and what it changes, over the columns ----

  /** The user is known and their lock, if any, is over. */
  ghost predicate Unlocked(db: Db, input: LoginInput, now: int) {
    && input.user in db.users
    && var u := db.users[input.user]; u.lockedUntil.None? || u.lockedUntil.value <= now
  }

  /** A right answer, in time, to a challenge that nobody used. */
  ghost predicate Answered(db: Db, input: LoginInput, now: int) {
    && input.token != "" && input.answer != "" && input.token in db.captchas
    && var c := db.captchas[input.token]; !c.consumed && now <= c.expires && TrimSpace(input.answer) == c.answer
  }

  /** The password gets checked. */
  ghost predicate Through(db: Db, input: LoginInput, now: int) {
    Unlocked(db, input, now) && (db.users[input.user].failed < 2 || Answered(db, input, now))
  }

  ghost predicate LoginAnswers(db: Db, input: LoginInput, now: int, r: Answer) {
    var known := input.user in db.users;
    var stopped := Unlocked(db, input, now) && db.users[input.user].failed >= 2 && !Answered(db, input, now);
    var blank := input.token == "" || input.answer == "";
    var wrong := Through(db, input, now) && !input.passwordOk;
    && (r == Success <==> Through(db, input, now) && input.passwordOk && input.sessionOk)
    && (r == SessionFailed <==> Through(db, input, now) && input.passwordOk && !input.sessionOk)
    && (r == CaptchaRequired <==> stopped && blank)
    && (r == CaptchaInvalid <==> stopped && !blank)
    && (r == Locked <==> known && (!Unlocked(db, input, now) || (wrong && db.users[input.user].failed >= 4)))
    && (r == CredentialInvalid <==> !known || (wrong && db.users[input.user].failed < 4))
  }

  ghost predicate LoginChanges(db: Db, db': Db, input: LoginInput, now: int) {
    && db'.users.Keys == db.users.Keys
    && (forall k :: k in db.users && k != input.user ==> db'.users[k] == db.users[k])
    && (input.user in db.users ==>
          var u, u' := db.users[input.user], db'.users[input.user];
          if !Through(db, input, now) then u' == u
          else if input.passwordOk then u'.failed == 0 && u'.lockedUntil.None?
          else u'.failed == u.failed + 1
               && u'.lockedUntil == if u.failed >= 4 then Some(now + 900_000_000_000) else u.lockedUntil)
    && db'.captchas.Keys == db.captchas.Keys
    && (forall t :: t in db.captchas ==>
          var c := db.captchas[t];
          var used := Unlocked(db, input, now) && db.users[input.user].failed >= 2 && t == input.token
                      && input.token != "" && input.answer != "" && now <= c.expires;
          db'.captchas[t] == if used then c.(consumed := true) else c)
    && db'.sessions == db.sessions
         + if Through(db, input, now) && input.passwordOk && input.sessionOk
           then [Session(input.user, now, now + 1_800_000_000_000)] else []
  }

  lemma {:induction false} LoginStepAnswers(db: Db, input: LoginInput, now: int)
    ensures LoginAnswers(db, input, now, LoginStep(db, input, now).0)
    ensures LoginChanges(db, LoginStep(db, input, now).1, input, now)
  {
    assert db.sessions + [] == db.sessions;
  }

  lemma StepKeepsView(db: Db, input: LoginInput, now: int)
    ensures Inv(db) ==> Inv(LoginStep(db, input, now).1)
  {
    if Inv(db) {
      StepKeeps(db, LoginRules.Login(input, now));
    }
  }
}
