/** Login with lockout and one-shot captchas. Times are nanoseconds. */
module LoginRules {
  import opened Wrappers

  type UserId = nat
  type Token = string

  const MINUTE := 60 * 1_000_000_000
  const LOCKOUT_THRESHOLD := 5
  const LOCKOUT_DURATION := 15 * MINUTE
  const CAPTCHA_THRESHOLD := 2
  const SESSION_INACTIVITY := 30 * MINUTE

  /** `failures` is history: the wrong passwords since the last success, each with its captcha. */
  datatype Failure = Failure(at: int, token: Option<Token>)

  datatype User = User(failed: nat, lockedUntil: Option<int>, failures: seq<Failure>) {
    predicate IsLocked(now: int) { lockedUntil.Some? && lockedUntil.value > now }

    predicate CaptchaRequired() { failed >= CAPTCHA_THRESHOLD }
  }

  datatype Captcha = Captcha(answer: string, expires: int, consumed: bool)

  type Captchas = map<Token, Captcha>

  datatype Session = Session(user: UserId, created: int, expires: int)

  datatype Db = Db(users: map<UserId, User>, captchas: Captchas, sessions: seq<Session>)

  /** `passwordOk` and `sessionOk` say whether the password matches and a session can be stored. */
  datatype LoginInput = LoginInput(user: UserId, token: Token, answer: string, passwordOk: bool, sessionOk: bool)

  datatype Answer = Success | Locked | CredentialInvalid | CaptchaRequired | CaptchaInvalid | CaptchaGone | SessionFailed

  datatype Event =
    | Register(user: UserId)
    | Issue(token: Token, answer: string, expires: int)
    | Login(input: LoginInput, now: int)

  function Init(): Db { Db(map[], map[], []) }

  predicate IsSpace(c: char) { c in {' ', '\t', '\n', '\r', '\U{0b}', '\U{0c}', '\U{85}', '\U{a0}'} }

  function TrimSpace(s: string): string
    decreases |s|
  {
    if s != [] && IsSpace(s[0]) then TrimSpace(s[1..])
    else if s != [] && IsSpace(s[|s| - 1]) then TrimSpace(s[..|s| - 1])
    else s
  }

  const BLANKS: set<char> := {' ', '\t', '\n', '\r', '\U{0b}', '\U{0c}', '\U{85}', '\U{a0}'}

  /** `r` is what stands between blanks at both ends. */
  ghost predicate Trims(s: string, r: string, i: int, k: int) {
    && 0 <= i <= k <= |s| && r == s[i..k]
    && (forall j :: 0 <= j < i || k <= j < |s| ==> s[j] in BLANKS)
    && (r != [] ==> r[0] !in BLANKS && r[|r| - 1] !in BLANKS)
  }

  lemma TrimFront(s: string, r: string, i: int, k: int)
    requires s != [] && s[0] in BLANKS && Trims(s[1..], r, i, k)
    ensures Trims(s, r, i + 1, k + 1)
  {
    forall j | 0 <= j < i + 1 || k + 1 <= j < |s| ensures s[j] in BLANKS {
      assert j > 0 ==> s[1..][j - 1] == s[j];
    }
    assert s[1..][i..k] == s[i + 1..k + 1];
  }

  lemma TrimBack(s: string, r: string, i: int, k: int)
    requires s != [] && s[|s| - 1] in BLANKS && Trims(s[..|s| - 1], r, i, k)
    ensures Trims(s, r, i, k)
  {
    forall j | 0 <= j < i || k <= j < |s| ensures s[j] in BLANKS {
      assert j < |s| - 1 ==> s[..|s| - 1][j] == s[j];
    }
    assert s[..|s| - 1][i..k] == s[i..k];
  }

  /** What remains when the blanks at both ends are dropped. */
  lemma {:induction false} TrimSpaceTrims(s: string) returns (i: int, k: int)
    ensures Trims(s, TrimSpace(s), i, k)
    decreases |s|
  {
    if s != [] && IsSpace(s[0]) {
      i, k := TrimSpaceTrims(s[1..]);
      TrimFront(s, TrimSpace(s), i, k);
      i, k := i + 1, k + 1;
    } else if s != [] && IsSpace(s[|s| - 1]) {
      i, k := TrimSpaceTrims(s[..|s| - 1]);
      TrimBack(s, TrimSpace(s), i, k);
    } else {
      i, k := 0, |s|;
    }
  }

  /** UPDATE ... SET consumed = TRUE WHERE consumed = FALSE; true when a row changed. */
  function Consume(cs: Captchas, token: Token): (bool, Captchas) {
    if token in cs && !cs[token].consumed then (true, cs[token := cs[token].(consumed := true)]) else (false, cs)
  }

  /** A challenge is used up by a right answer, and by a wrong one. */
  function VerifyCaptcha(cs: Captchas, token: Token, answer: string, now: int): (Option<Answer>, Captchas) {
    if token !in cs || cs[token].consumed || now > cs[token].expires then (Some(CaptchaInvalid), cs)
    else if TrimSpace(answer) != cs[token].answer then (Some(CaptchaInvalid), Consume(cs, token).1)
    else
      var (changed, cs') := Consume(cs, token);
      (if changed then None else Some(CaptchaGone), cs')
  }

  /** What stands between an unlocked user and the password check. */
  function Gate(u: User, cs: Captchas, input: LoginInput, now: int): (Option<Answer>, Captchas) {
    if !u.CaptchaRequired() then (None, cs)
    else if input.token == "" || input.answer == "" then (Some(CaptchaRequired), cs)
    else VerifyCaptcha(cs, input.token, input.answer, now)
  }

  /** A wrong password: the counter goes up and, from the fifth on, the account locks. */
  function RecordFailure(u: User, input: LoginInput, now: int): User {
    User(u.failed + 1,
         if u.failed + 1 >= LOCKOUT_THRESHOLD then Some(now + LOCKOUT_DURATION) else u.lockedUntil,
         u.failures + [Failure(now, if u.CaptchaRequired() then Some(input.token) else None)])
  }

  /** A right password: the counter is reset, and then a session is stored if it can be. */
  function Succeed(db: Db, input: LoginInput, now: int): (Answer, Db) {
    var db' := db.(users := db.users[input.user := User(0, None, [])]);
    if input.sessionOk
    then (Success, db'.(sessions := db'.sessions + [Session(input.user, now, now + SESSION_INACTIVITY)]))
    else (SessionFailed, db')
  }

  function LoginStep(db: Db, input: LoginInput, now: int): (Answer, Db) {
    if input.user !in db.users then (CredentialInvalid, db)
    else
      var u := db.users[input.user];
      if u.IsLocked(now) then (Locked, db)
      else
        var (stop, cs') := Gate(u, db.captchas, input, now);
        if stop.Some? then (stop.value, db.(captchas := cs'))
        else if input.passwordOk then Succeed(db.(captchas := cs'), input, now)
        else
          var u' := RecordFailure(u, input, now);
          (if u.failed + 1 >= LOCKOUT_THRESHOLD then Locked else CredentialInvalid,
           db.(users := db.users[input.user := u'], captchas := cs'))
  }

  function Step(db: Db, e: Event): Db {
    match e
    case Register(u) => if u in db.users then db else db.(users := db.users[u := User(0, None, [])])
    case Issue(token, answer, expires) =>
      if token in db.captchas then db else db.(captchas := db.captchas[token := Captcha(answer, expires, false)])
    case Login(input, now) => LoginStep(db, input, now).1
  }

  function Run(es: seq<Event>): Db {
    if es == [] then Init() else Step(Run(es[..|es| - 1]), es[|es| - 1])
  }

  // ---- the invariant of a serial run ----

  ghost predicate UserInv(u: User, cs: Captchas) {
    && |u.failures| == u.failed
    && (u.failed < LOCKOUT_THRESHOLD ==> u.lockedUntil.None?)
    && (u.failed >= LOCKOUT_THRESHOLD ==> u.lockedUntil == Some(u.failures[u.failed - 1].at + LOCKOUT_DURATION))
    && (forall k :: LOCKOUT_THRESHOLD <= k < u.failed ==> u.failures[k].at >= u.failures[k - 1].at + LOCKOUT_DURATION)
    && (forall k :: 0 <= k < u.failed ==>
          if k < CAPTCHA_THRESHOLD then u.failures[k].token.None? else Used(u.failures[k], cs))
    && (forall i, k :: CAPTCHA_THRESHOLD <= i < k < u.failed ==> u.failures[i].token != u.failures[k].token)
  }

  predicate Used(f: Failure, cs: Captchas) {
    f.token.Some? && f.token.value in cs && cs[f.token.value].consumed
  }

  ghost predicate Inv(db: Db) { forall u :: u in db.users ==> UserInv(db.users[u], db.captchas) }

  /** Challenges are never given back. */
  ghost predicate MoreConsumed(cs: Captchas, cs': Captchas) {
    forall t :: t in cs ==> t in cs' && (cs[t].consumed ==> cs'[t].consumed)
  }

  lemma UserStays(u: User, cs: Captchas, cs': Captchas)
    requires UserInv(u, cs) && MoreConsumed(cs, cs')
    ensures UserInv(u, cs')
  {
    forall k | CAPTCHA_THRESHOLD <= k < u.failed ensures Used(u.failures[k], cs') {
      assert Used(u.failures[k], cs);
    }
  }

  lemma FailureKeeps(u: User, cs: Captchas, input: LoginInput, now: int)
    requires UserInv(u, cs) && !u.IsLocked(now) && Gate(u, cs, input, now).0.None?
    ensures UserInv(RecordFailure(u, input, now), Gate(u, cs, input, now).1)
  {
    var u', cs' := RecordFailure(u, input, now), Gate(u, cs, input, now).1;
    assert MoreConsumed(cs, cs');
    UserStays(u, cs, cs');
    forall k | CAPTCHA_THRESHOLD <= k < u'.failed ensures Used(u'.failures[k], cs') {
      if k < u.failed {
        assert Used(u.failures[k], cs');
      }
    }
    forall i | CAPTCHA_THRESHOLD <= i < u.failed ensures u'.failures[i].token != u'.failures[u.failed].token {
      assert Used(u.failures[i], cs);
    }
  }

  lemma {:induction false} StepKeeps(db: Db, e: Event)
    requires Inv(db)
    ensures Inv(Step(db, e))
  {
    var db' := Step(db, e);
    assert MoreConsumed(db.captchas, db'.captchas);
    forall u | u in db'.users ensures UserInv(db'.users[u], db'.captchas) {
      if u in db.users {
        UserStays(db.users[u], db.captchas, db'.captchas);
        if db'.users[u] != db.users[u] && !e.input.passwordOk {
          FailureKeeps(db.users[u], db.captchas, e.input, e.now);
        }
      }
    }
  }

  lemma {:induction false} RunKeeps(es: seq<Event>)
    ensures Inv(Run(es))
  {
    if es != [] {
      RunKeeps(es[..|es| - 1]);
      StepKeeps(Run(es[..|es| - 1]), es[|es| - 1]);
    }
  }

  // ---- main results ----

  /** How many of the failures fall in the window from `a` to `b`. */
  function CountIn(fs: seq<Failure>, a: int, b: int): nat {
    if fs == [] then 0
    else CountIn(fs[..|fs| - 1], a, b) + if a <= fs[|fs| - 1].at <= b then 1 else 0
  }

  function Min(x: int, y: int): int { if x < y then x else y }

  /** So many failures fit in a window of that length. */
  predicate Spaced(n: int, window: int) { n < 5 || (n - 5) * LOCKOUT_DURATION <= window }

  /** Beyond five failures in a window, each further one takes a whole lockout of it. */
  lemma {:induction false} CountFits(fs: seq<Failure>, a: int, b: int)
    requires a <= b && |fs| >= LOCKOUT_THRESHOLD
    requires forall k :: LOCKOUT_THRESHOLD <= k < |fs| ==> fs[k].at >= fs[k - 1].at + LOCKOUT_DURATION
    ensures Spaced(CountIn(fs, a, b), Min(fs[|fs| - 1].at, b) - a)
  {
    var n := |fs| - 1;
    if n == 4 {
      FewCount(fs[..4], a, b);
    } else {
      CountFits(fs[..n], a, b);
      assert fs[..n][n - 1] == fs[n - 1];
    }
  }

  lemma {:induction false} FewCount(fs: seq<Failure>, a: int, b: int)
    ensures CountIn(fs, a, b) <= |fs|
  {
    if fs != [] {
      FewCount(fs[..|fs| - 1], a, b);
    }
  }

  lemma {:induction false} FailuresFit(fs: seq<Failure>, a: int, b: int)
    requires a <= b
    requires forall k :: LOCKOUT_THRESHOLD <= k < |fs| ==> fs[k].at >= fs[k - 1].at + LOCKOUT_DURATION
    ensures Spaced(CountIn(fs, a, b), b - a)
  {
    if |fs| < LOCKOUT_THRESHOLD {
      FewCount(fs, a, b);
    } else {
      CountFits(fs, a, b);
    }
  }

  lemma {:induction false} WindowBound(u: User, cs: Captchas, a: int, b: int)
    requires UserInv(u, cs) && a <= b
    ensures CountIn(u.failures, a, b) <= 5 + (b - a) / LOCKOUT_DURATION
  {
    FailuresFit(u.failures, a, b);
    WholeLockouts(CountIn(u.failures, a, b), b - a);
  }

  lemma WholeLockouts(n: int, window: int)
    requires Spaced(n, window) && window >= 0
    ensures n <= 5 + window / LOCKOUT_DURATION
  {
  }

  /** In every serial run, since a user's last successful login: failure i + 1 comes at least 15
      minutes after failure i from the fifth on, so a window of length W sees at most
      5 + W / 15 min wrong passwords; and failures from the third on each used up a captcha of
      their own. */
  lemma {:induction false} GuessingIsBounded(es: seq<Event>, user: UserId, a: int, b: int)
    requires user in Run(es).users && a <= b
    ensures var u, cs := Run(es).users[user], Run(es).captchas;
            && (forall k :: 5 <= k < |u.failures| ==> u.failures[k].at - u.failures[k - 1].at >= LOCKOUT_DURATION)
            && CountIn(u.failures, a, b) <= 5 + (b - a) / LOCKOUT_DURATION
            && (forall k :: 2 <= k < |u.failures| ==> Used(u.failures[k], cs))
            && (forall i, k :: 2 <= i < k < |u.failures| ==> u.failures[i].token != u.failures[k].token)
  {
    RunKeeps(es);
    assert UserInv(Run(es).users[user], Run(es).captchas);
    WindowBound(Run(es).users[user], Run(es).captchas, a, b);
  }
}
