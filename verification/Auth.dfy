/** The login manager: the lockout after repeated failures, and sessions that expire.

    Every clock reading is a parameter. A login reads the clock for the lock and the codes, and
    once more when it records a failure or issues a session.  Comparing a password or a code
    raises when either side is not ASCII; such a login has no effect at all. */
module Auth {
  import opened Options

  const LIMIT := 5
  const LOCKOUT := 60.0
  const TTL := 28800.0

  /** The code of a secret for a half-minute; a secret that cannot be decoded has none. */
  type Totp = (string, int) -> Option<string>

  predicate Ascii(s: string) {
    forall i :: 0 <= i < |s| ==> (s[i] as int) < 128
  }

  // ---------- codes ----------

  datatype CodeVerdict = Match | Mismatch | Raises

  function Normalize(code: string): string {
    if code == "" then "" else (if code[0] == ' ' then "" else [code[0]]) + Normalize(code[1..])
  }

  /** Tries `n` half-minutes from `first` on. */
  function TryCodes(totp: Totp, secret: string, text: string, first: int, n: nat): CodeVerdict
    decreases n
  {
    if n == 0 then Mismatch
    else if totp(secret, first).None? || !Ascii(text) then Raises
    else if totp(secret, first).value == text then Match
    else TryCodes(totp, secret, text, first + 1, n - 1)
  }

  function HalfMinute(now: real): int {
    (now / 30.0).Floor
  }

  function Verify(totp: Totp, secret: string, code: string, now: real): CodeVerdict {
    if code == "" then Mismatch else TryCodes(totp, secret, Normalize(code), HalfMinute(now) - 1, 3)
  }

  /** The loop over the previous, the current and the next half-minute. */
  method VerifyCode(totp: Totp, secret: string, code: string, now: real) returns (v: CodeVerdict)
    ensures v == Verify(totp, secret, code, now)
  {
    if code == "" {
      return Mismatch;
    }
    var text := Normalize(code);
    for offset := -1 to 2
      invariant TryCodes(totp, secret, text, HalfMinute(now) + offset, 2 - offset) ==
                TryCodes(totp, secret, text, HalfMinute(now) - 1, 3)
    {
      var expected := totp(secret, HalfMinute(now) + offset);
      if expected.None? || !Ascii(text) {
        return Raises;
      }
      if expected.value == text {
        return Match;
      }
    }
    return Mismatch;
  }

  /** The code is that of the current half-minute or of a neighbour, spaces aside. */
  predicate InWindow(totp: Totp, secret: string, code: string, now: real) {
    && code != ""
    && exists k :: HalfMinute(now) - 1 <= k <= HalfMinute(now) + 1 && totp(secret, k) == Some(Normalize(code))
  }

  predicate Decodable(totp: Totp, secret: string, now: real) {
    forall k :: HalfMinute(now) - 1 <= k <= HalfMinute(now) + 1 ==> totp(secret, k).Some?
  }

  lemma {:induction false} NormalizeKeepsAscii(code: string)
    ensures Ascii(Normalize(code)) <==> Ascii(code)
  {
    if code != "" {
      NormalizeKeepsAscii(code[1..]);
      AsciiCons(code);
      if code[0] == ' ' {
        assert Normalize(code) == Normalize(code[1..]);
      } else {
        AsciiCons([code[0]] + Normalize(code[1..]));
        assert ([code[0]] + Normalize(code[1..]))[1..] == Normalize(code[1..]);
      }
    }
  }

  lemma AsciiCons(s: string)
    requires s != ""
    ensures Ascii(s) <==> (s[0] as int) < 128 && Ascii(s[1..])
  {
    assert s == [s[0]] + s[1..];
  }

  /** With a secret that can be decoded, a code matches exactly when it is ASCII and that of
      one of the three half-minutes, and checking it raises exactly when it is not ASCII. */
  lemma VerifyMeans(totp: Totp, secret: string, code: string, now: real)
    requires Decodable(totp, secret, now)
    ensures Verify(totp, secret, code, now).Match? <==> Ascii(code) && InWindow(totp, secret, code, now)
    ensures Verify(totp, secret, code, now).Raises? <==> !Ascii(code)
  {
    hide Ascii, HalfMinute;
    NormalizeKeepsAscii(code);
    var first, text := HalfMinute(now) - 1, Normalize(code);
    assert TryCodes(totp, secret, text, first + 3, 0) == Mismatch;
    if code == "" {
      EmptyIsAscii();
    }
  }

  lemma EmptyIsAscii()
    ensures Ascii("")
  {
  }

  datatype State = State(
    password: string, secret: string, sessions: map<string, real>, failures: nat, lockedUntil: real)

  predicate Enabled(m: State) {
    m.password != ""
  }

  predicate Locked(m: State, now: real) {
    m.lockedUntil != 0.0 && now < m.lockedUntil
  }

  /** What a login attempt amounts to: refused unevaluated while locked, open when no
      password is set, raised by a comparison, or evaluated. */
  datatype Outcome = Refused | Open | Raised | Accepted | Rejected

  function Judge(totp: Totp, m: State, password: string, code: string, now: real): Outcome {
    if Locked(m, now) then Refused
    else if !Enabled(m) then Open
    else if !Ascii(password) || !Ascii(m.password) then Raised
    else if password != m.password then Rejected
    else if m.secret == "" then Accepted
    else
      match Verify(totp, m.secret, code, now)
      case Match => Accepted
      case Mismatch => Rejected
      case Raises => Raised
  }

  function Issue(m: State, token: string, later: real): State {
    m.(sessions := m.sessions[token := later + TTL])
  }

  function Failure(m: State, later: real): State {
    m.(failures := m.failures + 1, lockedUntil := if m.failures + 1 >= LIMIT then later + LOCKOUT else m.lockedUntil)
  }

  function Login(totp: Totp, m: State, password: string, code: string, token: string, now: real, later: real): State {
    match Judge(totp, m, password, code, now)
    case Refused => m
    case Raised => m
    case Open => Issue(m, token, later)
    case Accepted => Issue(m.(failures := 0), token, later)
    case Rejected => Failure(m, later)
  }

  /** Whether a token is valid; an expired session is forgotten on the way. */
  function Validate(m: State, token: string, now: real): (State, bool) {
    if !Enabled(m) then (m, true)
    else if token == "" || token !in m.sessions then (m, false)
    else if m.sessions[token] < now then (m.(sessions := m.sessions - {token}), false)
    else (m, true)
  }

  class AuthManager {
    const totp: Totp
    var password: string
    var secret: string
    var sessions: map<string, real>
    var failures: nat
    var lockedUntil: real

    ghost function View(): State
      reads this
    {
      State(password, secret, sessions, failures, lockedUntil)
    }

    constructor (totp: Totp, password: string, secret: string)
      ensures this.totp == totp && View() == State(password, secret, map[], 0, 0.0)
    {
      this.totp, this.password, this.secret := totp, password, secret;
      sessions, failures, lockedUntil := map[], 0, 0.0;
    }

    method TryLogin(password: string, code: string, token: string, now: real, later: real)
      returns (outcome: Outcome, issued: Option<string>)
      modifies this`sessions, this`failures, this`lockedUntil
      ensures outcome == Judge(totp, old(View()), password, code, now)
      ensures View() == Login(totp, old(View()), password, code, token, now, later)
      ensures issued == if outcome in {Open, Accepted} then Some(token) else None
    {
      if lockedUntil != 0.0 && now < lockedUntil {
        return Refused, None;
      }
      if this.password == "" {
        IssueSession(token, later);
        return Open, Some(token);
      }
      if !Ascii(password) || !Ascii(this.password) {
        return Raised, None;
      }
      if password != this.password {
        RecordFailure(later);
        return Rejected, None;
      }
      if secret != "" {
        var verdict := VerifyCode(totp, secret, code, now);
        if verdict == Raises {
          return Raised, None;
        }
        if verdict == Mismatch {
          RecordFailure(later);
          return Rejected, None;
        }
      }
      failures := 0;
      IssueSession(token, later);
      return Accepted, Some(token);
    }

    method IssueSession(token: string, now: real)
      modifies this`sessions
      ensures View() == Issue(old(View()), token, now)
    {
      sessions := sessions[token := now + TTL];
    }

    method RecordFailure(now: real)
      modifies this`failures, this`lockedUntil
      ensures View() == Failure(old(View()), now)
    {
      failures := failures + 1;
      if failures >= LIMIT {
        lockedUntil := now + LOCKOUT;
      }
    }

    method IsValid(token: string, now: real) returns (ok: bool)
      modifies this`sessions
      ensures (View(), ok) == Validate(old(View()), token, now)
    {
      if password == "" {
        return true;
      }
      if token == "" || token !in sessions {
        return false;
      }
      if sessions[token] < now {
        sessions := sessions - {token};
        return false;
      }
      return true;
    }

    method SetPassword(password: string)
      modifies this`password, this`sessions, this`failures
      ensures View() == old(View()).(password := password, sessions := map[], failures := 0)
    {
      this.password := password;
      sessions := map[];
      failures := 0;
    }

    method SetSecret(secret: string)
      modifies this`secret, this`sessions
      ensures View() == old(View()).(secret := secret, sessions := map[])
    {
      this.secret := secret;
      sessions := map[];
    }

    method DisableSecret()
      modifies this`secret, this`sessions
      ensures View() == old(View()).(secret := "", sessions := map[])
    {
      secret := "";
      sessions := map[];
    }
  }

  // ---------- runs ----------

  datatype Event =
    | TryLogin(password: string, code: string, token: string, now: real, later: real)
    | IsValid(token: string, now: real)
    | SetPassword(password: string)
    | SetSecret(secret: string)

  function Step(totp: Totp, m: State, e: Event): State {
    match e
    case TryLogin(password, code, token, now, later) => Login(totp, m, password, code, token, now, later)
    case IsValid(token, now) => Validate(m, token, now).0
    case SetPassword(password) => m.(password := password, sessions := map[], failures := 0)
    case SetSecret(secret) => m.(secret := secret, sessions := map[])
  }

  function Run(totp: Totp, m: State, es: seq<Event>): State
    decreases |es|
  {
    if es == [] then m else Run(totp, Step(totp, m, es[0]), es[1..])
  }

  /** The clock after an event that starts no earlier than `clock`. */
  function After(clock: real, e: Event): real {
    match e
    case TryLogin(_, _, _, _, later) => later
    case IsValid(_, now) => now
    case _ => clock
  }

  /** Clock readings are non-negative and never go back. */
  predicate Timely(clock: real, es: seq<Event>)
    decreases |es|
  {
    && 0.0 <= clock
    && (es != [] ==>
          && (match es[0]
              case TryLogin(_, _, _, now, later) => clock <= now <= later
              case IsValid(_, now) => clock <= now
              case _ => true)
          && Timely(After(clock, es[0]), es[1..]))
  }

  // ---------- the lockout rate ----------

  predicate Rejects(totp: Totp, m: State, e: Event) {
    e.TryLogin? && Judge(totp, m, e.password, e.code, e.now).Rejected?
  }

  /** The times at which credentials were evaluated and rejected. */
  function Failures(totp: Totp, m: State, es: seq<Event>): seq<real>
    decreases |es|
  {
    if es == [] then []
    else (if Rejects(totp, m, es[0]) then [es[0].now] else []) + Failures(totp, Step(totp, m, es[0]), es[1..])
  }

  /** No login succeeds on its credentials and no password is set. */
  predicate Unbroken(totp: Totp, m: State, es: seq<Event>)
    decreases |es|
  {
    es != [] ==>
      && !es[0].SetPassword?
      && (es[0].TryLogin? ==> !Judge(totp, m, es[0].password, es[0].code, es[0].now).Accepted?)
      && Unbroken(totp, Step(totp, m, es[0]), es[1..])
  }

  /** No attempt is evaluated before the lock expires, nor before the clock. */
  lemma {:induction false} FirstFailure(totp: Totp, m: State, es: seq<Event>, clock: real)
    requires Timely(clock, es) && Unbroken(totp, m, es)
    requires Failures(totp, m, es) != []
    ensures Failures(totp, m, es)[0] >= clock
    ensures m.lockedUntil != 0.0 ==> Failures(totp, m, es)[0] >= m.lockedUntil
    decreases |es|
  {
    if !Rejects(totp, m, es[0]) {
      FirstFailure(totp, Step(totp, m, es[0]), es[1..], After(clock, es[0]));
    }
  }

  /** Rejections are in time order, and from the fifth on they are a lockout apart. */
  lemma {:induction false} FailuresAreSpaced(totp: Totp, m: State, es: seq<Event>, clock: real, i: nat)
    requires Timely(clock, es) && Unbroken(totp, m, es)
    requires i + 1 < |Failures(totp, m, es)|
    ensures Failures(totp, m, es)[i] <= Failures(totp, m, es)[i + 1]
    ensures m.failures + i + 1 >= LIMIT ==> Failures(totp, m, es)[i] + LOCKOUT <= Failures(totp, m, es)[i + 1]
    decreases |es|
  {
    var next := Step(totp, m, es[0]);
    if !Rejects(totp, m, es[0]) {
      FailuresAreSpaced(totp, next, es[1..], After(clock, es[0]), i);
    } else if i == 0 {
      FirstFailure(totp, next, es[1..], After(clock, es[0]));
    } else {
      FailuresAreSpaced(totp, next, es[1..], After(clock, es[0]), i - 1);
    }
  }

  /** The rejections allowed before the first lockout. */
  function Grace(failures: nat): nat {
    if failures + 1 >= LIMIT then 1 else LIMIT - failures
  }

  lemma {:induction false} FailuresTakeTime(totp: Totp, m: State, es: seq<Event>, clock: real, n: nat)
    requires Timely(clock, es) && Unbroken(totp, m, es)
    requires 0 < n <= |Failures(totp, m, es)|
    ensures Failures(totp, m, es)[n - 1] - Failures(totp, m, es)[0] >= 0.0
    ensures Failures(totp, m, es)[n - 1] - Failures(totp, m, es)[0] >= (n - Grace(m.failures)) as real * LOCKOUT
  {
    if n > 1 {
      FailuresTakeTime(totp, m, es, clock, n - 1);
      FailuresAreSpaced(totp, m, es, clock, n - 2);
    }
  }

  /** From any state whatever, without a successful login or a password change in between,
      at most five plus T / 60 credential checks are evaluated and rejected in any T seconds. */
  lemma LockoutRate(totp: Totp, m: State, es: seq<Event>, clock: real)
    requires Timely(clock, es) && Unbroken(totp, m, es)
    ensures var ts := Failures(totp, m, es);
      ts != [] ==>
        && ts[|ts| - 1] >= ts[0]
        && |ts| <= Grace(m.failures) + ((ts[|ts| - 1] - ts[0]) / LOCKOUT).Floor
        && Grace(m.failures) <= 5
  {
    var ts := Failures(totp, m, es);
    if ts != [] {
      FailuresTakeTime(totp, m, es, clock, |ts|);
      var spent := (ts[|ts| - 1] - ts[0]) / LOCKOUT;
      assert spent >= (|ts| - Grace(m.failures)) as real;
    }
  }

  /** A wrong password now, and one as each of `k` lockouts ends. */
  function Attack(password: string, k: nat, now: real): seq<Event>
    decreases k
  {
    [TryLogin(password, "", "", now, now)] + if k == 0 then [] else Attack(password, k - 1, now + LOCKOUT)
  }

  lemma {:induction false} AttackIsSpaced(totp: Totp, m: State, password: string, k: nat, now: real)
    requires Enabled(m) && password != m.password && Ascii(password) && Ascii(m.password) && now >= 0.0
    requires m.failures + 1 >= LIMIT && m.lockedUntil <= now
    ensures var es := Attack(password, k, now);
      Timely(now, es) && Unbroken(totp, m, es) && |Failures(totp, m, es)| == k + 1
      && Failures(totp, m, es)[0] == now && Failures(totp, m, es)[k] == now + k as real * LOCKOUT
    decreases k
  {
    var es := Attack(password, k, now);
    var next := Step(totp, m, es[0]);
    if k > 0 {
      assert es[1..] == Attack(password, k - 1, now + LOCKOUT);
      AttackIsSpaced(totp, next, password, k - 1, now + LOCKOUT);
      TimelyEarlier(now, now + LOCKOUT, es[1..]);
    } else {
      assert es[1..] == [];
    }
  }

  lemma TimelyEarlier(clock: real, later: real, es: seq<Event>)
    requires 0.0 <= clock <= later && Timely(later, es)
    ensures Timely(clock, es)
    decreases |es|
  {
    if es != [] && (es[0].SetPassword? || es[0].SetSecret?) {
      TimelyEarlier(clock, later, es[1..]);
    }
  }

  /** A run from `now` with exactly `n` rejections, the last of them at `end`. */
  ghost predicate Reaches(totp: Totp, m: State, es: seq<Event>, n: nat, now: real, end: real) {
    var ts := Failures(totp, m, es);
    Timely(now, es) && Unbroken(totp, m, es) && 0 < n == |ts| && ts[0] == now && ts[n - 1] == end
  }

  lemma ReachesMore(totp: Totp, m: State, e: Event, es: seq<Event>, n: nat, now: real, end: real)
    requires e.TryLogin? && e.now == e.later == now && Rejects(totp, m, e)
    requires Reaches(totp, Step(totp, m, e), es, n, now, end)
    ensures Reaches(totp, m, [e] + es, n + 1, now, end)
  {
    assert ([e] + es)[1..] == es;
  }

  /** Wrong passwords at once until the lockout starts, then one as each lockout ends. */
  function FullAttack(failures: nat, password: string, k: nat, now: real): seq<Event>
    decreases LIMIT - failures
  {
    if failures + 1 >= LIMIT then Attack(password, k, now)
    else [TryLogin(password, "", "", now, now)] + FullAttack(failures + 1, password, k, now)
  }

  /** The rate is exact: from every enabled state that is not locked and whose password is
      ASCII, wrong ASCII passwords reach the bound over every whole number of lockouts. */
  lemma {:induction false} RateIsReached(totp: Totp, m: State, password: string, k: nat, now: real)
    requires Enabled(m) && password != m.password && Ascii(password) && Ascii(m.password)
    requires now >= 0.0 && m.lockedUntil <= now
    ensures var end := now + k as real * LOCKOUT;
      Reaches(totp, m, FullAttack(m.failures, password, k, now), Grace(m.failures) + k, now, end)
    decreases LIMIT - m.failures
  {
    if m.failures + 1 >= LIMIT {
      AttackIsSpaced(totp, m, password, k, now);
    } else {
      var e := TryLogin(password, "", "", now, now);
      var next := Step(totp, m, e);
      RateIsReached(totp, next, password, k, now);
      var rest := FullAttack(next.failures, password, k, now);
      ReachesMore(totp, m, e, rest, Grace(next.failures) + k, now, now + k as real * LOCKOUT);
    }
  }

  // ---------- what every run keeps ----------

  /** The sessions a manager that never forgets an expired one would hold. */
  function Issued(totp: Totp, m: State, issued: map<string, real>, e: Event): map<string, real> {
    match e
    case TryLogin(password, code, token, now, later) =>
      if Judge(totp, m, password, code, now) in {Open, Accepted} then issued[token := later + TTL] else issued
    case IsValid(_, _) => issued
    case SetPassword(_) => map[]
    case SetSecret(_) => map[]
  }

  function AllIssued(totp: Totp, m: State, issued: map<string, real>, es: seq<Event>): map<string, real>
    decreases |es|
  {
    if es == [] then issued
    else AllIssued(totp, Step(totp, m, es[0]), Issued(totp, m, issued, es[0]), es[1..])
  }

  function Clock(clock: real, es: seq<Event>): real
    decreases |es|
  {
    if es == [] then clock else Clock(After(clock, es[0]), es[1..])
  }

  /** The lock ends within a lockout of the clock, and the sessions forgotten have expired. */
  ghost predicate Inv(m: State, issued: map<string, real>, clock: real) {
    && m.lockedUntil <= clock + LOCKOUT
    && (forall t :: t in m.sessions ==> t in issued && issued[t] == m.sessions[t])
    && (forall t :: t in issued && issued[t] >= clock ==> t in m.sessions)
  }

  lemma StepKeepsInv(totp: Totp, m: State, issued: map<string, real>, clock: real, e: Event)
    requires Inv(m, issued, clock) && Timely(clock, [e])
    ensures Inv(Step(totp, m, e), Issued(totp, m, issued, e), After(clock, e)) && After(clock, e) >= clock
  {
  }

  lemma {:induction false} RunKeepsInv(totp: Totp, m: State, issued: map<string, real>, clock: real, es: seq<Event>)
    requires Inv(m, issued, clock) && Timely(clock, es)
    ensures Inv(Run(totp, m, es), AllIssued(totp, m, issued, es), Clock(clock, es)) && Clock(clock, es) >= clock
    decreases |es|
  {
    if es != [] {
      StepKeepsInv(totp, m, issued, clock, es[0]);
      RunKeepsInv(totp, Step(totp, m, es[0]), Issued(totp, m, issued, es[0]), After(clock, es[0]), es[1..]);
    }
  }

  /** Forgetting expired sessions is invisible: after any run, a token is valid exactly when
      no password is set, or a login issued it for a time that has not passed and neither
      the password nor the code secret has been changed since. */
  lemma ValidMeansIssued(totp: Totp, password: string, secret: string, es: seq<Event>, token: string, now: real)
    requires Timely(0.0, es) && now >= Clock(0.0, es)
    ensures var start := State(password, secret, map[], 0, 0.0);
      var m, issued := Run(totp, start, es), AllIssued(totp, start, map[], es);
      Validate(m, token, now).1 <==> !Enabled(m) || (token != "" && token in issued && now <= issued[token])
  {
    RunKeepsInv(totp, State(password, secret, map[], 0, 0.0), map[], 0.0, es);
  }

  /** A lockout is never permanent, but a password may be unusable: whatever was tried before,
      a lockout after the last clock reading the set password, with a code of these
      half-minutes if one is asked for, is accepted if and only if both are ASCII. */
  lemma LockoutEnds(totp: Totp, password: string, secret: string, es: seq<Event>, code: string, now: real)
    requires Timely(0.0, es) && now >= Clock(0.0, es) + LOCKOUT
    ensures var m := Run(totp, State(password, secret, map[], 0, 0.0), es);
      Enabled(m)
      && (m.secret != "" ==> Decodable(totp, m.secret, now) && InWindow(totp, m.secret, code, now)) ==>
        (Judge(totp, m, m.password, code, now).Accepted? <==> Ascii(m.password) && (m.secret != "" ==> Ascii(code)))
  {
    var start := State(password, secret, map[], 0, 0.0);
    var m := Run(totp, start, es);
    RunKeepsInv(totp, start, map[], 0.0, es);
    if m.secret != "" && Decodable(totp, m.secret, now) {
      VerifyMeans(totp, m.secret, code, now);
    }
  }

  // ---------- passwords that nobody can use ----------

  predicate Unusable(m: State) {
    Enabled(m) && !Ascii(m.password)
  }

  /** Under a password that is not ASCII every login is refused or raises, so that none is
      accepted, no failure is counted and no lockout starts, until the password is set anew. */
  lemma {:induction false} UnusableStays(totp: Totp, m: State, es: seq<Event>)
    requires Unusable(m) && forall e :: e in es ==> !e.SetPassword?
    ensures var n := Run(totp, m, es);
      && n.password == m.password && n.failures == m.failures && n.lockedUntil == m.lockedUntil
      && Failures(totp, m, es) == []
      && forall given, code, now :: Judge(totp, n, given, code, now) in {Refused, Raised}
    decreases |es|
  {
    hide Ascii, Verify;
    if es != [] {
      UnusableStays(totp, Step(totp, m, es[0]), es[1..]);
    }
  }

  const UMLAUT_PASSWORD := "p\U{e4}ssword"

  /** The settings accept such a password; from then on nobody can log in. */
  lemma UmlautLocksOut(totp: Totp, m: State, es: seq<Event>, given: string, code: string, now: real)
    requires forall e :: e in es ==> !e.SetPassword?
    ensures |UMLAUT_PASSWORD| >= 8
    ensures var n := Run(totp, Step(totp, m, SetPassword(UMLAUT_PASSWORD)), es);
      !Judge(totp, n, given, code, now).Accepted? && n.failures == 0
  {
    var changed := Step(totp, m, SetPassword(UMLAUT_PASSWORD));
    assert changed.password[1] as int == 0xe4;
    UnusableStays(totp, changed, es);
    assert Judge(totp, Run(totp, changed, es), given, code, now) in {Refused, Raised};
  }
}
