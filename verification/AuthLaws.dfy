/** What one login of `Auth` decides and changes, written out; and what the credentials are. */
module AuthLaws {
  import opened Options
  import opened Auth

  // ---------- codes ----------

  /** Dropping the spaces of a code: it works piece by piece, removes every space, and leaves a
      code without spaces as it is. */
  lemma {:induction false} SpacesAreDropped(a: string, b: string)
    ensures Normalize(a + b) == Normalize(a) + Normalize(b)
    ensures Normalize(" ") == "" && ' ' !in Normalize(a)
    ensures ' ' !in a ==> Normalize(a) == a
  {
    assert " "[1..] == "";
    if a == "" {
      assert a + b == b;
    } else {
      assert (a + b)[1..] == a[1..] + b && a == [a[0]] + a[1..];
      SpacesAreDropped(a[1..], b);
      assert [] + Normalize(a[1..]) == Normalize(a[1..]);
    }
  }

  /** `h` is the half-minute that this moment lies in. */
  predicate IsHalfMinute(h: int, now: real) {
    30.0 * h as real <= now < 30.0 * (h + 1) as real
  }

  lemma HalfMinuteIs(h: int, now: real)
    requires IsHalfMinute(h, now)
    ensures HalfMinute(now) == h
  {
    assert h as real <= now / 30.0 < (h + 1) as real;
  }

  /** The code is that of the half-minute before this moment's, of its own, or of the next. */
  predicate IsCodeOf(totp: Totp, secret: string, code: string, h: int) {
    code != "" && Some(Normalize(code)) in [totp(secret, h - 1), totp(secret, h), totp(secret, h + 1)]
  }

  lemma WindowIsThreeCodes(totp: Totp, secret: string, code: string, now: real, h: int)
    requires IsHalfMinute(h, now)
    ensures InWindow(totp, secret, code, now) <==> IsCodeOf(totp, secret, code, h)
    ensures Decodable(totp, secret, now) <==>
      totp(secret, h - 1).Some? && totp(secret, h).Some? && totp(secret, h + 1).Some?
  {
    HalfMinuteIs(h, now);
    hide HalfMinute, Normalize;
    var text := Some(Normalize(code));
    if IsCodeOf(totp, secret, code, h) {
      var k := if totp(secret, h - 1) == text then h - 1 else if totp(secret, h) == text then h else h + 1;
      assert totp(secret, k) == text;
    }
    if Decodable(totp, secret, now) {
      assert totp(secret, h - 1).Some? && totp(secret, h).Some? && totp(secret, h + 1).Some?;
    }
  }

  // ---------- one login ----------

  /** The comparisons of a login that are made and come out right. */
  predicate Convinces(totp: Totp, m: State, password: string, code: string, h: int) {
    password == m.password && (m.secret == "" || IsCodeOf(totp, m.secret, code, h))
  }

  /** One of the comparisons raises: that of the passwords, or that of the codes, which is only made
      if there is a secret and the password is right. */
  predicate Trips(m: State, password: string, code: string) {
    !Ascii(password) || !Ascii(m.password) || (password == m.password && m.secret != "" && !Ascii(code))
  }

  /** Every login, case by case, with all that it changes: a session of eight hours for who is let in,
      who also clears the failures if a password was asked for; one more failure for who is
      turned away, and from the fifth on a lock of sixty seconds; nothing otherwise. */
  lemma LoginMeans(totp: Totp, m: State, password: string, code: string, token: string, now: real, later: real, h: int)
    requires IsHalfMinute(h, now) && (m.secret != "" ==> Decodable(totp, m.secret, now))
    ensures var outcome := Judge(totp, m, password, code, now);
      var after := Login(totp, m, password, code, token, now, later);
      if m.lockedUntil != 0.0 && now < m.lockedUntil then outcome == Refused && after == m
      else if m.password == "" then
        outcome == Open && after == m.(sessions := m.sessions[token := later + 28800.0])
      else if Trips(m, password, code) then outcome == Raised && after == m
      else if Convinces(totp, m, password, code, h) then
        outcome == Accepted && after == m.(failures := 0, sessions := m.sessions[token := later + 28800.0])
      else
        && outcome == Rejected
        && after == m.(failures := m.failures + 1,
                       lockedUntil := if m.failures >= 4 then later + 60.0 else m.lockedUntil)
  {
    WindowIsThreeCodes(totp, m.secret, code, now, h);
    if m.secret != "" {
      VerifyMeans(totp, m.secret, code, now);
    }
    hide Verify, Ascii, IsCodeOf, InWindow, Decodable;
  }

  // ---------- credentials ----------

  /** The password last set in a run, and the secret. */
  function LastPassword(first: string, es: seq<Event>): string {
    if es == [] then first
    else match es[|es| - 1]
      case SetPassword(password) => password
      case _ => LastPassword(first, es[..|es| - 1])
  }

  function LastSecret(first: string, es: seq<Event>): string {
    if es == [] then first
    else match es[|es| - 1]
      case SetSecret(secret) => secret
      case _ => LastSecret(first, es[..|es| - 1])
  }

  lemma {:induction false} RunSnoc(totp: Totp, m: State, es: seq<Event>, e: Event)
    ensures Run(totp, m, es + [e]) == Step(totp, Run(totp, m, es), e)
    decreases |es|
  {
    hide Step;
    if es == [] {
      assert es + [e] == [e] && [e][1..] == [];
    } else {
      assert (es + [e])[1..] == es[1..] + [e];
      RunSnoc(totp, Step(totp, m, es[0]), es[1..], e);
    }
  }

  lemma StepKeepsCredentials(totp: Totp, m: State, e: Event)
    ensures Step(totp, m, e).password == if e.SetPassword? then e.password else m.password
    ensures Step(totp, m, e).secret == if e.SetSecret? then e.secret else m.secret
    ensures e.SetPassword? || e.SetSecret? ==> Step(totp, m, e).sessions == map[]
    ensures e.SetPassword? ==> Step(totp, m, e).failures == 0
  {
    hide Judge;
  }

  /** No login and no check changes a credential: they are always the ones last set. */
  lemma {:induction false} CredentialsAreLast(totp: Totp, m: State, es: seq<Event>)
    ensures Run(totp, m, es).password == LastPassword(m.password, es)
    ensures Run(totp, m, es).secret == LastSecret(m.secret, es)
    decreases |es|
  {
    hide Step;
    if es != [] {
      var init, e := es[..|es| - 1], es[|es| - 1];
      CredentialsAreLast(totp, m, init);
      assert es == init + [e];
      RunSnoc(totp, m, init, e);
      StepKeepsCredentials(totp, Run(totp, m, init), e);
    }
  }
}
