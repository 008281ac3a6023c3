/** The trade-subscription manager: which mints the paid trade stream is subscribed to.

    A deque, a lookup set and a timestamp map describe the local subscriptions; the
    frames sent on the current connection describe the remote ones.  Ordinary launches
    and the preferred shadow candidate compete for at most `capacity` slots. */
module TradeStream {
  import opened Options

  datatype Frame = Subscribe(mint: string) | Unsubscribe(mint: string)

  datatype Stream = Stream(mints: seq<string>, lookup: set<string>, at: map<string, real>, active: string,
                           dropped: nat, sent: seq<Frame>)

  const NEW_STREAM := Stream([], {}, map[], "", 0, [])

  function Elements(s: seq<string>): set<string> {
    set x | x in s
  }

  lemma ElementsJoin(a: seq<string>, b: seq<string>)
    ensures Elements(a + b) == Elements(a) + Elements(b)
  {
  }

  /** Python's `list.remove`: the first occurrence. */
  function RemoveFirst(s: seq<string>, x: string): (r: seq<string>)
    requires x in s
    ensures |r| == |s| - 1 && Elements(s) == Elements(r) + {x}
  {
    assert s == [s[0]] + s[1..] && Elements([s[0]]) == {s[0]};
    ElementsJoin([s[0]], s[1..]);
    if s[0] == x then s[1..]
    else
      var rest := RemoveFirst(s[1..], x);
      ElementsJoin([s[0]], rest);
      [s[0]] + rest
  }

  /** The first element other than `x`, or `x` if there is none. */
  function FirstOther(s: seq<string>, x: string): (y: string)
    requires s != []
    ensures y in s && (y == x ==> Elements(s) == {x})
  {
    if s[0] != x || |s| == 1 then s[0]
    else
      assert s == [s[0]] + s[1..];
      FirstOther(s[1..], x)
  }

  // ---------- the moves ----------

  /** Forgets a mint whose deque entry has just been taken out; online, it is unsubscribed. */
  function Forget(s: Stream, mint: string, mints: seq<string>, online: bool): Stream {
    s.(mints := mints, lookup := s.lookup - {mint}, at := s.at - {mint},
       sent := if online then s.sent + [Unsubscribe(mint)] else s.sent)
  }

  function Drop(s: Stream, mint: string, mints: seq<string>, online: bool): Stream {
    Forget(s, mint, mints, online).(dropped := s.dropped + 1)
  }

  function Append(s: Stream, mint: string, now: real, online: bool): Stream {
    s.(mints := s.mints + [mint], lookup := s.lookup + {mint}, at := s.at[mint := now],
       sent := if online then s.sent + [Subscribe(mint)] else s.sent)
  }

  function EvictOldest(s: Stream, capacity: nat, online: bool): Stream
    requires capacity >= 1
    decreases |s.mints|
  {
    if |s.mints| < capacity then s
    else EvictOldest(Drop(s, s.mints[0], s.mints[1..], online), capacity, online)
  }

  function EvictOther(s: Stream, capacity: nat, spared: string): Stream
    requires capacity >= 1
    decreases |s.mints|
  {
    if |s.mints| < capacity then s
    else
      var victim := FirstOther(s.mints, spared);
      EvictOther(Drop(s, victim, RemoveFirst(s.mints, victim), true), capacity, spared)
  }

  predicate CanRotate(s: Stream, capacity: nat, now: real)
    requires s.mints != []
  {
    capacity != 1 || now - (if s.mints[0] in s.at then s.at[s.mints[0]] else 0.0) >= 600.0
  }

  function OnLaunch(s: Stream, capacity: nat, mint: string, now: real): Stream
    requires capacity >= 1
  {
    if mint in s.lookup || (s.mints != [] && !CanRotate(s, capacity, now)) then s
    else Append(EvictOldest(s, capacity, true), mint, now, true)
  }

  /** Taking the active mint out of the deque would raise if it were not there. */
  predicate Removable(s: Stream) {
    s.active != "" && s.active in s.lookup ==> s.active in s.mints
  }

  /** A new preferred mint takes the place of the active one, and of others if need be. */
  function SwitchTo(s: Stream, capacity: nat, preferred: string, now: real): Stream
    requires capacity >= 1 && Removable(s)
  {
    var released := if s.active != "" && s.active in s.lookup
                    then Drop(s, s.active, RemoveFirst(s.mints, s.active), true) else s;
    Append(EvictOther(released, capacity, s.active), preferred, now, true).(active := preferred)
  }

  function Release(s: Stream): Stream
    requires s.active != "" && Removable(s)
  {
    (if s.active in s.lookup then Forget(s, s.active, RemoveFirst(s.mints, s.active), true) else s).(active := "")
  }

  function OnPreference(s: Stream, capacity: nat, preferred: string, now: real): Stream
    requires capacity >= 1 && Removable(s)
  {
    if preferred != "" && preferred != s.active then SwitchTo(s, capacity, preferred, now)
    else if s.active != "" && preferred == "" then Release(s)
    else s
  }

  predicate Idles(s: Stream, candidateOnly: bool, preferred: Option<string>) {
    candidateOnly && s.active == "" && (preferred.None? || preferred.value == "")
  }

  /** The preparation of a connection: the preferred mint, else the oldest subscribed one,
      else the next launch, must be subscribed. */
  function Prepare(s: Stream, capacity: nat, preferred: Option<string>, launch: string, now: real): Stream
    requires capacity >= 1
  {
    var wanted := if preferred.None? then s.active else preferred.value;
    var first := if wanted != "" then wanted else if s.mints != [] then s.mints[0] else launch;
    var t := if wanted != "" then s.(active := wanted) else s;
    if first in s.lookup then t else Append(EvictOldest(t, capacity, false), first, now, false)
  }

  function Announce(mints: seq<string>): seq<Frame> {
    seq(|mints|, i requires 0 <= i < |mints| => Subscribe(mints[i]))
  }

  /** What the remote side is subscribed to after these frames. */
  function Remote(frames: seq<Frame>): set<string> {
    if frames == [] then {}
    else
      var before := Remote(frames[..|frames| - 1]);
      match frames[|frames| - 1]
      case Subscribe(mint) => before + {mint}
      case Unsubscribe(mint) => before - {mint}
  }

  class TradeSubscriptions {
    const capacity: nat
    var mints: seq<string>
    var lookup: set<string>
    var at: map<string, real>
    var active: string
    var dropped: nat
    var sent: seq<Frame>

    function View(): Stream
      reads this
    {
      Stream(mints, lookup, at, active, dropped, sent)
    }

    constructor (capacity: nat)
      ensures View() == NEW_STREAM && this.capacity == capacity
    {
      this.capacity := capacity;
      mints, lookup, at, active, dropped, sent := [], {}, map[], "", 0, [];
    }

    method ForgetMint(mint: string)
      modifies this`lookup, this`at
      ensures lookup == old(lookup) - {mint} && at == old(at) - {mint}
    {
      lookup := lookup - {mint};
      at := at - {mint};
    }

    method AppendMint(mint: string, now: real, online: bool)
      modifies this`mints, this`lookup, this`at, this`sent
      ensures View() == Append(old(View()), mint, now, online)
    {
      if online {
        sent := sent + [Subscribe(mint)];
      }
      mints := mints + [mint];
      lookup := lookup + {mint};
      at := at[mint := now];
    }

    method PopOldest(online: bool)
      requires capacity >= 1
      modifies this`mints, this`lookup, this`at, this`dropped, this`sent
      ensures View() == EvictOldest(old(View()), capacity, online)
    {
      while |mints| >= capacity
        invariant EvictOldest(View(), capacity, online) == EvictOldest(old(View()), capacity, online)
        decreases |mints|
      {
        var oldMint := mints[0];
        mints := mints[1..];
        ForgetMint(oldMint);
        dropped := dropped + 1;
        if online {
          sent := sent + [Unsubscribe(oldMint)];
        }
      }
    }

    method HandleLaunch(mint: string, now: real)
      requires capacity >= 1
      modifies this
      ensures View() == OnLaunch(old(View()), capacity, mint, now)
    {
      if mint !in lookup {
        if mints != [] && !CanRotate(View(), capacity, now) {
          return;
        }
        PopOldest(true);
        AppendMint(mint, now, true);
      }
    }

    method Unsubscribed(mint: string)
      requires mint in mints
      modifies this`mints, this`lookup, this`at, this`sent
      ensures View() == Forget(old(View()), mint, RemoveFirst(old(mints), mint), true)
    {
      mints := RemoveFirst(mints, mint);
      sent := sent + [Unsubscribe(mint)];
      ForgetMint(mint);
    }

    method PopOthers()
      requires capacity >= 1
      modifies this`mints, this`lookup, this`at, this`dropped, this`sent
      ensures View() == EvictOther(old(View()), capacity, active)
    {
      while |mints| >= capacity
        invariant EvictOther(View(), capacity, active) == EvictOther(old(View()), capacity, active)
        decreases |mints|
      {
        Unsubscribed(FirstOther(mints, active));
        dropped := dropped + 1;
      }
    }

    method SwitchPreferred(preferred: string, now: real)
      requires capacity >= 1 && Removable(View())
      modifies this
      ensures View() == SwitchTo(old(View()), capacity, preferred, now)
    {
      if active != "" && active in lookup {
        Unsubscribed(active);
        dropped := dropped + 1;
        assert View() == Drop(old(View()), active, RemoveFirst(old(mints), active), true);
      }
      PopOthers();
      AppendMint(preferred, now, true);
      active := preferred;
    }

    method HandlePreference(preferred: string, now: real)
      requires capacity >= 1 && Removable(View())
      modifies this
      ensures View() == OnPreference(old(View()), capacity, preferred, now)
    {
      if preferred != "" && preferred != active {
        SwitchPreferred(preferred, now);
      } else if active != "" && preferred == "" {
        if active in lookup {
          Unsubscribed(active);
        }
        active := "";
      }
    }

    method PrepareConnection(preferred: Option<string>, launch: string, now: real)
      requires capacity >= 1
      modifies this
      ensures View() == Prepare(old(View()), capacity, preferred, launch, now)
    {
      var wanted := if preferred.None? then active else preferred.value;
      var first;
      if wanted != "" {
        first := wanted;
        active := wanted;
      } else if mints != [] {
        first := mints[0];
      } else {
        first := launch;
      }
      if first !in lookup {
        PopOldest(false);
        AppendMint(first, now, false);
      }
    }

    /** On a new connection every mint of the deque is subscribed again, in order. */
    method Resubscribe()
      modifies this`sent
      ensures View() == old(View()).(sent := Announce(old(mints)))
    {
      sent := [];
      for i := 0 to |mints|
        invariant mints == old(mints) && sent == Announce(mints[..i])
      {
        sent := sent + [Subscribe(mints[i])];
      }
      assert mints[..|mints|] == mints;
    }
  }

  // ---------- runs ----------

  datatype Phase = Phase(s: Stream, online: bool)

  /** `Connect` and `FailToConnect` are one turn of the outer loop, `Launch` and `Poll` the
      two halves of one turn of the inner loop, `Disconnect` the end of a connection.  A
      preference of `None` means that asking for it raised. */
  datatype Event =
    | Connect(preferred: Option<string>, launch: string, now: real)
    | FailToConnect(preferred: Option<string>, launch: string, now: real)
    | Launch(mint: string, now: real)
    | Poll(preferred: Option<string>, now: real)
    | Disconnect

  datatype Config = Config(capacity: nat, candidateOnly: bool)

  /** Launches are listened to only in this mode, and only when they cannot evict the
      active preferred mint. */
  predicate Listens(k: Config, s: Stream) {
    !k.candidateOnly && (|s.mints| < k.capacity || s.active == "")
  }

  predicate Enabled(k: Config, p: Phase, e: Event) {
    match e
    case Connect(preferred, _, _) => !p.online && !Idles(p.s, k.candidateOnly, preferred)
    case FailToConnect(preferred, _, _) => !p.online && !Idles(p.s, k.candidateOnly, preferred)
    case Launch(_, _) => p.online && Listens(k, p.s)
    case Poll(_, _) => p.online && Removable(p.s)
    case Disconnect => p.online
  }

  function Next(k: Config, p: Phase, e: Event): Phase
    requires k.capacity >= 1 && Enabled(k, p, e)
  {
    match e
    case Connect(preferred, launch, now) =>
      var s := Prepare(p.s, k.capacity, preferred, launch, now);
      Phase(s.(sent := Announce(s.mints)), true)
    case FailToConnect(preferred, launch, now) => Phase(Prepare(p.s, k.capacity, preferred, launch, now), false)
    case Launch(mint, now) => p.(s := OnLaunch(p.s, k.capacity, mint, now))
    case Poll(preferred, now) =>
      if preferred.None? then p else p.(s := OnPreference(p.s, k.capacity, preferred.value, now))
    case Disconnect => p.(online := false)
  }

  ghost predicate Runs(k: Config, p: Phase, run: seq<Event>)
    requires k.capacity >= 1
    decreases |run|
  {
    run == [] || (Enabled(k, p, run[0]) && Runs(k, Next(k, p, run[0]), run[1..]))
  }

  ghost function After(k: Config, p: Phase, run: seq<Event>): Phase
    requires k.capacity >= 1 && Runs(k, p, run)
    decreases |run|
  {
    if run == [] then p else After(k, Next(k, p, run[0]), run[1..])
  }

  const STARTED := Phase(NEW_STREAM, false)

  // ---------- what every step keeps, for every capacity ----------

  ghost predicate Local(s: Stream, capacity: nat) {
    && |s.mints| <= capacity
    && s.lookup <= Elements(s.mints)
    && s.at.Keys == s.lookup
    && (s.active != "" ==> s.active in s.lookup)
  }

  /** The remote side has everything the lookup has, and nothing the deque does not have. */
  ghost predicate Mirrored(s: Stream) {
    s.lookup <= Remote(s.sent) <= Elements(s.mints)
  }

  ghost predicate Inv(k: Config, p: Phase) {
    k.capacity >= 1 && Local(p.s, k.capacity) && (p.online ==> Mirrored(p.s))
  }

  /** The parts of the invariant that hold in the middle of an update as well. */
  ghost predicate Tidy(s: Stream, online: bool) {
    s.lookup <= Elements(s.mints) && s.at.Keys == s.lookup && (online ==> Mirrored(s))
  }

  lemma RemoteGrows(frames: seq<Frame>, f: Frame)
    ensures Remote(frames + [f]) ==
      if f.Subscribe? then Remote(frames) + {f.mint} else Remote(frames) - {f.mint}
  {
    assert (frames + [f])[..|frames|] == frames;
  }

  lemma ForgetKeepsTidy(s: Stream, mint: string, mints: seq<string>, online: bool)
    requires Tidy(s, online) && Elements(s.mints) == Elements(mints) + {mint}
    ensures Tidy(Forget(s, mint, mints, online), online)
  {
    RemoteGrows(s.sent, Unsubscribe(mint));
  }

  lemma AppendKeepsTidy(s: Stream, mint: string, now: real, online: bool)
    requires Tidy(s, online)
    ensures Tidy(Append(s, mint, now, online), online)
  {
    RemoteGrows(s.sent, Subscribe(mint));
    ElementsJoin(s.mints, [mint]);
  }

  lemma DropOldest(s: Stream, online: bool)
    requires Tidy(s, online) && s.mints != []
    ensures Tidy(Drop(s, s.mints[0], s.mints[1..], online), online)
  {
    assert s.mints == [s.mints[0]] + s.mints[1..];
    ElementsJoin([s.mints[0]], s.mints[1..]);
    ForgetKeepsTidy(s, s.mints[0], s.mints[1..], online);
  }

  lemma {:induction false} EvictOldestKeepsTidy(s: Stream, capacity: nat, online: bool)
    requires capacity >= 1 && Tidy(s, online)
    ensures var t := EvictOldest(s, capacity, online);
      Tidy(t, online) && |t.mints| < capacity && t.active == s.active
    decreases |s.mints|
  {
    if |s.mints| >= capacity {
      DropOldest(s, online);
      EvictOldestKeepsTidy(Drop(s, s.mints[0], s.mints[1..], online), capacity, online);
    }
  }

  lemma {:induction false} EvictOtherKeepsTidy(s: Stream, capacity: nat, spared: string)
    requires capacity >= 1 && Tidy(s, true)
    ensures var t := EvictOther(s, capacity, spared);
      Tidy(t, true) && |t.mints| < capacity && t.active == s.active
    decreases |s.mints|
  {
    if |s.mints| >= capacity {
      var victim := FirstOther(s.mints, spared);
      ForgetKeepsTidy(s, victim, RemoveFirst(s.mints, victim), true);
      EvictOtherKeepsTidy(Drop(s, victim, RemoveFirst(s.mints, victim), true), capacity, spared);
    }
  }

  /** An ordinary launch only takes a slot from others when no preferred mint is active. */
  lemma LaunchSparesPreferred(k: Config, p: Phase, mint: string, now: real)
    requires Inv(k, p) && Enabled(k, p, Launch(mint, now)) && p.s.active != ""
    ensures var t := Next(k, p, Launch(mint, now)).s;
      t.active == p.s.active && p.s.mints <= t.mints && p.s.lookup <= t.lookup
  {
  }

  lemma LaunchKeepsInv(k: Config, p: Phase, mint: string, now: real)
    requires Inv(k, p) && Enabled(k, p, Launch(mint, now))
    ensures Inv(k, Next(k, p, Launch(mint, now)))
  {
    var s := p.s;
    if p.s.active != "" {
      LaunchSparesPreferred(k, p, mint, now);
    }
    EvictOldestKeepsTidy(s, k.capacity, true);
    AppendKeepsTidy(EvictOldest(s, k.capacity, true), mint, now, true);
  }

  lemma PollKeepsInv(k: Config, p: Phase, preferred: Option<string>, now: real)
    requires Inv(k, p) && Enabled(k, p, Poll(preferred, now))
    ensures Inv(k, Next(k, p, Poll(preferred, now)))
  {
    var s := p.s;
    if preferred.Some? && preferred.value != s.active {
      var released := s;
      if s.active != "" {
        released := Drop(s, s.active, RemoveFirst(s.mints, s.active), true);
        ForgetKeepsTidy(s, s.active, RemoveFirst(s.mints, s.active), true);
      }
      EvictOtherKeepsTidy(released, k.capacity, s.active);
      AppendKeepsTidy(EvictOther(released, k.capacity, s.active), preferred.value, now, true);
    }
  }

  lemma PrepareKeepsLocal(k: Config, s: Stream, preferred: Option<string>, launch: string, now: real)
    requires k.capacity >= 1 && Local(s, k.capacity)
    ensures Local(Prepare(s, k.capacity, preferred, launch, now), k.capacity)
  {
    var wanted := if preferred.None? then s.active else preferred.value;
    var first := if wanted != "" then wanted else if s.mints != [] then s.mints[0] else launch;
    var t := if wanted != "" then s.(active := wanted) else s;
    if first !in s.lookup {
      EvictOldestKeepsTidy(t, k.capacity, false);
      AppendKeepsTidy(EvictOldest(t, k.capacity, false), first, now, false);
      if wanted == "" && s.active != "" {
        OneEvictionIsEnough(t, k.capacity);
      }
    }
  }

  /** A full deque within its capacity loses only its oldest entry. */
  lemma OneEvictionIsEnough(s: Stream, capacity: nat)
    requires capacity >= 1 && |s.mints| <= capacity
    ensures var t := EvictOldest(s, capacity, false);
      t == if |s.mints| < capacity then s else Drop(s, s.mints[0], s.mints[1..], false)
  {
    if |s.mints| == capacity {
      var t := Drop(s, s.mints[0], s.mints[1..], false);
      assert EvictOldest(t, capacity, false) == t;
    }
  }

  lemma {:induction false} AnnounceIsRemote(mints: seq<string>)
    ensures Remote(Announce(mints)) == Elements(mints)
  {
    if mints != [] {
      var init, last := mints[..|mints| - 1], mints[|mints| - 1];
      AnnounceIsRemote(init);
      assert Announce(mints) == Announce(init) + [Subscribe(last)];
      RemoteGrows(Announce(init), Subscribe(last));
      assert mints == init + [last];
      ElementsJoin(init, [last]);
    }
  }

  lemma NextKeepsInv(k: Config, p: Phase, e: Event)
    requires Inv(k, p) && Enabled(k, p, e)
    ensures Inv(k, Next(k, p, e))
  {
    match e
    case Connect(preferred, launch, now) =>
      PrepareKeepsLocal(k, p.s, preferred, launch, now);
      AnnounceIsRemote(Prepare(p.s, k.capacity, preferred, launch, now).mints);
    case FailToConnect(preferred, launch, now) => PrepareKeepsLocal(k, p.s, preferred, launch, now);
    case Launch(mint, now) => LaunchKeepsInv(k, p, mint, now);
    case Poll(preferred, now) => PollKeepsInv(k, p, preferred, now);
    case Disconnect =>
  }

  /** After any run: the deque is within its capacity, the active preferred mint is
      subscribed, the timestamps are those of the lookup, removing the active mint cannot
      raise, and, online, the remote subscriptions lie between the lookup and the deque. */
  lemma {:induction false} StreamInvariant(k: Config, p: Phase, run: seq<Event>)
    requires Inv(k, p) && Runs(k, p, run)
    ensures Inv(k, After(k, p, run)) && Removable(After(k, p, run).s)
    decreases |run|
  {
    if run != [] {
      NextKeepsInv(k, p, run[0]);
      StreamInvariant(k, Next(k, p, run[0]), run[1..]);
    }
  }

  // ---------- agreement ----------

  /** Deque, set, timestamps and remote subscriptions are the same mints, each once. */
  ghost predicate Agrees(p: Phase) {
    && Elements(p.s.mints) == p.s.lookup == p.s.at.Keys
    && |p.s.mints| == |p.s.lookup|
    && (p.online ==> Remote(p.s.sent) == p.s.lookup)
  }

  lemma {:induction false} ElementsAtMost(s: seq<string>)
    ensures |Elements(s)| <= |s|
  {
    if s != [] {
      ElementsAtMost(s[1..]);
      assert s == [s[0]] + s[1..];
      ElementsJoin([s[0]], s[1..]);
      assert Elements([s[0]]) == {s[0]};
    }
  }

  /** Taking out the one entry of a mint. */
  lemma ForgetKeepsAgreement(s: Stream, mint: string, mints: seq<string>, online: bool)
    requires Agrees(Phase(s, online)) && |mints| + 1 == |s.mints| && Elements(s.mints) == Elements(mints) + {mint}
    ensures Agrees(Phase(Forget(s, mint, mints, online), online))
  {
    ElementsAtMost(mints);
    assert mint in Elements(mints) ==> Elements(mints) == s.lookup;
    assert Elements(mints) == s.lookup - {mint};
    RemoteGrows(s.sent, Unsubscribe(mint));
  }

  lemma {:induction false} EvictOldestKeepsAgreement(s: Stream, capacity: nat, online: bool)
    requires capacity >= 1 && Agrees(Phase(s, online))
    ensures var t := EvictOldest(s, capacity, online); Agrees(Phase(t, online)) && t.lookup <= s.lookup
    decreases |s.mints|
  {
    if |s.mints| >= capacity {
      assert s.mints == [s.mints[0]] + s.mints[1..];
      ElementsJoin([s.mints[0]], s.mints[1..]);
      ForgetKeepsAgreement(s, s.mints[0], s.mints[1..], online);
      EvictOldestKeepsAgreement(Drop(s, s.mints[0], s.mints[1..], online), capacity, online);
    }
  }

  lemma {:induction false} EvictOtherKeepsAgreement(s: Stream, capacity: nat, spared: string)
    requires capacity >= 1 && Agrees(Phase(s, true))
    ensures var t := EvictOther(s, capacity, spared); Agrees(Phase(t, true)) && t.lookup <= s.lookup
    decreases |s.mints|
  {
    if |s.mints| >= capacity {
      var victim := FirstOther(s.mints, spared);
      ForgetKeepsAgreement(s, victim, RemoveFirst(s.mints, victim), true);
      EvictOtherKeepsAgreement(Drop(s, victim, RemoveFirst(s.mints, victim), true), capacity, spared);
    }
  }

  lemma AppendNew(s: Stream, mint: string, now: real, online: bool)
    requires Agrees(Phase(s, online)) && mint !in s.lookup
    ensures Agrees(Phase(Append(s, mint, now, online), online))
  {
    RemoteGrows(s.sent, Subscribe(mint));
    ElementsJoin(s.mints, [mint]);
    assert Elements([mint]) == {mint};
  }

  lemma AppendHeld(s: Stream, mint: string, now: real, online: bool)
    requires Agrees(Phase(s, online)) && mint in s.lookup
    ensures !Agrees(Phase(Append(s, mint, now, online), online))
  {
    assert s.lookup + {mint} == s.lookup;
  }

  /** A new entry keeps the agreement exactly if its mint is new. */
  lemma AppendAgreesIff(s: Stream, mint: string, now: real, online: bool)
    requires Agrees(Phase(s, online))
    ensures Agrees(Phase(Append(s, mint, now, online), online)) <==> mint !in s.lookup
  {
    hide Agrees, Append;
    if mint in s.lookup {
      AppendHeld(s, mint, now, online);
    } else {
      AppendNew(s, mint, now, online);
    }
  }

  lemma PrepareKeepsAgreement(k: Config, s: Stream, preferred: Option<string>, launch: string, now: real)
    requires k.capacity >= 1 && Agrees(Phase(s, false))
    ensures Agrees(Phase(Prepare(s, k.capacity, preferred, launch, now), false))
  {
    var wanted := if preferred.None? then s.active else preferred.value;
    var first := if wanted != "" then wanted else if s.mints != [] then s.mints[0] else launch;
    var t := if wanted != "" then s.(active := wanted) else s;
    EvictOldestKeepsAgreement(t, k.capacity, false);
    AppendAgreesIff(EvictOldest(t, k.capacity, false), first, now, false);
  }

  lemma LaunchKeepsAgreement(k: Config, p: Phase, mint: string, now: real)
    requires Inv(k, p) && Agrees(p) && Enabled(k, p, Launch(mint, now))
    ensures Agrees(Next(k, p, Launch(mint, now)))
  {
    EvictOldestKeepsAgreement(p.s, k.capacity, true);
    AppendAgreesIff(EvictOldest(p.s, k.capacity, true), mint, now, true);
  }

  /** The subscriptions after room has been made for a new preferred mint. */
  function RoomMade(s: Stream, capacity: nat): Stream
    requires capacity >= 1 && Removable(s)
  {
    EvictOther(if s.active != "" && s.active in s.lookup
               then Drop(s, s.active, RemoveFirst(s.mints, s.active), true) else s, capacity, s.active)
  }

  /** A switch takes a mint that is still subscribed after room has been made for it. */
  predicate Retakes(k: Config, p: Phase, e: Event)
    requires k.capacity >= 1
  {
    && e.Poll? && Removable(p.s) && e.preferred.Some?
    && e.preferred.value != "" && e.preferred.value != p.s.active
    && e.preferred.value in RoomMade(p.s, k.capacity).lookup
  }

  lemma RoomMadeAgrees(s: Stream, capacity: nat)
    requires capacity >= 1 && Removable(s) && Agrees(Phase(s, true))
    ensures var t := RoomMade(s, capacity); Agrees(Phase(t, true)) && t.lookup <= s.lookup
  {
    var released := s;
    if s.active != "" && s.active in s.lookup {
      released := Drop(s, s.active, RemoveFirst(s.mints, s.active), true);
      ForgetKeepsAgreement(s, s.active, RemoveFirst(s.mints, s.active), true);
    }
    EvictOtherKeepsAgreement(released, capacity, s.active);
  }

  lemma PollAgreesIff(k: Config, p: Phase, preferred: Option<string>, now: real)
    requires Inv(k, p) && Agrees(p) && Enabled(k, p, Poll(preferred, now))
    ensures Agrees(Next(k, p, Poll(preferred, now))) <==> !Retakes(k, p, Poll(preferred, now))
  {
    var s := p.s;
    if preferred.Some? && preferred.value != s.active {
      if preferred.value != "" {
        RoomMadeAgrees(s, k.capacity);
        AppendAgreesIff(RoomMade(s, k.capacity), preferred.value, now, true);
      } else {
        ForgetKeepsAgreement(s, s.active, RemoveFirst(s.mints, s.active), true);
      }
    }
  }

  lemma ConnectKeepsAgreement(k: Config, p: Phase, e: Event)
    requires Inv(k, p) && Agrees(p) && Enabled(k, p, e) && (e.Connect? || e.FailToConnect?)
    ensures Agrees(Next(k, p, e))
  {
    PrepareKeepsAgreement(k, p.s, e.preferred, e.launch, e.now);
    AnnounceIsRemote(Prepare(p.s, k.capacity, e.preferred, e.launch, e.now).mints);
  }

  /** For any number of slots, one event keeps the agreement exactly unless it retakes a mint. */
  lemma NextAgreesIff(k: Config, p: Phase, e: Event)
    requires Inv(k, p) && Agrees(p) && Enabled(k, p, e)
    ensures Agrees(Next(k, p, e)) <==> !Retakes(k, p, e)
  {
    match e
    case Connect(_, _, _) => ConnectKeepsAgreement(k, p, e);
    case FailToConnect(_, _, _) => ConnectKeepsAgreement(k, p, e);
    case Launch(mint, now) => LaunchKeepsAgreement(k, p, mint, now);
    case Poll(preferred, now) => PollAgreesIff(k, p, preferred, now);
    case Disconnect =>
  }

  ghost predicate AgreesAlong(k: Config, p: Phase, run: seq<Event>)
    requires k.capacity >= 1 && Runs(k, p, run)
    decreases |run|
  {
    Agrees(p) && (run != [] ==> AgreesAlong(k, Next(k, p, run[0]), run[1..]))
  }

  ghost predicate NeverRetakes(k: Config, p: Phase, run: seq<Event>)
    requires k.capacity >= 1 && Runs(k, p, run)
    decreases |run|
  {
    run != [] ==> !Retakes(k, p, run[0]) && NeverRetakes(k, Next(k, p, run[0]), run[1..])
  }

  /** For any number of slots, the four records agree all along a run exactly when no switch of
      the run takes a mint that is still subscribed. */
  lemma {:induction false} AgreementAlongRuns(k: Config, p: Phase, run: seq<Event>)
    requires Inv(k, p) && Runs(k, p, run) && Agrees(p)
    ensures AgreesAlong(k, p, run) <==> NeverRetakes(k, p, run)
    decreases |run|
  {
    hide Agrees, Next, Inv, Retakes, Enabled;
    if run != [] {
      NextKeepsInv(k, p, run[0]);
      NextAgreesIff(k, p, run[0]);
      if !Retakes(k, p, run[0]) {
        AgreementAlongRuns(k, Next(k, p, run[0]), run[1..]);
      }
    }
  }

  // ---------- one slot ----------

  /** In a single slot there is nothing left to retake. */
  lemma SlotKeepsAgreement(k: Config, p: Phase, e: Event)
    requires k.capacity == 1 && Inv(k, p) && Agrees(p) && Enabled(k, p, e)
    ensures Agrees(Next(k, p, e))
  {
    NextAgreesIff(k, p, e);
    if e.Poll? {
      SlotIsEmptied(p.s);
    }
  }

  lemma SlotIsEmptied(s: Stream)
    requires Removable(s) && Agrees(Phase(s, true))
    ensures RoomMade(s, 1).lookup == {}
  {
    RoomMadeAgrees(s, 1);
    EvictedBelow(if s.active != "" && s.active in s.lookup
                 then Drop(s, s.active, RemoveFirst(s.mints, s.active), true) else s, 1, s.active);
  }

  lemma {:induction false} EvictedBelow(s: Stream, capacity: nat, spared: string)
    requires capacity >= 1
    ensures |EvictOther(s, capacity, spared).mints| < capacity
    decreases |s.mints|
  {
    if |s.mints| >= capacity {
      var victim := FirstOther(s.mints, spared);
      EvictedBelow(Drop(s, victim, RemoveFirst(s.mints, victim), true), capacity, spared);
    }
  }

  lemma {:induction false} SlotAgreement(k: Config, p: Phase, run: seq<Event>)
    requires k.capacity == 1 && Inv(k, p) && Agrees(p) && Runs(k, p, run)
    ensures Agrees(After(k, p, run))
    decreases |run|
  {
    if run != [] {
      NextKeepsInv(k, p, run[0]);
      SlotKeepsAgreement(k, p, run[0]);
      SlotAgreement(k, Next(k, p, run[0]), run[1..]);
    }
  }

  /** With two slots or more, a run of ordinary events subscribes one mint twice: a
      preferred mint that the deque already holds is appended again. */
  function DoubleRun(candidateOnly: bool): seq<Event> {
    if candidateOnly then
      [Connect(Some("a"), "", 0.0), Disconnect, Connect(Some("b"), "", 0.0), Poll(Some("a"), 0.0)]
    else
      [Connect(Some(""), "a", 0.0), Poll(Some("a"), 0.0)]
  }

  lemma AfterOne(k: Config, p: Phase, e: Event, run: seq<Event>)
    requires k.capacity >= 1 && Enabled(k, p, e) && Runs(k, Next(k, p, e), run)
    ensures Runs(k, p, [e] + run) && After(k, p, [e] + run) == After(k, Next(k, p, e), run)
  {
    assert ([e] + run)[1..] == run;
  }

  /** The step that doubles a mint: it becomes preferred while the deque still holds it. */
  lemma PreferredTwice(k: Config, s: Stream, mint: string)
    requires k.capacity >= 2 && mint != "" && s.active != mint
    requires if s.active == "" then s.mints == [mint] else s.mints == [mint, s.active]
    requires s.lookup == Elements(s.mints)
    ensures Removable(s)
    ensures var p := Next(k, Phase(s, true), Poll(Some(mint), 0.0)); p.s.mints == [mint, mint] && !Agrees(p)
  {
    var t := Next(k, Phase(s, true), Poll(Some(mint), 0.0)).s;
    if s.active != "" {
      assert RemoveFirst([s.active], s.active) == [];
      assert RemoveFirst(s.mints, s.active) == [mint];
    }
    assert t.mints == [mint, mint] && t.lookup == {mint};
  }

  const FIRST_CANDIDATE := Connect(Some("a"), "", 0.0)
  const SECOND_CANDIDATE := Connect(Some("b"), "", 0.0)

  lemma FirstConnected(k: Config)
    requires k.capacity >= 2 && k.candidateOnly
    ensures Enabled(k, STARTED, FIRST_CANDIDATE)
    ensures Next(k, STARTED, FIRST_CANDIDATE) ==
      Phase(Stream(["a"], {"a"}, map["a" := 0.0], "a", 0, Announce(["a"])), true)
  {
  }

  lemma SecondConnected(k: Config, p: Phase)
    requires k.capacity >= 2 && !p.online && p.s.mints == ["a"] && p.s.lookup == {"a"} && p.s.active == "a"
    ensures Enabled(k, p, SECOND_CANDIDATE)
    ensures var q := Next(k, p, SECOND_CANDIDATE);
      q.online && q.s.mints == ["a", "b"] && q.s.lookup == {"a", "b"} && q.s.active == "b"
  {
  }

  lemma FourSteps(k: Config, p: Phase, a: Event, b: Event, c: Event, d: Event)
    requires k.capacity >= 1 && Enabled(k, p, a) && Enabled(k, Next(k, p, a), b)
    requires Enabled(k, Next(k, Next(k, p, a), b), c) && Enabled(k, Next(k, Next(k, Next(k, p, a), b), c), d)
    ensures Runs(k, p, [a, b, c, d])
    ensures After(k, p, [a, b, c, d]) == Next(k, Next(k, Next(k, Next(k, p, a), b), c), d)
  {
    hide *;
    var p1 := Next(k, p, a);
    var p2 := Next(k, p1, b);
    var p3 := Next(k, p2, c);
    assert [a] + [b, c, d] == [a, b, c, d] && [b] + [c, d] == [b, c, d] && [c] + [d] == [c, d] && [d] + [] == [d];
    EmptyRun(k, Next(k, p3, d));
    AfterOne(k, p3, d, []);
    AfterOne(k, p2, c, [d]);
    AfterOne(k, p1, b, [c, d]);
    AfterOne(k, p, a, [b, c, d]);
  }

  lemma Disconnected(k: Config, p: Phase)
    requires k.capacity >= 1 && p.online
    ensures Enabled(k, p, Disconnect) && Next(k, p, Disconnect) == Phase(p.s, false)
  {
  }

  lemma CanPoll(k: Config, p: Phase, preferred: Option<string>)
    requires p.online && Removable(p.s)
    ensures Enabled(k, p, Poll(preferred, 0.0))
  {
  }

  lemma DoubledCandidate(k: Config)
    requires k.capacity >= 2 && k.candidateOnly
    ensures Runs(k, STARTED, DoubleRun(true))
    ensures var p := After(k, STARTED, DoubleRun(true)); p.s.mints == ["a", "a"] && !Agrees(p)
  {
    hide Next, Enabled, Agrees, Runs, After, Removable, Announce;
    FirstConnected(k);
    var p1 := Next(k, STARTED, FIRST_CANDIDATE);
    Disconnected(k, p1);
    var p2 := Next(k, p1, Disconnect);
    SecondConnected(k, p2);
    var p3 := Next(k, p2, SECOND_CANDIDATE);
    PreferredTwice(k, p3.s, "a");
    CanPoll(k, p3, Some("a"));
    FourSteps(k, STARTED, FIRST_CANDIDATE, Disconnect, SECOND_CANDIDATE, Poll(Some("a"), 0.0));
  }

  lemma EmptyRun(k: Config, p: Phase)
    requires k.capacity >= 1
    ensures Runs(k, p, []) && After(k, p, []) == p
  {
  }

  lemma DoubledLaunch(k: Config)
    requires k.capacity >= 2 && !k.candidateOnly
    ensures Runs(k, STARTED, DoubleRun(false))
    ensures var p := After(k, STARTED, DoubleRun(false)); p.s.mints == ["a", "a"] && !Agrees(p)
  {
    var e1, e2 := Connect(Some(""), "a", 0.0), Poll(Some("a"), 0.0);
    var p1 := Next(k, STARTED, e1);
    assert p1.s.mints == ["a"] && p1.s.lookup == {"a"} && p1.s.active == "" && p1.online;
    PreferredTwice(k, p1.s, "a");
    AfterOne(k, p1, e2, []);
    AfterOne(k, STARTED, e1, [e2]);
    assert [e1] + ([e2] + []) == DoubleRun(false);
  }

  /** The four records of the subscriptions agree after every run exactly when there is a
      single slot, in both modes. */
  lemma AgreementIffOneSlot(k: Config)
    requires k.capacity >= 1
    ensures (forall run :: Runs(k, STARTED, run) ==> Agrees(After(k, STARTED, run))) <==> k.capacity == 1
  {
    if k.capacity == 1 {
      forall run | Runs(k, STARTED, run)
        ensures Agrees(After(k, STARTED, run))
      {
        SlotAgreement(k, STARTED, run);
      }
    } else if k.candidateOnly {
      DoubledCandidate(k);
    } else {
      DoubledLaunch(k);
    }
  }

  /** The single slot in candidate-only mode holds the active preferred mint or nothing. */
  ghost predicate SlotIsCandidate(s: Stream) {
    s.mints == if s.active == "" then [] else [s.active]
  }

  lemma SlotStaysCandidate(k: Config, p: Phase, e: Event)
    requires k == Config(1, true) && Inv(k, p) && Agrees(p) && SlotIsCandidate(p.s) && Enabled(k, p, e)
    ensures SlotIsCandidate(Next(k, p, e).s)
  {
    var s := p.s;
    if e.Connect? || e.FailToConnect? {
      var wanted := if e.preferred.None? then s.active else e.preferred.value;
      EvictOldestKeepsTidy(if wanted != "" then s.(active := wanted) else s, 1, false);
    } else if e.Poll? && e.preferred.Some? && e.preferred.value != s.active {
      var released := s;
      if s.active != "" {
        released := Drop(s, s.active, RemoveFirst(s.mints, s.active), true);
        ForgetKeepsTidy(s, s.active, RemoveFirst(s.mints, s.active), true);
      }
      EvictOtherKeepsTidy(released, 1, s.active);
    }
  }

  lemma {:induction false} CandidateOnlySlot(k: Config, p: Phase, run: seq<Event>)
    requires k == Config(1, true) && Inv(k, p) && Agrees(p) && SlotIsCandidate(p.s) && Runs(k, p, run)
    ensures SlotIsCandidate(After(k, p, run).s)
    decreases |run|
  {
    if run != [] {
      NextKeepsInv(k, p, run[0]);
      SlotKeepsAgreement(k, p, run[0]);
      SlotStaysCandidate(k, p, run[0]);
      CandidateOnlySlot(k, Next(k, p, run[0]), run[1..]);
    }
  }

  /** In the single slot an ordinary launch replaces another only after ten minutes. */
  lemma SlotRotatesSlowly(k: Config, run: seq<Event>, mint: string, now: real)
    requires k.capacity == 1 && Runs(k, STARTED, run) && Enabled(k, After(k, STARTED, run), Launch(mint, now))
    ensures var s := After(k, STARTED, run).s;
      var t := Next(k, After(k, STARTED, run), Launch(mint, now)).s;
      && |s.mints| <= 1 && (forall m :: m in s.mints ==> m in s.at)
      && (t.mints != s.mints && s.mints != [] ==> t.mints == [mint] && now - s.at[s.mints[0]] >= 600.0)
  {
    StreamInvariant(k, STARTED, run);
    SlotAgreement(k, STARTED, run);
    var s := After(k, STARTED, run).s;
    assert forall m :: m in s.mints ==> m in Elements(s.mints);
    EvictOldestKeepsTidy(s, 1, true);
  }

  // ---------- the queue in front ----------

  /** Mints waiting to be subscribed: bounded, and full queues lose their oldest entry. */
  class SubscriptionQueue {
    const maxSize: nat
    var pending: seq<string>
    var dropped: nat
    ghost var offered: seq<string>
    ghost var taken: nat

    /** What is pending is the end of what was ever offered; the rest was taken or dropped. */
    ghost predicate Valid()
      reads this
    {
      && 1 <= maxSize && |pending| <= maxSize
      && |offered| == taken + dropped + |pending|
      && pending == offered[taken + dropped..]
    }

    constructor (capacity: nat)
      requires capacity >= 1
      ensures Valid() && maxSize == capacity * 4 && pending == offered == [] && taken == dropped == 0
    {
      maxSize := capacity * 4;
      pending, dropped := [], 0;
      offered, taken := [], 0;
    }

    method Offer(mint: string)
      requires Valid()
      modifies this
      ensures Valid() && offered == old(offered) + [mint] && taken == old(taken)
      ensures dropped == old(dropped) + if |old(pending)| == maxSize then 1 else 0
    {
      if |pending| == maxSize {
        pending := pending[1..];
        dropped := dropped + 1;
      }
      pending := pending + [mint];
      offered := offered + [mint];
    }

    method Take() returns (mint: string)
      requires Valid() && pending != []
      modifies this
      ensures Valid() && offered == old(offered) && taken == old(taken) + 1 && dropped == old(dropped)
      ensures mint == offered[old(taken) + dropped]
    {
      mint := pending[0];
      pending := pending[1..];
      taken := taken + 1;
    }
  }
}
