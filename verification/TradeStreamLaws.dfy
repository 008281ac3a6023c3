/** What one event does to the subscriptions of `TradeStream`, written out on the deque, the
    lookup set, the timestamps and the frames sent. */
module TradeStreamLaws {
  import opened Options
  import opened TradeStream

  function Unsubscriptions(mints: seq<string>): seq<Frame> {
    seq(|mints|, i requires 0 <= i < |mints| => Unsubscribe(mints[i]))
  }

  /** The oldest `cut` mints are dropped, and it takes no fewer to make room for one more. */
  predicate MakesRoom(mints: seq<string>, capacity: nat, cut: nat) {
    && cut <= |mints|
    && |mints| - cut + 1 <= capacity
    && (cut > 0 ==> |mints| - cut + 2 > capacity)
  }

  /** The stream without its oldest `cut` mints. */
  function Without(s: Stream, cut: nat, frames: seq<Frame>): Stream
    requires cut <= |s.mints|
  {
    var gone := Elements(s.mints[..cut]);
    Stream(s.mints[cut..], s.lookup - gone, s.at - gone, s.active, s.dropped + cut, s.sent + frames)
  }

  /** Dropping the oldest and then `cut` more is dropping one more than `cut`. */
  lemma DropOneMore(s: Stream, cut: nat, online: bool)
    requires cut < |s.mints|
    ensures var t := Drop(s, s.mints[0], s.mints[1..], online);
      Without(t, cut, if online then Unsubscriptions(t.mints[..cut]) else [])
      == Without(s, cut + 1, if online then Unsubscriptions(s.mints[..cut + 1]) else [])
  {
    var oldest, more := s.mints[0], s.mints[1..][..cut];
    assert s.mints[..cut + 1] == [oldest] + more;
    ElementsJoin([oldest], more);
    assert Elements([oldest]) == {oldest};
    assert Unsubscriptions([oldest] + more) == [Unsubscribe(oldest)] + Unsubscriptions(more);
    assert s.at - {oldest} - Elements(more) == s.at - ({oldest} + Elements(more));
    assert s.lookup - {oldest} - Elements(more) == s.lookup - ({oldest} + Elements(more));
    assert s.sent + [Unsubscribe(oldest)] + Unsubscriptions(more)
        == s.sent + ([Unsubscribe(oldest)] + Unsubscriptions(more));
  }

  lemma {:induction false} EvictionCuts(s: Stream, capacity: nat, online: bool) returns (cut: nat)
    requires capacity >= 1
    ensures MakesRoom(s.mints, capacity, cut)
    ensures EvictOldest(s, capacity, online) == Without(s, cut, if online then Unsubscriptions(s.mints[..cut]) else [])
    decreases |s.mints|
  {
    if |s.mints| < capacity {
      cut := 0;
      assert s.sent + [] == s.sent;
    } else {
      var rest := EvictionCuts(Drop(s, s.mints[0], s.mints[1..], online), capacity, online);
      hide Without, Unsubscriptions;
      DropOneMore(s, rest, online);
      cut := rest + 1;
    }
  }

  /** The oldest subscription may go: there is none, or more than one slot, or it is ten
      minutes old. */
  predicate OldestMayGo(s: Stream, capacity: nat, now: real) {
    || |s.mints| == 0
    || capacity >= 2
    || (s.mints[0] in s.at && now >= s.at[s.mints[0]] + 600.0)
    || (s.mints[0] !in s.at && now >= 600.0)
  }

  /** Launches are heard on a connection, unless only candidates are wanted, and while there is room or
      no active mint.  A launch that is heard and not subscribed is subscribed, after unsubscribing
      just as many of the oldest mints as it takes, oldest first, exactly when the oldest may go. */
  lemma LaunchIsSubscribed(k: Config, p: Phase, mint: string, now: real) returns (cut: nat)
    requires k.capacity >= 1
    ensures MakesRoom(p.s.mints, k.capacity, cut)
    ensures Enabled(k, p, Launch(mint, now)) <==>
      p.online && !k.candidateOnly && (|p.s.mints| < k.capacity || p.s.active == "")
    ensures Enabled(k, p, Launch(mint, now)) ==>
      var (s, after) := (p.s, Next(k, p, Launch(mint, now)));
      && after.online
      && (if mint in s.lookup || !OldestMayGo(s, k.capacity, now) then after.s == s
          else
            var (t, gone) := (after.s, s.mints[..cut]);
            && t.mints == s.mints[cut..] + [mint]
            && t.lookup == s.lookup - Elements(gone) + {mint}
            && t.at == (s.at - Elements(gone))[mint := now]
            && t.active == s.active
            && t.dropped == s.dropped + cut
            && t.sent == s.sent + Unsubscriptions(gone) + [Subscribe(mint)])
  {
    cut := EvictionCuts(p.s, k.capacity, true);
  }

  /** The first place of a mint in the deque. */
  predicate FirstAt(mints: seq<string>, x: string, i: nat) {
    i < |mints| && mints[i] == x && forall j :: 0 <= j < i ==> mints[j] != x
  }

  lemma RemovedLater(mints: seq<string>, i: nat)
    requires 1 <= i < |mints|
    ensures [mints[0]] + (mints[1..][..i - 1] + mints[1..][i..]) == mints[..i] + mints[i + 1..]
  {
  }

  lemma {:induction false} RemovedAt(mints: seq<string>, x: string, i: nat)
    requires FirstAt(mints, x, i)
    ensures x in mints && RemoveFirst(mints, x) == mints[..i] + mints[i + 1..]
  {
    hide Elements;
    if i == 0 {
      assert mints[..0] + mints[1..] == mints[1..];
    } else {
      assert FirstAt(mints[1..], x, i - 1);
      RemovedAt(mints[1..], x, i - 1);
      RemovedLater(mints, i);
    }
  }

  lemma RemovalPlace(mints: seq<string>, x: string) returns (i: nat)
    requires x in mints
    ensures FirstAt(mints, x, i) && RemoveFirst(mints, x) == mints[..i] + mints[i + 1..]
  {
    i := 0;
    while mints[i] != x
      invariant i < |mints| && (forall j :: 0 <= j < i ==> mints[j] != x)
      decreases |mints| - i
    {
      i := i + 1;
    }
    RemovedAt(mints, x, i);
  }

  /** The place of the mint that has to go: the first that has a name, else the very first. */
  predicate Victim(mints: seq<string>, i: nat) {
    && i < |mints|
    && (forall j :: 0 <= j < i ==> mints[j] == "")
    && (mints[i] == "" ==> i == 0 && forall j :: 0 <= j < |mints| ==> mints[j] == "")
  }

  lemma {:induction false} VictimPlace(mints: seq<string>) returns (i: nat)
    requires mints != []
    ensures Victim(mints, i) && FirstAt(mints, FirstOther(mints, ""), i)
  {
    if mints[0] != "" || |mints| == 1 {
      i := 0;
    } else {
      var rest := VictimPlace(mints[1..]);
      i := if mints[1..][rest] == "" then 0 else rest + 1;
      assert forall j :: 1 <= j <= i ==> mints[j] == mints[1..][j - 1];
    }
  }

  /** The stream without the mint at place `i` and with `preferred` as its newest, active mint. */
  predicate Replaces(s: Stream, t: Stream, i: nat, preferred: string, now: real)
    requires i < |s.mints|
  {
    var gone := s.mints[i];
    && t.mints == s.mints[..i] + s.mints[i + 1..] + [preferred]
    && t.lookup == s.lookup - {gone} + {preferred}
    && t.at == (s.at - {gone})[preferred := now]
    && t.dropped == s.dropped + 1
    && t.sent == s.sent + [Unsubscribe(gone), Subscribe(preferred)]
  }

  lemma EvictsOne(s: Stream, capacity: nat, spared: string) returns (i: nat)
    requires capacity >= 1 && |s.mints| == capacity && spared == ""
    ensures Victim(s.mints, i) && FirstAt(s.mints, s.mints[i], i)
    ensures EvictOther(s, capacity, spared) == Drop(s, s.mints[i], s.mints[..i] + s.mints[i + 1..], true)
  {
    i := VictimPlace(s.mints);
    var place := RemovalPlace(s.mints, s.mints[i]);
  }

  lemma ActiveGoes(s: Stream, capacity: nat, preferred: string, now: real) returns (i: nat)
    requires capacity >= 1 && Local(s, capacity) && s.active != ""
    ensures FirstAt(s.mints, s.active, i) && Replaces(s, SwitchTo(s, capacity, preferred, now), i, preferred, now)
  {
    i := RemovalPlace(s.mints, s.active);
    assert s.sent + [Unsubscribe(s.active)] + [Subscribe(preferred)]
        == s.sent + [Unsubscribe(s.active), Subscribe(preferred)];
  }

  lemma OldestNamedGoes(s: Stream, capacity: nat, preferred: string, now: real) returns (i: nat)
    requires capacity >= 1 && |s.mints| == capacity && s.active == ""
    ensures Victim(s.mints, i) && Replaces(s, SwitchTo(s, capacity, preferred, now), i, preferred, now)
  {
    i := EvictsOne(s, capacity, s.active);
    assert s.sent + [Unsubscribe(s.mints[i])] + [Subscribe(preferred)]
        == s.sent + [Unsubscribe(s.mints[i]), Subscribe(preferred)];
  }

  /** Another preferred mint takes the place of the active one; without an active one it is
      added, in place of the oldest named mint if the deque is full. */
  lemma PreferredIsSwitchedTo(k: Config, p: Phase, preferred: string, now: real) returns (i: nat)
    requires Inv(k, p) && Enabled(k, p, Poll(Some(preferred), now)) && preferred != "" && preferred != p.s.active
    ensures var (s, after) := (p.s, Next(k, p, Poll(Some(preferred), now)));
      && after.online && after.s.active == preferred
      && (if s.active != "" then
            FirstAt(s.mints, s.active, i) && Replaces(s, after.s, i, preferred, now)
          else if |s.mints| == k.capacity then
            Victim(s.mints, i) && Replaces(s, after.s, i, preferred, now)
          else
            && after.s.mints == s.mints + [preferred]
            && after.s.lookup == s.lookup + {preferred}
            && after.s.at == s.at[preferred := now]
            && after.s.dropped == s.dropped
            && after.s.sent == s.sent + [Subscribe(preferred)])
  {
    hide Victim, FirstAt, Replaces, RemoveFirst;
    i := 0;
    if p.s.active != "" {
      i := ActiveGoes(p.s, k.capacity, preferred, now);
    } else if |p.s.mints| == k.capacity {
      i := OldestNamedGoes(p.s, k.capacity, preferred, now);
    }
  }

  /** When nothing is preferred any more the active mint is unsubscribed, and not counted as
      dropped; every other answer to the poll changes nothing. */
  lemma PreferenceIsReleased(k: Config, p: Phase, preferred: Option<string>, now: real) returns (i: nat)
    requires Inv(k, p) && Enabled(k, p, Poll(preferred, now))
    requires preferred.None? || preferred.value == "" || preferred.value == p.s.active
    ensures var (s, after) := (p.s, Next(k, p, Poll(preferred, now)));
      && after.online
      && (if preferred == Some("") && s.active != "" then
            var t := after.s;
            && FirstAt(s.mints, s.active, i)
            && t.mints == s.mints[..i] + s.mints[i + 1..]
            && t.lookup == s.lookup - {s.active}
            && t.at == s.at - {s.active}
            && t.active == "" && t.dropped == s.dropped
            && t.sent == s.sent + [Unsubscribe(s.active)]
          else after.s == s)
  {
    i := 0;
    if preferred == Some("") && p.s.active != "" {
      i := RemovalPlace(p.s.mints, p.s.active);
    }
  }

  /** The mint that a connection is prepared for: the preferred one, which is the active one when
      asking has failed; else the oldest of the deque; else the launch that is waited for. */
  predicate ConnectsFor(s: Stream, preferred: Option<string>, launch: string, first: string) {
    && (preferred.Some? && preferred.value != "" ==> first == preferred.value)
    && (preferred.None? && s.active != "" ==> first == s.active)
    && (preferred == Some("") || (preferred.None? && s.active == "") ==>
          if s.mints == [] then first == launch else first == s.mints[0])
  }

  /** A connection is tried whenever there is none, except when only candidates are wanted and no mint
      is preferred or active.  Before it that mint is put into the deque if it is not subscribed, in
      place of just as many of the oldest as it takes; once connected, the whole deque is announced
      in order, and otherwise nothing is sent. */
  lemma ConnectionIsPrepared(k: Config, p: Phase, e: Event, first: string) returns (cut: nat)
    requires k.capacity >= 1 && (e.Connect? || e.FailToConnect?) && ConnectsFor(p.s, e.preferred, e.launch, first)
    ensures MakesRoom(p.s.mints, k.capacity, cut)
    ensures Enabled(k, p, e) <==>
      !p.online && (k.candidateOnly && p.s.active == "" ==> e.preferred.Some? && e.preferred.value != "")
    ensures Enabled(k, p, e) ==>
      var (s, t) := (p.s, Next(k, p, e).s);
      && Next(k, p, e).online == e.Connect?
      && t.active == (if e.preferred.Some? && e.preferred.value != "" then e.preferred.value else s.active)
      && (if first in s.lookup then
            t.mints == s.mints && t.lookup == s.lookup && t.at == s.at && t.dropped == s.dropped
          else
            var gone := Elements(s.mints[..cut]);
            && t.mints == s.mints[cut..] + [first]
            && t.lookup == s.lookup - gone + {first}
            && t.at == (s.at - gone)[first := e.now]
            && t.dropped == s.dropped + cut)
      && (e.FailToConnect? ==> t.sent == s.sent)
      && (e.Connect? ==> |t.sent| == |t.mints| && forall i :: 0 <= i < |t.mints| ==> t.sent[i] == Subscribe(t.mints[i]))
  {
    var t := if e.preferred.Some? && e.preferred.value != "" then p.s.(active := e.preferred.value) else p.s;
    cut := EvictionCuts(t, k.capacity, false);
  }
}
