/**
 * The rate-limited notification fan-out of notifications/notifier.go: each
 * event goes to every enabled channel subscribed to its type, unless the
 * same (channel, event type) key was sent successfully less than the rate
 * limit ago; a key's time is recorded only after a successful send.
 */
module Notifications {
  import opened Wrappers
  import BirdOutput

  type EventType = string

  const EventSwitch: EventType := "switch"
  const EventUnhealthy: EventType := "unhealthy"
  const EventRecovery: EventType := "recovery"
  const EventFailback: EventType := "failback"
  const EventStartup: EventType := "startup"
  const EventShutdown: EventType := "shutdown"

  /** What the notifier sees of a channel: its name, whether it is enabled, and its subscriptions. */
  datatype Channel = Channel(name: string, enabled: bool, events: seq<EventType>)

  /** A channel's ShouldNotify: the event type is among its subscriptions. */
  predicate ShouldNotify(c: Channel, t: EventType)
  {
    t in c.events
  }

  /** The rate-limit key "<channel name>:<event type>". */
  function Key(name: string, t: EventType): string
  {
    name + ":" + t
  }

  /** Two channel names give the same key for one event type only when they are equal. */
  lemma KeySameType(a: string, b: string, t: EventType)
    ensures Key(a, t) == Key(b, t) ==> a == b
  {
    if Key(a, t) == Key(b, t) {
      assert |a| == |b|;
      assert a == Key(a, t)[..|a|];
      assert b == Key(b, t)[..|b|];
    }
  }

  /**
   * With channel names free of ':', the key determines both the channel
   * and the event type, so the limiter is keyed per (channel, event type).
   */
  lemma KeyInjective(a: string, s: EventType, b: string, t: EventType)
    requires ':' !in a && ':' !in b
    ensures Key(a, s) == Key(b, t) ==> a == b && s == t
  {
    BirdOutput.SplitAtFirst(a, ':', s);
    BirdOutput.SplitAtFirst(b, ':', t);
    assert Key(a, s) == a + [':'] + s;
    assert Key(b, t) == b + [':'] + t;
  }

  /** The window test: a key sent successfully less than rateLimitMins minutes ago is held back. */
  predicate RateLimited(lastSent: map<string, int>, key: string, now: int, rateLimitMins: int)
  {
    key in lastSent && now - lastSent[key] < rateLimitMins * 60
  }

  /** Whether Notify calls the channel's Send for this event. */
  predicate Attempted(c: Channel, t: EventType, lastSent: map<string, int>, now: int, rateLimitMins: int)
  {
    c.enabled && ShouldNotify(c, t) && !RateLimited(lastSent, Key(c.name, t), now, rateLimitMins)
  }

  /** One round of Notify's loop: the key's time is set to now only after a successful send. */
  function Step(lastSent: map<string, int>, c: Channel, ok: bool, t: EventType, now: int, rateLimitMins: int): (r: map<string, int>)
    ensures Attempted(c, t, lastSent, now, rateLimitMins) && ok ==> r == lastSent[Key(c.name, t) := now]
    ensures !(Attempted(c, t, lastSent, now, rateLimitMins) && ok) ==> r == lastSent
  {
    if Attempted(c, t, lastSent, now, rateLimitMins) && ok then lastSent[Key(c.name, t) := now] else lastSent
  }

  /** lastSent after Notify has visited the given channels in order, ok[i] being channel i's Send result. */
  function After(lastSent: map<string, int>, cs: seq<Channel>, ok: seq<bool>, t: EventType, now: int, rateLimitMins: int): map<string, int>
    requires |ok| == |cs|
    decreases |cs|
  {
    if cs == [] then lastSent
    else
      var n := |cs| - 1;
      Step(After(lastSent, cs[..n], ok[..n], t, now, rateLimitMins), cs[n], ok[n], t, now, rateLimitMins)
  }

  /** One more round of the fold. */
  lemma AfterStep(lastSent: map<string, int>, cs: seq<Channel>, ok: seq<bool>,
                  t: EventType, now: int, rateLimitMins: int, i: nat)
    requires |ok| == |cs| && i < |cs|
    ensures After(lastSent, cs[..i + 1], ok[..i + 1], t, now, rateLimitMins) ==
            Step(After(lastSent, cs[..i], ok[..i], t, now, rateLimitMins), cs[i], ok[i], t, now, rateLimitMins)
  {
    assert cs[..i + 1][..i] == cs[..i] && ok[..i + 1][..i] == ok[..i];
  }

  /** A map lookup as an Option, so that "present and equal" is one comparison. */
  function Lookup(m: map<string, int>, k: string): Option<int>
  {
    if k in m then Some(m[k]) else None
  }

  /** Channel c with Send result ok cannot write key k this round. */
  predicate CannotWrite(c: Channel, ok: bool, t: EventType, k: string)
  {
    Key(c.name, t) != k || !c.enabled || !ShouldNotify(c, t) || !ok
  }

  /**
   * Between rounds lo and m, no channel that could write key k does so, so
   * the entry for k (present or absent) is what it was before round lo.
   * This covers disabled and unsubscribed channels, failed sends and the
   * keys of other channels.
   */
  lemma {:induction false} KeyKept(lastSent: map<string, int>, cs: seq<Channel>, ok: seq<bool>,
                                   t: EventType, now: int, rateLimitMins: int, lo: nat, m: nat, k: string)
    requires |ok| == |cs| && lo <= m <= |cs|
    requires forall j :: lo <= j < m ==> CannotWrite(cs[j], ok[j], t, k)
    ensures Lookup(After(lastSent, cs[..m], ok[..m], t, now, rateLimitMins), k) ==
            Lookup(After(lastSent, cs[..lo], ok[..lo], t, now, rateLimitMins), k)
    decreases m - lo
  {
    if m > lo {
      KeyKept(lastSent, cs, ok, t, now, rateLimitMins, lo, m - 1, k);
      assert cs[..m][..m - 1] == cs[..m - 1];
      assert ok[..m][..m - 1] == ok[..m - 1];
      assert cs[..m][m - 1] == cs[m - 1] && ok[..m][m - 1] == ok[m - 1];
    }
  }

  /**
   * No side effects beyond the keys written: a key that no enabled,
   * subscribed and successful channel of this event owns keeps its entry.
   */
  lemma OnlyOwnKeysWritten(lastSent: map<string, int>, cs: seq<Channel>, ok: seq<bool>,
                           t: EventType, now: int, rateLimitMins: int, k: string)
    requires |ok| == |cs|
    requires forall j :: 0 <= j < |cs| ==> CannotWrite(cs[j], ok[j], t, k)
    ensures Lookup(After(lastSent, cs, ok, t, now, rateLimitMins), k) == Lookup(lastSent, k)
  {
    KeyKept(lastSent, cs, ok, t, now, rateLimitMins, 0, |cs|, k);
    assert cs[..|cs|] == cs && ok[..|ok|] == ok;
  }

  /** Every entry Notify changes or adds is stamped with this call's time. */
  lemma {:induction false} WrittenEntriesAreNow(lastSent: map<string, int>, cs: seq<Channel>, ok: seq<bool>,
                                                t: EventType, now: int, rateLimitMins: int, k: string)
    requires |ok| == |cs|
    ensures Lookup(After(lastSent, cs, ok, t, now, rateLimitMins), k) == Lookup(lastSent, k) ||
            Lookup(After(lastSent, cs, ok, t, now, rateLimitMins), k) == Some(now)
    decreases |cs|
  {
    if cs != [] {
      var n := |cs| - 1;
      WrittenEntriesAreNow(lastSent, cs[..n], ok[..n], t, now, rateLimitMins, k);
    }
  }

  /** No channel name occurs twice. */
  predicate DistinctChannelNames(cs: seq<Channel>)
  {
    forall i, j :: 0 <= i < j < |cs| ==> cs[i].name != cs[j].name
  }

  /**
   * With distinct channel names, each channel's outcome depends only on the
   * lastSent map Notify started from: an enabled, subscribed channel whose
   * key is new or older than the window is attempted, and its key is
   * stamped now exactly when its send succeeded; otherwise its entry is
   * unchanged.
   */
  lemma ChannelOutcome(lastSent: map<string, int>, cs: seq<Channel>, ok: seq<bool>,
                       t: EventType, now: int, rateLimitMins: int, i: nat)
    requires |ok| == |cs| && i < |cs| && DistinctChannelNames(cs)
    ensures var k := Key(cs[i].name, t);
      var r := After(lastSent, cs, ok, t, now, rateLimitMins);
      && (Attempted(cs[i], t, lastSent, now, rateLimitMins) && ok[i] ==> Lookup(r, k) == Some(now))
      && (!(Attempted(cs[i], t, lastSent, now, rateLimitMins) && ok[i]) ==> Lookup(r, k) == Lookup(lastSent, k))
  {
    var k := Key(cs[i].name, t);
    forall j | 0 <= j < |cs| && j != i
      ensures CannotWrite(cs[j], ok[j], t, k)
    {
      KeySameType(cs[j].name, cs[i].name, t);
    }
    KeyKept(lastSent, cs, ok, t, now, rateLimitMins, 0, i, k);
    KeyKept(lastSent, cs, ok, t, now, rateLimitMins, i + 1, |cs|, k);
    assert cs[..0] == [] && ok[..0] == [];
    assert cs[..|cs|] == cs && ok[..|ok|] == ok;
    var before := After(lastSent, cs[..i], ok[..i], t, now, rateLimitMins);
    assert cs[..i + 1][..i] == cs[..i] && ok[..i + 1][..i] == ok[..i];
    assert Lookup(before, k) == Lookup(lastSent, k);
    assert Attempted(cs[i], t, before, now, rateLimitMins) == Attempted(cs[i], t, lastSent, now, rateLimitMins);
  }

  /** The first event of a type on an enabled, subscribed channel is always attempted: there is no entry yet. */
  lemma FirstEventAttempted(c: Channel, t: EventType, lastSent: map<string, int>, now: int, rateLimitMins: int)
    requires c.enabled && ShouldNotify(c, t) && Key(c.name, t) !in lastSent
    ensures Attempted(c, t, lastSent, now, rateLimitMins)
  {
  }

  /**
   * A failed send leaves the map as it was, so a later event for that key
   * is attempted again even inside the window of an earlier failure.
   */
  lemma FailedSendRetried(c: Channel, t: EventType, lastSent: map<string, int>, now: int, later: int, rateLimitMins: int)
    requires Attempted(c, t, lastSent, now, rateLimitMins) && later >= now
    ensures Step(lastSent, c, false, t, now, rateLimitMins) == lastSent
    ensures Attempted(c, t, Step(lastSent, c, false, t, now, rateLimitMins), later, rateLimitMins)
  {
  }

  /** After a successful send, the same key is held back for rateLimitMins minutes and no longer. */
  lemma SuccessOpensWindow(c: Channel, t: EventType, lastSent: map<string, int>, now: int, later: int, rateLimitMins: int)
    requires Attempted(c, t, lastSent, now, rateLimitMins)
    ensures var next := Step(lastSent, c, true, t, now, rateLimitMins);
      Attempted(c, t, next, later, rateLimitMins) <==> later - now >= rateLimitMins * 60
  {
  }

  /** The bookkeeping of one round of Fanout: the prefix fold and the attempts grow by one. */
  lemma FanoutStep(lastSent: map<string, int>, cs: seq<Channel>, ok: seq<bool>, t: EventType, now: int, rateLimitMins: int,
                   i: nat, attempted: seq<bool>, send: bool)
    requires |ok| == |cs| && i < |cs| && |attempted| == i
    requires forall j :: 0 <= j < i ==>
      attempted[j] == Attempted(cs[j], t, After(lastSent, cs[..j], ok[..j], t, now, rateLimitMins), now, rateLimitMins)
    requires send == Attempted(cs[i], t, After(lastSent, cs[..i], ok[..i], t, now, rateLimitMins), now, rateLimitMins)
    ensures After(lastSent, cs[..i + 1], ok[..i + 1], t, now, rateLimitMins) ==
      var ls := After(lastSent, cs[..i], ok[..i], t, now, rateLimitMins);
      if send && ok[i] then ls[Key(cs[i].name, t) := now] else ls
    ensures forall j :: 0 <= j < i + 1 ==>
      (attempted + [send])[j] == Attempted(cs[j], t, After(lastSent, cs[..j], ok[..j], t, now, rateLimitMins), now, rateLimitMins)
  {
    AfterStep(lastSent, cs, ok, t, now, rateLimitMins, i);
  }

  /**
   * The loop of Notify: visit the channels in order, skipping disabled,
   * unsubscribed and rate-limited ones; ok[i] is what channel i's Send
   * returns. attempted says whose Send was called, and the map returned is
   * the fold of Step over the channels.
   */
  method Fanout(lastSent: map<string, int>, cs: seq<Channel>, ok: seq<bool>, t: EventType, now: int, rateLimitMins: int)
    returns (ls: map<string, int>, attempted: seq<bool>)
    requires |ok| == |cs|
    ensures ls == After(lastSent, cs, ok, t, now, rateLimitMins)
    ensures |attempted| == |cs|
    ensures forall i :: 0 <= i < |cs| ==>
      attempted[i] == Attempted(cs[i], t, After(lastSent, cs[..i], ok[..i], t, now, rateLimitMins), now, rateLimitMins)
  {
    ls := lastSent;
    attempted := [];
    var i := 0;
    while i < |cs|
      invariant 0 <= i <= |cs| && |attempted| == i
      invariant ls == After(lastSent, cs[..i], ok[..i], t, now, rateLimitMins)
      invariant forall j :: 0 <= j < i ==>
        attempted[j] == Attempted(cs[j], t, After(lastSent, cs[..j], ok[..j], t, now, rateLimitMins), now, rateLimitMins)
    {
      var channel := cs[i];
      var key := Key(channel.name, t);
      var send := true;
      if !channel.enabled || !ShouldNotify(channel, t) {
        send := false;
      } else if key in ls && now - ls[key] < rateLimitMins * 60 {
        send := false;
      }
      FanoutStep(lastSent, cs, ok, t, now, rateLimitMins, i, attempted, send);
      if send && ok[i] {
        ls := ls[key := now];
      }
      attempted := attempted + [send];
      i := i + 1;
    }
    assert cs[..|cs|] == cs && ok[..|ok|] == ok;
  }

  class Notifier {
    var channels: seq<Channel>
    const rateLimitMins: int
    /** Time in seconds of the last successful send per key. */
    var lastSent: map<string, int>

    /** NewNotifier: the given channels, the rate limit, and no sends recorded. */
    constructor (cs: seq<Channel>, mins: int)
      ensures channels == cs && rateLimitMins == mins && lastSent == map[]
    {
      channels := cs;
      rateLimitMins := mins;
      lastSent := map[];
    }

    /**
     * Notify: one pass of Fanout over the channel list, recorded in
     * lastSent; the channel list is unchanged.
     */
    method Notify(t: EventType, now: int, sendOk: seq<bool>) returns (attempted: seq<bool>)
      requires |sendOk| == |channels|
      modifies this
      ensures channels == old(channels)
      ensures lastSent == After(old(lastSent), channels, sendOk, t, now, rateLimitMins)
      ensures |attempted| == |channels|
      ensures forall i :: 0 <= i < |channels| ==>
        attempted[i] == Attempted(channels[i], t, After(old(lastSent), channels[..i], sendOk[..i], t, now, rateLimitMins), now, rateLimitMins)
    {
      var ls;
      ls, attempted := Fanout(lastSent, channels, sendOk, t, now, rateLimitMins);
      lastSent := ls;
    }

    /** AddChannel: one channel appended at the end, the others in their order, lastSent untouched. */
    method AddChannel(c: Channel)
      modifies this
      ensures channels == old(channels) + [c]
      ensures lastSent == old(lastSent)
    {
      channels := channels + [c];
    }
  }
}
