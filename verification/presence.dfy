/**
 Presence in a message thread: the list of other participants who are typing,
 the sentence the thread page shows for it, the local "am I typing" signal
 with its two-second stop timer, and the room subscription the page holds
 while it has a thread id and a live socket. The socket itself is reduced to
 a log of outbound events and a list of registered listeners.
 */
module Presence {
  import opened Seqs
  import opened Strings

  /** An inbound `message:typing` event. */
  datatype TypingEvent = TypingEvent(userId: string, userName: string, isTyping: bool)

  /** `prev.includes(name) ? prev : [...prev, name]`. */
  function AddName(prev: seq<string>, name: string): (next: seq<string>)
    ensures name in next
    ensures forall x :: x in next <==> x in prev || x == name
    ensures |prev| <= |next| <= |prev| + 1 && next[..|prev|] == prev
    ensures NoDup(prev) ==> NoDup(next)
  {
    if name in prev then prev else prev + [name]
  }

  /** `prev.filter(n => n !== name)`. */
  function RemoveName(prev: seq<string>, name: string): (next: seq<string>)
    ensures name !in next
  {
    Remove(prev, name)
  }

  /** Repeating a start-typing event changes nothing. */
  lemma AddNameIdempotent(prev: seq<string>, name: string)
    ensures AddName(AddName(prev, name), name) == AddName(prev, name)
  {
  }

  /** A name that starts and then stops typing leaves the list as it was. */
  lemma AddThenRemove(prev: seq<string>, name: string)
    requires name !in prev
    ensures RemoveName(AddName(prev, name), name) == prev
  {
    AppendThenRemove(prev, name);
  }

  /**
   `handleUserTyping`: an event from the signed-in user (the server's echo of
   our own typing) is ignored; otherwise the name is added or removed.
   */
  function OnUserTyping(sessionUserId: Option<string>, prev: seq<string>, e: TypingEvent): (next: seq<string>)
    ensures sessionUserId == Some(e.userId) ==> next == prev
    ensures sessionUserId != Some(e.userId) && e.isTyping ==> next == AddName(prev, e.userName)
    ensures sessionUserId != Some(e.userId) && !e.isTyping ==> next == RemoveName(prev, e.userName)
  {
    if sessionUserId == Some(e.userId) then prev
    else if e.isTyping then AddName(prev, e.userName)
    else RemoveName(prev, e.userName)
  }

  /** The typing list after a sequence of inbound events. */
  function ReplayTyping(sessionUserId: Option<string>, prev: seq<string>, events: seq<TypingEvent>): seq<string>
    decreases |events|
  {
    if events == [] then prev
    else ReplayTyping(sessionUserId, OnUserTyping(sessionUserId, prev, events[0]), events[1..])
  }

  /** Starting from an empty list, no name is ever listed twice. */
  lemma {:induction false} ReplayTypingNoDup(sessionUserId: Option<string>, prev: seq<string>, events: seq<TypingEvent>)
    requires NoDup(prev)
    ensures NoDup(ReplayTyping(sessionUserId, prev, events))
    decreases |events|
  {
    if events != [] {
      var e := events[0];
      if sessionUserId != Some(e.userId) && !e.isTyping {
        RemoveKeepsOthers(prev, e.userName);
      }
      ReplayTypingNoDup(sessionUserId, OnUserTyping(sessionUserId, prev, e), events[1..]);
    }
  }

  /** Events that the signed-in user sent never change the list. */
  lemma {:induction false} OwnEventsIgnored(userId: string, prev: seq<string>, events: seq<TypingEvent>)
    requires forall i :: 0 <= i < |events| ==> events[i].userId == userId
    ensures ReplayTyping(Some(userId), prev, events) == prev
    decreases |events|
  {
    if events != [] {
      OwnEventsIgnored(userId, prev, events[1..]);
    }
  }

  /** The indicator line under the message list; nothing is shown for an empty list. */
  function IndicatorText(names: seq<string>): (r: Option<string>)
    ensures r.None? <==> names == []
  {
    if |names| == 0 then None
    else if |names| == 1 then Some(names[0] + " is typing...")
    else Some(Join(names[..|names| - 1], ", ") + " and " + names[|names| - 1] + " are typing...")
  }

  /** Every typing name appears in the indicator. */
  lemma IndicatorMentionsEveryone(names: seq<string>, i: nat)
    requires i < |names|
    ensures IndicatorText(names).Some? && Contains(IndicatorText(names).value, names[i])
  {
    var last := |names| - 1;
    if |names| == 1 {
      ContainsInfix("", names[0], " is typing...");
      assert "" + names[0] + " is typing..." == names[0] + " is typing...";
    } else if i == last {
      var front := Join(names[..last], ", ") + " and ";
      ContainsInfix(front, names[last], " are typing...");
    } else {
      var init := names[..last];
      assert init[i] == names[i];
      JoinContainsItem(init, ", ", i);
      var tail := " and " + names[last] + " are typing...";
      ContainsPrefixPart(Join(init, ", "), tail, names[i]);
      assert Join(init, ", ") + " and " + names[last] + " are typing..." == Join(init, ", ") + tail;
    }
  }

  /** What a prefix contains, the whole string contains. */
  lemma {:induction false} ContainsPrefixPart(a: string, b: string, sub: string)
    requires Contains(a, sub)
    ensures Contains(a + b, sub)
    decreases |a|
  {
    if StartsWith(a, sub) {
      assert (a + b)[..|sub|] == a[..|sub|];
    } else {
      assert (a + b)[1..] == a[1..] + b;
      ContainsPrefixPart(a[1..], b, sub);
    }
  }

  /** The verb agrees with the number of typers: "are" exactly when two or more are listed. */
  lemma IndicatorVerbAgrees(names: seq<string>)
    requires names != []
    ensures EndsWith(IndicatorText(names).value, " are typing...") <==> |names| >= 2
    ensures EndsWith(IndicatorText(names).value, " is typing...") <==> |names| == 1
  {
    var r := IndicatorText(names).value;
    if |names| == 1 {
      assert r == names[0] + " is typing...";
      assert EndsWith(r, " is typing...");
      assert r[|r| - 13] == ' ';
      assert |r| < 14 || r[|r| - 14..][1] == ' ';
    } else {
      assert EndsWith(r, " are typing...");
      assert r[|r| - 13..][1] == 'r';
    }
  }

  /** Three typers are listed with commas and a final "and", without a serial comma. */
  lemma IndicatorThreeNames()
    ensures IndicatorText(["Ann", "Bob", "Cy"]) == Some("Ann, Bob and Cy are typing...")
  {
    var names := ["Ann", "Bob", "Cy"];
    assert names[..2] == ["Ann", "Bob"] && names[2] == "Cy";
    assert Join(["Bob"], ", ") == "Bob";
    assert ["Ann", "Bob"][1..] == ["Bob"];
    assert Join(["Ann", "Bob"], ", ") == "Ann, Bob";
    assert "Ann, Bob" + " and " + "Cy" + " are typing..." == "Ann, Bob and Cy are typing...";
  }

  /** What the page sends over the socket. */
  datatype Outbound =
    | JoinRoom(threadId: string)
    | LeaveRoom(threadId: string)
    | TypingSignal(threadId: string, isTyping: bool)

  /**
   The local typing intent: the `isTyping` flag and the stop timer, which when
   pending remembers the thread its callback will report to.
   */
  datatype Intent = Intent(isTyping: bool, timer: Option<string>)

  const Idle: Intent := Intent(false, None)

  /** A state and the events a transition sent. */
  datatype Step = Step(state: Intent, sent: seq<Outbound>)

  /** In every state the machine reaches, the flag is set exactly while a stop timer is pending. */
  predicate Consistent(s: Intent) {
    s.isTyping <==> s.timer.Some?
  }

  /**
   `handleTyping`, run on every keystroke: without a thread id or a connection
   nothing happens; otherwise the start signal goes out only on the idle to
   active transition and the stop timer is replaced.
   */
  function Keystroke(s: Intent, threadId: Option<string>, connected: bool): (r: Step)
    ensures !(Truthy(threadId) && connected) ==> r == Step(s, [])
    ensures Truthy(threadId) && connected ==> r.state == Intent(true, Some(threadId.value))
    ensures Truthy(threadId) && connected ==>
      r.sent == (if s.isTyping then [] else [TypingSignal(threadId.value, true)])
  {
    if !Truthy(threadId) || !connected then Step(s, [])
    else
      var tid := threadId.value;
      var sent := if !s.isTyping then [TypingSignal(tid, true)] else [];
      Step(Intent(true, Some(tid)), sent)
  }

  /** The stop timer fires: back to idle, with one stop signal for the thread it was set for. */
  function TimerFires(s: Intent): (r: Step)
    ensures s.timer.None? ==> r == Step(s, [])
    ensures s.timer.Some? ==> r == Step(Idle, [TypingSignal(s.timer.value, false)])
  {
    match s.timer
    case None => Step(s, [])
    case Some(tid) => Step(Idle, [TypingSignal(tid, false)])
  }

  /** Inputs to the intent machine. */
  datatype IntentEvent = Key(threadId: Option<string>, connected: bool) | Expire

  function Apply(s: Intent, e: IntentEvent): Step
  {
    match e
    case Key(t, c) => Keystroke(s, t, c)
    case Expire => TimerFires(s)
  }

  /** Both transitions keep the flag and the timer in agreement. */
  lemma ApplyConsistent(s: Intent, e: IntentEvent)
    requires Consistent(s)
    ensures Consistent(Apply(s, e).state)
  {
  }

  /** The state and everything sent after a sequence of events. */
  function Replay(s: Intent, events: seq<IntentEvent>): (r: Step)
    decreases |events|
  {
    if events == [] then Step(s, [])
    else
      var first := Apply(s, events[0]);
      var rest := Replay(first.state, events[1..]);
      Step(rest.state, first.sent + rest.sent)
  }

  /** The flags of the typing signals in a log. */
  function Flags(sent: seq<Outbound>): (r: seq<bool>)
    ensures |r| <= |sent|
  {
    if sent == [] then []
    else if sent[0].TypingSignal? then [sent[0].isTyping] + Flags(sent[1..])
    else Flags(sent[1..])
  }

  /** Start and stop signals alternate, beginning with the opposite of `typing`. */
  predicate Alternating(flags: seq<bool>, typing: bool)
    decreases |flags|
  {
    flags == [] || (flags[0] == !typing && Alternating(flags[1..], !typing))
  }

  lemma {:induction false} FlagsConcat(a: seq<Outbound>, b: seq<Outbound>)
    ensures Flags(a + b) == Flags(a) + Flags(b)
    decreases |a|
  {
    if a != [] {
      assert (a + b)[1..] == a[1..] + b;
      FlagsConcat(a[1..], b);
    } else {
      assert a + b == b;
    }
  }

  /**
   Over any sequence of keystrokes and timer expiries, the server sees start
   and stop signals strictly alternating: never two starts or two stops in a row.
   */
  lemma {:induction false} SignalsAlternate(s: Intent, events: seq<IntentEvent>)
    requires Consistent(s)
    ensures Alternating(Flags(Replay(s, events).sent), s.isTyping)
    decreases |events|
  {
    if events != [] {
      var first := Apply(s, events[0]);
      ApplyConsistent(s, events[0]);
      SignalsAlternate(first.state, events[1..]);
      var rest := Replay(first.state, events[1..]);
      FlagsConcat(first.sent, rest.sent);
      if Flags(first.sent) == [] {
        assert first.state.isTyping == s.isTyping;
        assert Flags(first.sent) + Flags(rest.sent) == Flags(rest.sent);
      } else {
        assert Flags(first.sent) == [!s.isTyping];
        assert ([!s.isTyping] + Flags(rest.sent))[1..] == Flags(rest.sent);
      }
    }
  }

  /** `k` keystrokes on one connected thread. */
  function Keystrokes(tid: string, k: nat): seq<IntentEvent>
  {
    seq(k, _ => Key(Some(tid), true))
  }

  /**
   A burst of keystrokes from idle sends one start signal, and the timer that
   follows sends one stop signal and returns the machine to idle.
   */
  lemma {:induction false} BurstThenPause(tid: string, k: nat)
    requires tid != "" && k >= 1
    ensures Replay(Idle, Keystrokes(tid, k)) == Step(Intent(true, Some(tid)), [TypingSignal(tid, true)])
    ensures Replay(Idle, Keystrokes(tid, k) + [Expire]) ==
      Step(Idle, [TypingSignal(tid, true), TypingSignal(tid, false)])
  {
    var active := Intent(true, Some(tid));
    assert Keystrokes(tid, k)[1..] == Keystrokes(tid, k - 1);
    ActiveKeystrokes(tid, k - 1);
    ReplayAppend(Idle, Keystrokes(tid, k), [Expire]);
  }

  /** Further keystrokes while already typing send nothing. */
  lemma {:induction false} ActiveKeystrokes(tid: string, k: nat)
    requires tid != ""
    ensures Replay(Intent(true, Some(tid)), Keystrokes(tid, k)) == Step(Intent(true, Some(tid)), [])
    decreases k
  {
    if k > 0 {
      assert Keystrokes(tid, k)[1..] == Keystrokes(tid, k - 1);
      ActiveKeystrokes(tid, k - 1);
    }
  }

  /** Replaying two sequences one after the other. */
  lemma {:induction false} ReplayAppend(s: Intent, a: seq<IntentEvent>, b: seq<IntentEvent>)
    ensures Replay(s, a + b).state == Replay(Replay(s, a).state, b).state
    ensures Replay(s, a + b).sent == Replay(s, a).sent + Replay(Replay(s, a).state, b).sent
    decreases |a|
  {
    if a == [] {
      assert a + b == b;
    } else {
      assert (a + b)[1..] == a[1..] + b;
      ReplayAppend(Apply(s, a[0]).state, a[1..], b);
    }
  }

  /** Keystrokes without a thread id or without a connection change nothing and send nothing. */
  lemma {:induction false} IgnoredKeystrokes(s: Intent, events: seq<IntentEvent>)
    requires forall i :: 0 <= i < |events| ==> events[i].Key? && !(Truthy(events[i].threadId) && events[i].connected)
    ensures Replay(s, events) == Step(s, [])
    decreases |events|
  {
    if events != [] {
      IgnoredKeystrokes(s, events[1..]);
    }
  }

  /** A socket listener: the channel and the effect run that registered it. */
  datatype Listener = Listener(channel: string, run: nat)

  /** The four channels the thread page listens on. */
  const RoomChannels: seq<string> := ["message:new", "message:typing", "message:deleted", "message:edited"]

  /** The socket as the page sees it: registered listeners and the log of sent events. */
  datatype Socket = Socket(listeners: seq<Listener>, sent: seq<Outbound>)

  function Registrations(channels: seq<string>, run: nat): (r: seq<Listener>)
    ensures |r| == |channels|
    ensures forall i :: 0 <= i < |r| ==> r[i] == Listener(channels[i], run)
  {
    if channels == [] then [] else [Listener(channels[0], run)] + Registrations(channels[1..], run)
  }

  /** `off(channel, handler)`: unregisters that handler. */
  function Off(ls: seq<Listener>, l: Listener): (r: seq<Listener>)
    ensures l !in r
  {
    Keep(ls, (x: Listener) => x != l)
  }

  /** One `off` per channel, in order. */
  function OffEach(ls: seq<Listener>, channels: seq<string>, run: nat): seq<Listener>
    decreases |channels|
  {
    if channels == [] then ls else OffEach(Off(ls, Listener(channels[0], run)), channels[1..], run)
  }

  /**
   The join effect: with a thread id and a connection it sends `thread:join`
   and registers the four listeners; otherwise it does nothing and has no
   cleanup.
   */
  function JoinRoomEffect(sock: Socket, threadId: Option<string>, connected: bool, run: nat): (r: Socket)
    ensures !(Truthy(threadId) && connected) ==> r == sock
    ensures Truthy(threadId) && connected ==> r.sent == sock.sent + [JoinRoom(threadId.value)]
    ensures Truthy(threadId) && connected ==> |r.listeners| == |sock.listeners| + 4
  {
    if Truthy(threadId) && connected then
      Socket(sock.listeners + Registrations(RoomChannels, run), sock.sent + [JoinRoom(threadId.value)])
    else sock
  }

  /** The effect's cleanup: `thread:leave` for the same thread, then the four `off` calls. */
  function LeaveRoomEffect(sock: Socket, threadId: string, run: nat): (r: Socket)
    ensures r.sent == sock.sent + [LeaveRoom(threadId)]
    ensures forall c :: c in RoomChannels ==> Listener(c, run) !in r.listeners
  {
    OffEachRemoves(sock.listeners, RoomChannels, run);
    Socket(OffEach(sock.listeners, RoomChannels, run), sock.sent + [LeaveRoom(threadId)])
  }

  /** Unregistering a channel leaves it absent from then on. */
  lemma {:induction false} OffEachRemoves(ls: seq<Listener>, channels: seq<string>, run: nat)
    ensures forall c :: c in channels ==> Listener(c, run) !in OffEach(ls, channels, run)
    decreases |channels|
  {
    if channels != [] {
      var l := Listener(channels[0], run);
      var ls1 := Off(ls, l);
      OffEachRemoves(ls1, channels[1..], run);
      OffEachSubset(ls1, channels[1..], run, l);
    }
  }

  /** `off` never adds a listener back. */
  lemma {:induction false} OffEachSubset(ls: seq<Listener>, channels: seq<string>, run: nat, l: Listener)
    requires l !in ls
    ensures l !in OffEach(ls, channels, run)
    decreases |channels|
  {
    if channels != [] {
      var off := Listener(channels[0], run);
      KeepMembers(ls, (x: Listener) => x != off, l);
      OffEachSubset(Off(ls, off), channels[1..], run, l);
    }
  }

  /**
   The `off` calls remove exactly listeners of this run on these channels: the
   listeners of other runs survive untouched and in order.
   */
  lemma {:induction false} OffEachRestores(ls: seq<Listener>, regs: seq<Listener>, channels: seq<string>, run: nat)
    requires forall i :: 0 <= i < |ls| ==> ls[i].run != run
    requires forall i :: 0 <= i < |regs| ==> regs[i].run == run && regs[i].channel in channels
    ensures OffEach(ls + regs, channels, run) == ls
    decreases |channels|
  {
    if channels == [] {
      var inChannels := (x: Listener) => x.channel in channels;
      KeepAll(regs, inChannels);
      KeepNone(regs, inChannels);
      assert ls + regs == ls;
    } else {
      var l := Listener(channels[0], run);
      var p := (x: Listener) => x != l;
      KeepConcat(ls, regs, p);
      KeepAll(ls, p);
      var regs1 := Keep(regs, p);
      forall i | 0 <= i < |regs1|
        ensures regs1[i].run == run && regs1[i].channel in channels[1..]
      {
        KeepMembers(regs, p, regs1[i]);
      }
      OffEachRestores(ls, regs1, channels[1..], run);
    }
  }

  /**
   Mounting and then cleaning up the join effect leaves the listeners as they
   were, and sends a join and a leave for the same thread exactly when the
   page had a thread id and a connection.
   */
  lemma JoinLeavePaired(sock: Socket, threadId: Option<string>, connected: bool, run: nat)
    requires forall i :: 0 <= i < |sock.listeners| ==> sock.listeners[i].run != run
    ensures var mounted := JoinRoomEffect(sock, threadId, connected, run);
      Truthy(threadId) && connected ==>
        var after := LeaveRoomEffect(mounted, threadId.value, run);
        && after.listeners == sock.listeners
        && after.sent == sock.sent + [JoinRoom(threadId.value), LeaveRoom(threadId.value)]
  {
    if Truthy(threadId) && connected {
      var regs := Registrations(RoomChannels, run);
      forall i | 0 <= i < |regs|
        ensures regs[i].run == run && regs[i].channel in RoomChannels
      {
      }
      OffEachRestores(sock.listeners, regs, RoomChannels, run);
    }
  }

  /**
   The join effect re-runs whenever its dependencies change: the thread id and
   the connection (the session user id, the socket callbacks and the query
   client are stable and left out). A re-run first calls the previous run's
   cleanup, which exists only if that run joined.
   */
  datatype RoomDeps = RoomDeps(threadId: Option<string>, connected: bool)

  /** The socket, the number of the current effect run and the dependencies it ran with. */
  datatype Room = Room(sock: Socket, run: nat, deps: RoomDeps)

  /** Whether a run with these dependencies joined and so has a cleanup. */
  predicate Joined(d: RoomDeps) {
    Truthy(d.threadId) && d.connected
  }

  /** One render of the thread page with dependency values `d`. */
  function RoomRender(r: Room, d: RoomDeps): (next: Room)
    ensures d == r.deps ==> next == r
    ensures d != r.deps ==> next.run == r.run + 1 && next.deps == d
  {
    if d == r.deps then r
    else
      var cleaned := if Joined(r.deps) then LeaveRoomEffect(r.sock, r.deps.threadId.value, r.run) else r.sock;
      Room(JoinRoomEffect(cleaned, d.threadId, d.connected, r.run + 1), r.run + 1, d)
  }

  /**
   Losing the connection leaves the room and unregisters the listeners, and
   getting it back joins the same thread again.
   */
  lemma ReconnectRejoins(sock: Socket, tid: string, run: nat)
    requires tid != ""
    ensures var r0 := Room(sock, run, RoomDeps(Some(tid), true));
      var r1 := RoomRender(r0, RoomDeps(Some(tid), false));
      var r2 := RoomRender(r1, RoomDeps(Some(tid), true));
      && r1.sock.sent == sock.sent + [LeaveRoom(tid)]
      && (forall c :: c in RoomChannels ==> Listener(c, run) !in r1.sock.listeners)
      && r2.sock.sent == sock.sent + [LeaveRoom(tid), JoinRoom(tid)]
      && |r2.sock.listeners| == |r1.sock.listeners| + 4
  {
    var r0 := Room(sock, run, RoomDeps(Some(tid), true));
    var r1 := RoomRender(r0, RoomDeps(Some(tid), false));
    assert r1.sock == LeaveRoomEffect(sock, tid, run);
    assert (sock.sent + [LeaveRoom(tid)]) + [JoinRoom(tid)] == sock.sent + [LeaveRoom(tid), JoinRoom(tid)];
  }

  /** A re-render with the same thread and connection sends nothing. */
  lemma SteadyRenderSilent(r: Room)
    ensures RoomRender(r, r.deps) == r
  {
  }

  /**
   The thread page as the typing signals see it: the thread on screen and the
   typing intent. Opening another thread runs the join effect's cleanup,
   which leaves the room but does not touch the typing flag or the timer.
   */
  datatype Page = Page(threadId: Option<string>, intent: Intent)

  /** What happens on the page: another thread opens, a keystroke, or the stop timer fires. */
  datatype PageEvent = Open(threadId: Option<string>) | Type(connected: bool) | TimeUp

  /** A page state and the typing signals a transition sent. */
  datatype PageStep = PageStep(page: Page, sent: seq<Outbound>)

  /** One page event, as written: the timer and flag survive a change of thread. */
  function PageApply(p: Page, e: PageEvent): (r: PageStep)
    ensures e.Open? ==> r == PageStep(Page(e.threadId, p.intent), [])
  {
    match e
    case Open(t) => PageStep(Page(t, p.intent), [])
    case Type(c) =>
      var st := Keystroke(p.intent, p.threadId, c);
      PageStep(Page(p.threadId, st.state), st.sent)
    case TimeUp =>
      var st := TimerFires(p.intent);
      PageStep(Page(p.threadId, st.state), st.sent)
  }

  /** One page event with the cleanup also flushing the typing state: a pending stop goes out at once. */
  function PageApplyIntended(p: Page, e: PageEvent): (r: PageStep)
    ensures e.Open? ==> r.page == Page(e.threadId, Idle) && r.sent == TimerFires(p.intent).sent
    ensures !e.Open? ==> r == PageApply(p, e)
  {
    match e
    case Open(t) => PageStep(Page(t, Idle), TimerFires(p.intent).sent)
    case _ => PageApply(p, e)
  }

  function PageReplay(p: Page, events: seq<PageEvent>): PageStep
    decreases |events|
  {
    if events == [] then PageStep(p, [])
    else
      var first := PageApply(p, events[0]);
      var rest := PageReplay(first.page, events[1..]);
      PageStep(rest.page, first.sent + rest.sent)
  }

  function PageReplayIntended(p: Page, events: seq<PageEvent>): PageStep
    decreases |events|
  {
    if events == [] then PageStep(p, [])
    else
      var first := PageApplyIntended(p, events[0]);
      var rest := PageReplayIntended(first.page, events[1..]);
      PageStep(rest.page, first.sent + rest.sent)
  }

  /** The flags of the typing signals sent for thread `x`. */
  function FlagsFor(sent: seq<Outbound>, x: string): (r: seq<bool>)
    ensures |r| <= |sent|
  {
    if sent == [] then []
    else if sent[0].TypingSignal? && sent[0].threadId == x then [sent[0].isTyping] + FlagsFor(sent[1..], x)
    else FlagsFor(sent[1..], x)
  }

  lemma {:induction false} FlagsForConcat(a: seq<Outbound>, b: seq<Outbound>, x: string)
    ensures FlagsFor(a + b, x) == FlagsFor(a, x) + FlagsFor(b, x)
    decreases |a|
  {
    if a != [] {
      assert (a + b)[1..] == a[1..] + b;
      FlagsForConcat(a[1..], b, x);
    } else {
      assert a + b == b;
    }
  }

  /**
   As written, switching threads in the middle of a typing streak sends the
   start to the first thread and the stop to the second: thread A is never
   told that typing stopped, and thread B hears a stop with no start.
   */
  lemma SwitchMidStreakMisroutesStop()
    ensures var sent := PageReplay(Page(None, Idle), [Open(Some("A")), Type(true), Open(Some("B")), Type(true), TimeUp]).sent;
      && sent == [TypingSignal("A", true), TypingSignal("B", false)]
      && FlagsFor(sent, "A") == [true]
      && FlagsFor(sent, "B") == [false]
      && !Alternating(FlagsFor(sent, "B"), false)
  {
    var e := [Open(Some("A")), Type(true), Open(Some("B")), Type(true), TimeUp];
    var a := Intent(true, Some("A"));
    var b := Intent(true, Some("B"));
    assert e[1..] == [Type(true), Open(Some("B")), Type(true), TimeUp];
    assert e[1..][1..] == [Open(Some("B")), Type(true), TimeUp];
    assert e[1..][1..][1..] == [Type(true), TimeUp];
    assert e[1..][1..][1..][1..] == [TimeUp];
    assert [TimeUp][1..] == [];
    assert PageReplay(Page(Some("B"), b), [TimeUp]).sent == [TypingSignal("B", false)];
    assert PageReplay(Page(Some("B"), a), [Type(true), TimeUp]).sent == [TypingSignal("B", false)];
    assert PageReplay(Page(Some("A"), a), [Open(Some("B")), Type(true), TimeUp]).sent == [TypingSignal("B", false)];
    assert PageReplay(Page(Some("A"), Idle), e[1..]).sent == [TypingSignal("A", true)] + [TypingSignal("B", false)];
    var sent := [TypingSignal("A", true), TypingSignal("B", false)];
    assert sent[1..] == [TypingSignal("B", false)] && sent[1..][1..] == [];
    assert "B" != "A";
  }

  /** A pending stop timer belongs to the thread on screen, and the flag is set exactly while one is pending. */
  predicate Aligned(p: Page) {
    Consistent(p.intent) && (p.intent.timer.Some? ==> p.intent.timer == p.threadId)
  }

  /** Whether thread `x` was last told that the user is typing. */
  predicate TypingIn(p: Page, x: string) {
    p.intent.timer == Some(x)
  }

  /** With the flushing cleanup, each event sends thread `x` at most one signal, and only one that flips its state. */
  lemma IntendedStepPerThread(p: Page, e: PageEvent, x: string)
    requires Aligned(p)
    ensures var r := PageApplyIntended(p, e);
      && Aligned(r.page)
      && (|| (FlagsFor(r.sent, x) == [] && TypingIn(r.page, x) == TypingIn(p, x))
          || (FlagsFor(r.sent, x) == [!TypingIn(p, x)] && TypingIn(r.page, x) == !TypingIn(p, x)))
  {
    var r := PageApplyIntended(p, e);
    if |r.sent| == 1 {
      assert r.sent[1..] == [];
    }
  }

  /**
   With the flushing cleanup, every thread sees its start and stop signals
   strictly alternate over any sequence of thread switches, keystrokes and
   timer expiries.
   */
  lemma {:induction false} IntendedSignalsAlternatePerThread(p: Page, events: seq<PageEvent>, x: string)
    requires Aligned(p)
    ensures Aligned(PageReplayIntended(p, events).page)
    ensures Alternating(FlagsFor(PageReplayIntended(p, events).sent, x), TypingIn(p, x))
    decreases |events|
  {
    if events != [] {
      var first := PageApplyIntended(p, events[0]);
      IntendedStepPerThread(p, events[0], x);
      IntendedSignalsAlternatePerThread(first.page, events[1..], x);
      var rest := PageReplayIntended(first.page, events[1..]);
      FlagsForConcat(first.sent, rest.sent, x);
      if FlagsFor(first.sent, x) == [] {
        assert FlagsFor(first.sent, x) + FlagsFor(rest.sent, x) == FlagsFor(rest.sent, x);
      } else {
        assert ([!TypingIn(p, x)] + FlagsFor(rest.sent, x))[1..] == FlagsFor(rest.sent, x);
      }
    }
  }

  /** The same switch mid-streak with the flushing cleanup: each thread gets its own start and stop. */
  lemma IntendedSwitchClosesEachThread()
    ensures PageReplayIntended(Page(None, Idle), [Open(Some("A")), Type(true), Open(Some("B")), Type(true), TimeUp]).sent
      == [TypingSignal("A", true), TypingSignal("A", false), TypingSignal("B", true), TypingSignal("B", false)]
  {
    var e := [Open(Some("A")), Type(true), Open(Some("B")), Type(true), TimeUp];
    var a := Intent(true, Some("A"));
    var b := Intent(true, Some("B"));
    assert e[1..] == [Type(true), Open(Some("B")), Type(true), TimeUp];
    assert e[1..][1..] == [Open(Some("B")), Type(true), TimeUp];
    assert e[1..][1..][1..] == [Type(true), TimeUp];
    assert e[1..][1..][1..][1..] == [TimeUp];
    assert [TimeUp][1..] == [];
    assert PageReplayIntended(Page(Some("B"), b), [TimeUp]).sent == [TypingSignal("B", false)];
    assert PageReplayIntended(Page(Some("B"), Idle), [Type(true), TimeUp]).sent == [TypingSignal("B", true), TypingSignal("B", false)];
    assert PageReplayIntended(Page(Some("A"), a), [Open(Some("B")), Type(true), TimeUp]).sent
      == [TypingSignal("A", false), TypingSignal("B", true), TypingSignal("B", false)];
  }
}
