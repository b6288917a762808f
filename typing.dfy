/** The typing indicator debounce of RoomInterface.handleTyping: every
    keystroke cancels the pending idle timer; with a socket it sends
    `typing: true` at once and arms a new 2000 ms timer whose firing sends
    `typing: false`. Without a socket nothing is sent and no timer is armed. */
module Typing {
  import opened Wrappers

  const TypingDelay: nat := 2000

  /** What the debounce reads and writes: whether a socket is held, and the
      pending idle timer (its delay), if any. */
  datatype Debounce = Debounce(connected: bool, timer: Option<nat>)

  /** The events that reach the debounce: an input event on the message
      box, the idle timer firing, and a navigation that stores a socket. */
  datatype Event = Keystroke | TimerFires | Connected

  /** A new state and the is_typing values sent, in order. */
  datatype Step = Step(state: Debounce, sent: seq<bool>)

  /** A pending timer is only ever armed with a socket held, and always
      with the 2000 ms delay. */
  predicate WellFormed(d: Debounce)
  {
    d.timer.Some? ==> d.connected && d.timer.value == TypingDelay
  }

  /** handleTyping(): clearTimeout first, then, with a socket, one true frame
      and a freshly armed timer. The previous timer is cancelled either way. */
  function OnKeystroke(d: Debounce): (r: Step)
    ensures r.state.connected == d.connected
    ensures r.state.timer == (if d.connected then Some(TypingDelay) else None)
    ensures r.sent == (if d.connected then [true] else [])
  {
    if d.connected then Step(Debounce(true, Some(TypingDelay)), [true])
    else Step(Debounce(false, None), [])
  }

  /** The idle timer's callback: one false frame, and no timer pending.
      It only runs while its timer is pending; afterwards it sends nothing. */
  function OnTimerFires(d: Debounce): (r: Step)
    ensures r.state.connected == d.connected && r.state.timer.None?
    ensures r.sent == (if d.timer.Some? then [false] else [])
  {
    if d.timer.Some? then Step(d.(timer := None), [false]) else Step(d, [])
  }

  function Apply(d: Debounce, e: Event): Step
  {
    match e
    case Keystroke => OnKeystroke(d)
    case TimerFires => OnTimerFires(d)
    case Connected => Step(d.(connected := true), [])
  }

  /** The state after a sequence of events and everything sent meanwhile. */
  function Run(d: Debounce, events: seq<Event>): Step
    decreases |events|
  {
    if events == [] then Step(d, [])
    else
      var before := Run(d, events[..|events| - 1]);
      var last := Apply(before.state, events[|events| - 1]);
      Step(last.state, before.sent + last.sent)
  }

  /** The debounce invariant over a run: a timer is pending only right after
      a true frame, and every false frame directly follows a true one (never
      two falses in a row, never a false first). */
  predicate Alternates(r: Step)
  {
    && WellFormed(r.state)
    && (forall k :: 0 < k < |r.sent| && !r.sent[k] ==> r.sent[k - 1])
    && (|r.sent| > 0 ==> r.sent[0])
    && (r.state.timer.Some? ==> |r.sent| > 0 && r.sent[|r.sent| - 1])
  }

  /** From a start with no timer pending, every run keeps the invariant. */
  lemma {:induction false} RunAlternates(d: Debounce, events: seq<Event>)
    requires WellFormed(d) && d.timer.None?
    ensures Alternates(Run(d, events))
    decreases |events|
  {
    if events != [] {
      RunAlternates(d, events[..|events| - 1]);
      StepAlternates(Run(d, events[..|events| - 1]), events[|events| - 1]);
    }
  }

  /** One more event keeps the invariant. */
  lemma StepAlternates(r: Step, e: Event)
    requires Alternates(r)
    ensures var next := Apply(r.state, e); Alternates(Step(next.state, r.sent + next.sent))
  {
    var next := Apply(r.state, e);
    var sent := r.sent + next.sent;
    if e == TimerFires && r.state.timer.Some? {
      assert sent[|sent| - 1] == false && sent[|sent| - 2] == r.sent[|r.sent| - 1];
    }
  }

  function Keystrokes(n: nat): (r: seq<Event>)
    ensures |r| == n && forall k :: 0 <= k < n ==> r[k] == Keystroke
  {
    seq(n, k => Keystroke)
  }

  function Trues(n: nat): (r: seq<bool>)
    ensures |r| == n && forall k :: 0 <= k < n ==> r[k]
  {
    seq(n, k => true)
  }

  /** With a socket, a burst of n keystrokes sends n true frames and leaves
      exactly one timer pending, whatever was pending before. */
  lemma {:induction false} BurstArmsOneTimer(d: Debounce, n: nat)
    requires d.connected && n >= 1
    ensures Run(d, Keystrokes(n)) == Step(Debounce(true, Some(TypingDelay)), Trues(n))
    decreases n
  {
    if n > 1 {
      assert Keystrokes(n)[..n - 1] == Keystrokes(n - 1);
      BurstArmsOneTimer(d, n - 1);
      assert Trues(n - 1) + [true] == Trues(n);
    } else {
      assert Keystrokes(1)[..0] == [];
      assert [] + [true] == Trues(1);
    }
  }

  /** With a socket, n keystrokes followed by the idle window elapsing send
      n true frames and then exactly one false frame, and leave no timer. */
  lemma BurstThenIdle(d: Debounce, n: nat)
    requires d.connected && n >= 1
    ensures Run(d, Keystrokes(n) + [TimerFires]) == Step(Debounce(true, None), Trues(n) + [false])
  {
    var events := Keystrokes(n) + [TimerFires];
    assert events[..|events| - 1] == Keystrokes(n);
    BurstArmsOneTimer(d, n);
  }

  /** Without a socket (and no navigation storing one), nothing is ever sent
      and no timer is ever armed. */
  lemma {:induction false} NoSocketSendsNothing(d: Debounce, events: seq<Event>)
    requires !d.connected && d.timer.None?
    requires forall k :: 0 <= k < |events| ==> events[k] != Connected
    ensures Run(d, events) == Step(d, [])
    decreases |events|
  {
    if events != [] {
      NoSocketSendsNothing(d, events[..|events| - 1]);
    }
  }
}
