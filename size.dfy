/**
 * Size reporting and the resize throttle (size.js).
 *
 * `GetSize` reads the reference node's content box. The throttle coalesces
 * window-resize signals: a signal arms a 33-unit timer unless one is already
 * pending, and when the timer fires it clears the pending handle and emits the
 * size read at that moment. An explicit size request emits at once and
 * ignores the throttle.
 *
 * The behaviour is given twice: as a pure transition function `Step` over an
 * abstract state `Throttle`, driven by a trace of events on an abstract clock,
 * and as the class `ResizeThrottler`, whose methods update its fields in place
 * and are proved to follow `Step`. The properties of the throttle are lemmas
 * about `Step` and `Run`.
 */
module SizeEvents {

  /** The timer delay `resizeThrottler` arms, in clock units. */
  const ThrottleDelay: nat := 33

  /** The geometry of the reference node that `getSize` reads. */
  datatype Node = Node(clientWidth: nat, clientHeight: nat)

  datatype Size = Size(width: nat, height: nat)

  function GetSize(node: Node): (s: Size)
    ensures s.width == node.clientWidth && s.height == node.clientHeight
  {
    Size(node.clientWidth, node.clientHeight)
  }

  // ------------------------------------------------------------ the throttle

  /** Why a size was sent on the size-changes channel. */
  datatype Cause = Requested | Throttled

  /** One message sent on the size-changes channel, with the clock reading when it was sent. */
  datatype Emission = Emission(size: Size, cause: Cause, time: nat)

  /**
   * The throttle's state: the clock, the pending-timer handle, the deadlines
   * of timers the host scheduler holds armed for this throttle, and the log of
   * everything sent so far.
   */
  datatype Throttle = Throttle(now: nat, pending: bool, timers: seq<nat>, log: seq<Emission>)

  /**
   * What drives the throttle: a window resize, an explicit size request, the
   * host running the armed timer's callback, and the passing of time. The
   * node carried by `Request` and `Fire` is the geometry at that moment.
   */
  datatype Event = Resize | Request(node: Node) | Fire(node: Node) | Wait(dt: nat)

  /** No timer pending and nothing sent. */
  const Initial: Throttle := Throttle(0, false, [], [])

  /** The host runs a timer callback only for an armed timer whose delay has elapsed. */
  predicate CanFire(s: Throttle) {
    |s.timers| > 0 && s.now >= s.timers[0]
  }

  predicate Enabled(s: Throttle, e: Event) {
    e.Fire? ==> CanFire(s)
  }

  function Step(s: Throttle, e: Event): Throttle
    requires Enabled(s, e)
  {
    match e
    case Resize =>
      if s.pending then s
      else s.(pending := true, timers := s.timers + [s.now + ThrottleDelay])
    case Request(node) =>
      s.(log := s.log + [Emission(GetSize(node), Requested, s.now)])
    case Fire(node) =>
      s.(pending := false, timers := s.timers[1..],
         log := s.log + [Emission(GetSize(node), Throttled, s.now)])
    case Wait(dt) =>
      s.(now := s.now + dt)
  }

  /** Every event of the trace is one the host can deliver at that point. */
  predicate Feasible(s: Throttle, t: seq<Event>)
    decreases |t|
  {
    t == [] || (Enabled(s, t[0]) && Feasible(Step(s, t[0]), t[1..]))
  }

  function Run(s: Throttle, t: seq<Event>): Throttle
    requires Feasible(s, t)
    decreases |t|
  {
    if t == [] then s else Run(Step(s, t[0]), t[1..])
  }

  // ------------------------------------------------------------ counting

  function CountCause(log: seq<Emission>, c: Cause): nat
    decreases |log|
  {
    if log == [] then 0
    else CountCause(log[..|log| - 1], c) + (if log[|log| - 1].cause == c then 1 else 0)
  }

  lemma CountCauseAppend(log: seq<Emission>, m: Emission, c: Cause)
    ensures CountCause(log + [m], c) == CountCause(log, c) + (if m.cause == c then 1 else 0)
  {
  }

  function CountResizes(t: seq<Event>): nat
    decreases |t|
  {
    if t == [] then 0 else (if t[0].Resize? then 1 else 0) + CountResizes(t[1..])
  }

  function CountRequests(t: seq<Event>): nat
    decreases |t|
  {
    if t == [] then 0 else (if t[0].Request? then 1 else 0) + CountRequests(t[1..])
  }

  function TotalWait(t: seq<Event>): nat
    decreases |t|
  {
    if t == [] then 0 else (if t[0].Wait? then t[0].dt else 0) + TotalWait(t[1..])
  }

  predicate NoFire(t: seq<Event>) {
    forall i :: 0 <= i < |t| ==> !t[i].Fire?
  }

  /** The clock reading at the first `Resize` of `t`, starting from `now`. */
  function FirstResizeTime(now: nat, t: seq<Event>): nat
    decreases |t|
  {
    if t == [] then now
    else if t[0].Resize? then now
    else if t[0].Wait? then FirstResizeTime(now + t[0].dt, t[1..])
    else FirstResizeTime(now, t[1..])
  }

  // ------------------------------------------------------------ invariant

  /** Throttled emissions are at least one delay apart. */
  predicate Spaced(log: seq<Emission>) {
    forall i, j :: 0 <= i < j < |log| && log[i].cause == Throttled && log[j].cause == Throttled ==>
      log[i].time + ThrottleDelay <= log[j].time
  }

  /**
   * The throttle's invariant: at most one timer is armed, and one is armed
   * exactly when the handle is pending; nothing was sent in the future; an
   * armed timer is due at least one delay after every throttled emission so
   * far; throttled emissions are spaced.
   */
  predicate Good(s: Throttle) {
    && |s.timers| <= 1
    && (s.pending <==> |s.timers| == 1)
    && (forall i :: 0 <= i < |s.log| ==> s.log[i].time <= s.now)
    && (s.pending ==> forall i :: 0 <= i < |s.log| && s.log[i].cause == Throttled ==>
          s.log[i].time + ThrottleDelay <= s.timers[0])
    && Spaced(s.log)
  }

  lemma InitialIsGood()
    ensures Good(Initial) && !Initial.pending && Initial.timers == [] && Initial.log == []
  {
  }

  lemma StepKeepsGood(s: Throttle, e: Event)
    requires Good(s) && Enabled(s, e)
    ensures Good(Step(s, e))
  {
  }

  lemma {:induction false} RunKeepsGood(s: Throttle, t: seq<Event>)
    requires Good(s) && Feasible(s, t)
    ensures Good(Run(s, t))
    decreases |t|
  {
    if t != [] {
      StepKeepsGood(s, t[0]);
      RunKeepsGood(Step(s, t[0]), t[1..]);
    }
  }

  /** From the initial state, at most one timer is ever armed, and one is armed exactly while the handle is pending. */
  lemma AtMostOneTimerArmed(t: seq<Event>)
    requires Feasible(Initial, t)
    ensures |Run(Initial, t).timers| <= 1
    ensures Run(Initial, t).pending <==> |Run(Initial, t).timers| == 1
  {
    RunKeepsGood(Initial, t);
  }

  /**
   * Within any window of one throttle delay at most one size originates from
   * the resize throttle: any two throttled emissions are a delay apart.
   */
  lemma ThrottledEmissionsSpaced(t: seq<Event>)
    requires Feasible(Initial, t)
    ensures Spaced(Run(Initial, t).log)
  {
    RunKeepsGood(Initial, t);
  }

  /**
   * Every throttled emission used up a timer armed by a resize signal, and
   * every request produced exactly one emission: over any trace, throttled
   * emissions plus armed timers never outnumber resize signals.
   */
  lemma {:induction false} EmissionsAccounted(s: Throttle, t: seq<Event>)
    requires Feasible(s, t)
    ensures CountCause(Run(s, t).log, Throttled) + |Run(s, t).timers|
         <= CountCause(s.log, Throttled) + |s.timers| + CountResizes(t)
    ensures CountCause(Run(s, t).log, Requested) == CountCause(s.log, Requested) + CountRequests(t)
    decreases |t|
  {
    if t != [] {
      var m := Step(s, t[0]);
      match t[0] {
        case Resize =>
        case Request(node) =>
          CountCauseAppend(s.log, Emission(GetSize(node), Requested, s.now), Throttled);
          CountCauseAppend(s.log, Emission(GetSize(node), Requested, s.now), Requested);
        case Fire(node) =>
          CountCauseAppend(s.log, Emission(GetSize(node), Throttled, s.now), Throttled);
          CountCauseAppend(s.log, Emission(GetSize(node), Throttled, s.now), Requested);
        case Wait(dt) =>
      }
      EmissionsAccounted(m, t[1..]);
    }
  }

  /**
   * A stretch of signals with no timer firing in between: it sends only the
   * requested sizes, arms a timer exactly when the throttle was idle and the
   * stretch holds a resize (due one delay after the first resize), and
   * otherwise leaves the handle and the armed timer alone.
   */
  lemma {:induction false} BurstArmsOnce(s: Throttle, t: seq<Event>)
    requires Good(s) && NoFire(t)
    ensures Feasible(s, t)
    ensures Good(Run(s, t))
    ensures Run(s, t).now == s.now + TotalWait(t)
    ensures Run(s, t).pending == (s.pending || CountResizes(t) > 0)
    ensures Run(s, t).timers ==
      if s.pending then s.timers
      else if CountResizes(t) > 0 then [FirstResizeTime(s.now, t) + ThrottleDelay]
      else []
    ensures CountCause(Run(s, t).log, Throttled) == CountCause(s.log, Throttled)
    ensures CountCause(Run(s, t).log, Requested) == CountCause(s.log, Requested) + CountRequests(t)
    decreases |t|
  {
    if t != [] {
      assert NoFire(t[1..]) by {
        forall i | 0 <= i < |t[1..]| ensures !t[1..][i].Fire? {
          assert t[1..][i] == t[i + 1];
        }
      }
      var m := Step(s, t[0]);
      StepKeepsGood(s, t[0]);
      match t[0] {
        case Resize =>
        case Request(node) =>
          CountCauseAppend(s.log, Emission(GetSize(node), Requested, s.now), Throttled);
          CountCauseAppend(s.log, Emission(GetSize(node), Requested, s.now), Requested);
        case Wait(dt) =>
      }
      BurstArmsOnce(m, t[1..]);
    }
  }

  /**
   * A burst of k >= 1 resize signals (with requests and waits, but no timer
   * firing, in between) that starts while idle leads to exactly one throttled
   * emission: the armed timer becomes due one delay after the first signal,
   * and when it fires the throttle is idle again with no timer armed and has
   * sent exactly one more size, the one read at fire time.
   */
  lemma BurstEmitsOnce(s: Throttle, t: seq<Event>, node: Node)
    requires Good(s) && !s.pending && NoFire(t) && CountResizes(t) >= 1
    ensures Feasible(s, t)
    ensures Run(s, t).pending && |Run(s, t).timers| == 1
    ensures CanFire(Run(s, t)) <==> s.now + TotalWait(t) >= FirstResizeTime(s.now, t) + ThrottleDelay
    ensures CanFire(Run(s, t)) ==>
      var f := Step(Run(s, t), Fire(node));
      && !f.pending && f.timers == []
      && CountCause(f.log, Throttled) == CountCause(s.log, Throttled) + 1
      && f.log == Run(s, t).log + [Emission(GetSize(node), Throttled, f.now)]
      && f.now >= FirstResizeTime(s.now, t) + ThrottleDelay
  {
    BurstArmsOnce(s, t);
    var r := Run(s, t);
    if CanFire(r) {
      CountCauseAppend(r.log, Emission(GetSize(node), Throttled, r.now), Throttled);
    }
  }

  /** After the timer has fired, the next resize signal arms a fresh timer. */
  lemma ResizeAfterFireArmsAgain(s: Throttle, node: Node)
    requires Good(s) && CanFire(s)
    ensures var f := Step(s, Fire(node));
      var g := Step(f, Resize);
      !f.pending && g.pending && g.timers == [f.now + ThrottleDelay] && g.log == f.log
  {
  }

  // ------------------------------------------------------------ the class

  /** The closure state of `addSizeEventListeners`, with the host's clock and timer queue. */
  class ResizeThrottler {
    var now: nat
    var pending: bool
    var timers: seq<nat>
    var log: seq<Emission>

    function State(): Throttle
      reads this
    {
      Throttle(now, pending, timers, log)
    }

    predicate Valid()
      reads this
    {
      Good(State())
    }

    /** No timer is pending at first, and nothing has been sent. */
    constructor ()
      ensures Valid() && State() == Initial
      ensures !pending && timers == [] && log == []
    {
      now, pending, timers, log := 0, false, [], [];
    }

    /** `resizeThrottler`: arms one timer when idle, otherwise does nothing. */
    method OnResize()
      requires Valid()
      modifies this
      ensures Valid() && State() == Step(old(State()), Resize)
      ensures old(pending) ==> State() == old(State())
      ensures !old(pending) ==>
        pending && timers == [now + ThrottleDelay] && log == old(log) && now == old(now)
    {
      ghost var s := State();
      if !pending {
        pending := true;
        timers := timers + [now + ThrottleDelay];
      }
      StepKeepsGood(s, Resize);
    }

    /** The timer callback: clears the handle, then sends the size read now. */
    method OnTimerFire(node: Node)
      requires Valid() && CanFire(State())
      modifies this
      ensures Valid() && State() == Step(old(State()), Fire(node))
      ensures !pending && timers == [] && now == old(now)
      ensures log == old(log) + [Emission(GetSize(node), Throttled, now)]
    {
      ghost var s := State();
      pending := false;
      timers := timers[1..];
      log := log + [Emission(GetSize(node), Throttled, now)];
      StepKeepsGood(s, Fire(node));
    }

    /** The `getSize` port handler: sends the current size at once, throttle untouched. */
    method RequestSize(node: Node)
      requires Valid()
      modifies this
      ensures Valid() && State() == Step(old(State()), Request(node))
      ensures pending == old(pending) && timers == old(timers) && now == old(now)
      ensures log == old(log) + [Emission(GetSize(node), Requested, now)]
    {
      ghost var s := State();
      log := log + [Emission(GetSize(node), Requested, now)];
      StepKeepsGood(s, Request(node));
    }

    /** The abstract clock advances; armed timers stay armed until their callback runs. */
    method Advance(dt: nat)
      requires Valid()
      modifies this
      ensures Valid() && State() == Step(old(State()), Wait(dt))
      ensures now == old(now) + dt
      ensures pending == old(pending) && timers == old(timers) && log == old(log)
    {
      ghost var s := State();
      now := now + dt;
      StepKeepsGood(s, Wait(dt));
    }
  }
}
