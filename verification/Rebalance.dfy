/**
 The debounced, single-flight repair of published records: a request is never
 forgotten, and failing passes are retried at most twice between successes.
 */
module Rebalance {
  import opened Outcomes

  /** `timer` holds the delay the timer was armed with, `inFlight` names the running pass. */
  datatype Fields = Fields(started: bool, closing: bool, timer: Option<int>, inFlight: Option<nat>, dirty: bool, retryAttempt: nat)

  const FRESH := Fields(false, false, None, None, false, 0)
  const MAX_RETRIES := 2

  function Clamp(delayMs: int): int {
    if delayMs < 250 then 250 else if delayMs > 30_000 then 30_000 else delayMs
  }

  function Schedule(f: Fields, delayMs: int): Fields {
    if !f.started || f.closing then f
    else if f.inFlight.Some? then f.(dirty := true)
    else f.(timer := Some(Clamp(delayMs)))
  }

  /** The timer callback; `pass` names the pass it starts, if it starts one. */
  function RunPass(f: Fields, pass: nat): Fields {
    var g := f.(timer := None);
    if !g.started || g.closing then g
    else if g.inFlight.Some? then g.(dirty := true)
    else g.(dirty := false, inFlight := Some(pass))
  }

  datatype PassResult = Succeeded | StoresFailed | Threw

  /** The retry a finished pass asks for, and the attempt counter after it. */
  function Retry(attempt: nat, result: PassResult): (Option<int>, nat) {
    if result.Succeeded? then (None, 0)
    else if attempt < MAX_RETRIES then (Some(if attempt == 0 then 5_000 else 15_000), attempt + 1)
    else (None, attempt)
  }

  /** `finally`: a request that came in during the pass wins over a retry. */
  function FinishPass(f: Fields, retryDelayMs: Option<int>): Fields {
    var g := f.(inFlight := None);
    if !g.started || g.closing then g
    else if g.dirty then Schedule(g.(dirty := false), 1_500)
    else if retryDelayMs.Some? then Schedule(g, retryDelayMs.value)
    else g
  }

  // ---- The protocol ---------------------------------------------------------------------------

  /**
   `pass`: the running pass and, once its work is done, the retry it wants.
   `requested` counts requests on an open node, `covered` those a later pass has
   taken up or a close has abandoned.
   */
  datatype State = State(f: Fields, pass: Option<Pass>, requested: nat, covered: nat, nextPass: nat,
                         retries: nat)

  datatype Pass = Working | Done(retryDelayMs: Option<int>)

  datatype Event = Request(delayMs: int) | Fire | Complete(result: PassResult) | Finish | Start | Close | Stop

  const INITIAL := State(FRESH, None, 0, 0, 0, 0)

  function Step(s: State, e: Event): State {
    match e
    case Request(delayMs) =>
      s.(f := Schedule(s.f, delayMs), requested := if s.f.started && !s.f.closing then s.requested + 1 else s.requested)
    case Fire =>
      if s.f.timer.None? then s
      else
        var f := RunPass(s.f, s.nextPass);
        if f.inFlight == s.f.inFlight then s.(f := f)
        else s.(f := f, pass := Some(Working), covered := s.requested, nextPass := s.nextPass + 1)
    case Complete(result) =>
      if s.pass != Some(Working) then s
      else
        var (delay, attempt) := Retry(s.f.retryAttempt, result);
        s.(f := s.f.(retryAttempt := attempt), pass := Some(Done(delay)),
           retries := if result.Succeeded? then 0 else if delay.Some? then s.retries + 1 else s.retries)
    case Finish =>
      if s.pass.None? || s.pass.value.Working? then s
      else s.(f := FinishPass(s.f, s.pass.value.retryDelayMs), pass := None)
    case Start => s.(f := s.f.(started := true, closing := false))
    case Close => s.(f := s.f.(closing := true, timer := None), covered := s.requested)
    case Stop => if s.f.closing then s.(f := s.f.(started := false)) else s
  }

  function Run(s: State, events: seq<Event>): State
    decreases |events|
  {
    if events == [] then s else Run(Step(s, events[0]), events[1..])
  }

  ghost predicate Inv(s: State) {
    && s.covered <= s.requested
    && (s.pass.Some? <==> s.f.inFlight.Some?)
    && (s.covered < s.requested ==> s.f.started && !s.f.closing)
    && (s.covered < s.requested ==> s.f.timer.Some? || (s.f.inFlight.Some? && s.f.dirty))
    && s.retries == s.f.retryAttempt <= MAX_RETRIES
  }

  lemma StepKeepsInv(s: State, e: Event)
    requires Inv(s)
    ensures Inv(Step(s, e))
  {}

  lemma {:induction false} RunKeepsInv(s: State, events: seq<Event>)
    requires Inv(s)
    ensures Inv(Run(s, events))
    decreases |events|
  {
    if events != [] {
      StepKeepsInv(s, events[0]);
      RunKeepsInv(Step(s, events[0]), events[1..]);
    }
  }

  /**
   In every run, on a started and open node, a request that no later pass has
   taken up has a timer armed for it, or a pass is in flight and will see the dirty flag.
   */
  lemma RequestIsNeverLost(events: seq<Event>)
    ensures var s := Run(INITIAL, events);
            s.covered < s.requested ==> s.f.timer.Some? || (s.f.inFlight.Some? && s.f.dirty)
  {
    RunKeepsInv(INITIAL, events);
  }

  /** In every run at most two retries are scheduled between two fully successful passes. */
  lemma RetriesAreBounded(events: seq<Event>)
    ensures Run(INITIAL, events).retries <= MAX_RETRIES
  {
    RunKeepsInv(INITIAL, events);
  }

  /** What the dirty flag is for: when the pass that saw it ends, a timer is armed. */
  lemma DirtyPassRearms(events: seq<Event>)
    requires var s := Run(INITIAL, events);
             s.covered < s.requested && s.f.timer.None? && s.pass.Some? && s.pass.value.Done?
    ensures Step(Run(INITIAL, events), Finish).f.timer == Some(1_500)
  {
    RunKeepsInv(INITIAL, events);
  }

  /** A pass that failed and saw no new request is retried after 5 seconds, then after 15, and then no more. */
  lemma FailedPassIsRetried(s: State, result: PassResult)
    requires Inv(s) && s.pass == Some(Working) && s.f.started && !s.f.closing && !s.f.dirty && !result.Succeeded?
    ensures var s' := Step(Step(s, Complete(result)), Finish);
            && s'.pass.None? && s'.f.inFlight.None?
            && (s.f.retryAttempt == 0 ==> s'.f.timer == Some(5_000) && s'.f.retryAttempt == 1)
            && (s.f.retryAttempt == 1 ==> s'.f.timer == Some(15_000) && s'.f.retryAttempt == 2)
            && (s.f.retryAttempt == 2 ==> s'.f.timer == s.f.timer && s'.f.retryAttempt == 2)
  {}

  /** A pass that succeeded starts the count again and asks for no retry. */
  lemma SuccessEndsTheRetries(s: State)
    requires Inv(s) && s.pass == Some(Working) && !s.f.dirty
    ensures var s' := Step(Step(s, Complete(Succeeded)), Finish);
            s'.f.retryAttempt == 0 && s'.f.timer == s.f.timer && s'.f.inFlight.None?
  {}

  /** A pass that ends while the node closes arms nothing and leaves a request marked. */
  lemma ClosingEndsThePass(s: State, result: PassResult)
    requires s.pass == Some(Working) && s.f.closing
    ensures var s' := Step(Step(s, Complete(result)), Finish);
            s'.pass.None? && s'.f.inFlight.None? && s'.f.timer == s.f.timer && s'.f.dirty == s.f.dirty
  {}

  /** A request on an idle, open node arms the timer with its delay, kept between a quarter of a second and half a minute. */
  lemma RequestArmsTheTimer(s: State, delayMs: int)
    requires s.f.started && !s.f.closing && s.f.inFlight.None?
    ensures var f := Step(s, Request(delayMs)).f;
            && f.timer.Some? && 250 <= f.timer.value <= 30_000
            && (250 <= delayMs <= 30_000 ==> f.timer.value == delayMs)
            && (delayMs < 250 ==> f.timer.value == 250) && (delayMs > 30_000 ==> f.timer.value == 30_000)
  {}

  /** The timer starts a pass that takes up every request so far; while a pass runs it only marks it dirty. */
  lemma TimerStartsAPass(s: State)
    requires Inv(s) && s.f.timer.Some? && s.f.started && !s.f.closing
    ensures var s' := Step(s, Fire);
            && s'.f.timer.None?
            && (s.f.inFlight.None? ==> s'.pass == Some(Working) && s'.f.inFlight == Some(s.nextPass) && !s'.f.dirty && s'.covered == s.requested)
            && (s.f.inFlight.Some? ==> s'.f.dirty && s'.pass == s.pass)
  {}
}
