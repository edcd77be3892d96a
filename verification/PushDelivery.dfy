/**
 Push notifications of one task. Drains run concurrently; each takes the events
 beyond the push cursor, moves the cursor, and only then starts to push.
 */
module PushDelivery {
  import opened TaskIndex

  type ConfigId = nat
  type EventIndex = nat

  datatype Push = Push(index: EventIndex, config: ConfigId)

  /**
   `logged` is the length of the task's log; each job is what one drain has still to push.
   `present` and `audience` record, for each event, the configs that were there when it
   was logged and those it was taken up for.
   */
  datatype State = State(logged: nat, cursor: nat, configs: seq<ConfigId>, jobs: seq<seq<Push>>, sent: seq<Push>,
                         present: seq<set<ConfigId>>, audience: seq<set<ConfigId>>)

  const FRESH := State(0, 0, [], [], [], [], [])

  function Contents(configs: seq<ConfigId>): set<ConfigId> {
    set id | id in configs
  }

  function PushesOf(index: EventIndex, configs: seq<ConfigId>): seq<Push> {
    if configs == [] then [] else [Push(index, configs[0])] + PushesOf(index, configs[1..])
  }

  /** Events outermost, configs in their order of insertion. */
  function Batch(from: nat, until: nat, configs: seq<ConfigId>): seq<Push>
    decreases until - from
  {
    if from >= until then [] else PushesOf(from, configs) + Batch(from + 1, until, configs)
  }

  function Repeat(s: set<ConfigId>, n: nat): (r: seq<set<ConfigId>>)
    ensures |r| == n && forall i | 0 <= i < n :: r[i] == s
  {
    if n == 0 then [] else [s] + Repeat(s, n - 1)
  }

  // ---- Steps -------------------------------------------------------------------------

  datatype Event =
    | Logged(count: nat)              // events were appended to the log
    | Drained                         // deliverPendingPushEvents up to its first await
    | Pushed(job: nat)                // a job makes its next push, whether or not it succeeds
    | ConfigCreated(id: ConfigId)     // a new or replaced config; the cursor skips to the end
    | ConfigDeleted(id: ConfigId)

  function Drain(s: State): State {
    s.(cursor := s.logged, jobs := s.jobs + [Batch(s.cursor, s.logged, s.configs)],
       audience := s.audience + Repeat(Contents(s.configs), if s.cursor <= s.logged then s.logged - s.cursor else 0))
  }

  function Step(s: State, e: Event): State {
    match e
    case Logged(count) => s.(logged := s.logged + count, present := s.present + Repeat(Contents(s.configs), count))
    case Drained => Drain(s)
    case Pushed(job) =>
      if job < |s.jobs| && s.jobs[job] != []
      then s.(jobs := s.jobs[job := s.jobs[job][1..]], sent := s.sent + [s.jobs[job][0]])
      else s
    case ConfigCreated(id) =>
      s.(configs := if id in s.configs then s.configs else s.configs + [id], cursor := s.logged,
         audience := s.audience + Repeat({}, if s.cursor <= s.logged then s.logged - s.cursor else 0))
    case ConfigDeleted(id) => s.(configs := Without(s.configs, id))
  }

  function Run(s: State, es: seq<Event>): State
    decreases |es|
  {
    if es == [] then s else Run(Step(s, es[0]), es[1..])
  }

  // ---- Counting pushes ------------------------------------------------------------------

  function Waiting(jobs: seq<seq<Push>>): multiset<Push> {
    if jobs == [] then multiset{} else multiset(jobs[0]) + Waiting(jobs[1..])
  }

  function All(s: State): multiset<Push> {
    multiset(s.sent) + Waiting(s.jobs)
  }

  lemma {:induction false} WaitingAppended(jobs: seq<seq<Push>>, job: seq<Push>)
    ensures Waiting(jobs + [job]) == Waiting(jobs) + multiset(job)
  {
    if jobs == [] {
      assert jobs + [job] == [job];
      assert Waiting([job]) == multiset(job) + Waiting([]);
    } else {
      assert (jobs + [job])[0] == jobs[0] && (jobs + [job])[1..] == jobs[1..] + [job];
      WaitingAppended(jobs[1..], job);
    }
  }

  lemma {:induction false} WaitingShrinks(jobs: seq<seq<Push>>, k: nat)
    requires k < |jobs| && jobs[k] != []
    ensures Waiting(jobs) == Waiting(jobs[k := jobs[k][1..]]) + multiset{jobs[k][0]}
  {
    var after := jobs[k := jobs[k][1..]];
    if k == 0 {
      assert jobs[0] == [jobs[0][0]] + jobs[0][1..];
      assert multiset(jobs[0]) == multiset{jobs[0][0]} + multiset(jobs[0][1..]);
      assert after[1..] == jobs[1..];
    } else {
      WaitingShrinks(jobs[1..], k - 1);
      assert after[1..] == jobs[1..][k - 1 := jobs[k][1..]];
    }
  }

  predicate Distinct(configs: seq<ConfigId>) {
    forall i, j | 0 <= i < j < |configs| :: configs[i] != configs[j]
  }

  lemma {:induction false} PushesOfCount(index: EventIndex, configs: seq<ConfigId>, p: Push)
    requires Distinct(configs)
    ensures multiset(PushesOf(index, configs))[p] == if p.index == index && p.config in configs then 1 else 0
  {
    if configs != [] {
      PushesOfCount(index, configs[1..], p);
      assert configs == [configs[0]] + configs[1..];
      assert configs[0] !in configs[1..];
      assert multiset(PushesOf(index, configs)) == multiset{Push(index, configs[0])} + multiset(PushesOf(index, configs[1..]));
    }
  }

  function Count(pushes: seq<Push>, p: Push): nat {
    multiset(pushes)[p]
  }

  lemma CountConcat(a: seq<Push>, b: seq<Push>, p: Push)
    ensures Count(a + b, p) == Count(a, p) + Count(b, p)
  {}

  /** The push is one of the batch. */
  predicate Hit(from: nat, until: nat, configs: seq<ConfigId>, p: Push) {
    from <= p.index < until && p.config in configs
  }

  function One(b: bool): nat {
    if b then 1 else 0
  }

  lemma BatchStep(from: nat, until: nat, configs: seq<ConfigId>, p: Push)
    requires from < until && Distinct(configs)
    ensures Count(Batch(from, until, configs), p) == Count(PushesOf(from, configs), p) + Count(Batch(from + 1, until, configs), p)
  {
    BatchSplits(from, until, configs);
    CountConcat(PushesOf(from, configs), Batch(from + 1, until, configs), p);
  }

  /** A batch holds each of its events once for each config. */
  lemma {:induction false} BatchCount(from: nat, until: nat, configs: seq<ConfigId>, p: Push)
    requires from <= until && Distinct(configs)
    ensures Count(Batch(from, until, configs), p) == One(Hit(from, until, configs, p))
    decreases until - from
  {
    if from < until {
      BatchStep(from, until, configs, p);
      HeadCount(from, configs, p);
      BatchCount(from + 1, until, configs, p);
    } else {
      NoBatch(from, until, configs);
    }
  }

  lemma HeadCount(index: EventIndex, configs: seq<ConfigId>, p: Push)
    requires Distinct(configs)
    ensures Count(PushesOf(index, configs), p) == if p.index == index && p.config in configs then 1 else 0
  {
    PushesOfCount(index, configs, p);
  }

  lemma BatchSplits(from: nat, until: nat, configs: seq<ConfigId>)
    requires from < until
    ensures Batch(from, until, configs) == PushesOf(from, configs) + Batch(from + 1, until, configs)
  {}

  lemma NoBatch(from: nat, until: nat, configs: seq<ConfigId>)
    requires from >= until
    ensures Batch(from, until, configs) == []
  {}

  // ---- The invariant -----------------------------------------------------------------------

  /** How often an event is pushed or about to be pushed to a config. */
  ghost function Due(audience: seq<set<ConfigId>>, p: Push): nat {
    if p.index < |audience| && p.config in audience[p.index] then 1 else 0
  }

  ghost predicate Inv(s: State) {
    && s.cursor <= s.logged == |s.present| && |s.audience| == s.cursor && Distinct(s.configs)
    && forall p :: All(s)[p] == Due(s.audience, p)
  }

  lemma DrainKeeps(s: State)
    requires Inv(s)
    ensures Inv(Drain(s))
  {
    var d := Drain(s);
    forall p ensures All(d)[p] == Due(d.audience, p) {
      DrainCount(s, p);
      BatchCount(s.cursor, s.logged, s.configs, p);
      assert All(s)[p] == Due(s.audience, p);
    }
  }

  lemma DrainCount(s: State, p: Push)
    ensures All(Drain(s))[p] == All(s)[p] + Count(Batch(s.cursor, s.logged, s.configs), p)
  {
    WaitingAppended(s.jobs, Batch(s.cursor, s.logged, s.configs));
  }

  lemma PushKeeps(s: State, job: nat)
    requires Inv(s)
    ensures Inv(Step(s, Pushed(job)))
  {
    if job < |s.jobs| && s.jobs[job] != [] {
      var d := Step(s, Pushed(job));
      WaitingShrinks(s.jobs, job);
      assert All(d) == All(s);
      forall p ensures All(d)[p] == Due(d.audience, p) {
        assert All(s)[p] == Due(s.audience, p);
      }
    }
  }

  lemma ConfigKeeps(s: State, e: Event)
    requires Inv(s) && (e.ConfigCreated? || e.ConfigDeleted? || e.Logged?)
    ensures Inv(Step(s, e))
  {
    var d := Step(s, e);
    if e.ConfigDeleted? { WithoutContents(s.configs, e.id); }
    assert All(d) == All(s);
    forall p ensures All(d)[p] == Due(d.audience, p) {
      assert All(s)[p] == Due(s.audience, p);
    }
  }

  lemma StepKeepsInv(s: State, e: Event)
    requires Inv(s)
    ensures Inv(Step(s, e))
  {
    match e
    case Drained => DrainKeeps(s);
    case Pushed(job) => PushKeeps(s, job);
    case _ => ConfigKeeps(s, e);
  }

  lemma {:induction false} RunKeepsInv(s: State, es: seq<Event>)
    requires Inv(s)
    ensures Inv(Run(s, es))
    decreases |es|
  {
    if es != [] {
      StepKeepsInv(s, es[0]);
      RunKeepsInv(Step(s, es[0]), es[1..]);
    }
  }

  /** Creating and deleting a config does that, and nothing to the others; creating one skips to the end of the log. */
  lemma ConfigsAreAsAsked(s: State, id: ConfigId)
    requires Inv(s)
    ensures Contents(Step(s, ConfigCreated(id)).configs) == Contents(s.configs) + {id}
    ensures Contents(Step(s, ConfigDeleted(id)).configs) == Contents(s.configs) - {id}
    ensures Step(s, ConfigCreated(id)).cursor == s.logged && Step(s, ConfigDeleted(id)).cursor == s.cursor
  {
    WithoutContents(s.configs, id);
  }

  /** A job makes its pushes one by one, first to last. */
  lemma JobsPushInOrder(s: State, job: nat)
    requires job < |s.jobs| && s.jobs[job] != []
    ensures var s' := Step(s, Pushed(job));
            s'.sent == s.sent + [s.jobs[job][0]] && [s.jobs[job][0]] + s'.jobs[job] == s.jobs[job]
  {}

  // ---- Results --------------------------------------------------------------------------------

  lemma MultisetOfDistinct(s: seq<Push>, i: nat, j: nat)
    requires i < j < |s| && s[i] == s[j]
    ensures multiset(s)[s[i]] >= 2
  {
    assert s == s[..j] + s[j..];
    assert s[i] in s[..j];
    assert s[j] in s[j..];
    assert multiset(s) == multiset(s[..j]) + multiset(s[j..]);
    assert multiset(s[..j])[s[i]] >= 1 && multiset(s[j..])[s[i]] >= 1;
  }

  /** However drains interleave, no event is pushed twice to the same config. */
  lemma PushedAtMostOnce(es: seq<Event>, i: nat, j: nat)
    requires var sent := Run(FRESH, es).sent; i < j < |sent|
    ensures var sent := Run(FRESH, es).sent; sent[i] != sent[j]
  {
    RunKeepsInv(FRESH, es);
    var s := Run(FRESH, es);
    assert All(s)[s.sent[i]] == Due(s.audience, s.sent[i]) <= 1;
    if s.sent[i] == s.sent[j] {
      MultisetOfDistinct(s.sent, i, j);
    }
  }

  lemma {:induction false} CursorNeverFallsBack(s: State, es: seq<Event>)
    requires Inv(s)
    ensures s.cursor <= Run(s, es).cursor && s.audience <= Run(s, es).audience
    decreases |es|
  {
    if es != [] {
      StepKeepsInv(s, es[0]);
      CursorNeverFallsBack(Step(s, es[0]), es[1..]);
    }
  }

  /** The server drains in the same step in which it appended to the log. */
  predicate Prompt(es: seq<Event>)
    decreases |es|
  {
    es == [] || (if es[0].Logged? then |es| >= 2 && es[1].Drained? && Prompt(es[2..]) else Prompt(es[1..]))
  }

  ghost predicate InStep(s: State) {
    s.cursor == s.logged && s.audience == s.present
  }

  lemma LoggedThenDrained(s: State, count: nat)
    requires Inv(s) && InStep(s)
    ensures InStep(Step(Step(s, Logged(count)), Drained))
  {}

  lemma OtherKeepsInStep(s: State, e: Event)
    requires Inv(s) && InStep(s) && !e.Logged?
    ensures InStep(Step(s, e))
  {}

  lemma {:induction false} PromptKeepsInStep(s: State, es: seq<Event>)
    requires Inv(s) && InStep(s) && Prompt(es)
    ensures InStep(Run(s, es))
    decreases |es|
  {
    if es != [] {
      var s1 := Step(s, es[0]);
      StepKeepsInv(s, es[0]);
      if es[0].Logged? {
        LoggedThenDrained(s, es[0].count);
        StepKeepsInv(s1, Drained);
        assert es[1..][0] == Drained && es[1..][1..] == es[2..];
        PromptKeepsInStep(Step(s1, Drained), es[2..]);
      } else {
        OtherKeepsInStep(s, es[0]);
        PromptKeepsInStep(s1, es[1..]);
      }
    }
  }

  /**
   When all jobs have ended, each event has been pushed exactly once to each config
   that was there when it was logged, and to no other.
   */
  lemma PushedExactlyOnce(es: seq<Event>, p: Push)
    requires Prompt(es) && forall j | 0 <= j < |Run(FRESH, es).jobs| :: Run(FRESH, es).jobs[j] == []
    ensures var s := Run(FRESH, es);
            |s.present| == s.logged && multiset(s.sent)[p] == if p.index < s.logged && p.config in s.present[p.index] then 1 else 0
  {
    RunKeepsInv(FRESH, es);
    PromptKeepsInStep(FRESH, es);
    var s := Run(FRESH, es);
    NothingWaits(s.jobs);
    assert All(s)[p] == Due(s.audience, p);
  }

  lemma {:induction false} NothingWaits(jobs: seq<seq<Push>>)
    requires forall j | 0 <= j < |jobs| :: jobs[j] == []
    ensures Waiting(jobs) == multiset{}
  {
    if jobs != [] { NothingWaits(jobs[1..]); }
  }

  /**
   The promptness matters: a config created between an append and its drain takes
   the cursor past the event, and the configs already there never get it.
   */
  lemma CreatingAConfigCanSkipEvents(a: ConfigId, b: ConfigId)
    ensures var s := Run(FRESH, [ConfigCreated(a), Logged(1), ConfigCreated(b), Drained]);
            |s.present| == 1 && a in s.present[0] && All(s)[Push(0, a)] == 0 && s.cursor == s.logged == 1
  {
    var es := [ConfigCreated(a), Logged(1), ConfigCreated(b), Drained];
    RunKeepsInv(FRESH, es);
    var s1 := Step(FRESH, es[0]);
    var s2 := Step(s1, es[1]);
    var s3 := Step(s2, es[2]);
    var s4 := Step(s3, es[3]);
    assert es[1..] == [es[1], es[2], es[3]] && es[1..][1..] == [es[2], es[3]] && es[1..][1..][1..] == [es[3]];
    assert Run(FRESH, es) == Run(s1, es[1..]) == Run(s2, es[1..][1..]) == Run(s3, [es[3]]) == Run(s4, [es[3]][1..]) == s4;
    assert a in s1.configs;
    assert All(s4)[Push(0, a)] == Due(s4.audience, Push(0, a));
    assert s4.audience == [{}];
  }

  // ---- The loops of a drain --------------------------------------------------------------------

  lemma NextPush(index: EventIndex, configs: seq<ConfigId>, k: nat, before: seq<Push>)
    requires k < |configs|
    ensures before + PushesOf(index, configs[k..]) == before + [Push(index, configs[k])] + PushesOf(index, configs[k + 1..])
  {
    assert configs[k..][0] == configs[k] && configs[k..][1..] == configs[k + 1..];
    assert PushesOf(index, configs[k..]) == [Push(index, configs[k])] + PushesOf(index, configs[k + 1..]);
  }

  /** The inner loop: one event to each configuration. */
  method PushOne(index: EventIndex, configs: seq<ConfigId>) returns (pushes: seq<Push>)
    ensures pushes == PushesOf(index, configs)
  {
    pushes := [];
    var k := 0;
    assert configs[0..] == configs;
    while k < |configs|
      invariant 0 <= k <= |configs| && pushes + PushesOf(index, configs[k..]) == PushesOf(index, configs)
    {
      NextPush(index, configs, k, pushes);
      pushes := pushes + [Push(index, configs[k])];
      k := k + 1;
    }
    assert configs[k..] == [];
  }

  lemma NextEvent(from: nat, until: nat, configs: seq<ConfigId>, before: seq<Push>)
    requires from < until
    ensures before + Batch(from, until, configs) == before + PushesOf(from, configs) + Batch(from + 1, until, configs)
  {
    BatchSplits(from, until, configs);
  }

  /** The pushes of one drain, in the order in which its loops make them. */
  method PushesInOrder(from: nat, until: nat, configs: seq<ConfigId>) returns (pushes: seq<Push>)
    requires from <= until
    ensures pushes == Batch(from, until, configs)
  {
    pushes := [];
    var i := from;
    while i < until
      invariant from <= i <= until && pushes + Batch(i, until, configs) == Batch(from, until, configs)
    {
      NextEvent(i, until, configs, pushes);
      var batch := PushOne(i, configs);
      pushes := pushes + batch;
      i := i + 1;
    }
    NoBatch(i, until, configs);
  }
}
