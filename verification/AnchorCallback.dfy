/**
  SEP-24 callbacks: a Redis claim per provider transaction, released only when processing fails, and the status
  polls that submit the same contributions without it.  Handlers interleave step by step and may crash; Redis
  itself does not fail.
*/
module AnchorCallback {
  import opened SetSizes

  /** Seven days, in seconds. */
  const TTL := 604_800

  /** `Loaded` holds whether the deposit row already carried a contribution. */
  datatype Phase = Entered | Loaded(contributed: bool) | Sent | Failing | Done | Answered500 | PollFailed | Crashed

  /** A callback past its claim, or a status poll, which takes no claim. */
  datatype Handler = Handler(event: string, polling: bool, enteredAt: nat, phase: Phase, submitted: bool)

  /** `claims` maps an event to the expiry of its key; `contributed` are the events whose row has a contribution. */
  datatype State = State(now: nat, claims: map<string, nat>, contributed: set<string>, handlers: seq<Handler>)

  datatype Act =
    | Tick(elapsed: nat)
    | Deliver(event: string)
    | Poll(event: string)
    | Load(handler: nat)
    | Submit(handler: nat)
    | Record(handler: nat)
    | Finish(handler: nat)
    | Fail(handler: nat)
    | Release(handler: nat)
    | Crash(handler: nat)
    | RecordedElsewhere(event: string)

  const START := State(0, map[], {}, [])

  predicate Taken(claims: map<string, nat>, event: string, now: nat) {
    event in claims && now < claims[event]
  }

  /** `SET key 1 EX ttl NX`. */
  function ClaimsAfter(claims: map<string, nat>, event: string, now: nat): map<string, nat> {
    if Taken(claims, event, now) then claims else claims[event := now + TTL]
  }

  class ClaimStore {
    var claims: map<string, nat>

    constructor ()
      ensures claims == map[]
    {
      claims := map[];
    }

    method ClaimProviderEvent(event: string, now: nat) returns (first: bool)
      modifies this
      ensures first <==> !(event in old(claims) && now < old(claims)[event])
      ensures claims == if first then old(claims)[event := now + 604_800] else old(claims)
      ensures claims == ClaimsAfter(old(claims), event, now) && Taken(claims, event, now)
    {
      if event in claims && now < claims[event] { return false; }
      claims := claims[event := now + TTL];
      return true;
    }

    method Del(event: string)
      modifies this
      ensures claims == old(claims) - {event}
    {
      claims := claims - {event};
    }
  }

  predicate Working(h: Handler) {
    h.phase.Entered? || h.phase.Loaded? || h.phase.Sent? || h.phase.Failing?
  }

  /** The handler's new state where the step is enabled; other steps change nothing. */
  function Moved(s: State, i: nat, enabled: bool, h: Handler): State
    requires i < |s.handlers|
  {
    if enabled then s.(handlers := s.handlers[i := h]) else s
  }

  function HandlerStep(s: State, a: Act, i: nat): State
    requires i < |s.handlers|
  {
    var h := s.handlers[i];
    match a
    case Load(_) => Moved(s, i, h.phase.Entered?, h.(phase := Loaded(h.event in s.contributed)))
    case Submit(_) => Moved(s, i, h.phase == Loaded(false), h.(phase := Sent, submitted := true))
    case Record(_) =>
      if h.phase.Sent? then s.(handlers := s.handlers[i := h.(phase := Done)], contributed := s.contributed + {h.event}) else s
    case Finish(_) => Moved(s, i, h.phase.Loaded?, h.(phase := Done))
    case Fail(_) => Moved(s, i, Working(h), h.(phase := if h.polling then PollFailed else Failing))
    case Release(_) =>
      if h.phase.Failing? then s.(handlers := s.handlers[i := h.(phase := Answered500)], claims := s.claims - {h.event}) else s
    case Crash(_) => Moved(s, i, Working(h), h.(phase := Crashed))
    case _ => s
  }

  function Step(s: State, a: Act): State {
    match a
    case Tick(elapsed) => s.(now := s.now + elapsed)
    case Deliver(event) =>
      if Taken(s.claims, event, s.now) then s
      else s.(claims := ClaimsAfter(s.claims, event, s.now),
              handlers := s.handlers + [Handler(event, false, s.now, Entered, false)])
    case Poll(event) => s.(handlers := s.handlers + [Handler(event, true, s.now, Entered, false)])
    case RecordedElsewhere(event) => s.(contributed := s.contributed + {event})
    case _ => if a.handler < |s.handlers| then HandlerStep(s, a, a.handler) else s
  }

  function Run(acts: seq<Act>): State {
    if acts == [] then START else Step(Run(acts[..|acts| - 1]), acts[|acts| - 1])
  }

  /** No callback is still at work when its claim expires. */
  ghost predicate InTime(s: State) {
    forall i | 0 <= i < |s.handlers| && Working(s.handlers[i]) && !s.handlers[i].polling ::
      s.now < s.handlers[i].enteredAt + TTL
  }

  ghost predicate Timely(acts: seq<Act>) {
    InTime(Run(acts)) && (acts != [] ==> Timely(acts[..|acts| - 1]))
  }

  // ------------------------------------------------------------------ phases

  predicate Succeeded(h: Handler) {
    h.submitted && h.phase.Done?
  }

  ghost predicate PhasesAgree(s: State) {
    && (forall i | 0 <= i < |s.handlers| :: Succeeded(s.handlers[i]) ==> s.handlers[i].event in s.contributed)
    && (forall i | 0 <= i < |s.handlers| :: s.handlers[i].phase.Sent? ==> s.handlers[i].submitted)
    && (forall i | 0 <= i < |s.handlers| :: s.handlers[i].phase.Entered? || s.handlers[i].phase.Loaded? ==> !s.handlers[i].submitted)
    && (forall i | 0 <= i < |s.handlers| :: s.handlers[i].phase.Failing? ==> !s.handlers[i].polling)
  }

  lemma StepKeepsPhases(s: State, a: Act)
    requires PhasesAgree(s)
    ensures PhasesAgree(Step(s, a))
  {}

  lemma {:induction false} RunKeepsPhases(acts: seq<Act>)
    ensures PhasesAgree(Run(acts))
  {
    if acts != [] {
      RunKeepsPhases(acts[..|acts| - 1]);
      StepKeepsPhases(Run(acts[..|acts| - 1]), acts[|acts| - 1]);
    }
  }

  // ------------------------------------------------------------------ the claim

  ghost predicate Exclusive(s: State) {
    && (forall i | 0 <= i < |s.handlers| && Working(s.handlers[i]) && !s.handlers[i].polling ::
          s.handlers[i].event in s.claims && s.claims[s.handlers[i].event] == s.handlers[i].enteredAt + TTL)
    && forall i, j | 0 <= i < j < |s.handlers| && Working(s.handlers[i]) && Working(s.handlers[j])
                     && !s.handlers[i].polling && !s.handlers[j].polling ::
         s.handlers[i].event != s.handlers[j].event
  }

  predicate ByHandler(s: State, a: Act) {
    && !a.Tick? && !a.Deliver? && !a.Poll? && !a.RecordedElsewhere? && a.handler < |s.handlers|
  }

  lemma HandlerKeepsExclusive(s: State, a: Act)
    requires PhasesAgree(s) && Exclusive(s) && ByHandler(s, a)
    ensures Exclusive(HandlerStep(s, a, a.handler))
  {}

  lemma StepKeepsExclusive(s: State, a: Act)
    requires PhasesAgree(s) && Exclusive(s) && InTime(s)
    ensures Exclusive(Step(s, a))
  {
    hide HandlerStep;
    if ByHandler(s, a) { HandlerKeepsExclusive(s, a); }
  }

  lemma {:induction false} RunKeepsExclusive(acts: seq<Act>)
    requires Timely(acts)
    ensures Exclusive(Run(acts))
  {
    if acts != [] {
      RunKeepsExclusive(acts[..|acts| - 1]);
      RunKeepsPhases(acts[..|acts| - 1]);
      StepKeepsExclusive(Run(acts[..|acts| - 1]), acts[|acts| - 1]);
    }
  }

  /** At most one callback of an event is past the claim and still at work. */
  lemma OneHandlerPerEvent(acts: seq<Act>, i: nat, j: nat)
    requires Timely(acts)
    requires var s := Run(acts);
             && i < |s.handlers| && Working(s.handlers[i]) && !s.handlers[i].polling
             && j < |s.handlers| && Working(s.handlers[j]) && !s.handlers[j].polling
    requires Run(acts).handlers[i].event == Run(acts).handlers[j].event
    ensures i == j
  {
    RunKeepsExclusive(acts);
  }

  /** A redelivery enters beside a callback still at work exactly when the claim has run out. */
  lemma OverlapIffClaimExpired(s: State, i: nat)
    requires Exclusive(s) && i < |s.handlers| && Working(s.handlers[i]) && !s.handlers[i].polling
    ensures |Step(s, Deliver(s.handlers[i].event)).handlers| > |s.handlers| <==> s.now >= s.handlers[i].enteredAt + TTL
  {}

  /** After a failed attempt is released, the next delivery of its event gets through. */
  lemma RetryIsAccepted(s: State, i: nat)
    requires i < |s.handlers| && s.handlers[i].phase.Failing?
    ensures var event := s.handlers[i].event;
            var t := Step(Step(s, Release(i)), Deliver(event));
            |t.handlers| == |s.handlers| + 1 && t.handlers[|s.handlers|] == Handler(event, false, s.now, Entered, false)
  {}

  /** A failed callback goes on to release its claim, and then the next delivery of its event gets through. */
  lemma FailedCallbackIsRetried(s: State, i: nat)
    requires i < |s.handlers| && Working(s.handlers[i]) && !s.handlers[i].polling
    ensures var event := s.handlers[i].event;
            var released := Step(Step(s, Fail(i)), Release(i));
            && released.handlers[i].phase == Answered500 && event !in released.claims
            && Step(released, Deliver(event)).handlers == released.handlers + [Handler(event, false, s.now, Entered, false)]
  {}

  ghost predicate HoldsClaim(s: State, event: string, i: nat)
    requires event in s.claims && i < |s.handlers|
  {
    var h := s.handlers[i];
    && h.event == event && !h.polling && s.claims[event] == h.enteredAt + 604_800
    && (Working(h) || h.phase == Done || h.phase == Crashed)
  }

  /** Whose claim a key is: the callback that took it is at work, done or crashed, and the key lasts seven days from then. */
  ghost predicate Held(s: State, event: string)
    requires event in s.claims
  {
    exists i: nat :: i < |s.handlers| && HoldsClaim(s, event, i)
  }

  ghost predicate ClaimsHeld(s: State) {
    forall event :: event in s.claims ==> Held(s, event)
  }

  lemma HolderStays(s: State, a: Act, event: string, i: nat)
    requires PhasesAgree(s) && event in s.claims && i < |s.handlers| && HoldsClaim(s, event, i)
    requires event in Step(s, a).claims && Step(s, a).claims[event] == s.claims[event]
    ensures i < |Step(s, a).handlers| && HoldsClaim(Step(s, a), event, i)
  {}

  lemma StepKeepsHeld(s: State, a: Act)
    requires PhasesAgree(s) && ClaimsHeld(s)
    ensures ClaimsHeld(Step(s, a))
  {
    var t := Step(s, a);
    forall event | event in t.claims ensures Held(t, event) {
      if a.Deliver? && a.event == event && !Taken(s.claims, event, s.now) {
        assert HoldsClaim(t, event, |s.handlers|);
      } else {
        var i: nat :| i < |s.handlers| && HoldsClaim(s, event, i);
        HolderStays(s, a, event, i);
      }
    }
  }

  /** In every run a claim blocks redeliveries only for a callback at work, one that finished, or one that crashed. */
  lemma {:induction false} ClaimsAreHeld(acts: seq<Act>)
    ensures ClaimsHeld(Run(acts))
  {
    if acts != [] {
      RunKeepsPhases(acts[..|acts| - 1]);
      ClaimsAreHeld(acts[..|acts| - 1]);
      StepKeepsHeld(Run(acts[..|acts| - 1]), acts[|acts| - 1]);
    }
  }

  // ------------------------------------------------------------------ contribution submissions

  /** A handler that submitted, or is about to, knowing of no contribution. */
  predicate Committed(h: Handler) {
    Working(h) && (h.submitted || h.phase == Loaded(false))
  }

  /** Callbacks alone, or polls too. */
  predicate Counts(h: Handler, polls: bool) {
    polls || !h.polling
  }

  predicate Conflict(g: Handler, h: Handler) {
    g.event == h.event && (Committed(g) || Succeeded(g)) && (Committed(h) || Succeeded(h))
  }

  /** No two counted handlers of one event have submitted, or are about to, without failing. */
  ghost predicate OneCommitted(s: State, polls: bool) {
    forall i, j | 0 <= i < j < |s.handlers| && Counts(s.handlers[i], polls) && Counts(s.handlers[j], polls) ::
      !Conflict(s.handlers[i], s.handlers[j])
  }

  /** A handler reads that there is no contribution while another that read so has not finished. */
  ghost predicate OverlappingLoad(s: State, a: Act, polls: bool) {
    && a.Load? && a.handler < |s.handlers| && s.handlers[a.handler].phase.Entered?
    && s.handlers[a.handler].event !in s.contributed && Counts(s.handlers[a.handler], polls)
    && exists j | 0 <= j < |s.handlers| && j != a.handler ::
         Counts(s.handlers[j], polls) && Committed(s.handlers[j]) && s.handlers[j].event == s.handlers[a.handler].event
  }

  /** Apart from reading, no step makes a handler committed or successful that was neither. */
  lemma QuietKeepsOneCommitted(s: State, a: Act, polls: bool)
    requires PhasesAgree(s) && OneCommitted(s, polls) && !a.Load?
    ensures OneCommitted(Step(s, a), polls)
  {}

  lemma LoadCommitsIff(s: State, a: Act, polls: bool)
    requires PhasesAgree(s) && OneCommitted(s, polls) && a.Load?
    ensures OneCommitted(Step(s, a), polls) <==> !OverlappingLoad(s, a, polls)
  {
    var t := Step(s, a);
    var i := a.handler;
    if OverlappingLoad(s, a, polls) {
      var j :| 0 <= j < |s.handlers| && j != i && Counts(s.handlers[j], polls)
               && Committed(s.handlers[j]) && s.handlers[j].event == s.handlers[i].event;
      assert Conflict(t.handlers[i], t.handlers[j]) && Conflict(t.handlers[j], t.handlers[i]);
      assert Counts(t.handlers[i], polls) && Counts(t.handlers[j], polls);
    }
  }

  lemma StepCommitsIff(s: State, a: Act, polls: bool)
    requires PhasesAgree(s) && OneCommitted(s, polls)
    ensures OneCommitted(Step(s, a), polls) <==> !OverlappingLoad(s, a, polls)
  {
    hide PhasesAgree, OneCommitted, Step;
    if a.Load? { LoadCommitsIff(s, a, polls); } else { QuietKeepsOneCommitted(s, a, polls); }
  }

  /** Two callbacks at work are never of one event, so an overlapping read involves a poll. */
  lemma OverlapInvolvesPoll(s: State, a: Act)
    requires Exclusive(s)
    ensures !OverlappingLoad(s, a, false)
  {}

  ghost predicate NoOverlaps(acts: seq<Act>) {
    acts != [] ==>
      NoOverlaps(acts[..|acts| - 1]) && !OverlappingLoad(Run(acts[..|acts| - 1]), acts[|acts| - 1], true)
  }

  ghost predicate AlwaysOneCommitted(acts: seq<Act>) {
    OneCommitted(Run(acts), true) && (acts != [] ==> AlwaysOneCommitted(acts[..|acts| - 1]))
  }

  /**
    Across both routes, at most one unfailed handler of an event ever has submitted or is about to exactly when no
    handler reads that there is no contribution while another that read so is unfinished.
  */
  lemma {:induction false} AlwaysOneCommittedIff(acts: seq<Act>)
    ensures AlwaysOneCommitted(acts) <==> NoOverlaps(acts)
  {
    if acts != [] {
      var front, a := acts[..|acts| - 1], acts[|acts| - 1];
      AlwaysOneCommittedIff(front);
      RunKeepsPhases(front);
      if AlwaysOneCommitted(front) {
        assert OneCommitted(Run(front), true);
        StepCommitsIff(Run(front), a, true);
      }
    }
  }

  lemma {:induction false} CallbacksOneCommitted(acts: seq<Act>)
    requires Timely(acts)
    ensures OneCommitted(Run(acts), false)
  {
    if acts != [] {
      var front, a := acts[..|acts| - 1], acts[|acts| - 1];
      CallbacksOneCommitted(front);
      RunKeepsPhases(front);
      RunKeepsExclusive(front);
      OverlapInvolvesPoll(Run(front), a);
      StepCommitsIff(Run(front), a, false);
    }
  }

  function Submissions(s: State, event: string, polls: bool): (r: set<nat>) {
    set i | 0 <= i < |s.handlers| && Counts(s.handlers[i], polls) && s.handlers[i].event == event && s.handlers[i].submitted
  }

  function Failures(s: State, event: string, polls: bool): (r: set<nat>) {
    set i | 0 <= i < |s.handlers| && Counts(s.handlers[i], polls) && s.handlers[i].event == event
      && (s.handlers[i].phase.Answered500? || s.handlers[i].phase.PollFailed? || s.handlers[i].phase.Crashed?)
  }

  lemma CommittedBound(s: State, event: string, polls: bool)
    requires OneCommitted(s, polls)
    ensures |Submissions(s, event, polls)| <= 1 + |Failures(s, event, polls)|
  {
    var good := Submissions(s, event, polls) - Failures(s, event, polls);
    forall i, j | i in good && j in good ensures i == j {
      assert Committed(s.handlers[i]) || Succeeded(s.handlers[i]);
      assert Committed(s.handlers[j]) || Succeeded(s.handlers[j]);
      assert Conflict(s.handlers[i], s.handlers[j]) && Conflict(s.handlers[j], s.handlers[i]);
    }
    AtMostOne(good);
    UnionBound(Submissions(s, event, polls), good, Failures(s, event, polls));
  }

  /**
    Whatever polls run beside them, callback submissions for an event number at most one plus the callbacks that
    ended in 500 or crashed.
  */
  lemma SubmissionsBounded(acts: seq<Act>, event: string)
    requires Timely(acts)
    ensures var s := Run(acts); |Submissions(s, event, false)| <= 1 + |Failures(s, event, false)|
  {
    CallbacksOneCommitted(acts);
    CommittedBound(Run(acts), event, false);
  }

  /** Without overlapping reads the two routes together submit at most once plus the failed attempts. */
  lemma BothRoutesBounded(acts: seq<Act>, event: string)
    requires NoOverlaps(acts)
    ensures var s := Run(acts); |Submissions(s, event, true)| <= 1 + |Failures(s, event, true)|
  {
    AlwaysOneCommittedIff(acts);
    CommittedBound(Run(acts), event, true);
  }

  /** Two handlers that both read that there is no contribution may both submit and both succeed. */
  lemma OverlapMaySubmitTwice(s: State, i: nat, j: nat)
    requires i < |s.handlers| && j < |s.handlers| && i != j && s.handlers[i].event == s.handlers[j].event
    requires s.handlers[i].phase == s.handlers[j].phase == Loaded(false)
    ensures var t := Step(Step(Step(Step(s, Submit(i)), Submit(j)), Record(i)), Record(j));
            && Succeeded(t.handlers[i]) && Succeeded(t.handlers[j])
            && {i, j} <= Submissions(t, s.handlers[i].event, true)
  {
    var s1 := Step(s, Submit(i));
    var s2 := Step(s1, Submit(j));
    assert s2.handlers == s.handlers[i := s.handlers[i].(phase := Sent, submitted := true)]
                                    [j := s.handlers[j].(phase := Sent, submitted := true)];
    var s3 := Step(s2, Record(i));
    assert s3.handlers == s2.handlers[i := s2.handlers[i].(phase := Done)];
    var t := Step(s3, Record(j));
    assert t.handlers == s3.handlers[j := s3.handlers[j].(phase := Done)];
  }

  lemma RunNext(acts: seq<Act>, a: Act)
    ensures Run(acts + [a]) == Step(Run(acts), a)
  {
    assert (acts + [a])[..|acts|] == acts;
  }

  /** A callback and a poll of one deposit reach that point. */
  lemma PollBesideCallback(event: string)
    ensures var s := Run([Deliver(event)] + [Poll(event)] + [Load(0)] + [Load(1)]);
            s.handlers == [Handler(event, false, 0, Loaded(false), false), Handler(event, true, 0, Loaded(false), false)]
  {
    var a1 := [Deliver(event)];
    var a2 := a1 + [Poll(event)];
    var a3 := a2 + [Load(0)];
    RunNext([], Deliver(event));
    assert [] + a1 == a1;
    RunNext(a1, Poll(event));
    RunNext(a2, Load(0));
    RunNext(a3, Load(1));
    assert Run([]) == START;
    hide Run;
    var s2 := State(0, map[event := TTL], {}, [Handler(event, false, 0, Entered, false), Handler(event, true, 0, Entered, false)]);
    assert Run(a2) == s2;
    assert Run(a3) == s2.(handlers := [s2.handlers[0].(phase := Loaded(false)), s2.handlers[1]]);
  }
}
