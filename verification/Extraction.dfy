/** Restartable extraction: nested operations share one move to fallback
    resources and one terminal failure. */
module Extraction {
  import opened Optional

  datatype Code = CPUExceeded | MemoryExceeded | Cancelled

  /** The allowances that a replayed operation gets back. */
  datatype Progress = Progress(parts: int, htmlParts: int, htmlBytes: int, decodedTextBytes: int, cssBytes: int)

  /** What an operation does: sample its allowance, allocate, spend from the
      traversal allowances, account for a child's memory however the child ends,
      turn to fallback resources of its own accord, and run nested operations,
      going on as those turn out. A nested operation may work differently when it
      is replayed. */
  datatype Work =
    | End
    | Check(next: Work)
    | Allocate(next: Work)
    | Spend(after: Progress, next: Work)
    | Account(child: Work, exceeded: bool, next: Work)
    | Turn(accepted: Work, refused: Work)
    | Operation(mime: bool, first: Work, replay: Work, complete: Work, incomplete: Work)

  function Size(work: Work): nat {
    match work
    case End => 0
    case Check(next) => 1 + Size(next)
    case Allocate(next) => 1 + Size(next)
    case Spend(_, next) => 1 + Size(next)
    case Account(child, _, next) => 1 + Size(child) + Size(next)
    case Turn(accepted, refused) => 1 + Size(accepted) + Size(refused)
    case Operation(_, first, replay, complete, incomplete) =>
      2 + Size(first) + Size(replay) + Size(complete) + Size(incomplete)
  }

  /* What can be observed of a message's extraction. */

  datatype Event =
    | UsedPrimary
    | UsedFallback
    | Began
    | Replayed(mime: bool, entry: Progress, start: Progress)
    | Ended(code: Code)

  type Log = seq<Event>

  /** How each stage's uses turn out, by their count; whether fallback is granted,
      by the count of requests; and whether a memory failure forbids it. */
  datatype Circumstances = Circumstances(
    primary: nat -> Option<Code>, fallback: nat -> Option<Code>, grant: nat -> bool, stopOnMemoryLimit: bool)

  datatype Situation = Situation(
    primaryUses: nat, fallbackUses: nat, requests: nat, terminal: Option<Code>, fallback: bool,
    cpuLimitExceeded: bool, memoryLimitExceeded: bool, fallbackMemoryExceeded: bool, progress: Progress, log: Log)

  const START := Situation(0, 0, 0, None, false, false, false, false, Progress(0, 0, 0, 0, 0), [])

  /* Single steps. */

  /** The active stage is used once, and no other. */
  function Used(s: Situation): Situation {
    if s.fallback then s.(fallbackUses := s.fallbackUses + 1, log := s.log + [UsedFallback])
    else s.(primaryUses := s.primaryUses + 1, log := s.log + [UsedPrimary])
  }

  function UseFails(env: Circumstances, s: Situation): Option<Code> {
    if s.fallback then env.fallback(s.fallbackUses) else env.primary(s.primaryUses)
  }

  function GivenUp(s: Situation, code: Code): Situation {
    s.(terminal := Some(code), log := s.log + [Ended(code)])
  }

  function Recorded(s: Situation, code: Code, inFallback: bool): Situation {
    var noted :=
      match code
      case CPUExceeded => s.(cpuLimitExceeded := true)
      case MemoryExceeded =>
        if !inFallback then s.(memoryLimitExceeded := true)
        else if s.fallback then s.(fallbackMemoryExceeded := true)
        else s
      case Cancelled => s;
    if inFallback || code == Cancelled then GivenUp(noted, code) else noted
  }

  predicate MemoryStopped(env: Circumstances, s: Situation) {
    s.memoryLimitExceeded && env.stopOnMemoryLimit
  }

  /** A request for fallback: granted once, and never after a terminal failure. */
  function Requested(env: Circumstances, s: Situation): (Situation, bool) {
    if s.terminal.Some? then (s, false)
    else if s.fallback then (s, true)
    else if MemoryStopped(env, s) then (s, false)
    else if env.grant(s.requests) then (s.(requests := s.requests + 1, fallback := true, log := s.log + [Began]), true)
    else (s.(requests := s.requests + 1), false)
  }

  /** A replay starts over, a MIME operation with its entry-time allowances. */
  function Restarted(s: Situation, entry: Progress, mime: bool): Situation {
    var start := if mime then entry else s.progress;
    s.(progress := start, log := s.log + [Replayed(mime, entry, start)])
  }

  /* What work comes to. */

  /** An operation is tried, and once more with fallback resources when it fails
      before they were used and may use them. */
  function Ran(env: Circumstances, s: Situation, mime: bool, first: Work, replay: Work): (Situation, bool)
    decreases 1 + Size(first) + Size(replay), 0
  {
    if s.terminal.Some? then (s, false)
    else
      var (a, failure) := Performed(env, s, first);
      if failure.None? then (a, true) else Retried(env, a, s.progress, mime, failure.value, replay)
  }

  /** What becomes of an operation that failed, having begun with `entry`. */
  function Retried(env: Circumstances, a: Situation, entry: Progress, mime: bool, code: Code,
                   replay: Work): (Situation, bool)
    decreases Size(replay), 2
  {
    var r := Recorded(a, code, a.fallback);
    if a.fallback || code == Cancelled then (GivenUp(r, code), false)
    else
      var (b, granted) := Requested(env, r);
      if !granted then (GivenUp(b, code), false)
      else
        var (c, again) := Performed(env, Restarted(b, entry, mime), replay);
        if again.None? then (c, true) else (Recorded(c, again.value, true), false)
  }

  function Performed(env: Circumstances, s: Situation, work: Work): (Situation, Option<Code>)
    decreases Size(work), 1
  {
    match work
    case End => (s, None)
    case Check(next) => Sampled(env, s, next)
    case Allocate(next) => Sampled(env, s, next)
    case Spend(after, next) => Performed(env, s.(progress := after), next)
    case Account(child, exceeded, next) =>
      var (a, failure) := Performed(env, s, child);
      var b := a.(memoryLimitExceeded := a.memoryLimitExceeded || exceeded);
      if failure.Some? then (b, failure) else Performed(env, b, next)
    case Turn(accepted, refused) =>
      var (a, granted) := Requested(env, s);
      Performed(env, a, if granted then accepted else refused)
    case Operation(mime, first, replay, complete, incomplete) =>
      var (a, ok) := Ran(env, s, mime, first, replay);
      Performed(env, a, if ok then complete else incomplete)
  }

  function Sampled(env: Circumstances, s: Situation, next: Work): (Situation, Option<Code>)
    decreases Size(next), 2
  {
    if UseFails(env, s).Some? then (Used(s), UseFails(env, s)) else Performed(env, Used(s), next)
  }

  /* What every run keeps. */

  /** Fallback begins at most once, before any terminal failure; afterwards the
      primary resources are never used; and the only replay is the one that
      follows it, with a MIME operation's allowances as they were on entry. */
  ghost predicate Orderly(log: Log) {
    && (forall i, j :: 0 <= i < j < |log| && log[i].Began? ==> !log[j].Began? && !log[j].UsedPrimary?)
    && (forall i, j :: 0 <= i < j < |log| && log[i].Ended? ==> !log[j].Began?)
    && (forall j :: 0 <= j < |log| && log[j].Replayed? ==> ReplayAt(log, j))
  }

  predicate ReplayAt(log: Log, j: nat)
    requires j < |log| && log[j].Replayed?
  {
    j > 0 && log[j - 1].Began? && (log[j].mime ==> log[j].entry == log[j].start)
  }

  /** So no two operations are ever replayed. */
  lemma {:induction false} OneReplay(log: Log, i: nat, j: nat)
    requires Orderly(log) && i < j < |log|
    ensures !(log[i].Replayed? && log[j].Replayed?)
  {
    if log[i].Replayed? {
      assert ReplayAt(log, i);
    }
    if log[j].Replayed? {
      assert ReplayAt(log, j);
    }
  }

  ghost predicate Happened(log: Log, e: Event) {
    exists i :: 0 <= i < |log| && log[i] == e
  }

  ghost predicate HasEnded(log: Log) {
    exists i :: 0 <= i < |log| && log[i].Ended?
  }

  function Count(log: Log, e: Event): nat {
    if log == [] then 0 else Count(log[..|log| - 1], e) + if log[|log| - 1] == e then 1 else 0
  }

  /** What is recorded of the message agrees with what happened, stated so that
      it unfolds only where a proof names `TracksLog`. */
  ghost predicate Tracks(s: Situation) {
    forall l {:trigger TracksLog(s, l)} :: l == s.log ==> TracksLog(s, l)
  }

  ghost predicate TracksLog(s: Situation, log: Log) {
    && Orderly(log) && (s.fallback <==> Happened(log, Began)) && (s.terminal.Some? <==> HasEnded(log))
    && s.primaryUses == Count(log, UsedPrimary) && s.fallbackUses == Count(log, UsedFallback)
  }

  /** Some use so far was answered by a cancellation. */
  ghost predicate WasCancelled(env: Circumstances, s: Situation) {
    || (exists k :: 0 <= k < s.primaryUses && env.primary(k) == Some(Cancelled))
    || (exists k :: 0 <= k < s.fallbackUses && env.fallback(k) == Some(Cancelled))
  }

  /** Some request for fallback so far was refused. */
  ghost predicate WasRefused(env: Circumstances, s: Situation) {
    exists k :: 0 <= k < s.requests && !env.grant(k)
  }

  /** Extraction is given up only after fallback was used, or when it may not be,
      or on cancellation. */
  ghost predicate Excused(env: Circumstances, s: Situation) {
    s.terminal.Some? ==> s.fallback || WasCancelled(env, s) || WasRefused(env, s) || MemoryStopped(env, s)
  }

  ghost predicate Good(env: Circumstances, s: Situation) {
    Tracks(s) && Excused(env, s)
  }

  /** What happens is only added to. Fallback is never left and a terminal failure
      never cleared, and once fallback has begun the primary uses stay as they were. */
  predicate Continues(s: Situation, r: Situation) {
    && s.log <= r.log && s.primaryUses <= r.primaryUses && s.fallbackUses <= r.fallbackUses && s.requests <= r.requests
    && (s.terminal.Some? ==> r.terminal.Some?)
    && (s.fallback ==> r.fallback && r.primaryUses == s.primaryUses)
    && (s.memoryLimitExceeded ==> r.memoryLimitExceeded)
  }

  lemma {:induction false} HappenedMore(log: Log, e: Event)
    ensures Happened(log + [e], Began) <==> Happened(log, Began) || e.Began?
    ensures HasEnded(log + [e]) <==> HasEnded(log) || e.Ended?
    ensures Count(log + [e], UsedPrimary) == Count(log, UsedPrimary) + if e.UsedPrimary? then 1 else 0
    ensures Count(log + [e], UsedFallback) == Count(log, UsedFallback) + if e.UsedFallback? then 1 else 0
  {
    var more := log + [e];
    assert more[..|log|] == log;
    assert more[|log|] == e && forall i :: 0 <= i < |log| ==> more[i] == log[i];
    if i :| 0 <= i < |log| && log[i].Ended? {
      assert more[i].Ended?;
    }
    if Happened(log, Began) {
      var i :| 0 <= i < |log| && log[i] == Began;
      assert more[i] == Began;
    }
  }

  lemma {:induction false} OrderlyMore(s: Situation, e: Event)
    requires TracksLog(s, s.log)
    requires e.UsedPrimary? ==> !s.fallback
    requires e.Began? ==> !s.fallback && s.terminal.None?
    requires e.Replayed? ==> s.log != [] && s.log[|s.log| - 1].Began? && (e.mime ==> e.entry == e.start)
    ensures Orderly(s.log + [e])
  {
    var log, more := s.log, s.log + [e];
    forall i, j | 0 <= i < j < |more|
      ensures more[i].Began? ==> !more[j].Began? && !more[j].UsedPrimary?
      ensures more[i].Ended? ==> !more[j].Began?
    {
      if j == |log| {
        assert more[i] == log[i];
        assert log[i].Began? ==> Happened(log, Began);
        assert log[i].Ended? ==> HasEnded(log);
      }
    }
    forall j | 0 <= j < |more| && more[j].Replayed?
      ensures ReplayAt(more, j)
    {
      if j < |log| {
        assert ReplayAt(log, j);
      }
    }
  }

  /** The state after one more event. */
  lemma {:induction false} TracksMore(s: Situation, e: Event, r: Situation)
    requires Tracks(s) && r.log == s.log + [e]
    requires e.UsedPrimary? ==> !s.fallback
    requires e.Began? ==> !s.fallback && s.terminal.None?
    requires e.Replayed? ==> s.log != [] && s.log[|s.log| - 1].Began? && (e.mime ==> e.entry == e.start)
    requires r.fallback == (s.fallback || e.Began?) && r.terminal.Some? == (s.terminal.Some? || e.Ended?)
    requires r.primaryUses == s.primaryUses + if e.UsedPrimary? then 1 else 0
    requires r.fallbackUses == s.fallbackUses + if e.UsedFallback? then 1 else 0
    ensures Tracks(r)
  {
    assert TracksLog(s, s.log);
    OrderlyMore(s, e);
    HappenedMore(s.log, e);
    assert TracksLog(r, r.log);
  }

  /** Nothing observable happened. */
  lemma {:induction false} TracksSame(s: Situation, r: Situation)
    requires Tracks(s) && r.log == s.log && r.fallback == s.fallback && r.terminal.Some? == s.terminal.Some?
    requires r.primaryUses == s.primaryUses && r.fallbackUses == s.fallbackUses
    ensures Tracks(r)
  {
    assert TracksLog(s, s.log);
    assert TracksLog(r, r.log);
  }

  lemma {:induction false} CancelledStays(env: Circumstances, s: Situation, r: Situation)
    requires Continues(s, r)
    ensures WasCancelled(env, s) ==> WasCancelled(env, r)
    ensures WasRefused(env, s) ==> WasRefused(env, r)
  {
  }

  lemma {:induction false} UsedGood(env: Circumstances, s: Situation)
    requires Good(env, s)
    ensures Good(env, Used(s)) && Continues(s, Used(s))
    ensures UseFails(env, s) == Some(Cancelled) ==> WasCancelled(env, Used(s))
  {
    TracksMore(s, if s.fallback then UsedFallback else UsedPrimary, Used(s));
    CancelledStays(env, s, Used(s));
  }

  lemma {:induction false} GivenUpGood(env: Circumstances, s: Situation, code: Code)
    requires Good(env, s)
    requires s.fallback || (code == Cancelled && WasCancelled(env, s)) || WasRefused(env, s) || MemoryStopped(env, s)
    ensures Good(env, GivenUp(s, code)) && Continues(s, GivenUp(s, code))
  {
    TracksMore(s, Ended(code), GivenUp(s, code));
    CancelledStays(env, s, GivenUp(s, code));
  }

  lemma {:induction false} RecordedGood(env: Circumstances, s: Situation, code: Code)
    requires Good(env, s) && (code == Cancelled ==> WasCancelled(env, s))
    ensures var r := Recorded(s, code, s.fallback);
            Good(env, r) && Continues(s, r) &&
            (code == Cancelled ==> WasCancelled(env, r))
    ensures !s.fallback && code != Cancelled ==> Recorded(s, code, s.fallback).terminal == s.terminal
  {
    var noted := match code
      case CPUExceeded => s.(cpuLimitExceeded := true)
      case MemoryExceeded => if s.fallback then s.(fallbackMemoryExceeded := true) else s.(memoryLimitExceeded := true)
      case Cancelled => s;
    TracksSame(s, noted);
    CancelledStays(env, s, noted);
    if s.fallback || code == Cancelled {
      GivenUpGood(env, noted, code);
      CancelledStays(env, noted, GivenUp(noted, code));
    }
  }

  lemma {:induction false} RequestedGood(env: Circumstances, s: Situation)
    requires Good(env, s)
    ensures var (r, granted) := Requested(env, s);
            && Good(env, r) && Continues(s, r) && (granted ==> r.fallback && r.terminal.None?)
            && (!granted && s.terminal.None? ==> WasRefused(env, r) || MemoryStopped(env, r))
            && (granted && !s.fallback ==> r.log == s.log + [Began])
  {
    var (r, granted) := Requested(env, s);
    if s.terminal.None? && !s.fallback && !MemoryStopped(env, s) {
      if granted {
        TracksMore(s, Began, r);
      } else {
        TracksSame(s, r);
        assert !env.grant(s.requests);
      }
    }
    CancelledStays(env, s, r);
  }

  lemma {:induction false} RestartedGood(env: Circumstances, s: Situation, entry: Progress, mime: bool)
    requires Good(env, s) && s.log != [] && s.log[|s.log| - 1].Began?
    ensures Good(env, Restarted(s, entry, mime)) && Continues(s, Restarted(s, entry, mime))
  {
    var r := Restarted(s, entry, mime);
    TracksMore(s, r.log[|s.log|], r);
    CancelledStays(env, s, r);
  }

  /** A silent change of the allowances or of the memory flag. */
  lemma {:induction false} SilentGood(env: Circumstances, s: Situation, r: Situation)
    requires Good(env, s) && Continues(s, r) && r.log == s.log && r.fallback == s.fallback && r.terminal == s.terminal
    requires r.primaryUses == s.primaryUses && r.fallbackUses == s.fallbackUses
    ensures Good(env, r)
  {
    TracksSame(s, r);
    CancelledStays(env, s, r);
  }

  /** Every operation keeps the record in order, and an incomplete one leaves a
      terminal failure that fallback could not avoid. */
  lemma {:induction false} RanGood(env: Circumstances, s: Situation, mime: bool, first: Work, replay: Work)
    requires Good(env, s)
    ensures var (r, ok) := Ran(env, s, mime, first, replay);
            Good(env, r) && Continues(s, r) &&
            (!ok ==> r.terminal.Some?)
    decreases 1 + Size(first) + Size(replay), 0
  {
    if s.terminal.None? {
      var (a, failure) := Performed(env, s, first);
      PerformedGood(env, s, first);
      if failure.Some? {
        RetriedGood(env, a, s.progress, mime, failure.value, replay);
      }
    }
  }

  lemma {:induction false} RetriedGood(env: Circumstances, a: Situation, entry: Progress, mime: bool, code: Code,
                                       replay: Work)
    requires Good(env, a) && (code == Cancelled ==> WasCancelled(env, a))
    ensures var (r, ok) := Retried(env, a, entry, mime, code, replay);
            Good(env, r) && Continues(a, r) && (!ok ==> r.terminal.Some?)
    decreases Size(replay), 3
  {
    var r := Recorded(a, code, a.fallback);
    RecordedGood(env, a, code);
    if a.fallback || code == Cancelled {
      GivenUpGood(env, r, code);
    } else {
      var (b, granted) := Requested(env, r);
      RequestedGood(env, r);
      if !granted {
        RefusedGood(env, r, code);
      } else {
        ReplayedGood(env, b, entry, mime, replay);
        var (c, again) := Performed(env, Restarted(b, entry, mime), replay);
        assert Retried(env, a, entry, mime, code, replay) ==
               if again.None? then (c, true) else (Recorded(c, again.value, true), false);
      }
    }
  }

  /** Nothing was granted: the failure is terminal. */
  lemma {:induction false} RefusedGood(env: Circumstances, r: Situation, code: Code)
    requires Good(env, r) && !Requested(env, r).1
    ensures var b := Requested(env, r).0; Good(env, GivenUp(b, code)) && Continues(r, GivenUp(b, code))
  {
    var (b, granted) := Requested(env, r);
    RequestedGood(env, r);
    TracksMore(b, Ended(code), GivenUp(b, code));
    CancelledStays(env, b, GivenUp(b, code));
  }

  lemma {:induction false} ReplayedGood(env: Circumstances, b: Situation, entry: Progress, mime: bool, replay: Work)
    requires Good(env, b) && b.fallback && b.log != [] && b.log[|b.log| - 1].Began?
    ensures var (c, again) := Performed(env, Restarted(b, entry, mime), replay);
            && Good(env, c) && Continues(b, c)
            && (again.Some? ==>
                Good(env, Recorded(c, again.value, true)) && Continues(b, Recorded(c, again.value, true)))
    decreases Size(replay), 2
  {
    var d := Restarted(b, entry, mime);
    RestartedGood(env, b, entry, mime);
    PerformedGood(env, d, replay);
    var (c, again) := Performed(env, d, replay);
    if again.Some? {
      RecordedGood(env, c, again.value);
    }
  }

  lemma {:induction false} PerformedGood(env: Circumstances, s: Situation, work: Work)
    requires Good(env, s)
    ensures var (r, failure) := Performed(env, s, work);
            Good(env, r) && Continues(s, r) && (failure == Some(Cancelled) ==> WasCancelled(env, r))
    decreases Size(work), 1
  {
    match work
    case End =>
    case Check(next) => SampledGood(env, s, next);
    case Allocate(next) => SampledGood(env, s, next);
    case Spend(after, next) =>
      SilentGood(env, s, s.(progress := after));
      PerformedGood(env, s.(progress := after), next);
    case Account(child, exceeded, next) => AccountedGood(env, s, child, exceeded, next);
    case Turn(accepted, refused) =>
      RequestedGood(env, s);
      var (a, granted) := Requested(env, s);
      PerformedGood(env, a, if granted then accepted else refused);
    case Operation(mime, first, replay, complete, incomplete) =>
      RanGood(env, s, mime, first, replay);
      var (a, ok) := Ran(env, s, mime, first, replay);
      PerformedGood(env, a, if ok then complete else incomplete);
  }

  lemma {:induction false} AccountedGood(env: Circumstances, s: Situation, child: Work, exceeded: bool, next: Work)
    requires Good(env, s)
    ensures var (r, failure) := Performed(env, s, Account(child, exceeded, next));
            Good(env, r) && Continues(s, r) && (failure == Some(Cancelled) ==> WasCancelled(env, r))
    decreases 1 + Size(child) + Size(next), 0
  {
    PerformedGood(env, s, child);
    var (a, failure) := Performed(env, s, child);
    var b := a.(memoryLimitExceeded := a.memoryLimitExceeded || exceeded);
    SilentGood(env, a, b);
    CancelledStays(env, a, b);
    if failure.None? {
      PerformedGood(env, b, next);
    }
  }

  lemma {:induction false} SampledGood(env: Circumstances, s: Situation, next: Work)
    requires Good(env, s)
    ensures var (r, failure) := Sampled(env, s, next);
            Good(env, r) && Continues(s, r) && (failure == Some(Cancelled) ==> WasCancelled(env, r))
    decreases Size(next), 2
  {
    UsedGood(env, s);
    if UseFails(env, s).None? {
      PerformedGood(env, Used(s), next);
    }
  }

  /* What a run looks like from outside, told by its log alone. */

  /** What has happened so far and the allowances that are left. */
  datatype Moment = Moment(log: Log, progress: Progress)

  function Seen(s: Situation): Moment {
    Moment(s.log, s.progress)
  }

  function Then(m: Moment, e: Event): Moment {
    m.(log := m.log + [e])
  }

  ghost function Use(log: Log): Event {
    if Happened(log, Began) then UsedFallback else UsedPrimary
  }

  /** How the use turns out that comes after `k` more of its stage. */
  ghost function Answer(env: Circumstances, log: Log, k: nat): Option<Code> {
    if Happened(log, Began) then env.fallback(Count(log, UsedFallback) + k)
    else env.primary(Count(log, UsedPrimary) + k)
  }

  /** The work was done in full, every use it made itself having been answered
      without a failure. */
  ghost predicate Carried(env: Circumstances, from: Moment, to: Moment, work: Work)
    decreases Size(work), 1
  {
    match work
    case End => to == from
    case Check(next) => Answer(env, from.log, 0).None? && Carried(env, Then(from, Use(from.log)), to, next)
    case Allocate(next) => Answer(env, from.log, 0).None? && Carried(env, Then(from, Use(from.log)), to, next)
    case Spend(after, next) => Carried(env, from.(progress := after), to, next)
    case Account(child, _, next) => exists m :: Carried(env, from, m, child) && Carried(env, m, to, next)
    case Turn(accepted, refused) =>
      if HasEnded(from.log) then Carried(env, from, to, refused)
      else if Happened(from.log, Began) then Carried(env, from, to, accepted)
      else Carried(env, Then(from, Began), to, accepted) || Carried(env, from, to, refused)
    case Operation(mime, first, replay, complete, incomplete) =>
      || (exists m :: Completed(env, from, m, mime, first, replay) && Carried(env, m, to, complete))
      || (exists m :: Incomplete(env, from, m, mime, first, replay) && Carried(env, m, to, incomplete))
  }

  /** The work was done up to a use of its own that was answered with `code`, and
      no further. */
  ghost predicate Failed(env: Circumstances, from: Moment, to: Moment, work: Work, code: Code)
    decreases Size(work), 1
  {
    match work
    case End => false
    case Check(next) => FailedUse(env, from, to, next, code)
    case Allocate(next) => FailedUse(env, from, to, next, code)
    case Spend(after, next) => Failed(env, from.(progress := after), to, next, code)
    case Account(child, _, next) =>
      || Failed(env, from, to, child, code)
      || (exists m :: Carried(env, from, m, child) && Failed(env, m, to, next, code))
    case Turn(accepted, refused) =>
      if HasEnded(from.log) then Failed(env, from, to, refused, code)
      else if Happened(from.log, Began) then Failed(env, from, to, accepted, code)
      else Failed(env, Then(from, Began), to, accepted, code) || Failed(env, from, to, refused, code)
    case Operation(mime, first, replay, complete, incomplete) =>
      || (exists m :: Completed(env, from, m, mime, first, replay) && Failed(env, m, to, complete, code))
      || (exists m :: Incomplete(env, from, m, mime, first, replay) && Failed(env, m, to, incomplete, code))
  }

  ghost predicate FailedUse(env: Circumstances, from: Moment, to: Moment, next: Work, code: Code)
    decreases Size(next), 2
  {
    var after := Then(from, Use(from.log));
    match Answer(env, from.log, 0)
    case Some(c) => code == c && to == after
    case None => Failed(env, after, to, next, code)
  }

  /** An operation is complete when its first attempt was done in full, or that
      failed and the replay was done in full. */
  ghost predicate Completed(env: Circumstances, from: Moment, to: Moment, mime: bool, first: Work, replay: Work)
    decreases 1 + Size(first) + Size(replay), 0
  {
    && !HasEnded(from.log)
    && (|| Carried(env, from, to, first)
        || (exists m, code :: Failed(env, from, m, first, code) && MayReplay(m, code) &&
                              Carried(env, Resumed(from.progress, m, mime), to, replay)))
  }

  /** It is incomplete when a terminal failure came before it or in it. */
  ghost predicate Incomplete(env: Circumstances, from: Moment, to: Moment, mime: bool, first: Work, replay: Work)
    decreases 1 + Size(first) + Size(replay), 1
  {
    || (HasEnded(from.log) && to == from)
    || (exists code :: Stopped(env, from, to, mime, first, replay, code))
  }

  /** The terminal failure is that of the last attempt. */
  ghost predicate Stopped(env: Circumstances, from: Moment, to: Moment, mime: bool, first: Work, replay: Work,
                          code: Code)
    decreases 1 + Size(first) + Size(replay), 0
  {
    && !HasEnded(from.log)
    && (|| (exists m :: Failed(env, from, m, first, code) && to == Abandoned(m, code))
        || (exists m, c :: Failed(env, from, m, first, c) && MayReplay(m, c) &&
                           StoppedAgain(env, Resumed(from.progress, m, mime), to, replay, code)))
  }

  ghost predicate StoppedAgain(env: Circumstances, from: Moment, to: Moment, replay: Work, code: Code)
    decreases Size(replay), 2
  {
    exists n :: Failed(env, from, n, replay, code) && to == Then(n, Ended(code))
  }

  ghost predicate MayReplay(m: Moment, code: Code) {
    code != Cancelled && !Happened(m.log, Began) && !HasEnded(m.log)
  }

  /** The moment a replay starts over from, having begun with `entry`. */
  function Resumed(entry: Progress, m: Moment, mime: bool): Moment {
    var start := if mime then entry else m.progress;
    Moment(m.log + [Began] + [Replayed(mime, entry, start)], start)
  }

  ghost function Abandoned(m: Moment, code: Code): Moment {
    var ended := Then(m, Ended(code));
    if Happened(m.log, Began) || code == Cancelled then Then(ended, Ended(code)) else ended
  }

  lemma {:induction false} UsedSeen(env: Circumstances, s: Situation)
    requires Good(env, s)
    ensures Seen(Used(s)) == Then(Seen(s), Use(s.log)) && UseFails(env, s) == Answer(env, s.log, 0)
    ensures s.fallback == Happened(s.log, Began) && s.terminal.Some? == HasEnded(s.log)
  {
    assert TracksLog(s, s.log);
  }

  /** An operation returns complete only when its work was done, and incomplete
      only with the terminal failure of its last attempt. */
  lemma {:induction false} RanTraced(env: Circumstances, s: Situation, mime: bool, first: Work, replay: Work)
    requires Good(env, s)
    ensures var (r, ok) := Ran(env, s, mime, first, replay);
            && (ok ==> Completed(env, Seen(s), Seen(r), mime, first, replay))
            && (!ok ==> Incomplete(env, Seen(s), Seen(r), mime, first, replay))
            && (!ok && s.terminal.None? ==>
                r.terminal.Some? && Stopped(env, Seen(s), Seen(r), mime, first, replay, r.terminal.value))
    decreases 1 + Size(first) + Size(replay), 0
  {
    UsedSeen(env, s);
    if s.terminal.None? {
      var (a, failure) := Performed(env, s, first);
      PerformedTraced(env, s, first);
      PerformedGood(env, s, first);
      if failure.Some? {
        RetriedTraced(env, s, a, mime, first, failure.value, replay);
      }
    }
  }

  lemma {:induction false} RetriedTraced(env: Circumstances, s: Situation, a: Situation, mime: bool, first: Work,
                                         code: Code, replay: Work)
    requires Good(env, s) && Good(env, a) && s.terminal.None?
    requires Failed(env, Seen(s), Seen(a), first, code) && (code == Cancelled ==> WasCancelled(env, a))
    ensures RetryTold(env, Seen(s), mime, first, replay, Retried(env, a, s.progress, mime, code, replay))
    decreases Size(replay), 4
  {
    UsedSeen(env, s);
    if a.fallback || code == Cancelled || !Requested(env, Recorded(a, code, a.fallback)).1 {
      AbandonedTraced(env, a, s.progress, mime, code, replay);
      StoppedAtOnce(env, Seen(s), Seen(a), mime, first, replay, code);
    } else {
      ReplayTraced(env, Seen(s), a, mime, first, code, replay);
    }
  }

  /** What a retry comes to is what the log tells of it. */
  ghost predicate RetryTold(env: Circumstances, from: Moment, mime: bool, first: Work, replay: Work,
                            outcome: (Situation, bool)) {
    if outcome.1 then Completed(env, from, Seen(outcome.0), mime, first, replay)
    else
      && outcome.0.terminal.Some?
      && Stopped(env, from, Seen(outcome.0), mime, first, replay, outcome.0.terminal.value)
  }

  lemma {:induction false} StoppedAtOnce(env: Circumstances, from: Moment, m: Moment, mime: bool, first: Work,
                                         replay: Work, code: Code)
    requires !HasEnded(from.log) && Failed(env, from, m, first, code)
    ensures Stopped(env, from, Abandoned(m, code), mime, first, replay, code)
  {
  }

  lemma {:induction false} ReplayTold(env: Circumstances, from: Moment, m: Moment, n: Moment, mime: bool, first: Work,
                                      code: Code, replay: Work, again: Option<Code>)
    requires !HasEnded(from.log) && Failed(env, from, m, first, code) && MayReplay(m, code)
    requires again.None? ==> Carried(env, Resumed(from.progress, m, mime), n, replay)
    requires again.Some? ==> Failed(env, Resumed(from.progress, m, mime), n, replay, again.value)
    ensures again.None? ==> Completed(env, from, n, mime, first, replay)
    ensures again.Some? ==> Stopped(env, from, Then(n, Ended(again.value)), mime, first, replay, again.value)
  {
  }

  lemma {:induction false} AbandonedTraced(env: Circumstances, a: Situation, entry: Progress, mime: bool, code: Code,
                                           replay: Work)
    requires Good(env, a)
    requires a.fallback || code == Cancelled || !Requested(env, Recorded(a, code, a.fallback)).1
    ensures var (r, ok) := Retried(env, a, entry, mime, code, replay);
            !ok && r.terminal == Some(code) && Seen(r) == Abandoned(Seen(a), code)
  {
    UsedSeen(env, a);
  }

  lemma {:induction false} ReplayTraced(env: Circumstances, from: Moment, a: Situation, mime: bool, first: Work,
                                        code: Code, replay: Work)
    requires Good(env, a) && !a.fallback && code != Cancelled && Requested(env, Recorded(a, code, false)).1
    requires !HasEnded(from.log) && Failed(env, from, Seen(a), first, code)
    ensures RetryTold(env, from, mime, first, replay, Retried(env, a, from.progress, mime, code, replay))
    decreases Size(replay), 3
  {
    var b := Granted(env, a, code);
    var c, again := SecondTraced(env, a, b, from.progress, mime, replay);
    ReplayTold(env, from, Seen(a), Seen(c), mime, first, code, replay, again);
    RetriedAs(env, a, from.progress, mime, code, replay);
    if again.Some? {
      assert Seen(Recorded(c, again.value, true)) == Then(Seen(c), Ended(again.value));
    }
  }

  lemma {:induction false} Granted(env: Circumstances, a: Situation, code: Code) returns (b: Situation)
    requires Good(env, a) && !a.fallback && code != Cancelled && Requested(env, Recorded(a, code, false)).1
    ensures b == Requested(env, Recorded(a, code, false)).0 && Good(env, b)
    ensures b.log == a.log + [Began] && b.progress == a.progress && MayReplay(Seen(a), code)
  {
    b := Requested(env, Recorded(a, code, false)).0;
    RecordedGood(env, a, code);
    RequestedGood(env, Recorded(a, code, false));
    UsedSeen(env, a);
  }

  lemma {:induction false} RetriedAs(env: Circumstances, a: Situation, entry: Progress, mime: bool, code: Code,
                                     replay: Work)
    requires !a.fallback && code != Cancelled && Requested(env, Recorded(a, code, false)).1
    ensures var (c, again) := Performed(env, Restarted(Requested(env, Recorded(a, code, false)).0, entry, mime),
                                        replay);
            Retried(env, a, entry, mime, code, replay) ==
            if again.None? then (c, true) else (Recorded(c, again.value, true), false)
  {
  }

  lemma {:induction false} SecondTraced(env: Circumstances, a: Situation, b: Situation, entry: Progress, mime: bool,
                                        replay: Work) returns (c: Situation, again: Option<Code>)
    requires Good(env, b) && b.log == a.log + [Began] && b.progress == a.progress
    ensures (c, again) == Performed(env, Restarted(b, entry, mime), replay)
    ensures again.None? ==> Carried(env, Resumed(entry, Seen(a), mime), Seen(c), replay)
    ensures again.Some? ==> Failed(env, Resumed(entry, Seen(a), mime), Seen(c), replay, again.value)
    decreases Size(replay), 2
  {
    RestartedGood(env, b, entry, mime);
    PerformedTraced(env, Restarted(b, entry, mime), replay);
    var (c', again') := Performed(env, Restarted(b, entry, mime), replay);
    c, again := c', again';
  }

  lemma {:induction false} PerformedTraced(env: Circumstances, s: Situation, work: Work)
    requires Good(env, s)
    ensures var (r, failure) := Performed(env, s, work);
            && (failure.None? ==> Carried(env, Seen(s), Seen(r), work))
            && (failure.Some? ==> Failed(env, Seen(s), Seen(r), work, failure.value))
    decreases Size(work), 1
  {
    match work
    case End =>
    case Check(next) => SampledTraced(env, s, next);
    case Allocate(next) => SampledTraced(env, s, next);
    case Spend(after, next) =>
      SilentGood(env, s, s.(progress := after));
      PerformedTraced(env, s.(progress := after), next);
    case Account(child, exceeded, next) => AccountedTraced(env, s, child, exceeded, next);
    case Turn(_, _) => TurnTraced(env, s, work);
    case Operation(mime, first, replay, complete, incomplete) =>
      RanGood(env, s, mime, first, replay);
      RanTraced(env, s, mime, first, replay);
      var (a, ok) := Ran(env, s, mime, first, replay);
      PerformedTraced(env, a, if ok then complete else incomplete);
  }

  lemma {:induction false} TurnTraced(env: Circumstances, s: Situation, work: Work)
    requires Good(env, s) && work.Turn?
    ensures var (r, failure) := Performed(env, s, work);
            && (failure.None? ==> Carried(env, Seen(s), Seen(r), work))
            && (failure.Some? ==> Failed(env, Seen(s), Seen(r), work, failure.value))
    decreases Size(work), 0
  {
    UsedSeen(env, s);
    RequestedGood(env, s);
    var (a, granted) := Requested(env, s);
    if granted {
      PerformedTraced(env, a, work.accepted);
    } else {
      PerformedTraced(env, a, work.refused);
    }
  }

  lemma {:induction false} AccountedTraced(env: Circumstances, s: Situation, child: Work, exceeded: bool, next: Work)
    requires Good(env, s)
    ensures var (r, failure) := Performed(env, s, Account(child, exceeded, next));
            && (failure.None? ==> Carried(env, Seen(s), Seen(r), Account(child, exceeded, next)))
            && (failure.Some? ==> Failed(env, Seen(s), Seen(r), Account(child, exceeded, next), failure.value))
    decreases 1 + Size(child) + Size(next), 0
  {
    PerformedTraced(env, s, child);
    PerformedGood(env, s, child);
    var (a, failure) := Performed(env, s, child);
    var b := a.(memoryLimitExceeded := a.memoryLimitExceeded || exceeded);
    SilentGood(env, a, b);
    if failure.None? {
      PerformedTraced(env, b, next);
    }
  }

  lemma {:induction false} SampledTraced(env: Circumstances, s: Situation, next: Work)
    requires Good(env, s)
    ensures var (r, failure) := Sampled(env, s, next);
            && (failure.None? ==> Answer(env, s.log, 0).None? &&
                                  Carried(env, Then(Seen(s), Use(s.log)), Seen(r), next))
            && (failure.Some? ==> FailedUse(env, Seen(s), Seen(r), next, failure.value))
    decreases Size(next), 2
  {
    UsedSeen(env, s);
    UsedGood(env, s);
    if UseFails(env, s).None? {
      PerformedTraced(env, Used(s), next);
    }
  }

  /** The uses that work makes before anything that could change the stage. */
  function Steps(work: Work): nat {
    match work
    case Check(next) => 1 + Steps(next)
    case Allocate(next) => 1 + Steps(next)
    case Spend(_, next) => Steps(next)
    case Account(child, _, _) => Steps(child)
    case End => 0
    case Turn(_, _) => 0
    case Operation(_, _, _, _, _) => 0
  }

  lemma {:induction false} UseKeepsStage(env: Circumstances, log: Log, k: nat)
    ensures var more := log + [Use(log)]; Use(more) == Use(log) && Answer(env, more, k) == Answer(env, log, k + 1)
  {
    HappenedMore(log, Use(log));
  }

  /** Nothing that happened is ever taken back. */
  lemma {:induction false} CarriedGrows(env: Circumstances, from: Moment, to: Moment, work: Work)
    requires Carried(env, from, to, work)
    ensures from.log <= to.log
    decreases Size(work), 1
  {
    match work
    case End =>
    case Check(next) => CarriedGrows(env, Then(from, Use(from.log)), to, next);
    case Allocate(next) => CarriedGrows(env, Then(from, Use(from.log)), to, next);
    case Spend(after, next) => CarriedGrows(env, from.(progress := after), to, next);
    case Account(child, _, next) =>
      var m :| Carried(env, from, m, child) && Carried(env, m, to, next);
      CarriedGrows(env, from, m, child);
      CarriedGrows(env, m, to, next);
    case Turn(accepted, refused) =>
      if Carried(env, from, to, refused) {
        CarriedGrows(env, from, to, refused);
      } else if Carried(env, from, to, accepted) {
        CarriedGrows(env, from, to, accepted);
      } else {
        CarriedGrows(env, Then(from, Began), to, accepted);
      }
    case Operation(mime, first, replay, complete, incomplete) =>
      if m :| Completed(env, from, m, mime, first, replay) && Carried(env, m, to, complete) {
        CompletedGrows(env, from, m, mime, first, replay);
        CarriedGrows(env, m, to, complete);
      } else {
        var m :| Incomplete(env, from, m, mime, first, replay) && Carried(env, m, to, incomplete);
        IncompleteGrows(env, from, m, mime, first, replay);
        CarriedGrows(env, m, to, incomplete);
      }
  }

  lemma {:induction false} FailedGrows(env: Circumstances, from: Moment, to: Moment, work: Work, code: Code)
    requires Failed(env, from, to, work, code)
    ensures from.log <= to.log
    decreases Size(work), 1
  {
    match work
    case Check(next) => FailedUseGrows(env, from, to, next, code);
    case Allocate(next) => FailedUseGrows(env, from, to, next, code);
    case Spend(after, next) => FailedGrows(env, from.(progress := after), to, next, code);
    case Account(child, _, next) =>
      if Failed(env, from, to, child, code) {
        FailedGrows(env, from, to, child, code);
      } else {
        var m :| Carried(env, from, m, child) && Failed(env, m, to, next, code);
        CarriedGrows(env, from, m, child);
        FailedGrows(env, m, to, next, code);
      }
    case Turn(accepted, refused) =>
      if Failed(env, from, to, refused, code) {
        FailedGrows(env, from, to, refused, code);
      } else if Failed(env, from, to, accepted, code) {
        FailedGrows(env, from, to, accepted, code);
      } else {
        FailedGrows(env, Then(from, Began), to, accepted, code);
      }
    case Operation(mime, first, replay, complete, incomplete) =>
      if m :| Completed(env, from, m, mime, first, replay) && Failed(env, m, to, complete, code) {
        CompletedGrows(env, from, m, mime, first, replay);
        FailedGrows(env, m, to, complete, code);
      } else {
        var m :| Incomplete(env, from, m, mime, first, replay) && Failed(env, m, to, incomplete, code);
        IncompleteGrows(env, from, m, mime, first, replay);
        FailedGrows(env, m, to, incomplete, code);
      }
  }

  lemma {:induction false} FailedUseGrows(env: Circumstances, from: Moment, to: Moment, next: Work, code: Code)
    requires FailedUse(env, from, to, next, code)
    ensures from.log <= to.log
    decreases Size(next), 2
  {
    if Answer(env, from.log, 0).None? {
      FailedGrows(env, Then(from, Use(from.log)), to, next, code);
    }
  }

  lemma {:induction false} CompletedGrows(env: Circumstances, from: Moment, to: Moment, mime: bool, first: Work,
                                          replay: Work)
    requires Completed(env, from, to, mime, first, replay)
    ensures from.log <= to.log
    decreases 1 + Size(first) + Size(replay), 0
  {
    if Carried(env, from, to, first) {
      CarriedGrows(env, from, to, first);
    } else {
      var m, code :| Failed(env, from, m, first, code) && MayReplay(m, code) &&
                     Carried(env, Resumed(from.progress, m, mime), to, replay);
      FailedGrows(env, from, m, first, code);
      CarriedGrows(env, Resumed(from.progress, m, mime), to, replay);
    }
  }

  lemma {:induction false} IncompleteGrows(env: Circumstances, from: Moment, to: Moment, mime: bool, first: Work,
                                           replay: Work)
    requires Incomplete(env, from, to, mime, first, replay)
    ensures from.log <= to.log
    decreases 1 + Size(first) + Size(replay), 1
  {
    if !(HasEnded(from.log) && to == from) {
      var code :| Stopped(env, from, to, mime, first, replay, code);
      StoppedGrows(env, from, to, mime, first, replay, code);
    }
  }

  lemma {:induction false} StoppedGrows(env: Circumstances, from: Moment, to: Moment, mime: bool, first: Work,
                                        replay: Work, code: Code)
    requires Stopped(env, from, to, mime, first, replay, code)
    ensures from.log <= to.log
    decreases 1 + Size(first) + Size(replay), 0
  {
    if m :| Failed(env, from, m, first, code) && to == Abandoned(m, code) {
      FailedGrows(env, from, m, first, code);
    } else {
      var m, c :| Failed(env, from, m, first, c) && MayReplay(m, c) &&
                  StoppedAgain(env, Resumed(from.progress, m, mime), to, replay, code);
      FailedGrows(env, from, m, first, c);
      AgainGrows(env, Resumed(from.progress, m, mime), to, replay, code);
    }
  }

  lemma {:induction false} AgainGrows(env: Circumstances, from: Moment, to: Moment, replay: Work, code: Code)
    requires StoppedAgain(env, from, to, replay, code)
    ensures from.log <= to.log
    decreases Size(replay), 2
  {
    var n :| Failed(env, from, n, replay, code) && to == Then(n, Ended(code));
    FailedGrows(env, from, n, replay, code);
  }

  /** A use of the stage that `from` is in, at place `k`. */
  ghost predicate UsedAt(from: Log, to: Log, k: nat) {
    |from| + k < |to| && to[|from| + k] == Use(from)
  }

  /** Work done in full made each of those uses, and none of them failed. */
  lemma {:induction false} CarriedSteps(env: Circumstances, from: Moment, to: Moment, work: Work, k: nat)
    requires Carried(env, from, to, work) && k < Steps(work)
    ensures Answer(env, from.log, k).None? && UsedAt(from.log, to.log, k)
    decreases Size(work), 0
  {
    match work
    case Check(next) => CarriedUse(env, from, to, next, k);
    case Allocate(next) => CarriedUse(env, from, to, next, k);
    case Spend(after, next) => CarriedSteps(env, from.(progress := after), to, next, k);
    case Account(child, _, next) =>
      var m :| Carried(env, from, m, child) && Carried(env, m, to, next);
      CarriedSteps(env, from, m, child, k);
      CarriedGrows(env, m, to, next);
  }

  lemma {:induction false} CarriedUse(env: Circumstances, from: Moment, to: Moment, next: Work, k: nat)
    requires Answer(env, from.log, 0).None? && Carried(env, Then(from, Use(from.log)), to, next) && k < 1 + Steps(next)
    ensures Answer(env, from.log, k).None? && UsedAt(from.log, to.log, k)
    decreases Size(next), 1
  {
    if k > 0 {
      CarriedSteps(env, Then(from, Use(from.log)), to, next, k - 1);
      AnswerBefore(env, from.log, to.log, k);
    } else {
      CarriedGrows(env, Then(from, Use(from.log)), to, next);
    }
  }

  lemma {:induction false} AnswerBefore(env: Circumstances, log: Log, to: Log, k: nat)
    requires k > 0 && Answer(env, log + [Use(log)], k - 1).None? && UsedAt(log + [Use(log)], to, k - 1)
    ensures Answer(env, log, k).None? && UsedAt(log, to, k)
  {
    UseKeepsStage(env, log, k - 1);
  }

  /** Work that failed did so at the first of those uses that fails. */
  lemma {:induction false} FailedSteps(env: Circumstances, from: Moment, to: Moment, work: Work, code: Code, k: nat)
    requires Failed(env, from, to, work, code) && k < Steps(work) && Answer(env, from.log, k).Some?
    requires forall i :: 0 <= i < k ==> Answer(env, from.log, i).None?
    ensures Answer(env, from.log, k) == Some(code)
    decreases Size(work), 0
  {
    match work
    case Check(next) => FailedAtUse(env, from, to, next, code, k);
    case Allocate(next) => FailedAtUse(env, from, to, next, code, k);
    case Spend(after, next) => FailedSteps(env, from.(progress := after), to, next, code, k);
    case Account(child, _, next) =>
      if !Failed(env, from, to, child, code) {
        var m :| Carried(env, from, m, child) && Failed(env, m, to, next, code);
        CarriedSteps(env, from, m, child, k);
      } else {
        FailedSteps(env, from, to, child, code, k);
      }
  }

  lemma {:induction false} FailedAtUse(env: Circumstances, from: Moment, to: Moment, next: Work, code: Code, k: nat)
    requires FailedUse(env, from, to, next, code) && k < 1 + Steps(next) && Answer(env, from.log, k).Some?
    requires forall i :: 0 <= i < k ==> Answer(env, from.log, i).None?
    ensures Answer(env, from.log, k) == Some(code)
    decreases Size(next), 1
  {
    if k > 0 {
      assert Answer(env, from.log, 0).None?;
      forall i | 0 <= i < k
        ensures Answer(env, from.log + [Use(from.log)], i) == Answer(env, from.log, i + 1)
      {
        UseKeepsStage(env, from.log, i);
      }
      FailedSteps(env, Then(from, Use(from.log)), to, next, code, k - 1);
    }
  }

  /** How the use of fallback turns out that comes after `k` more. */
  function InFallback(env: Circumstances, s: Situation, k: nat): Option<Code> {
    env.fallback(s.fallbackUses + k)
  }

  /** A replay that was granted is really made: the operation is complete only when
      each use the replay starts with succeeded, and the first that failed is the
      terminal failure. */
  lemma {:induction false} ReplayDecides(env: Circumstances, a: Situation, entry: Progress, mime: bool, code: Code,
                                         replay: Work, k: nat)
    requires Good(env, a) && a.terminal.None? && !a.fallback && code != Cancelled && env.grant(a.requests)
    requires !(env.stopOnMemoryLimit && (a.memoryLimitExceeded || code == MemoryExceeded))
    requires k < Steps(replay)
    ensures var (r, ok) := Retried(env, a, entry, mime, code, replay);
            && (ok ==> InFallback(env, a, k).None? && |a.log| + 2 + k < |r.log| &&
                       r.log[|a.log| + 1].Replayed? && r.log[|a.log| + 2 + k] == UsedFallback)
            && (InFallback(env, a, k).Some? && (forall i :: 0 <= i < k ==> InFallback(env, a, i).None?) ==>
                !ok && r.terminal == InFallback(env, a, k))
  {
    var b := Requested(env, Recorded(a, code, false)).0;
    RecordedGood(env, a, code);
    RequestedGood(env, Recorded(a, code, false));
    RestartedGood(env, b, entry, mime);
    var d := Restarted(b, entry, mime);
    UsedSeen(env, d);
    PerformedTraced(env, d, replay);
    assert TracksLog(d, d.log);
    assert forall i :: 0 <= i <= k ==> Answer(env, d.log, i) == InFallback(env, a, i);
    var (c, again) := Performed(env, d, replay);
    if again.None? {
      CarriedSteps(env, Seen(d), Seen(c), replay, k);
      CarriedGrows(env, Seen(d), Seen(c), replay);
    } else if Answer(env, d.log, k).Some? && forall i :: 0 <= i < k ==> Answer(env, d.log, i).None? {
      FailedSteps(env, Seen(d), Seen(c), replay, again.value, k);
    }
  }

  /* What is reported of the limits is what happened. */

  ghost predicate PrimarySaid(env: Circumstances, uses: nat, code: Code) {
    exists k :: 0 <= k < uses && env.primary(k) == Some(code)
  }

  ghost predicate FallbackSaid(env: Circumstances, uses: nat, code: Code) {
    exists k :: 0 <= k < uses && env.fallback(k) == Some(code)
  }

  /** The flags tell which limits were met, save for a failure not yet recorded. */
  ghost predicate Reported(env: Circumstances, s: Situation, pending: Option<Code>) {
    && (s.cpuLimitExceeded || pending == Some(CPUExceeded) <==>
        PrimarySaid(env, s.primaryUses, CPUExceeded) || FallbackSaid(env, s.fallbackUses, CPUExceeded))
    && (s.fallbackMemoryExceeded || (pending == Some(MemoryExceeded) && s.fallback) <==>
        FallbackSaid(env, s.fallbackUses, MemoryExceeded))
    && (PrimarySaid(env, s.primaryUses, MemoryExceeded) ==>
        s.memoryLimitExceeded || (pending == Some(MemoryExceeded) && !s.fallback))
  }

  lemma {:induction false} UsedReported(env: Circumstances, s: Situation)
    requires Reported(env, s, None)
    ensures Reported(env, Used(s), UseFails(env, s))
  {
    forall code {
      SaidMore(env, s.primaryUses, s.fallbackUses, code);
    }
  }

  lemma {:induction false} SaidMore(env: Circumstances, p: nat, f: nat, code: Code)
    ensures PrimarySaid(env, p + 1, code) <==> PrimarySaid(env, p, code) || env.primary(p) == Some(code)
    ensures FallbackSaid(env, f + 1, code) <==> FallbackSaid(env, f, code) || env.fallback(f) == Some(code)
  {
  }

  lemma {:induction false} RecordedReported(env: Circumstances, s: Situation, code: Code)
    requires Reported(env, s, Some(code))
    ensures Reported(env, Recorded(s, code, s.fallback), None)
  {
  }

  lemma {:induction false} RanReported(env: Circumstances, s: Situation, mime: bool, first: Work, replay: Work)
    requires Good(env, s) && Reported(env, s, None)
    ensures Reported(env, Ran(env, s, mime, first, replay).0, None)
    decreases 1 + Size(first) + Size(replay), 0
  {
    if s.terminal.None? {
      var (a, failure) := Performed(env, s, first);
      PerformedReported(env, s, first);
      PerformedGood(env, s, first);
      if failure.Some? {
        RetriedReported(env, a, s.progress, mime, failure.value, replay);
      }
    }
  }

  lemma {:induction false} RetriedReported(env: Circumstances, a: Situation, entry: Progress, mime: bool, code: Code,
                                           replay: Work)
    requires Good(env, a) && Reported(env, a, Some(code)) && (code == Cancelled ==> WasCancelled(env, a))
    ensures Reported(env, Retried(env, a, entry, mime, code, replay).0, None)
    decreases Size(replay), 3
  {
    if !a.fallback && code != Cancelled && Requested(env, Recorded(a, code, false)).1 {
      var b := Granted(env, a, code);
      RequestedReported(env, a, code);
      SecondReported(env, b, entry, mime, replay);
      RetriedAs(env, a, entry, mime, code, replay);
    } else {
      AbandonedReported(env, a, entry, mime, code, replay);
    }
  }

  lemma {:induction false} RequestedReported(env: Circumstances, a: Situation, code: Code)
    requires Reported(env, a, Some(code)) && !a.fallback
    ensures Reported(env, Requested(env, Recorded(a, code, false)).0, None)
  {
    RecordedReported(env, a, code);
  }

  lemma {:induction false} AbandonedReported(env: Circumstances, a: Situation, entry: Progress, mime: bool, code: Code,
                                             replay: Work)
    requires Reported(env, a, Some(code))
    requires a.fallback || code == Cancelled || !Requested(env, Recorded(a, code, false)).1
    ensures Reported(env, Retried(env, a, entry, mime, code, replay).0, None)
  {
    RecordedReported(env, a, code);
  }

  lemma {:induction false} SecondReported(env: Circumstances, b: Situation, entry: Progress, mime: bool, replay: Work)
    requires Good(env, b) && b.fallback && b.log != [] && b.log[|b.log| - 1].Began? && Reported(env, b, None)
    ensures var (c, again) := Performed(env, Restarted(b, entry, mime), replay);
            if again.None? then Reported(env, c, None) else Reported(env, Recorded(c, again.value, true), None)
    decreases Size(replay), 2
  {
    var d := Restarted(b, entry, mime);
    RestartedGood(env, b, entry, mime);
    PerformedGood(env, d, replay);
    PerformedReported(env, d, replay);
    var (c, again) := Performed(env, d, replay);
    if again.Some? {
      RecordedReported(env, c, again.value);
    }
  }

  lemma {:induction false} PerformedReported(env: Circumstances, s: Situation, work: Work)
    requires Good(env, s) && Reported(env, s, None)
    ensures var (r, failure) := Performed(env, s, work); Reported(env, r, failure)
    decreases Size(work), 1
  {
    match work
    case End =>
    case Check(next) => SampledReported(env, s, next);
    case Allocate(next) => SampledReported(env, s, next);
    case Spend(after, next) =>
      SilentGood(env, s, s.(progress := after));
      PerformedReported(env, s.(progress := after), next);
    case Account(child, exceeded, next) =>
      PerformedReported(env, s, child);
      PerformedGood(env, s, child);
      var (a, failure) := Performed(env, s, child);
      var b := a.(memoryLimitExceeded := a.memoryLimitExceeded || exceeded);
      SilentGood(env, a, b);
      if failure.None? {
        PerformedReported(env, b, next);
      }
    case Turn(accepted, refused) =>
      RequestedGood(env, s);
      var (a, granted) := Requested(env, s);
      PerformedReported(env, a, if granted then accepted else refused);
    case Operation(mime, first, replay, complete, incomplete) =>
      RanGood(env, s, mime, first, replay);
      RanReported(env, s, mime, first, replay);
      var (a, ok) := Ran(env, s, mime, first, replay);
      PerformedReported(env, a, if ok then complete else incomplete);
  }

  lemma {:induction false} SampledReported(env: Circumstances, s: Situation, next: Work)
    requires Good(env, s) && Reported(env, s, None)
    ensures var (r, failure) := Sampled(env, s, next); Reported(env, r, failure)
    decreases Size(next), 2
  {
    UsedGood(env, s);
    UsedReported(env, s);
    if UseFails(env, s).None? {
      PerformedReported(env, Used(s), next);
    }
  }

  /** The message-wide state of extraction. */
  class ExtractionBudget {
    const env: Circumstances
    var primaryUses: nat
    var fallbackUses: nat
    var requests: nat
    var terminal: Option<Code>
    var fallback: bool
    var cpuLimitExceeded: bool
    var memoryLimitExceeded: bool
    var fallbackMemoryExceeded: bool
    var progress: Progress
    ghost var log: Log

    ghost function Now(): Situation
      reads this
    {
      Situation(primaryUses, fallbackUses, requests, terminal, fallback,
                cpuLimitExceeded, memoryLimitExceeded, fallbackMemoryExceeded, progress, log)
    }

    constructor (env: Circumstances, progress: Progress)
      ensures this.env == env && Now() == START.(progress := progress)
    {
      this.env := env;
      this.progress, primaryUses, fallbackUses, requests, terminal, fallback := progress, 0, 0, 0, None, false;
      cpuLimitExceeded, memoryLimitExceeded, fallbackMemoryExceeded := false, false, false;
      log := [];
    }

    /** Record a terminal failure. */
    method EndWith(code: Code)
      modifies this`terminal, this`log
      ensures Now() == GivenUp(old(Now()), code)
    {
      terminal := Some(code);
      log := log + [Ended(code)];
    }

    /** Sample the allowance, or allocate, in whichever stage is active. */
    method UseStage() returns (failure: Option<Code>)
      modifies this`primaryUses, this`fallbackUses, this`log
      ensures Now() == Used(old(Now())) && failure == UseFails(env, old(Now()))
      ensures old(fallback) ==> primaryUses == old(primaryUses) && log == old(log) + [UsedFallback]
      ensures !old(fallback) ==> fallbackUses == old(fallbackUses) && log == old(log) + [UsedPrimary]
    {
      if fallback {
        failure := env.fallback(fallbackUses);
        fallbackUses := fallbackUses + 1;
        log := log + [UsedFallback];
      } else {
        failure := env.primary(primaryUses);
        primaryUses := primaryUses + 1;
        log := log + [UsedPrimary];
      }
    }

    /** Fallback is granted once, and never after a terminal failure. */
    method BeginFallback() returns (ok: bool)
      modifies this`fallback, this`requests, this`log
      ensures (Now(), ok) == Requested(env, old(Now()))
      ensures ok ==> fallback && terminal.None? && (old(fallback) || log == old(log) + [Began])
      ensures !ok ==> fallback == old(fallback) && log == old(log)
    {
      if terminal.Some? {
        return false;
      }
      if fallback {
        return true;
      }
      if memoryLimitExceeded && env.stopOnMemoryLimit {
        return false;
      }
      ok := env.grant(requests);
      requests := requests + 1;
      if ok {
        fallback := true;
        log := log + [Began];
      }
    }

    method RecordTermination(code: Code, inFallback: bool)
      modifies this`terminal, this`log, this`cpuLimitExceeded, this`memoryLimitExceeded, this`fallbackMemoryExceeded
      ensures Now() == Recorded(old(Now()), code, inFallback)
    {
      match code {
        case CPUExceeded =>
          cpuLimitExceeded := true;
        case MemoryExceeded =>
          if inFallback {
            if fallback && !fallbackMemoryExceeded {
              fallbackMemoryExceeded := true;
            }
          } else {
            NoteMemoryLimit();
          }
        case Cancelled =>
      }
      if inFallback || code == Cancelled {
        EndWith(code);
      }
    }

    method NoteMemoryLimit()
      modifies this`memoryLimitExceeded
      ensures memoryLimitExceeded
    {
      if !memoryLimitExceeded {
        memoryLimitExceeded := true;
      }
    }

    /** One restartable operation. */
    method RunExtraction(mime: bool, first: Work, replay: Work) returns (complete: bool)
      modifies this
      ensures (Now(), complete) == Ran(env, old(Now()), mime, first, replay)
      decreases 1 + Size(first) + Size(replay), 0
    {
      if terminal.Some? {
        return false;
      }
      var entry := progress;
      var failure := Perform(first);
      if failure.None? {
        return true;
      }
      complete := Retry(entry, mime, failure.value, replay);
    }

    /** After a failed attempt: give up, or replay once with fallback resources. */
    method Retry(entry: Progress, mime: bool, code: Code, replay: Work) returns (complete: bool)
      modifies this
      ensures (Now(), complete) == Retried(env, old(Now()), entry, mime, code, replay)
      decreases Size(replay), 2
    {
      var inFallback := fallback;
      RecordTermination(code, inFallback);
      var begun := false;
      if !inFallback && code != Cancelled {
        begun := BeginFallback();
      }
      if !begun {
        EndWith(code);
        return false;
      }
      Restart(entry, mime);
      var failure := Perform(replay);
      if failure.None? {
        return true;
      }
      RecordTermination(failure.value, true);
      return false;
    }

    method Restart(entry: Progress, mime: bool)
      modifies this`progress, this`log
      ensures Now() == Restarted(old(Now()), entry, mime)
    {
      if mime {
        progress := entry;
      }
      log := log + [Replayed(mime, entry, progress)];
    }

    /** Carry out work up to its first failure. */
    method Perform(work: Work) returns (failure: Option<Code>)
      modifies this
      ensures (Now(), failure) == Performed(env, old(Now()), work)
      decreases Size(work), 1
    {
      match work {
        case End =>
          return None;
        case Check(next) =>
          failure := UseStage();
          if failure.None? {
            failure := Perform(next);
          }
        case Allocate(next) =>
          failure := UseStage();
          if failure.None? {
            failure := Perform(next);
          }
        case Spend(after, next) =>
          progress := after;
          failure := Perform(next);
        case Account(child, exceeded, next) =>
          failure := Perform(child);
          if exceeded {
            NoteMemoryLimit();
          }
          if failure.None? {
            failure := Perform(next);
          }
        case Turn(accepted, refused) =>
          var granted := BeginFallback();
          if granted {
            failure := Perform(accepted);
          } else {
            failure := Perform(refused);
          }
        case Operation(mime, first, replay, whenComplete, whenIncomplete) =>
          var complete := RunExtraction(mime, first, replay);
          if complete {
            failure := Perform(whenComplete);
          } else {
            failure := Perform(whenIncomplete);
          }
      }
    }
  }

  /** For any work, another on a replay, and any pattern of failures and grants, the
      log of all uses, moves, replays and ends is in order: fallback begins at most once and never
      after a terminal failure, the primary resources are not used after it, and
      at most one operation is replayed. An incomplete message has a terminal
      failure that fallback could not avoid. */
  method ExtractMessage(env: Circumstances, progress: Progress, first: Work, replay: Work)
    returns (budget: ExtractionBudget, complete: bool)
    ensures fresh(budget)
    ensures (budget.Now(), complete) == Ran(env, START.(progress := progress), true, first, replay)
    ensures TracksLog(budget.Now(), budget.log) && Excused(env, budget.Now())
    ensures Reported(env, budget.Now(), None)
    ensures complete ==> Completed(env, Moment([], progress), Seen(budget.Now()), true, first, replay)
    ensures !complete ==>
              && budget.terminal.Some?
              && Stopped(env, Moment([], progress), Seen(budget.Now()), true, first, replay, budget.terminal.value)
  {
    budget := new ExtractionBudget(env, progress);
    complete := budget.RunExtraction(true, first, replay);
    var start := START.(progress := progress);
    assert TracksLog(start, start.log);
    RanGood(env, start, true, first, replay);
    RanTraced(env, start, true, first, replay);
    RanReported(env, start, true, first, replay);
  }
}
