/** The registration cache: many callers, one lookup per domain. Every step
    below is atomic; callers interleave freely. */
module Registration {
  import opened Optional

  type Time = int

  /** The time that means none was given. */
  const ZERO_TIME: Time := 0
  const MISSING_EXPIRY: Time := 14 * 24 * 3600
  const FAILURE_RETRY: Time := 5 * 60
  const DEADLINE_RETRY: Time := 60

  datatype Record = Record(registeredAt: Time, expiresAt: Time)

  /** What a lookup came back with. */
  datatype Answer = Dates(registeredAt: Time, expiresAt: Time) | Failed(deadline: bool)

  /** Where a caller is. `now` is the time it read when it began; `pending` is
      the channel of the lookup it owns or waits for. */
  datatype Caller =
    | Begun(domain: string)
    | Reading(domain: string, now: Time)
    | AtLock(domain: string, now: Time)
    | Waiting(domain: string, pending: nat)
    | Woken(domain: string)
    | Claimed(domain: string, now: Time, pending: nat)
    | Checking(domain: string, now: Time, pending: nat, found: Option<Record>)
    | NeedsSlot(domain: string, now: Time, pending: nat)
    | LookingUp(domain: string, now: Time, pending: nat)
    | LookedUp(domain: string, now: Time, pending: nat, answer: Answer)
    | Storing(domain: string, now: Time, pending: nat, record: Record)
    | Closing(domain: string, now: Time, pending: nat, failure: Option<bool>, evidence: Option<Record>)
    | Finishing(domain: string, now: Time, pending: nat, evidence: Option<Record>)
    | Returned(evidence: Option<Record>)

  datatype State = State(
    callers: map<nat, Caller>,
    inflight: map<string, nat>,
    failures: map<string, Time>,
    repository: map<string, Record>,
    /** How often each channel was closed; channels are numbered as made. */
    closes: seq<nat>,
    slots: nat,
    clock: Time)

  datatype Config = Config(capacity: nat, maxSize: int)

  /** The channel a caller is responsible for. */
  predicate Owns(c: Caller) {
    c.Claimed? || c.Checking? || c.NeedsSlot? || c.LookingUp? || c.LookedUp? || c.Storing? || c.Closing? || c.Finishing?
  }

  predicate Fresh(repository: map<string, Record>, domain: string, clock: Time) {
    domain in repository && repository[domain].expiresAt > clock
  }

  function Found(repository: map<string, Record>, domain: string): Option<Record> {
    if domain in repository then Some(repository[domain]) else None
  }

  /** The dates are usable: registered, not in the future, and not over. */
  predicate Usable(answer: Answer, now: Time) {
    && answer.Dates? && answer.registeredAt != ZERO_TIME && answer.registeredAt <= now
    && (answer.expiresAt == ZERO_TIME || (answer.registeredAt < answer.expiresAt && answer.expiresAt > now))
  }

  /** The record kept of usable dates; without an expiry it is refreshed soon. */
  function Refreshed(answer: Answer, now: Time): Record
    requires answer.Dates?
  {
    Record(answer.registeredAt, if answer.expiresAt == ZERO_TIME then now + MISSING_EXPIRY else answer.expiresAt)
  }

  /* Steps. */

  datatype Action =
    | Arrive(t: nat, name: string)
    | ReadClock(t: nat)
    | ReadRepository(t: nat, err: bool)
    | Lock(t: nat)
    | Wake(t: nat)
    | Cancel(t: nat)
    | ReadAfterWait(t: nat, err: bool)
    | Recheck(t: nat, err: bool)
    | Decide(t: nat)
    | TakeSlot(t: nat)
    | GiveUpSlot(t: nat, deadline: bool)
    | LookupReturns(t: nat, answer: Answer)
    | Judge(t: nat)
    | Store(t: nat, err: bool)
    | Close(t: nat, cancelled: bool, pruned: map<string, Time>)
    | Finish(t: nat)
    | Tick(to: Time)
    | Evict(name: string)

  predicate At(s: State, a: Action) {
    match a
    case Arrive(t, _) => t !in s.callers
    case ReadClock(t) => t in s.callers && s.callers[t].Begun?
    case ReadRepository(t, _) => t in s.callers && s.callers[t].Reading?
    case Lock(t) => t in s.callers && s.callers[t].AtLock?
    case Wake(t) => t in s.callers && s.callers[t].Waiting?
    case Cancel(t) => t in s.callers && s.callers[t].Waiting?
    case ReadAfterWait(t, _) => t in s.callers && s.callers[t].Woken?
    case Recheck(t, _) => t in s.callers && s.callers[t].Claimed?
    case Decide(t) => t in s.callers && s.callers[t].Checking?
    case TakeSlot(t) => t in s.callers && s.callers[t].NeedsSlot?
    case GiveUpSlot(t, _) => t in s.callers && s.callers[t].NeedsSlot?
    case LookupReturns(t, _) => t in s.callers && s.callers[t].LookingUp?
    case Judge(t) => t in s.callers && s.callers[t].LookedUp?
    case Store(t, _) => t in s.callers && s.callers[t].Storing?
    case Close(t, _, _) => t in s.callers && s.callers[t].Closing?
    case Finish(t) => t in s.callers && s.callers[t].Finishing?
    case Tick(to) => to >= s.clock
    case Evict(_) => true
  }

  /** What pruning before `now` may leave: expired failures go, and others until
      one more fits. */
  ghost predicate Pruned(failures: map<string, Time>, now: Time, maxSize: int, pruned: map<string, Time>) {
    && (forall d :: d in pruned ==> d in failures && pruned[d] == failures[d] && failures[d] > now)
    && (|pruned| == 0 || |pruned| < maxSize)
  }

  ghost predicate Enabled(c: Config, s: State, a: Action) {
    && At(s, a)
    && (a.Wake? ==> s.callers[a.t].pending < |s.closes| && s.closes[s.callers[a.t].pending] > 0)
    && (a.TakeSlot? ==> s.slots < c.capacity)
    && (a.Close? ==> Pruned(s.failures, s.callers[a.t].now, c.maxSize, a.pruned))
  }

  function Moved(s: State, t: nat, c: Caller): State {
    s.(callers := s.callers[t := c])
  }

  /** Under the lock: a recent failure ends the call, a running lookup is waited
      for, and otherwise the caller claims the domain. */
  function AfterLock(s: State, t: nat, c: Caller): State
    requires c.AtLock?
  {
    if c.domain in s.failures && s.failures[c.domain] > c.now then Moved(s, t, Returned(None))
    else if c.domain in s.inflight then Moved(s, t, Waiting(c.domain, s.inflight[c.domain]))
    else
      Moved(s, t, Claimed(c.domain, c.now, |s.closes|)).(
        inflight := s.inflight[c.domain := |s.closes|], closes := s.closes + [0])
  }

  function Closed(closes: seq<nat>, pending: nat): seq<nat> {
    if pending < |closes| then closes[pending := closes[pending] + 1] else closes
  }

  /** The failures after a lookup: one is noted unless the caller gave up, and
      success forgets it. */
  function Noted(failures: map<string, Time>, domain: string, now: Time, failure: Option<bool>, cancelled: bool,
                 pruned: map<string, Time>): map<string, Time>
  {
    if failure.None? then failures - {domain}
    else if cancelled then failures
    else pruned[domain := now + (if failure.value then DEADLINE_RETRY else FAILURE_RETRY)]
  }

  /** Under the lock: the domain is given up, the failure noted or forgotten, and
      the channel closed. */
  function AfterClose(s: State, t: nat, c: Caller, cancelled: bool, pruned: map<string, Time>): State
    requires c.Closing?
  {
    Moved(s, t, Returned(c.evidence)).(
      inflight := s.inflight - {c.domain},
      failures := Noted(s.failures, c.domain, c.now, c.failure, cancelled, pruned),
      closes := Closed(s.closes, c.pending))
  }

  /** Under the lock: the domain is given up if it is still this caller's. */
  function AfterFinish(s: State, t: nat, c: Caller): State
    requires c.Finishing?
  {
    if c.domain in s.inflight && s.inflight[c.domain] == c.pending then
      Moved(s, t, Returned(c.evidence)).(inflight := s.inflight - {c.domain}, closes := Closed(s.closes, c.pending))
    else Moved(s, t, Returned(c.evidence))
  }

  function Decided(s: State, c: Caller): Caller
    requires c.Checking?
  {
    if c.found.Some? && c.found.value.expiresAt > s.clock then Finishing(c.domain, c.now, c.pending, c.found)
    else NeedsSlot(c.domain, c.now, c.pending)
  }

  function Judged(c: Caller): Caller
    requires c.LookedUp?
  {
    if c.answer.Failed? then Closing(c.domain, c.now, c.pending, Some(c.answer.deadline), None)
    else if Usable(c.answer, c.now) then Storing(c.domain, c.now, c.pending, Refreshed(c.answer, c.now))
    else Closing(c.domain, c.now, c.pending, Some(false), None)
  }

  function Apply(s: State, a: Action): State
    requires At(s, a)
  {
    match a
    case Arrive(t, name) => Moved(s, t, if name == "" then Returned(None) else Begun(name))
    case ReadClock(t) => Moved(s, t, Reading(s.callers[t].domain, s.clock))
    case ReadRepository(t, err) =>
      var c := s.callers[t];
      Moved(s, t, if err then Returned(None)
                  else if Fresh(s.repository, c.domain, c.now) then Returned(Some(s.repository[c.domain]))
                  else AtLock(c.domain, c.now))
    case Lock(t) => AfterLock(s, t, s.callers[t])
    case Wake(t) => Moved(s, t, Woken(s.callers[t].domain))
    case Cancel(t) => Moved(s, t, Returned(None))
    case ReadAfterWait(t, err) =>
      var domain := s.callers[t].domain;
      Moved(s, t, Returned(if !err && Fresh(s.repository, domain, s.clock) then Some(s.repository[domain]) else None))
    case Recheck(t, err) =>
      var c := s.callers[t];
      Moved(s, t, if err then Finishing(c.domain, c.now, c.pending, None)
                  else Checking(c.domain, c.now, c.pending, Found(s.repository, c.domain)))
    case Decide(t) => Moved(s, t, Decided(s, s.callers[t]))
    case TakeSlot(t) =>
      var c := s.callers[t];
      Moved(s, t, LookingUp(c.domain, c.now, c.pending)).(slots := s.slots + 1)
    case GiveUpSlot(t, deadline) =>
      var c := s.callers[t];
      Moved(s, t, LookedUp(c.domain, c.now, c.pending, Failed(deadline)))
    case LookupReturns(t, answer) =>
      var c := s.callers[t];
      Moved(s, t, LookedUp(c.domain, c.now, c.pending, answer)).(slots := if s.slots > 0 then s.slots - 1 else 0)
    case Judge(t) => Moved(s, t, Judged(s.callers[t]))
    case Store(t, err) =>
      var c := s.callers[t];
      Moved(s, t, Closing(c.domain, c.now, c.pending, None, if err then None else Some(c.record))).(
        repository := if err then s.repository else s.repository[c.domain := c.record])
    case Close(t, cancelled, pruned) => AfterClose(s, t, s.callers[t], cancelled, pruned)
    case Finish(t) => AfterFinish(s, t, s.callers[t])
    case Tick(to) => s.(clock := to)
    case Evict(name) => s.(repository := s.repository - {name})
  }

  /* What every step keeps. */

  /** Each domain in flight has one caller responsible for it, named by `owner`,
      and nobody else is responsible for anything. */
  ghost predicate Sole(s: State, owner: map<string, nat>) {
    && owner.Keys == s.inflight.Keys
    && (forall d :: d in owner ==>
        owner[d] in s.callers && Owns(s.callers[owner[d]]) && s.callers[owner[d]].domain == d)
    && (forall t :: t in s.callers && Owns(s.callers[t]) ==> OwnsRightly(s, owner, t, s.callers[t]))
  }

  predicate OwnsRightly(s: State, owner: map<string, nat>, t: nat, c: Caller)
    requires Owns(c)
  {
    c.domain in owner && owner[c.domain] == t && c.domain in s.inflight && s.inflight[c.domain] == c.pending
  }

  /** Every channel is in flight and open, or was closed once. */
  ghost predicate Accounted(s: State) {
    && (forall d :: d in s.inflight ==> s.inflight[d] < |s.closes|)
    && (forall d, e :: d in s.inflight && e in s.inflight && s.inflight[d] == s.inflight[e] ==> d == e)
    && (forall ch :: 0 <= ch < |s.closes| ==> s.closes[ch] == (if InFlight(s.inflight, ch) then 0 else 1))
    && (forall t :: t in s.callers && s.callers[t].Waiting? ==> s.callers[t].pending < |s.closes|)
  }

  ghost predicate InFlight(inflight: map<string, nat>, ch: nat) {
    exists d :: d in inflight && inflight[d] == ch
  }

  /** The same responsibility, if any. */
  predicate SameDuty(c: Caller, d: Caller) {
    Owns(c) == Owns(d) && (Owns(c) ==> c.domain == d.domain && c.pending == d.pending)
  }

  /** A step of one caller that neither takes nor gives up responsibility. */
  lemma {:induction false} QuietKeeps(s: State, s': State, t: nat, owner: map<string, nat>)
    requires Sole(s, owner) && Accounted(s)
    requires s'.inflight == s.inflight && s'.closes == s.closes && t in s'.callers &&
             s'.callers == s.callers[t := s'.callers[t]]
    requires if t in s.callers then SameDuty(s.callers[t], s'.callers[t]) else !Owns(s'.callers[t])
    requires s'.callers[t].Waiting? ==> s'.callers[t].pending < |s.closes|
    ensures Sole(s', owner) && Accounted(s')
  {
    forall d | d in owner
      ensures owner[d] in s'.callers && Owns(s'.callers[owner[d]]) && s'.callers[owner[d]].domain == d
    {
    }
  }

  lemma {:induction false} ClaimKeeps(s: State, t: nat, owner: map<string, nat>)
    requires Sole(s, owner) && Accounted(s) && t in s.callers && s.callers[t].AtLock? &&
             s.callers[t].domain !in s.inflight
    ensures var c := s.callers[t];
            var s' := Moved(s, t, Claimed(c.domain, c.now, |s.closes|)).(
                        inflight := s.inflight[c.domain := |s.closes|], closes := s.closes + [0]);
            Sole(s', owner[c.domain := t]) && Accounted(s')
  {
    var c := s.callers[t];
    var ch := |s.closes|;
    var inflight := s.inflight[c.domain := ch];
    forall k | 0 <= k < ch
      ensures InFlight(inflight, k) <==> InFlight(s.inflight, k)
    {
      if InFlight(s.inflight, k) {
        var d :| d in s.inflight && s.inflight[d] == k;
        assert inflight[d] == k;
      }
    }
    assert inflight[c.domain] == ch;
  }

  lemma {:induction false} ReleaseKeeps(s: State, s': State, t: nat, owner: map<string, nat>)
    requires Sole(s, owner) && Accounted(s) && t in s.callers && Owns(s.callers[t])
    requires s'.inflight == s.inflight - {s.callers[t].domain} && s'.closes == Closed(s.closes, s.callers[t].pending)
    requires t in s'.callers && s'.callers == s.callers[t := s'.callers[t]] && s'.callers[t].Returned?
    ensures Sole(s', owner - {s.callers[t].domain}) && Accounted(s')
  {
    var c := s.callers[t];
    assert OwnsRightly(s, owner, t, c);
    StillInFlight(s.inflight, c.domain, |s.closes|);
  }

  lemma {:induction false} StillInFlight(inflight: map<string, nat>, domain: string, channels: nat)
    requires domain in inflight
    requires forall d, e :: d in inflight && e in inflight && inflight[d] == inflight[e] ==> d == e
    ensures InFlight(inflight, inflight[domain])
    ensures forall k: nat :: InFlight(inflight - {domain}, k) <==> InFlight(inflight, k) && k != inflight[domain]
  {
    forall k: nat
      ensures InFlight(inflight - {domain}, k) <==> InFlight(inflight, k) && k != inflight[domain]
    {
      if InFlight(inflight, k) && k != inflight[domain] {
        var d :| d in inflight && inflight[d] == k;
        assert d in inflight - {domain};
      }
    }
  }

  /** Responsibility after a step. */
  ghost function OwnerAfter(s: State, owner: map<string, nat>, a: Action): map<string, nat>
    requires At(s, a)
  {
    var s' := Apply(s, a);
    if a.Lock? && s'.callers[a.t].Claimed? then owner[s.callers[a.t].domain := a.t]
    else if a.Close? || a.Finish? then owner - {s.callers[a.t].domain}
    else owner
  }

  lemma {:induction false} OwnershipKept(c: Config, s: State, a: Action, owner: map<string, nat>)
    requires Sole(s, owner) && Accounted(s) && Enabled(c, s, a)
    ensures Sole(Apply(s, a), OwnerAfter(s, owner, a)) && Accounted(Apply(s, a))
  {
    var s' := Apply(s, a);
    if a.Lock? {
      LockKeeps(s, a.t, owner);
    } else if a.Close? {
      ReleaseKeeps(s, s', a.t, owner);
    } else if a.Finish? {
      assert OwnsRightly(s, owner, a.t, s.callers[a.t]);
      ReleaseKeeps(s, s', a.t, owner);
    } else if !a.Tick? && !a.Evict? {
      QuietStep(s, a);
      QuietKeeps(s, s', a.t, owner);
    }
  }

  /** Steps that touch no domain in flight leave responsibilities alone. */
  lemma {:induction false} QuietStep(s: State, a: Action)
    requires At(s, a) && !a.Lock? && !a.Close? && !a.Finish? && !a.Tick? && !a.Evict?
    ensures var s' := Apply(s, a);
            && s'.inflight == s.inflight && s'.closes == s.closes
            && a.t in s'.callers && s'.callers == s.callers[a.t := s'.callers[a.t]] && !s'.callers[a.t].Waiting?
            && if a.t in s.callers then SameDuty(s.callers[a.t], s'.callers[a.t]) else !Owns(s'.callers[a.t])
  {
  }

  lemma {:induction false} LockKeeps(s: State, t: nat, owner: map<string, nat>)
    requires Sole(s, owner) && Accounted(s) && At(s, Lock(t))
    ensures Sole(Apply(s, Lock(t)), OwnerAfter(s, owner, Lock(t))) && Accounted(Apply(s, Lock(t)))
  {
    var s' := Apply(s, Lock(t));
    if s'.callers[t].Claimed? {
      ClaimKeeps(s, t, owner);
    } else {
      QuietKeeps(s, s', t, owner);
    }
  }

  /* Slots. */

  ghost function LookingUpNow(callers: map<nat, Caller>): set<nat> {
    set t | t in callers && callers[t].LookingUp?
  }

  /** As many slots are taken as lookups run, and never more than there are. */
  ghost predicate SlotsMatch(c: Config, s: State) {
    s.slots == |LookingUpNow(s.callers)| <= c.capacity
  }

  lemma {:induction false} SlotsKept(c: Config, s: State, a: Action)
    requires SlotsMatch(c, s) && Enabled(c, s, a)
    ensures SlotsMatch(c, Apply(s, a))
  {
    if !a.Tick? && !a.Evict? {
      MovesOneCaller(s, a);
      SlotStep(s, a);
      LookingUpAfter(s.callers, a.t, Apply(s, a).callers[a.t]);
    }
  }

  lemma {:induction false} LookingUpAfter(callers: map<nat, Caller>, t: nat, c: Caller)
    ensures var now, then' := |LookingUpNow(callers)|, |LookingUpNow(callers[t := c])|;
            var was := t in callers && callers[t].LookingUp?;
            then' == if was == c.LookingUp? then now else if was then now - 1 else now + 1
  {
    var now, then' := LookingUpNow(callers), LookingUpNow(callers[t := c]);
    if c.LookingUp? {
      assert then' == now + {t};
    } else {
      assert then' == now - {t};
    }
  }

  lemma {:induction false} SlotStep(s: State, a: Action)
    requires At(s, a) && !a.Tick? && !a.Evict?
    ensures var s' := Apply(s, a);
            && a.t in s'.callers
            && (s'.callers[a.t].LookingUp? <==> a.TakeSlot?)
            && (a.t in s.callers && s.callers[a.t].LookingUp? <==> a.LookupReturns?)
            && s'.slots == if a.TakeSlot? then s.slots + 1
                           else if a.LookupReturns? && s.slots > 0 then s.slots - 1 else s.slots
  {
  }

  /* Failures. */

  function Larger(x: int, y: int): int {
    if x > y then x else y
  }

  ghost predicate FailuresBounded(c: Config, s: State) {
    |s.failures| <= Larger(1, c.maxSize)
  }

  lemma {:induction false} FailuresKept(c: Config, s: State, a: Action)
    requires FailuresBounded(c, s) && Enabled(c, s, a)
    ensures FailuresBounded(c, Apply(s, a))
  {
    if a.Close? {
      var caller := s.callers[a.t];
      RemovalSmaller(s.failures, caller.domain);
      InsertionByOne(a.pruned, caller.domain, caller.now + DEADLINE_RETRY);
      InsertionByOne(a.pruned, caller.domain, caller.now + FAILURE_RETRY);
    }
  }

  lemma {:induction false} RemovalSmaller(m: map<string, Time>, d: string)
    ensures |m - {d}| <= |m|
  {
    assert (m - {d}).Keys == m.Keys - {d};
    assert |m| == |m.Keys| && |m - {d}| == |(m - {d}).Keys|;
  }

  lemma {:induction false} InsertionByOne(m: map<string, Time>, d: string, time: Time)
    ensures |m[d := time]| <= |m| + 1
  {
    assert m[d := time].Keys == m.Keys + {d};
    assert |m| == |m.Keys| && |m[d := time]| == |m[d := time].Keys|;
  }

  /* Records. */

  /** A registration that began, not in the future, before it ends. */
  predicate Good(r: Record, clock: Time) {
    r.registeredAt != ZERO_TIME && r.registeredAt < r.expiresAt && r.registeredAt <= clock
  }

  predicate GoodIfAny(r: Option<Record>, clock: Time) {
    r.Some? ==> Good(r.value, clock)
  }

  predicate CarriesGood(c: Caller, clock: Time) {
    && (!c.Begun? && !c.Waiting? && !c.Woken? && !c.Returned? ==> c.now <= clock)
    && match c
       case Checking(_, _, _, found) => GoodIfAny(found, clock)
       case Storing(_, _, _, record) => Good(record, clock)
       case Closing(_, _, _, _, evidence) => GoodIfAny(evidence, clock)
       case Finishing(_, _, _, evidence) => GoodIfAny(evidence, clock)
       case Returned(evidence) => GoodIfAny(evidence, clock)
       case _ => true
  }

  /** Only usable registrations are kept, carried and handed out. */
  ghost predicate RecordsGood(s: State) {
    && (forall d :: d in s.repository ==> Good(s.repository[d], s.clock))
    && (forall t :: t in s.callers ==> CarriesGood(s.callers[t], s.clock))
  }

  lemma {:induction false} RecordsKept(c: Config, s: State, a: Action)
    requires RecordsGood(s) && Enabled(c, s, a)
    ensures RecordsGood(Apply(s, a))
  {
    if !a.Tick? && !a.Evict? {
      var s' := Apply(s, a);
      assert a.t in s.callers ==> CarriesGood(s.callers[a.t], s.clock);
      MovesOneCaller(s, a);
      NextCarriesGood(s, a);
    }
  }

  lemma {:induction false} MovesOneCaller(s: State, a: Action)
    requires At(s, a) && !a.Tick? && !a.Evict?
    ensures a.t in Apply(s, a).callers && Apply(s, a).callers == s.callers[a.t := Apply(s, a).callers[a.t]]
    ensures Apply(s, a).clock == s.clock
  {
  }

  lemma {:induction false} NextCarriesGood(s: State, a: Action)
    requires At(s, a) && !a.Tick? && !a.Evict?
    requires forall d :: d in s.repository ==> Good(s.repository[d], s.clock)
    requires a.t in s.callers ==> CarriesGood(s.callers[a.t], s.clock)
    ensures a.t in Apply(s, a).callers && CarriesGood(Apply(s, a).callers[a.t], s.clock)
    ensures forall d :: d in Apply(s, a).repository ==> Good(Apply(s, a).repository[d], s.clock)
  {
  }

  /* No lookup while a record is fresh. */

  predicate PastRecheck(c: Caller) {
    c.NeedsSlot? || c.LookingUp? || c.LookedUp? || c.Storing?
  }

  predicate NotFresh(s: State, c: Caller) {
    && (PastRecheck(c) ==> !Fresh(s.repository, c.domain, s.clock))
    && (c.Checking? && c.domain in s.repository ==> c.found == Some(s.repository[c.domain]))
  }

  /** Whoever got past the second look at the repository looks up a domain that
      has no fresh record there. */
  ghost predicate Needed(s: State) {
    forall t :: t in s.callers ==> NotFresh(s, s.callers[t])
  }

  lemma {:induction false} NeededKept(c: Config, s: State, a: Action, owner: map<string, nat>)
    requires Needed(s) && Sole(s, owner) && Enabled(c, s, a)
    ensures Needed(Apply(s, a))
  {
    var s' := Apply(s, a);
    if a.Store? {
      StoreKeepsOthers(s, a, owner);
    }
    if !a.Tick? && !a.Evict? {
      MovesOneCaller(s, a);
      NextNotFresh(s, a);
    }
    forall t | t in s'.callers
      ensures NotFresh(s', s'.callers[t])
    {
      if t in s.callers && (a.Tick? || a.Evict? || t != a.t) {
        assert NotFresh(s, s.callers[t]);
        OthersNotFresh(s, a, t);
      }
    }
  }

  /** A record is stored for a domain that only the storing caller looks up. */
  lemma {:induction false} StoreKeepsOthers(s: State, a: Action, owner: map<string, nat>)
    requires Sole(s, owner) && At(s, a) && a.Store?
    ensures forall t :: t in s.callers && t != a.t && Owns(s.callers[t]) ==>
              s.callers[t].domain != s.callers[a.t].domain
  {
    assert OwnsRightly(s, owner, a.t, s.callers[a.t]);
    forall t | t in s.callers && t != a.t && Owns(s.callers[t])
      ensures s.callers[t].domain != s.callers[a.t].domain
    {
      assert OwnsRightly(s, owner, t, s.callers[t]);
    }
  }

  lemma {:induction false} OthersNotFresh(s: State, a: Action, t: nat)
    requires At(s, a) && t in s.callers && NotFresh(s, s.callers[t])
    requires a.Store? && Owns(s.callers[t]) ==> s.callers[t].domain != s.callers[a.t].domain
    ensures NotFresh(Apply(s, a), s.callers[t])
  {
  }

  lemma {:induction false} NextNotFresh(s: State, a: Action)
    requires At(s, a) && !a.Tick? && !a.Evict? && (a.t in s.callers ==> NotFresh(s, s.callers[a.t]))
    ensures a.t in Apply(s, a).callers && NotFresh(Apply(s, a), Apply(s, a).callers[a.t])
  {
  }

  /* Whole runs. */

  /** Stated so that it unfolds only where a proof names `InvariantFor`. */
  ghost predicate Invariant(c: Config, s: State, owner: map<string, nat>) {
    forall o {:trigger InvariantFor(c, s, o)} :: o == owner ==> InvariantFor(c, s, o)
  }

  ghost predicate InvariantFor(c: Config, s: State, owner: map<string, nat>) {
    Sole(s, owner) && Accounted(s) && SlotsMatch(c, s) && FailuresBounded(c, s) && RecordsGood(s) && Needed(s)
  }

  /** A store that was just made, over a repository of usable records. */
  ghost predicate Initial(s: State) {
    && s.callers == map[] && s.inflight == map[] && s.failures == map[] && s.closes == [] && s.slots == 0
    && forall d :: d in s.repository ==> Good(s.repository[d], s.clock)
  }

  ghost predicate Run(c: Config, states: seq<State>, actions: seq<Action>) {
    && |states| == |actions| + 1 && Initial(states[0])
    && forall i :: 0 <= i < |actions| ==>
        Enabled(c, states[i], actions[i]) && states[i + 1] == Apply(states[i], actions[i])
  }

  /** Every state of every run satisfies the invariant. */
  lemma {:induction false} RunKeeps(c: Config, states: seq<State>, actions: seq<Action>, i: nat)
    returns (owner: map<string, nat>)
    requires Run(c, states, actions) && i < |states|
    ensures Invariant(c, states[i], owner)
    decreases i
  {
    if i == 0 {
      owner := map[];
      BeginsWell(c, states[0]);
    } else {
      var s, a := states[i - 1], actions[i - 1];
      var before := RunKeeps(c, states, actions, i - 1);
      assert Enabled(c, s, a) && states[i] == Apply(s, a);
      StepKeeps(c, s, a, before);
      owner := OwnerAfter(s, before, a);
    }
  }

  lemma {:induction false} BeginsWell(c: Config, s: State)
    requires Initial(s)
    ensures Invariant(c, s, map[])
  {
    assert LookingUpNow(s.callers) == {};
    assert InvariantFor(c, s, map[]);
  }

  lemma {:induction false} StepKeeps(c: Config, s: State, a: Action, owner: map<string, nat>)
    requires Invariant(c, s, owner) && Enabled(c, s, a)
    ensures Invariant(c, Apply(s, a), OwnerAfter(s, owner, a))
  {
    assert InvariantFor(c, s, owner);
    OwnershipKept(c, s, a, owner);
    SlotsKept(c, s, a);
    FailuresKept(c, s, a);
    RecordsKept(c, s, a);
    NeededKept(c, s, a, owner);
    assert InvariantFor(c, Apply(s, a), OwnerAfter(s, owner, a));
  }

  /** At most one lookup of a domain runs at any time. */
  lemma {:induction false} OneLookupPerDomain(c: Config, states: seq<State>, actions: seq<Action>, i: nat, t: nat,
                                              u: nat)
    requires Run(c, states, actions) && i < |states|
    requires t in states[i].callers && states[i].callers[t].LookingUp? && u in states[i].callers &&
             states[i].callers[u].LookingUp?
    requires states[i].callers[t].domain == states[i].callers[u].domain
    ensures t == u
  {
    var owner := RunKeeps(c, states, actions, i);
    assert InvariantFor(c, states[i], owner);
    assert OwnsRightly(states[i], owner, t, states[i].callers[t]) &&
           OwnsRightly(states[i], owner, u, states[i].callers[u]);
  }

  /** No lookup starts for a domain with a record that is not over. */
  lemma {:induction false} NoLookupWhileFresh(c: Config, states: seq<State>, actions: seq<Action>, i: nat)
    requires Run(c, states, actions) && i < |actions| && actions[i].TakeSlot?
    ensures !Fresh(states[i].repository, states[i].callers[actions[i].t].domain, states[i].clock)
  {
    var owner := RunKeeps(c, states, actions, i);
    assert InvariantFor(c, states[i], owner);
    assert Enabled(c, states[i], actions[i]);
    assert NotFresh(states[i], states[i].callers[actions[i].t]);
  }

  /** Both callers are responsible for the same channel. */
  predicate SharePending(callers: map<nat, Caller>, t: nat, u: nat) {
    t in callers && u in callers && Owns(callers[t]) && Owns(callers[u]) && callers[t].pending == callers[u].pending
  }

  /** A channel is open and one caller is to close it, or it was closed once and
      nobody is; a waiting caller waits on such a channel. */
  lemma {:induction false} ChannelFate(c: Config, states: seq<State>, actions: seq<Action>, i: nat, ch: nat)
    requires Run(c, states, actions) && i < |states| && ch < |states[i].closes|
    ensures var s := states[i];
            if s.closes[ch] == 0 then exists u :: u in s.callers && Owns(s.callers[u]) && s.callers[u].pending == ch
            else s.closes[ch] == 1 && forall u :: u in s.callers && Owns(s.callers[u]) ==> s.callers[u].pending != ch
    ensures forall t, u :: SharePending(states[i].callers, t, u) ==> t == u
    ensures forall t :: t in states[i].callers && states[i].callers[t].Waiting? ==>
              states[i].callers[t].pending < |states[i].closes|
  {
    var s := states[i];
    var owner := RunKeeps(c, states, actions, i);
    assert InvariantFor(c, s, owner);
    forall t | t in s.callers && Owns(s.callers[t])
      ensures OwnsRightly(s, owner, t, s.callers[t]) && InFlight(s.inflight, s.callers[t].pending)
    {
      assert OwnsRightly(s, owner, t, s.callers[t]);
    }
    if s.closes[ch] == 0 {
      assert InFlight(s.inflight, ch);
      var d :| d in s.inflight && s.inflight[d] == ch;
      assert OwnsRightly(s, owner, owner[d], s.callers[owner[d]]);
    }
  }

  /** No more lookups run at once than there are slots, and the failure map never
      outgrows its limit. */
  lemma {:induction false} LimitsHold(c: Config, states: seq<State>, actions: seq<Action>, i: nat)
    requires Run(c, states, actions) && i < |states|
    ensures |LookingUpNow(states[i].callers)| <= c.capacity && |states[i].failures| <= Larger(1, c.maxSize)
  {
    var owner := RunKeeps(c, states, actions, i);
    assert InvariantFor(c, states[i], owner);
  }

  /** Evidence handed out is a registration that began, not in the future, before
      it ends. */
  lemma {:induction false} EvidenceIsGood(c: Config, states: seq<State>, actions: seq<Action>, i: nat, t: nat)
    requires Run(c, states, actions) && i < |states| && t in states[i].callers && states[i].callers[t].Returned?
    ensures GoodIfAny(states[i].callers[t].evidence, states[i].clock)
  {
    var owner := RunKeeps(c, states, actions, i);
    assert InvariantFor(c, states[i], owner);
    assert CarriesGood(states[i].callers[t], states[i].clock);
  }

  /* Failures and later callers. */

  /** A step that notes a failure of `domain`, to be retried from `until` on. */
  ghost predicate Notes(s: State, a: Action, domain: string, until: Time) {
    && At(s, a) && a.Close? && !a.cancelled && s.callers[a.t].domain == domain
    && match s.callers[a.t].failure
       case None => false
       case Some(deadline) => until == s.callers[a.t].now + if deadline then 60 else 300
  }

  /** A step that keeps what was noted of `domain`: no other outcome for it comes
      in, and it is not dropped to make room. */
  ghost predicate Keeps(s: State, a: Action, domain: string) {
    At(s, a) &&
    (a.Close? ==>
       && s.callers[a.t].domain != domain
       && (s.callers[a.t].failure.Some? && !a.cancelled ==> domain in a.pruned))
  }

  /** What is noted after a step was noted by it or before it. */
  lemma {:induction false} FailuresAfter(c: Config, s: State, a: Action, domain: string, until: Time)
    requires Enabled(c, s, a)
    ensures Notes(s, a, domain, until) ==> HasFailure(Apply(s, a), domain, until)
    ensures Keeps(s, a, domain) && HasFailure(s, domain, until) ==> HasFailure(Apply(s, a), domain, until)
    ensures HasFailure(Apply(s, a), domain, until) ==> Notes(s, a, domain, until) || HasFailure(s, domain, until)
  {
    FailuresChange(s, a);
    if a.Close? {
      CloseNotes(c, s, a, Apply(s, a), domain, until);
    }
  }

  lemma {:induction false} CloseNotes(c: Config, s: State, a: Action, s': State, domain: string, until: Time)
    requires Enabled(c, s, a) && a.Close?
    requires var c := s.callers[a.t];
             s'.failures == Noted(s.failures, c.domain, c.now, c.failure, a.cancelled, a.pruned)
    ensures Notes(s, a, domain, until) ==> HasFailure(s', domain, until)
    ensures Keeps(s, a, domain) && HasFailure(s, domain, until) ==> HasFailure(s', domain, until)
    ensures HasFailure(s', domain, until) ==> Notes(s, a, domain, until) || HasFailure(s, domain, until)
  {
  }

  predicate HasFailure(s: State, domain: string, until: Time) {
    domain in s.failures && s.failures[domain] == until
  }

  /** Only a concluded lookup changes what is noted. */
  lemma {:induction false} FailuresChange(s: State, a: Action)
    requires At(s, a)
    ensures !a.Close? ==> Apply(s, a).failures == s.failures
    ensures a.Close? ==>
              var c := s.callers[a.t];
              Apply(s, a).failures == Noted(s.failures, c.domain, c.now, c.failure, a.cancelled, a.pruned)
  {
  }

  /** What step `k` does to a failure of `domain`. */
  ghost predicate Follows(states: seq<State>, actions: seq<Action>, k: nat, domain: string, until: Time)
    requires |states| == |actions| + 1 && k < |actions|
  {
    && (Notes(states[k], actions[k], domain, until) ==> HasFailure(states[k + 1], domain, until))
    && (Keeps(states[k], actions[k], domain) && HasFailure(states[k], domain, until) ==>
        HasFailure(states[k + 1], domain, until))
    && (HasFailure(states[k + 1], domain, until) ==>
        Notes(states[k], actions[k], domain, until) || HasFailure(states[k], domain, until))
  }

  lemma {:induction false} RunFollows(c: Config, states: seq<State>, actions: seq<Action>, domain: string, until: Time)
    requires Run(c, states, actions)
    ensures forall k :: 0 <= k < |actions| ==> Follows(states, actions, k, domain, until)
    ensures !HasFailure(states[0], domain, until)
  {
    forall k | 0 <= k < |actions|
      ensures Follows(states, actions, k, domain, until)
    {
      FailuresAfter(c, states[k], actions[k], domain, until);
    }
  }

  lemma {:induction false} NotedStays(states: seq<State>, actions: seq<Action>, i: nat, j: nat, domain: string,
                                      until: Time)
    requires |states| == |actions| + 1 && i < j <= |actions| && Notes(states[i], actions[i], domain, until)
    requires forall k :: 0 <= k < |actions| ==> Follows(states, actions, k, domain, until)
    requires forall k :: i < k < j ==> Keeps(states[k], actions[k], domain)
    ensures HasFailure(states[j], domain, until)
    decreases j
  {
    assert Follows(states, actions, j - 1, domain, until);
    if i < j - 1 {
      NotedStays(states, actions, i, j - 1, domain, until);
    }
  }

  /** A failed lookup keeps later callers from the next: until its retry time, five
      minutes or one after a deadline, they are turned away and claim nothing. */
  lemma {:induction false} FailureSuppresses(c: Config, states: seq<State>, actions: seq<Action>, i: nat, j: nat,
                                             domain: string, until: Time)
    requires Run(c, states, actions) && i < j < |actions| && Notes(states[i], actions[i], domain, until)
    requires forall k :: i < k < j ==> Keeps(states[k], actions[k], domain)
    requires actions[j].Lock? && At(states[j], actions[j])
    requires states[j].callers[actions[j].t].domain == domain && states[j].callers[actions[j].t].now < until
    ensures states[j + 1].callers[actions[j].t] == Returned(None) && states[j + 1].inflight == states[j].inflight
  {
    RunFollows(c, states, actions, domain, until);
    NotedStays(states, actions, i, j, domain, until);
    assert Enabled(c, states[j], actions[j]) && states[j + 1] == Apply(states[j], actions[j]);
  }

  /** What is noted was noted by an earlier step. */
  lemma {:induction false} NotedBefore(states: seq<State>, actions: seq<Action>, j: nat, domain: string, until: Time)
    returns (i: nat)
    requires |states| == |actions| + 1 && j < |states| && HasFailure(states[j], domain, until)
    requires forall k :: 0 <= k < |actions| ==> Follows(states, actions, k, domain, until)
    requires !HasFailure(states[0], domain, until)
    ensures i < j && Notes(states[i], actions[i], domain, until)
    decreases j
  {
    assert Follows(states, actions, j - 1, domain, until);
    if Notes(states[j - 1], actions[j - 1], domain, until) {
      i := j - 1;
    } else {
      i := NotedBefore(states, actions, j - 1, domain, until);
    }
  }

  /** And nobody is turned away at the lock for anything else. */
  lemma {:induction false} TurnedAwayForFailure(c: Config, states: seq<State>, actions: seq<Action>, j: nat)
    returns (i: nat, until: Time)
    requires Run(c, states, actions) && j < |actions| && actions[j].Lock? && At(states[j], actions[j])
    requires states[j + 1].callers[actions[j].t].Returned?
    ensures var caller := states[j].callers[actions[j].t];
            i < j && Notes(states[i], actions[i], caller.domain, until) && caller.now < until
  {
    var s, a := states[j], actions[j];
    assert Enabled(c, s, a) && states[j + 1] == Apply(s, a);
    var domain := s.callers[a.t].domain;
    until := s.failures[domain];
    RunFollows(c, states, actions, domain, until);
    i := NotedBefore(states, actions, j, domain, until);
  }

  /* The lock-protected sections. */

  /** Drop expired failures, then any others until one more fits. */
  method PruneFailures(failures: map<string, Time>, now: Time, maxSize: int) returns (pruned: map<string, Time>)
    ensures Pruned(failures, now, maxSize, pruned)
    ensures var current := map d | d in failures && failures[d] > now :: failures[d];
            |current| < maxSize ==> pruned == current
  {
    pruned := failures;
    var left := failures.Keys;
    while left != {}
      invariant left <= failures.Keys
      invariant forall d :: d in pruned <==> d in failures && (d in left || failures[d] > now)
      invariant forall d :: d in pruned ==> pruned[d] == failures[d]
      decreases |left|
    {
      var d :| d in left;
      if failures[d] <= now {
        pruned := pruned - {d};
      }
      left := left - {d};
    }
    assert pruned == map d | d in failures && failures[d] > now :: failures[d];
    while |pruned| >= maxSize && |pruned| > 0
      invariant forall d :: d in pruned ==> d in failures && pruned[d] == failures[d] && failures[d] > now
      invariant var current := map d | d in failures && failures[d] > now :: failures[d];
                |current| < maxSize ==> pruned == current
      decreases |pruned|
    {
      var d :| d in pruned.Keys;
      assert (pruned - {d}).Keys == pruned.Keys - {d};
      pruned := pruned - {d};
    }
  }

  /** The maps behind the lock. */
  class LockedMaps {
    const maxSize: int
    var failures: map<string, Time>
    var inflight: map<string, nat>
    var closes: seq<nat>

    ghost predicate Matches(s: State)
      reads this
    {
      failures == s.failures && inflight == s.inflight && closes == s.closes
    }

    /** One step of the lock: `t` is the caller, `s` the state it finds. */
    method Enter(domain: string, now: Time, ghost s: State, ghost t: nat) returns (next: Caller)
      requires Matches(s)
      modifies this
      ensures Matches(AfterLock(s, t, AtLock(domain, now))) && next == AfterLock(s, t, AtLock(domain, now)).callers[t]
    {
      if domain in failures && failures[domain] > now {
        return Returned(None);
      }
      if domain in inflight {
        return Waiting(domain, inflight[domain]);
      }
      var pending := |closes|;
      closes := closes + [0];
      inflight := inflight[domain := pending];
      return Claimed(domain, now, pending);
    }

    method Conclude(c: Caller, cancelled: bool, ghost s: State, ghost t: nat)
      returns (next: Caller, ghost pruned: map<string, Time>)
      requires c.Closing? && Matches(s) && c.pending < |closes|
      modifies this
      ensures Pruned(s.failures, c.now, maxSize, pruned)
      ensures var s' := AfterClose(s, t, c, cancelled, pruned); Matches(s') && next == s'.callers[t]
    {
      inflight := inflight - {c.domain};
      pruned := NoteOutcome(c.domain, c.now, c.failure, cancelled);
      closes := closes[c.pending := closes[c.pending] + 1];
      next := Returned(c.evidence);
    }

    /** Note a failure that was not the caller's own doing, or forget one. */
    method NoteOutcome(domain: string, now: Time, failure: Option<bool>, cancelled: bool)
      returns (ghost pruned: map<string, Time>)
      modifies this`failures
      ensures Pruned(old(failures), now, maxSize, pruned)
      ensures failures == Noted(old(failures), domain, now, failure, cancelled, pruned)
    {
      pruned := map[];
      if failure.Some? {
        if !cancelled {
          var retry := FAILURE_RETRY;
          if failure.value {
            retry := DEADLINE_RETRY;
          }
          var kept := PruneFailures(failures, now, maxSize);
          pruned := kept;
          failures := kept[domain := now + retry];
        }
      } else {
        failures := failures - {domain};
      }
    }

    method FinishInflight(c: Caller, ghost s: State, ghost t: nat) returns (next: Caller)
      requires c.Finishing? && Matches(s) && c.pending < |closes|
      modifies this
      ensures Matches(AfterFinish(s, t, c)) && next == AfterFinish(s, t, c).callers[t]
    {
      if c.domain in inflight && inflight[c.domain] == c.pending {
        inflight := inflight - {c.domain};
        closes := closes[c.pending := closes[c.pending] + 1];
      }
      return Returned(c.evidence);
    }
  }
}
