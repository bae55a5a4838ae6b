/** The life of queue entries over runs: what one step can do to an entry, its place in the queue
    and the history of its expired offers. */
module RouterHistory {
  import opened Wrappers
  import opened Fleet
  import opened RouterModel
  import opened RouterInvariants

  /** The queue, the entries and what happened to their offers. */
  datatype History = History(queue: seq<Ref>, entries: Entries, log: map<Ref, seq<Expiry>>)

  function Of(s: State): History
  {
    History(s.queue, s.entries, s.log)
  }

  function Log(h: History, r: Ref): seq<Expiry>
  {
    if r in h.log then h.log[r] else []
  }

  // ---- the life of one entry -----------------------------------------------

  /** Offered: only a waiting entry is. */
  ghost predicate BecomesOffered(e: Entry, f: Entry)
  {
    e.status == Waiting && f == e.(status := Offered, offerExpiresAt := f.offerExpiresAt, slot := f.slot)
  }

  ghost predicate BecomesActive(e: Entry, f: Entry)
  {
    && e.status == Offered
    && f == e.(status := Active, offerExpiresAt := None, slot := None, offerExpiries := [], backedOffUntil := None)
  }

  ghost predicate Departs(e: Entry, f: Entry)
  {
    f == e.(status := Left, slot := None, offerExpiresAt := None)
  }

  /** What one step can do to an entry, and to the history of its expired offers. Only a commit
      may offer. */
  ghost predicate LifeStep(c: Config, e: Entry, l: seq<Expiry>, f: Entry, m: seq<Expiry>, mayOffer: bool,
                           now: real)
  {
    || (f == e && m == l)
    || (mayOffer && BecomesOffered(e, f) && m == l)
    || (Departs(e, f) && m == l)
    || (e.status == Offered && f == Expire(c, e, now) && m == l + [Expiry(e.slot, now)])
    || (BecomesActive(e, f) && m == [])
  }

  /** Admins of the human tier go first. */
  function Rank(c: Config, tier: Tier, email: Email): int
  {
    if tier == Human && email in c.admins then 1 else 0
  }

  /** A human entry that waits or is offered a slot. */
  predicate LiveFor(e: Entry, email: Email)
  {
    e.tier == Human && e.email == email && (e.status == Waiting || e.status == Offered)
  }

  /** A new entry starts waiting or active, now, without a history and at the rank of its owner; it
      comes alone, and no human waits twice. */
  ghost predicate Newborn(h: History, g: History, c: Config, r: Ref, now: real)
  {
    var e := At(g.entries, r);
    && (e.status == Waiting || e.status == Active) && e.enqueuedAt == now
    && e.offerExpiries == [] && Log(g, r) == []
    && e.priority == Rank(c, e.tier, e.email)
    && (forall x :: x in g.entries && x !in h.entries ==> x == r)
    && (forall x :: x in h.queue && LiveFor(At(h.entries, x), e.email) ==> !LiveFor(e, e.email))
  }

  /** What one step does to r: a queued entry may leave the queue and none comes back; one that
      left the queue stays as it is, unless the reaper offers it. */
  ghost predicate Life(h: History, g: History, c: Config, r: Ref, offer: Option<Ref>, now: real)
  {
    if r in h.entries then
      && r in g.entries
      && LifeStep(c, At(h.entries, r), Log(h, r), At(g.entries, r), Log(g, r), offer == Some(r), now)
      && (r in g.queue ==> r in h.queue)
      && (r in h.queue || offer == Some(r) || At(g.entries, r) == At(h.entries, r))
    else r in g.entries ==> Newborn(h, g, c, r, now)
  }

  ghost predicate Evolves(h: History, g: History, c: Config, offer: Option<Ref>, now: real)
  {
    forall r: Ref :: Life(h, g, c, r, offer, now)
  }

  // ---- steps that leave every entry alone ----------------------------------

  ghost predicate Shrinks(h: History, g: History)
  {
    g.entries == h.entries && g.log == h.log && forall r :: r in g.queue ==> r in h.queue
  }

  lemma ShrinksEvolves(h: History, g: History, c: Config, offer: Option<Ref>, now: real)
    requires Shrinks(h, g)
    ensures Evolves(h, g, c, offer, now)
  {
  }

  lemma FilterShrinks(h: History, g: History, p: Ref -> bool)
    requires g == h.(queue := Filter(h.queue, p))
    ensures Shrinks(h, g)
  {
    forall r | r in g.queue
      ensures r in h.queue
    {
      FilterMember(h.queue, p, r);
    }
  }

  /** Entries dropped from the queue after a step. */
  lemma ThenShrinks(h: History, i: History, g: History, c: Config, now: real)
    requires Evolves(h, i, c, None, now) && Shrinks(i, g)
    ensures Evolves(h, g, c, None, now)
  {
    forall r: Ref
      ensures Life(h, g, c, r, None, now)
    {
      assert Life(h, i, c, r, None, now);
    }
  }

  /** Entries dropped from the queue before a step on the ones that stay. */
  lemma ShrinksThen(h: History, i: History, g: History, c: Config, now: real)
    requires Shrinks(h, i) && Evolves(i, g, c, None, now) && Touches(i, g, i.queue)
    ensures Evolves(h, g, c, None, now)
  {
    forall r: Ref
      ensures Life(h, g, c, r, None, now)
    {
      assert Life(i, g, c, r, None, now);
    }
  }

  // ---- steps on one entry --------------------------------------------------

  /** Only the entries of refs are touched. */
  ghost predicate Touches(h: History, g: History, refs: seq<Ref>)
  {
    && g.queue == h.queue && g.entries.Keys == h.entries.Keys
    && forall x :: x in h.entries && x !in refs ==> At(g.entries, x) == At(h.entries, x) && Log(g, x) == Log(h, x)
  }

  /** A queued entry takes a life step. */
  lemma OneEvolves(h: History, c: Config, r: Ref, f: Entry, m: seq<Expiry>, now: real)
    requires r in h.queue && r in h.entries
    requires LifeStep(c, At(h.entries, r), Log(h, r), f, m, false, now)
    ensures Evolves(h, h.(entries := h.entries[r := f], log := h.log[r := m]), c, None, now)
    ensures Touches(h, h.(entries := h.entries[r := f], log := h.log[r := m]), [r])
    ensures m == Log(h, r) ==> Evolves(h, h.(entries := h.entries[r := f]), c, None, now)
  {
  }

  lemma AppendEvolves(s: State, c: Config, tier: Tier, email: Email, priority: int, now: real, status: Status)
    requires QueueSound(s.queue, s.entries, s.last) && (status == Waiting || status == Active)
    requires priority == Rank(c, tier, email)
    requires tier == Human && status == Waiting ==> forall x :: x in s.queue ==> !LiveFor(Get(s, x), email)
    ensures Evolves(Of(s), Of(Append(s, tier, email, priority, now, status)), c, None, now)
  {
    var t := Append(s, tier, email, priority, now, status);
    assert t.last !in s.entries && Newborn(Of(s), Of(t), c, t.last, now);
    forall x: Ref
      ensures Life(Of(s), Of(t), c, x, None, now)
    {
      assert x in t.queue <==> x == t.last || x in s.queue;
    }
  }

  lemma ExpireOfferEvolves(s: State, c: Config, r: Ref, now: real)
    requires r in s.queue && r in s.entries && IsOffered(s.entries, r)
    ensures Evolves(Of(s), Of(ExpireOffer(s, c, r, now)), c, None, now)
    ensures Touches(Of(s), Of(ExpireOffer(s, c, r, now)), [r])
  {
    var f, m := Expire(c, Get(s, r), now), LogOf(s, r) + [Expiry(Get(s, r).slot, now)];
    OneEvolves(Of(s), c, r, f, m, now);
    ExpireOfferOf(s, c, r, now);
  }

  lemma ExpireOfferOf(s: State, c: Config, r: Ref, now: real)
    ensures Of(ExpireOffer(s, c, r, now))
         == Of(s).(entries := s.entries[r := Expire(c, Get(s, r), now)],
                   log := s.log[r := LogOf(s, r) + [Expiry(Get(s, r).slot, now)]])
  {
  }

  // ---- loops over the queue ------------------------------------------------

  /** A first step on the head of refs and later steps on the others make one step together. */
  lemma LoopEvolves(h: History, i: History, g: History, c: Config, refs: seq<Ref>, now: real)
    requires |refs| > 0 && NoRepeats(refs)
    requires Evolves(h, i, c, None, now) && Touches(h, i, [refs[0]])
    requires Evolves(i, g, c, None, now) && Touches(i, g, refs[1..])
    ensures Evolves(h, g, c, None, now) && Touches(h, g, refs)
  {
    var head := refs[0];
    forall x: Ref
      ensures Life(h, g, c, x, None, now)
      ensures x in h.entries && x !in refs ==> At(g.entries, x) == At(h.entries, x) && Log(g, x) == Log(h, x)
    {
      assert Life(h, i, c, x, None, now) && Life(i, g, c, x, None, now);
      assert x in refs <==> x == head || x in refs[1..];
      if x == head {
        assert x !in refs[1..];
      } else {
        assert x !in [head];
      }
    }
  }

  lemma TouchesNothing(h: History, c: Config, refs: seq<Ref>, now: real)
    ensures Evolves(h, h, c, None, now) && Touches(h, h, refs)
  {
  }

  lemma {:induction false} ExpireLapsedEvolves(s: State, c: Config, refs: seq<Ref>, now: real)
    requires NoRepeats(refs) && forall r :: r in refs ==> r in s.queue && r in s.entries
    ensures Evolves(Of(s), Of(ExpireLapsed(s, c, refs, now)), c, None, now)
    ensures Touches(Of(s), Of(ExpireLapsed(s, c, refs, now)), refs)
    decreases |refs|
  {
    if |refs| == 0 {
      TouchesNothing(Of(s), c, refs, now);
    } else {
      assert refs[0] in s.queue;
      var u := if Lapsed(s, refs[0], now) then ExpireOffer(s, c, refs[0], now) else s;
      if Lapsed(s, refs[0], now) {
        ExpireOfferEvolves(s, c, refs[0], now);
      } else {
        TouchesNothing(Of(s), c, [refs[0]], now);
      }
      ExpireLapsedEvolves(u, c, refs[1..], now);
      LoopEvolves(Of(s), Of(u), Of(ExpireLapsed(s, c, refs, now)), c, refs, now);
    }
  }

  lemma RestoreOneEvolves(s: State, c: Config, r: Ref, now: real)
    requires r in s.queue && r in s.entries
    ensures Evolves(Of(s), Of(RestoreOne(s, c, r, now)), c, None, now)
    ensures Touches(Of(s), Of(RestoreOne(s, c, r, now)), [r])
  {
    TouchesNothing(Of(s), c, [r], now);
    RestoreOneOf(s, c, r, now);
    if IsOffered(s.entries, r) {
      ExpireOfferEvolves(s, c, r, now);
    }
  }

  lemma RestoreOneOf(s: State, c: Config, r: Ref, now: real)
    ensures var e := Get(s, r);
            if e.status != Offered || e.slot.None? || (e.offerExpiresAt.Some? && e.offerExpiresAt.value > now) then
              Of(RestoreOne(s, c, r, now)) == Of(s)
            else RestoreOne(s, c, r, now) == ExpireOffer(s, c, r, now)
  {
  }

  lemma RestoreOffersUnfolds(s: State, c: Config, refs: seq<Ref>, now: real)
    requires |refs| > 0
    ensures RestoreOffers(s, c, refs, now) == RestoreOffers(RestoreOne(s, c, refs[0], now), c, refs[1..], now)
  {
  }

  lemma {:induction false} RestoreOffersEvolves(s: State, c: Config, refs: seq<Ref>, now: real)
    requires NoRepeats(refs) && forall r :: r in refs ==> r in s.queue && r in s.entries
    ensures Evolves(Of(s), Of(RestoreOffers(s, c, refs, now)), c, None, now)
    ensures Touches(Of(s), Of(RestoreOffers(s, c, refs, now)), refs)
    decreases |refs|
  {
    if |refs| == 0 {
      TouchesNothing(Of(s), c, refs, now);
    } else {
      assert refs[0] in s.queue;
      var u := RestoreOne(s, c, refs[0], now);
      RestoreOneEvolves(s, c, refs[0], now);
      RestoreOffersEvolves(u, c, refs[1..], now);
      RestoreOffersUnfolds(s, c, refs, now);
      LoopEvolves(Of(s), Of(u), Of(RestoreOffers(u, c, refs[1..], now)), c, refs, now);
    }
  }

  lemma GraceSweepEvolves(s: State, c: Config, now: real)
    requires Offers(s, c)
    ensures Evolves(Of(s), Of(GraceSweep(s, c, now)), c, None, now)
  {
    ExpireLapsedEvolves(s, c, s.queue, now);
    var u := ExpireLapsed(s, c, s.queue, now);
    FilterShrinks(Of(u), Of(Purge(u, now)), (x: Ref) => !CooledDown(u, x, now));
    ThenShrinks(Of(s), Of(u), Of(Purge(u, now)), c, now);
  }

  lemma RestartEvolves(s: State, c: Config, now: real)
    requires Offers(s, c)
    ensures Evolves(Of(s), Of(Restart(s, c, now)), c, None, now)
  {
    var s0 := Reset(s);
    var s1 := PurgePools(s0, c, now);
    var s2 := Unstale(s1);
    FilterShrinks(Of(s), Of(s2), StillQueued(s1));
    FilterNoRepeats(s1.queue, StillQueued(s1));
    RestoreOffersEvolves(s2, c, s2.queue, now);
    var u := RestoreOffers(s2, c, s2.queue, now);
    ShrinksThen(Of(s), Of(s2), Of(u), c, now);
    FilterShrinks(Of(u), Of(Purge(u, now)), (x: Ref) => !CooledDown(u, x, now));
    ThenShrinks(Of(s), Of(u), Of(Purge(u, now)), c, now);
  }

  // ---- the other steps -----------------------------------------------------

  lemma LeaveOf(s: State, r: Ref)
    requires r in s.queue
    ensures Of(Leave(s, r))
         == Of(s).(entries := s.entries[r := Get(s, r).(status := Left, slot := None, offerExpiresAt := None)])
  {
    LeaveShape(s, r);
  }

  lemma LeaveEvolves(s: State, c: Config, r: Ref, now: real)
    requires Offers(s, c)
    ensures Evolves(Of(s), Of(Leave(s, r)), c, None, now)
  {
    if r in s.queue {
      var f := Get(s, r).(status := Left, slot := None, offerExpiresAt := None);
      OneEvolves(Of(s), c, r, f, LogOf(s, r), now);
      LeaveOf(s, r);
    } else {
      ShrinksEvolves(Of(s), Of(s), c, None, now);
    }
  }

  lemma TakeEvolves(s: State, c: Config, email: Email, now: real, clean: bool, woke: bool)
    requires Offers(s, c)
    ensures Evolves(Of(s), Of(TakeOffer(s, c, email, now, clean, woke)), c, None, now)
  {
    var found := FirstSuch(s.queue, HumanOf(s, email));
    ShrinksEvolves(Of(s), Of(s), c, None, now);
    if found.Some? && IsOffered(s.entries, found.value) {
      var r := found.value;
      if OfferValid(s, Get(s, r), now) {
        GrantEvolves(s, c, r, now);
      } else {
        ExpireOfferEvolves(s, c, r, now);
      }
    }
  }

  lemma GrantEvolves(s: State, c: Config, r: Ref, now: real)
    requires r in s.queue && r in s.entries && IsOffered(s.entries, r) && Get(s, r).slot.Some?
    ensures Evolves(Of(s), Of(Grant(s, r, Get(s, r).slot.value, now)), c, None, now)
  {
    var f := Get(s, r).(status := Active, offerExpiresAt := None, slot := None, offerExpiries := [],
                        backedOffUntil := None);
    OneEvolves(Of(s), c, r, f, [], now);
  }

  /** The entry a commit is about to offer. */
  function Committed(s: State): Option<Ref>
  {
    if |s.pending| > 0 then Some(s.pending[0].ref) else None
  }

  function Offering(s: State, step: Step): Option<Ref>
  {
    if step.StepCommit? then Committed(s) else None
  }

  lemma CommitEvolves(s: State, c: Config, clean: bool, now: real)
    requires Offers(s, c)
    ensures Evolves(Of(s), Of(Commit(s, c, clean)), c, Committed(s), now)
  {
    if |s.pending| == 0 || !(clean && MayOffer(s, s.pending[0].slot, s.pending[0].ref)) {
      PassedOver(s, c, clean);
      ShrinksEvolves(Of(s), Of(s), c, Committed(s), now);
    } else {
      CommitOffered(s, c);
      OfferEvolves(Of(s), c, s.pending[0].ref, Commit(s, c, true).entries[s.pending[0].ref], now);
    }
  }

  lemma PassedOver(s: State, c: Config, clean: bool)
    requires |s.pending| == 0 || !(clean && MayOffer(s, s.pending[0].slot, s.pending[0].ref))
    ensures Of(Commit(s, c, clean)) == Of(s)
  {
    if |s.pending| > 0 {
      CommitSkipped(s, c, clean);
    }
  }

  lemma OfferEvolves(h: History, c: Config, r: Ref, f: Entry, now: real)
    requires r in h.entries && BecomesOffered(At(h.entries, r), f)
    ensures Evolves(h, h.(entries := h.entries[r := f]), c, Some(r), now)
  {
  }

  lemma EnqueueHumanEvolves(s: State, c: Config, email: Email, now: real)
    requires Offers(s, c)
    ensures Evolves(Of(s), Of(EnqueueHuman(s, c, email, now)), c, None, now)
  {
    ShrinksEvolves(Of(s), Of(s), c, None, now);
    if FirstSuch(s.queue, HumanInPlayFor(s, email)).None? {
      forall x | x in s.queue
        ensures !LiveFor(Get(s, x), email)
      {
        assert !HumanInPlayFor(s, email)(x);
      }
      AppendEvolves(s, c, Human, email, if email in c.admins then 1 else 0, now, Waiting);
    }
  }

  lemma EnqueueAgentEvolves(s: State, c: Config, email: Email, now: real)
    requires Offers(s, c)
    ensures Evolves(Of(s), Of(EnqueueAgent(s, c, email, now)), c, None, now)
  {
    if AgentSlot(s, c).Some? {
      EnqueueAgentGranted(s, c, email, now);
      AppendEvolves(Assign(s, email, AgentSlot(s, c).value, now, Agent), c, Agent, email, 0, now, Active);
    } else {
      AppendEvolves(s, c, Agent, email, 0, now, Waiting);
    }
  }

  lemma DropEvolves(s: State, t: State, c: Config, p: Ref -> bool, now: real)
    requires Of(t) == Of(s) || Of(t) == Of(s).(queue := Filter(s.queue, p))
    ensures Evolves(Of(s), Of(t), c, None, now)
  {
    if Of(t) != Of(s) {
      FilterShrinks(Of(s), Of(t), p);
    }
    ShrinksEvolves(Of(s), Of(t), c, None, now);
  }

  lemma ReleaseEvolves(s: State, c: Config, user: Email, given: Option<Reason>, now: real)
    ensures Evolves(Of(s), Of(Release(s, user, given, now)), c, None, now)
  {
    ReleaseShape(s, user, given, now);
    DropEvolves(s, Release(s, user, given, now), c, WithoutEmail(Withdrawn(s, user), user), now);
  }

  lemma ForceReleaseEvolves(s: State, c: Config, email: Email, now: real)
    ensures Evolves(Of(s), Of(ForceRelease(s, c, email, now)), c, None, now)
  {
    var u := if email in s.expiring then Unassign(s, email, s.expiring[email]) else s;
    DropEvolves(s, ForceRelease(s, c, email, now), c, WithoutEmail(u, email), now);
  }

  lemma EnterEvolves(s: State, c: Config, email: Email, now: real, ready: bool)
    ensures Evolves(Of(s), Of(Enter(s, c, email, now, ready)), c, None, now)
  {
    if Resolve(s, c, email, now).woke {
      ResolveShape(s, c, email, now);
    }
    assert Of(Enter(s, c, email, now, ready)) == Of(s);
    ShrinksEvolves(Of(s), Of(s), c, None, now);
  }

  lemma HintEvolves(s: State, c: Config, k: int, hint: Email, now: real, woke: bool)
    ensures Evolves(Of(s), Of(BootHint(s, c, k, hint, now, woke)), c, None, now)
  {
    assert Of(BootHint(s, c, k, hint, now, woke)) == Of(s);
    ShrinksEvolves(Of(s), Of(s), c, None, now);
  }

  /** Assignments, expiries and the reaper's list do not touch the entries. */
  lemma OtherEvolves(s: State, c: Config, step: Step, now: real)
    requires step.StepUnready? || step.StepMarkExpiring? || step.StepSuspendFailed? || step.StepQuarantine?
          || step.StepCollect?
    ensures Evolves(Of(s), Of(Next(s, c, step, now)), c, None, now)
  {
    assert Of(Next(s, c, step, now)) == Of(s);
    ShrinksEvolves(Of(s), Of(s), c, None, now);
  }

  lemma QueueStepEvolves(s: State, c: Config, step: Step, now: real)
    requires Offers(s, c) && QueueStep(step)
    ensures Evolves(Of(s), Of(Next(s, c, step, now)), c, None, now)
  {
    match step
    case StepEnqueueHuman(e) => EnqueueHumanEvolves(s, c, e, now);
    case StepEnqueueAgent(e) => EnqueueAgentEvolves(s, c, e, now);
    case StepLeave(r) => LeaveEvolves(s, c, r, now);
    case StepAgentTimeout(r) => DropEvolves(s, AgentTimeout(s, c, r, now), c, (x: Ref) => x != r, now);
    case StepGraceSweep => GraceSweepEvolves(s, c, now);
  }

  lemma UserStepEvolves(s: State, c: Config, step: Step, now: real)
    requires Offers(s, c) && UserStep(step)
    ensures Evolves(Of(s), Of(Next(s, c, step, now)), c, None, now)
  {
    match step
    case StepEnter(e, ready) => EnterEvolves(s, c, e, now, ready);
    case StepUnready(e) => OtherEvolves(s, c, step, now);
    case StepRelease(e, given) => ReleaseEvolves(s, c, e, given, now);
    case StepTake(e, clean, woke) => TakeEvolves(s, c, e, now, clean, woke);
    case StepHint(k, e, woke) => HintEvolves(s, c, k, e, now, woke);
    case StepRestart => RestartEvolves(s, c, now);
  }

  /** Every step is a life step of every entry. */
  lemma NextEvolves(s: State, c: Config, step: Step, now: real)
    requires Offers(s, c)
    ensures Evolves(Of(s), Of(Next(s, c, step, now)), c, Offering(s, step), now)
  {
    if QueueStep(step) {
      QueueStepEvolves(s, c, step, now);
    } else if UserStep(step) {
      UserStepEvolves(s, c, step, now);
    } else {
      match step
      case StepForceRelease(e) => ForceReleaseEvolves(s, c, e, now);
      case StepCommit(clean) => CommitEvolves(s, c, clean, now);
      case _ => OtherEvolves(s, c, step, now);
    }
  }
}
