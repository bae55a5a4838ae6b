/** The order in which the reaper offers slots: it collects the heads of the queue, probes their
    slots and commits the offers one by one while other handlers run. */
module RouterFairness {
  import opened Wrappers
  import opened Fleet
  import opened RouterModel
  import opened RouterInvariants
  import opened RouterHistory
  import opened RouterOffers

  // ---- what a candidate may rely on ----------------------------------------

  /** A queued entry that waits in the tier and at the priority of entry r. */
  ghost predicate Competes(h: History, x: Ref, r: Ref)
  {
    && x in h.queue && At(h.entries, x).status == Waiting
    && At(h.entries, x).tier == At(h.entries, r).tier && At(h.entries, x).priority == At(h.entries, r).priority
  }

  /** Nobody who competes with the candidate was enqueued before the time it was seen with. */
  ghost predicate Ahead(h: History, cand: Candidate, clock: real)
  {
    && cand.ref in h.entries && cand.seen <= clock
    && forall x :: Competes(h, x, cand.ref) ==> cand.seen <= At(h.entries, x).enqueuedAt
  }

  /** An entry not offered since it was collected, so with its time unchanged while it waits. */
  ghost predicate Standing(h: History, cand: Candidate)
  {
    var e := At(h.entries, cand.ref);
    cand.ref in h.entries && e.status != Offered && (e.status == Waiting ==> e.enqueuedAt == cand.seen)
  }

  ghost predicate AllAhead(h: History, pending: seq<Candidate>, clock: real)
  {
    forall i :: 0 <= i < |pending| ==> Ahead(h, pending[i], clock)
  }

  /** The first candidate of a tier: nobody of its tier is offered before it. */
  ghost predicate FirstsStand(h: History, pending: seq<Candidate>, c: Config)
  {
    forall i :: 0 <= i < |pending| && pending[i].first ==>
      Standing(h, pending[i]) && FirstOf(pending[..i], c, pending[i].slot)
  }

  ghost predicate Punctual(h: History, clock: real)
  {
    forall r :: r in h.entries ==> At(h.entries, r).enqueuedAt <= clock
  }

  /** The enqueue time of an entry whose offers ran out is that of the last one. */
  ghost predicate LogTimed(h: History)
  {
    forall r :: r in h.entries && |Log(h, r)| > 0 ==> At(h.entries, r).enqueuedAt == LastLapse(h, r)
  }

  function LastLapse(h: History, r: Ref): real
    requires |Log(h, r)| > 0
  {
    Log(h, r)[|Log(h, r)| - 1].at
  }

  /** An offer of r ran out since the time of the tick. */
  ghost predicate LapsedSince(h: History, r: Ref, tick: real)
  {
    |Log(h, r)| > 0 && tick <= LastLapse(h, r)
  }

  predicate InPlay(e: Entry)
  {
    e.status == Waiting || e.status == Offered
  }

  /** A candidate in play still has the time it was collected with, or lost an offer since. */
  ghost predicate Accounted(h: History, cand: Candidate, tick: real)
  {
    && cand.ref in h.entries
    && (InPlay(At(h.entries, cand.ref)) ==>
          At(h.entries, cand.ref).enqueuedAt == cand.seen || LapsedSince(h, cand.ref, tick))
  }

  ghost predicate AllAccounted(h: History, pending: seq<Candidate>, tick: real, clock: real)
  {
    |pending| > 0 ==> tick <= clock && forall i :: 0 <= i < |pending| ==> Accounted(h, pending[i], tick)
  }

  ghost predicate Orderly(s: State, c: Config, clock: real)
  {
    && Punctual(Of(s), clock) && AllAhead(Of(s), s.pending, clock) && FirstsStand(Of(s), s.pending, c)
    && LogTimed(Of(s)) && AllAccounted(Of(s), s.pending, s.tick, clock)
  }

  // ---- one step ------------------------------------------------------------

  lemma EvolvesPunctual(h: History, g: History, c: Config, offer: Option<Ref>, clock: real, now: real)
    requires Punctual(h, clock) && Evolves(h, g, c, offer, now) && clock <= now
    ensures Punctual(g, now)
  {
    forall r | r in g.entries
      ensures At(g.entries, r).enqueuedAt <= now
    {
      assert Life(h, g, c, r, offer, now);
    }
  }

  /** Who waits later either waited with the same time or was enqueued, or re-timed, since. */
  lemma EvolvesAhead(h: History, g: History, c: Config, offer: Option<Ref>, clock: real, now: real, cand: Candidate)
    requires Ahead(h, cand, clock) && Evolves(h, g, c, offer, now) && clock <= now
    ensures Ahead(g, cand, now)
  {
    assert Life(h, g, c, cand.ref, offer, now);
    forall x | Competes(g, x, cand.ref)
      ensures cand.seen <= At(g.entries, x).enqueuedAt
    {
      assert Life(h, g, c, x, offer, now);
      if x in h.entries && At(g.entries, x) == At(h.entries, x) {
        assert Competes(h, x, cand.ref);
      }
    }
  }

  lemma EvolvesStanding(h: History, g: History, c: Config, offer: Option<Ref>, now: real, cand: Candidate)
    requires Standing(h, cand) && Evolves(h, g, c, offer, now) && offer != Some(cand.ref)
    ensures Standing(g, cand)
  {
    assert Life(h, g, c, cand.ref, offer, now);
  }

  lemma EvolvesLogTimed(h: History, g: History, c: Config, offer: Option<Ref>, now: real)
    requires LogTimed(h) && Evolves(h, g, c, offer, now)
    ensures LogTimed(g)
  {
    forall r | r in g.entries && |Log(g, r)| > 0
      ensures At(g.entries, r).enqueuedAt == LastLapse(g, r)
    {
      assert Life(h, g, c, r, offer, now);
    }
  }

  lemma EvolvesAccounted(h: History, g: History, c: Config, offer: Option<Ref>, now: real, cand: Candidate, tick: real)
    requires Accounted(h, cand, tick) && Evolves(h, g, c, offer, now) && tick <= now
    ensures Accounted(g, cand, tick)
  {
    assert Life(h, g, c, cand.ref, offer, now);
  }

  lemma {:induction false} CandidatesAccounted(s: State, c: Config, hi: nat, tick: real)
    requires QueueSound(s.queue, s.entries, s.last)
    ensures forall i :: 0 <= i < |Candidates(s, c, hi)| ==> Accounted(Of(s), Candidates(s, c, hi)[i], tick)
  {
    if hi > 0 {
      CandidatesAccounted(s, c, hi - 1, tick);
    }
  }

  lemma {:induction false} CandidatesAhead(s: State, c: Config, hi: nat, clock: real)
    requires QueueSound(s.queue, s.entries, s.last) && Punctual(Of(s), clock)
    ensures AllAhead(Of(s), Candidates(s, c, hi), clock)
  {
    if hi > 0 {
      CandidatesAhead(s, c, hi - 1, clock);
      var head := Head(s, s.queue, TierOf(c, hi));
      if head.Some? {
        HeadAhead(s, c, hi, clock, FirstOf(Candidates(s, c, hi - 1), c, hi));
      }
    }
  }

  lemma HeadAhead(s: State, c: Config, k: int, clock: real, first: bool)
    requires QueueSound(s.queue, s.entries, s.last) && Punctual(Of(s), clock)
    requires Head(s, s.queue, TierOf(c, k)).Some?
    ensures var r := Head(s, s.queue, TierOf(c, k)).value;
            && Ahead(Of(s), Candidate(k, r, Get(s, r).enqueuedAt, first), clock)
            && Standing(Of(s), Candidate(k, r, Get(s, r).enqueuedAt, first))
  {
    var r := Head(s, s.queue, TierOf(c, k)).value;
    forall x | Competes(Of(s), x, r)
      ensures Get(s, r).enqueuedAt <= Get(s, x).enqueuedAt
    {
      assert WaitsIn(s, x, TierOf(c, k));
    }
  }

  lemma {:induction false} CandidatesStand(s: State, c: Config, hi: nat, clock: real)
    requires QueueSound(s.queue, s.entries, s.last) && Punctual(Of(s), clock)
    ensures FirstsStand(Of(s), Candidates(s, c, hi), c)
  {
    if hi > 0 {
      CandidatesStand(s, c, hi - 1, clock);
      var found, list := Candidates(s, c, hi - 1), Candidates(s, c, hi);
      if list != found {
        HeadAhead(s, c, hi, clock, FirstOf(found, c, hi));
        forall i | 0 <= i < |list| && list[i].first
          ensures Standing(Of(s), list[i]) && FirstOf(list[..i], c, list[i].slot)
        {
          assert list[..i] == found[..i];
          assert i == |found| ==> list[..i] == found;
        }
      }
    }
  }

  lemma CollectOrderly(s: State, c: Config, now: real, clock: real)
    requires Offers(s, c) && Orderly(s, c, clock) && now <= clock
    ensures Orderly(Collect(s, c, now), c, clock)
  {
    CandidatesAhead(s, c, c.humanSlots + c.agentSlots, clock);
    CandidatesStand(s, c, c.humanSlots + c.agentSlots, clock);
    CandidatesAccounted(s, c, c.humanSlots + c.agentSlots, now);
    assert Of(Collect(s, c, now)) == Of(s);
  }

  lemma CommitOrderly(s: State, c: Config, clean: bool, clock: real, now: real)
    requires Offers(s, c) && Orderly(s, c, clock) && clock <= now
    ensures Orderly(Commit(s, c, clean), c, now)
  {
    var t := Commit(s, c, clean);
    CommitEvolves(s, c, clean, now);
    EvolvesPunctual(Of(s), Of(t), c, Committed(s), clock, now);
    EvolvesLogTimed(Of(s), Of(t), c, Committed(s), now);
    if |s.pending| > 0 {
      CommitPending(s, c, clean);
      forall i | 0 <= i < |t.pending|
        ensures Ahead(Of(t), t.pending[i], now) && Accounted(Of(t), t.pending[i], t.tick)
        ensures t.pending[i].first ==> Standing(Of(t), t.pending[i]) && FirstOf(t.pending[..i], c, t.pending[i].slot)
      {
        assert t.pending[i] == s.pending[i + 1] && t.pending[..i] == s.pending[..i + 1][1..];
        EvolvesAhead(Of(s), Of(t), c, Committed(s), clock, now, s.pending[i + 1]);
        EvolvesAccounted(Of(s), Of(t), c, Committed(s), now, s.pending[i + 1], s.tick);
        if t.pending[i].first {
          assert s.pending[..i + 1][0] == s.pending[0];
          EvolvesStanding(Of(s), Of(t), c, Committed(s), now, s.pending[i + 1]);
        }
      }
    }
  }

  lemma CommitPending(s: State, c: Config, clean: bool)
    requires |s.pending| > 0
    ensures Commit(s, c, clean).pending == s.pending[1..] && Commit(s, c, clean).tick == s.tick
  {
  }

  /** The reaper's list and the time of its tick stay. */
  predicate SamePending(s: State, t: State)
  {
    t.pending == s.pending && t.tick == s.tick
  }

  lemma GraceSweepPending(s: State, c: Config, now: real)
    requires Offers(s, c)
    ensures SamePending(s, GraceSweep(s, c, now))
  {
    ExpireLapsedKeeps(s, c, s.queue, now);
  }

  lemma LeavePending(s: State, r: Ref)
    ensures SamePending(s, Leave(s, r))
  {
    if r in s.queue {
      LeaveShape(s, r);
    }
  }

  lemma EnqueueAgentPending(s: State, c: Config, email: Email, now: real)
    ensures SamePending(s, EnqueueAgent(s, c, email, now))
  {
    if AgentSlot(s, c).Some? {
      EnqueueAgentGranted(s, c, email, now);
    }
  }

  lemma EnterPending(s: State, c: Config, email: Email, now: real, ready: bool)
    ensures SamePending(s, Enter(s, c, email, now, ready))
  {
    if Resolve(s, c, email, now).woke {
      ResolveShape(s, c, email, now);
    }
  }

  lemma EnqueueHumanPending(s: State, c: Config, email: Email, now: real)
    ensures SamePending(s, EnqueueHuman(s, c, email, now))
  {
  }

  lemma AgentTimeoutPending(s: State, c: Config, r: Ref, now: real)
    ensures SamePending(s, AgentTimeout(s, c, r, now))
  {
  }

  lemma QueuePending(s: State, c: Config, step: Step, now: real)
    requires Offers(s, c) && QueueStep(step)
    ensures SamePending(s, Next(s, c, step, now))
  {
    match step
    case StepGraceSweep => GraceSweepPending(s, c, now);
    case StepLeave(r) => LeavePending(s, r);
    case StepEnqueueAgent(e) => EnqueueAgentPending(s, c, e, now);
    case StepEnqueueHuman(e) => EnqueueHumanPending(s, c, e, now);
    case StepAgentTimeout(r) => AgentTimeoutPending(s, c, r, now);
  }

  lemma PendingKept(s: State, c: Config, step: Step, now: real)
    requires Offers(s, c) && !step.StepCollect? && !step.StepCommit? && !step.StepRestart?
    ensures SamePending(s, Next(s, c, step, now))
  {
    if QueueStep(step) {
      QueuePending(s, c, step, now);
    } else {
      match step
      case StepEnter(e, ready) => EnterPending(s, c, e, now, ready);
      case StepRelease(e, given) => ReleaseShape(s, e, given, now);
      case StepHint(k, e, woke) => HintPending(s, c, k, e, now, woke);
      case StepTake(e, clean, woke) => TakePending(s, c, e, now, clean, woke);
      case _ =>
    }
  }

  lemma HintPending(s: State, c: Config, k: int, hint: Email, now: real, woke: bool)
    ensures SamePending(s, BootHint(s, c, k, hint, now, woke))
  {
  }

  lemma TakePending(s: State, c: Config, email: Email, now: real, clean: bool, woke: bool)
    ensures SamePending(s, TakeOffer(s, c, email, now, clean, woke))
  {
    var f := FirstSuch(s.queue, HumanOf(s, email));
    if f.Some? && IsOffered(s.entries, f.value) {
      ExpireOfferPending(s, c, f.value, now);
      if Get(s, f.value).slot.Some? {
        TakeCommitShape(s, f.value, Get(s, f.value).slot.value, now, woke);
      }
    }
  }

  lemma ExpireOfferPending(s: State, c: Config, r: Ref, now: real)
    ensures SamePending(s, ExpireOffer(s, c, r, now))
  {
  }

  lemma EvolvesPending(h: History, g: History, pending: seq<Candidate>, c: Config, tick: real, clock: real, now: real)
    requires AllAhead(h, pending, clock) && FirstsStand(h, pending, c) && AllAccounted(h, pending, tick, clock)
    requires Evolves(h, g, c, None, now) && clock <= now
    ensures AllAhead(g, pending, now) && FirstsStand(g, pending, c) && AllAccounted(g, pending, tick, now)
  {
    forall i | 0 <= i < |pending|
      ensures Ahead(g, pending[i], now) && Accounted(g, pending[i], tick)
      ensures pending[i].first ==> Standing(g, pending[i])
    {
      EvolvesAhead(h, g, c, None, clock, now, pending[i]);
      EvolvesAccounted(h, g, c, None, now, pending[i], tick);
      if pending[i].first {
        EvolvesStanding(h, g, c, None, now, pending[i]);
      }
    }
  }

  lemma RestOrderly(s: State, c: Config, step: Step, clock: real, now: real)
    requires Offers(s, c) && Orderly(s, c, clock) && clock <= now
    requires !step.StepCommit? && !step.StepCollect? && !step.StepRestart?
    ensures Orderly(Next(s, c, step, now), c, now)
  {
    var t := Next(s, c, step, now);
    NextEvolves(s, c, step, now);
    EvolvesPunctual(Of(s), Of(t), c, None, clock, now);
    EvolvesLogTimed(Of(s), Of(t), c, None, now);
    PendingKept(s, c, step, now);
    EvolvesPending(Of(s), Of(t), s.pending, c, s.tick, clock, now);
  }

  lemma RestartOrderly(s: State, c: Config, clock: real, now: real)
    requires Offers(s, c) && Orderly(s, c, clock) && clock <= now
    ensures Orderly(Restart(s, c, now), c, now)
  {
    RestartEvolves(s, c, now);
    RestartKeeps(s, c, now);
    EvolvesPunctual(Of(s), Of(Restart(s, c, now)), c, None, clock, now);
    EvolvesLogTimed(Of(s), Of(Restart(s, c, now)), c, None, now);
  }

  lemma NextOrderly(s: State, c: Config, step: Step, clock: real, now: real)
    requires Offers(s, c) && Orderly(s, c, clock) && clock <= now
    ensures Orderly(Next(s, c, step, now), c, now)
  {
    if step.StepCommit? {
      CommitOrderly(s, c, step.clean, clock, now);
    } else if step.StepCollect? {
      LaterOrderly(s, c, clock, now);
      CollectOrderly(s, c, now, now);
    } else if step.StepRestart? {
      RestartOrderly(s, c, clock, now);
    } else {
      RestOrderly(s, c, step, clock, now);
    }
  }

  lemma LaterOrderly(s: State, c: Config, clock: real, now: real)
    requires Orderly(s, c, clock) && clock <= now
    ensures Orderly(s, c, now)
  {
  }

  // ---- runs ----------------------------------------------------------------

  lemma {:induction false} RunOrderly(c: Config, steps: seq<Timed>)
    requires Monotone(steps) && |steps| > 0
    ensures Orderly(Run(EMPTY, c, steps), c, Clock(steps))
    decreases |steps|
  {
    var front, t := steps[..|steps| - 1], steps[|steps| - 1];
    var s := Run(EMPTY, c, front);
    RunOffers(EMPTY, c, front);
    if |front| > 0 {
      RunOrderly(c, front);
      NextOrderly(s, c, t.step, Clock(front), t.now);
    } else {
      assert Orderly(EMPTY, c, t.now);
      NextOrderly(EMPTY, c, t.step, t.now, t.now);
    }
  }

  /** Whatever runs between collect and commit: nobody who waits in the same tier at the same
      priority was enqueued before the time the candidate was collected with. So an earlier one is
      passed over exactly when an offer of the candidate ran out since the collection, after the
      other one was enqueued; and never by the first candidate of its tier in the tick. */
  lemma OffersFair(c: Config, steps: seq<Timed>, x: Ref)
    requires Monotone(steps)
    requires var s := Run(EMPTY, c, steps); |s.pending| > 0 && MayOffer(s, s.pending[0].slot, s.pending[0].ref)
    requires var s := Run(EMPTY, c, steps); Competes(Of(s), x, s.pending[0].ref)
    ensures var s := Run(EMPTY, c, steps);
            var cand := s.pending[0];
            && Get(Commit(s, c, true), cand.ref).status == Offered
            && cand.seen <= Get(s, x).enqueuedAt
            && (Get(s, x).enqueuedAt < Get(s, cand.ref).enqueuedAt <==>
                  LapsedSince(Of(s), cand.ref, s.tick) && Get(s, x).enqueuedAt < LastLapse(Of(s), cand.ref))
            && (cand.first ==> Get(s, cand.ref).enqueuedAt <= Get(s, x).enqueuedAt)
  {
    var s := Run(EMPTY, c, steps);
    if |steps| > 0 {
      RunOrderly(c, steps);
      assert Ahead(Of(s), s.pending[0], Clock(steps)) && Accounted(Of(s), s.pending[0], s.tick);
      assert s.pending[0].first ==> Standing(Of(s), s.pending[0]);
    }
  }
}
