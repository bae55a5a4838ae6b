/** Who gets a slot, and that a free slot is offered. */
module RouterAdmission {
  import opened Wrappers
  import opened Fleet
  import opened RouterModel
  import opened RouterInvariants

  // ---- ways to a slot ------------------------------------------------------

  predicate HumanWaits(s: State)
  {
    FirstSuch(s.queue, HumanInPlay(s)).Some?
  }

  /** By entering: with an idle archive, or on demand while no archive bars it and nobody queues;
      the slot is the lowest human one without row and hold. */
  ghost predicate Entered(s: State, t: State, c: Config, e: Email)
  {
    && e in t.users && 1 <= t.users[e] <= c.humanSlots && t.users[e] !in s.slots && t.users[e] !in s.holds
    && (forall k :: 1 <= k < t.users[e] ==> k in s.slots || k in s.holds)
    && (IdleArchive(s, e) || (!Barred(s, e) && c.autoCreate && !HumanWaits(s)))
  }

  /** By an offer made to this email that has not run out: the slot is the offered one. */
  ghost predicate TookOffer(s: State, t: State, e: Email, now: real)
  {
    exists r :: r in s.queue && IsOffered(s.entries, r) && Get(s, r).email == e && OfferValid(s, Get(s, r), now)
                && e in t.users && Get(s, r).slot == Some(t.users[e])
  }

  ghost predicate Admitted(s: State, t: State, c: Config, step: Step, e: Email, now: real)
  {
    match step
    case StepEnter(x, ready) => x == e && ready && Entered(s, t, c, e)
    case StepTake(x, clean, woke) => x == e && clean && woke && TookOffer(s, t, e, now)
    case StepEnqueueAgent(x) => x == e && e in t.users && TierOf(c, t.users[e]) == Agent && t.users[e] !in s.slots
    case StepHint(k, x, woke) => x == e && woke && e in t.users && t.users[e] == k && k !in s.slots && k !in s.holds
    case _ => false
  }

  lemma {:induction false} FirstFreeLeast(s: State, k: int, hi: int, heedHolds: bool, j: int)
    requires FirstFree(s, k, hi, heedHolds).Some? && k <= j < FirstFree(s, k, hi, heedHolds).value
    ensures j in s.slots || (heedHolds && j in s.holds)
    decreases hi - k
  {
    if j > k {
      FirstFreeLeast(s, k + 1, hi, heedHolds, j);
    }
  }

  lemma EnterAdmits(s: State, c: Config, x: Email, ready: bool, e: Email, now: real)
    requires e !in s.users && e in Enter(s, c, x, now, ready).users
    ensures x == e && ready && Entered(s, Enter(s, c, x, now, ready), c, e)
  {
    var r := Resolve(s, c, x, now);
    if r.woke {
      ResolveShape(s, c, x, now);
      var free := FirstFree(s, 1, c.humanSlots, true);
      assert r.slot == free;
      forall k | 1 <= k < free.value
        ensures k in s.slots || k in s.holds
      {
        FirstFreeLeast(s, 1, c.humanSlots, true, k);
      }
    }
  }

  lemma TakeAdmits(s: State, c: Config, x: Email, clean: bool, woke: bool, e: Email, now: real)
    requires e !in s.users && e in TakeOffer(s, c, x, now, clean, woke).users
    ensures x == e && clean && woke && TookOffer(s, TakeOffer(s, c, x, now, clean, woke), e, now)
  {
    var r := FirstSuch(s.queue, HumanOf(s, x)).value;
    assert r in s.queue && HumanOf(s, x)(r) && IsOffered(s.entries, r);
    assert OfferValid(s, Get(s, r), now);
  }

  lemma AgentAdmits(s: State, c: Config, x: Email, e: Email, now: real)
    requires e !in s.users && e in EnqueueAgent(s, c, x, now).users
    ensures var t := EnqueueAgent(s, c, x, now);
            x == e && TierOf(c, t.users[e]) == Agent && t.users[e] !in s.slots
  {
    if AgentSlot(s, c).Some? {
      EnqueueAgentGranted(s, c, x, now);
    }
  }

  /** The steps that assign nobody. */
  lemma NobodyAdmitted(s: State, c: Config, step: Step, now: real)
    requires Offers(s, c)
    requires !step.StepEnter? && !step.StepTake? && !step.StepEnqueueAgent? && !step.StepHint?
    ensures Next(s, c, step, now).users.Keys <= s.users.Keys
  {
    if QueueStep(step) {
      QueueUsers(s, c, step, now);
    } else {
      match step
      case StepRelease(x, given) => ReleaseShape(s, x, given, now);
      case StepRestart => RestartUsers(s, c, now);
      case StepForceRelease(x) => ForceReleaseUsers(s, c, x, now);
      case StepCommit(clean) => CommitUsers(s, c, clean);
      case _ =>
    }
  }

  lemma QueueUsers(s: State, c: Config, step: Step, now: real)
    requires Offers(s, c) && QueueStep(step) && !step.StepEnqueueAgent?
    ensures Next(s, c, step, now).users.Keys <= s.users.Keys
  {
    match step
    case StepGraceSweep => GraceSweepUsers(s, c, now);
    case StepLeave(r) => LeaveUsers(s, r);
    case _ =>
  }

  lemma GraceSweepUsers(s: State, c: Config, now: real)
    requires Offers(s, c)
    ensures GraceSweep(s, c, now).users == s.users
  {
    ExpireLapsedKeeps(s, c, s.queue, now);
  }

  lemma LeaveUsers(s: State, r: Ref)
    ensures Leave(s, r).users.Keys <= s.users.Keys
  {
    if r in s.queue {
      LeaveShape(s, r);
    }
  }

  lemma ForceReleaseUsers(s: State, c: Config, x: Email, now: real)
    ensures ForceRelease(s, c, x, now).users.Keys <= s.users.Keys
  {
    if ForceRelease(s, c, x, now) != s {
      ForceReleaseShape(s, c, x, now);
    }
  }

  lemma CommitUsers(s: State, c: Config, clean: bool)
    ensures Commit(s, c, clean).users == s.users
  {
  }

  lemma {:induction false} RestoreOffersUsers(s: State, c: Config, refs: seq<Ref>, now: real)
    ensures RestoreOffers(s, c, refs, now).users == s.users
    decreases |refs|
  {
    if |refs| > 0 {
      RestoreOneUsers(s, c, refs[0], now);
      RestoreOffersUsers(RestoreOne(s, c, refs[0], now), c, refs[1..], now);
    }
  }

  lemma RestoreOneUsers(s: State, c: Config, r: Ref, now: real)
    ensures RestoreOne(s, c, r, now).users == s.users
  {
    if IsOffered(s.entries, r) {
      ExpireOfferUsers(s, c, r, now);
    }
  }

  lemma ExpireOfferUsers(s: State, c: Config, r: Ref, now: real)
    ensures ExpireOffer(s, c, r, now).users == s.users
  {
  }

  lemma RestartUsers(s: State, c: Config, now: real)
    ensures Restart(s, c, now).users.Keys <= s.users.Keys
  {
    var s2 := Unstale(PurgePools(Reset(s), c, now));
    RestoreOffersUsers(s2, c, s2.queue, now);
  }

  /** Whoever gets a slot entered, took an offer, was granted an agent slot or was woken by the
      sweep. No other step assigns anybody. */
  lemma Admission(s: State, c: Config, step: Step, e: Email, now: real)
    requires Offers(s, c) && e !in s.users && e in Next(s, c, step, now).users
    ensures Admitted(s, Next(s, c, step, now), c, step, e, now)
  {
    match step
    case StepEnter(x, ready) => EnterAdmits(s, c, x, ready, e, now);
    case StepTake(x, clean, woke) => TakeAdmits(s, c, x, clean, woke, e, now);
    case StepEnqueueAgent(x) => AgentAdmits(s, c, x, e, now);
    case StepHint(k, x, woke) => HintAdmits(s, c, k, x, woke, e, now);
    case _ => NobodyAdmitted(s, c, step, now);
  }

  lemma HintAdmits(s: State, c: Config, k: int, x: Email, woke: bool, e: Email, now: real)
    requires e !in s.users && e in BootHint(s, c, k, x, now, woke).users
    ensures x == e && woke && BootHint(s, c, k, x, now, woke).users[e] == k && k !in s.slots && k !in s.holds
  {
    HintCommitShape(s, k, x, now, woke);
  }

  /** A user whose session expired, or whose rescue budget was spent, comes back only through an
      offer, the agent interface or the sweep; and while a human waits nobody but the owner of an
      idle archive enters past the queue. */
  lemma NoQueueJump(s: State, c: Config, step: Step, e: Email, now: real)
    requires Offers(s, c) && e !in s.users && e in Next(s, c, step, now).users
    requires Barred(s, e) || (HumanWaits(s) && !IdleArchive(s, e))
    ensures step.StepTake? || step.StepEnqueueAgent? || step.StepHint?
  {
    Admission(s, c, step, e, now);
  }

  // ---- a tick makes offers -------------------------------------------------

  /** The commits of one tick, when every slot is clean and nothing comes between. */
  function CommitAll(s: State, c: Config): State
    decreases |s.pending|
  {
    if |s.pending| == 0 then s
    else
      CommitPops(s, c);
      CommitAll(Commit(s, c, true), c)
  }

  lemma CommitPops(s: State, c: Config)
    requires |s.pending| > 0
    ensures Commit(s, c, true).pending == s.pending[1..]
  {
  }

  ghost predicate NoneOfferedIn(s: State, tier: Tier)
  {
    forall x :: x in s.queue && IsOffered(s.entries, x) ==> Get(s, x).tier != tier
  }

  /** Candidate i is r's, its slot is free, and nobody of the tier comes before it. */
  ghost predicate NextUp(s: State, c: Config, i: nat, r: Ref, tier: Tier)
  {
    && i < |s.pending| && s.pending[i].ref == r && TierOf(c, s.pending[i].slot) == tier
    && (forall j :: 0 <= j < i ==> TierOf(c, s.pending[j].slot) != tier)
    && s.pending[i].slot !in s.slots && s.pending[i].slot !in s.holds
    && Get(s, r).status == Waiting && Get(s, r).tier == tier && NoneOfferedIn(s, tier)
  }

  lemma NoneMeansNone(s: State, tier: Tier)
    ensures NoneOfferedIn(s, tier) <==> FirstSuch(s.queue, OfferedIn(s, tier)).None?
  {
    if FirstSuch(s.queue, OfferedIn(s, tier)).None? {
      forall x | x in s.queue && IsOffered(s.entries, x)
        ensures Get(s, x).tier != tier
      {
        assert !OfferedIn(s, tier)(x);
      }
    } else {
      var x := FirstSuch(s.queue, OfferedIn(s, tier)).value;
      assert OfferedIn(s, tier)(x) && IsOffered(s.entries, x);
    }
  }

  /** An offer stays until the tick is over. */
  lemma {:induction false} OfferStays(s: State, c: Config, r: Ref)
    requires IsOffered(s.entries, r)
    ensures Get(CommitAll(s, c), r) == Get(s, r)
    decreases |s.pending|
  {
    if |s.pending| > 0 {
      CommitSpares(s, c, r);
      CommitPops(s, c);
      OfferStays(Commit(s, c, true), c, r);
    }
  }

  lemma CommitSpares(s: State, c: Config, r: Ref)
    requires |s.pending| > 0 && IsOffered(s.entries, r)
    ensures Get(Commit(s, c, true), r) == Get(s, r)
  {
    CommitSkipped(s, c, true);
    if MayOffer(s, s.pending[0].slot, s.pending[0].ref) {
      CommitOffered(s, c);
      assert s.pending[0].ref != r;
    }
  }

  lemma {:induction false} NextUpOffered(s: State, c: Config, i: nat, r: Ref, tier: Tier)
    requires Offers(s, c) && NextUp(s, c, i, r, tier)
    ensures IsOffered(CommitAll(s, c).entries, r) && Get(CommitAll(s, c), r).slot == Some(s.pending[i].slot)
    decreases i
  {
    var t := Commit(s, c, true);
    CommitPops(s, c);
    if i == 0 {
      NowOffered(s, c, r, tier);
      OfferStays(t, c, r);
    } else {
      CommitOffers(s, c, true);
      NextUpStays(s, c, i, r, tier);
      NextUpOffered(t, c, i - 1, r, tier);
    }
  }

  lemma NowOffered(s: State, c: Config, r: Ref, tier: Tier)
    requires Offers(s, c) && NextUp(s, c, 0, r, tier)
    ensures var t := Commit(s, c, true);
            IsOffered(t.entries, r) && Get(t, r).slot == Some(s.pending[0].slot)
  {
    NoneMeansNone(s, tier);
    CommitOffered(s, c);
  }

  /** A commit for another tier brings the candidate one place forward. */
  lemma NextUpStays(s: State, c: Config, i: nat, r: Ref, tier: Tier)
    requires Offers(s, c) && NextUp(s, c, i, r, tier) && i > 0
    ensures NextUp(Commit(s, c, true), c, i - 1, r, tier) && Commit(s, c, true).pending[i - 1] == s.pending[i]
  {
    var t := Commit(s, c, true);
    CommitPops(s, c);
    CommitSkipped(s, c, true);
    assert t.pending[i - 1] == s.pending[i];
    assert forall j :: 0 <= j < i - 1 ==> t.pending[j] == s.pending[j + 1];
    if MayOffer(s, s.pending[0].slot, s.pending[0].ref) {
      CommitOffered(s, c);
      OtherTier(s, c, tier);
    }
  }

  /** A commit in another tier. */
  lemma OtherTier(s: State, c: Config, tier: Tier)
    requires Offers(s, c) && |s.pending| > 0 && MayOffer(s, s.pending[0].slot, s.pending[0].ref)
    requires TierOf(c, s.pending[0].slot) != tier && NoneOfferedIn(s, tier)
    ensures NoneOfferedIn(Commit(s, c, true), tier)
    ensures forall r :: Get(s, r).tier == tier ==> Get(Commit(s, c, true), r) == Get(s, r)
  {
    var t, cand := Commit(s, c, true), s.pending[0];
    CommitOffered(s, c);
    assert Get(s, cand.ref).tier == TierOf(c, cand.slot);
    forall x | x in t.queue && IsOffered(t.entries, x)
      ensures Get(t, x).tier != tier
    {
      if x != cand.ref {
        assert Get(t, x) == Get(s, x);
      }
    }
  }

  /** Candidate i is the first of its tier, for the head of the queue and a free slot. */
  ghost predicate LeadsTier(s: State, c: Config, p: seq<Candidate>, i: nat, tier: Tier)
  {
    && i < |p| && Head(s, s.queue, tier) == Some(p[i].ref) && TierOf(c, p[i].slot) == tier
    && p[i].slot !in s.slots && p[i].slot !in s.holds
    && forall j :: 0 <= j < i ==> TierOf(c, p[j].slot) != tier
  }

  lemma LeadsLonger(s: State, c: Config, p: seq<Candidate>, longer: seq<Candidate>, i: nat, tier: Tier)
    requires LeadsTier(s, c, p, i, tier) && p <= longer
    ensures LeadsTier(s, c, longer, i, tier)
  {
    assert forall j :: 0 <= j <= i ==> longer[j] == p[j];
  }

  /** The first candidate of a tier among the slots up to hi. */
  lemma {:induction false} CandidateOf(s: State, c: Config, hi: nat, k: int) returns (i: nat)
    requires 1 <= k <= hi && k !in s.slots && k !in s.holds && NoneOfferedIn(s, TierOf(c, k))
    requires Head(s, s.queue, TierOf(c, k)).Some?
    ensures LeadsTier(s, c, Candidates(s, c, hi), i, TierOf(c, k))
    decreases hi
  {
    if k <= hi - 1 {
      i := CandidateOf(s, c, hi - 1, k);
      CandidatesGrow(s, c, hi);
      LeadsLonger(s, c, Candidates(s, c, hi - 1), Candidates(s, c, hi), i, TierOf(c, k));
    } else {
      i := FirstIn(s, c, hi - 1, TierOf(c, k));
      CandidateAdded(s, c, k);
    }
  }

  lemma CandidatesGrow(s: State, c: Config, hi: nat)
    requires hi > 0
    ensures Candidates(s, c, hi - 1) <= Candidates(s, c, hi)
  {
  }

  lemma CandidateAdded(s: State, c: Config, k: nat)
    requires k > 0 && k !in s.slots && k !in s.holds && NoneOfferedIn(s, TierOf(c, k))
    requires Head(s, s.queue, TierOf(c, k)).Some?
    ensures var found, r := Candidates(s, c, k - 1), Head(s, s.queue, TierOf(c, k)).value;
            Candidates(s, c, k) == found + [Candidate(k, r, Get(s, r).enqueuedAt, FirstOf(found, c, k))]
  {
    NoneMeansNone(s, TierOf(c, k));
  }

  /** The first candidate of a tier so far, or the place of the next one. */
  lemma {:induction false} FirstIn(s: State, c: Config, hi: nat, tier: Tier) returns (i: nat)
    ensures var p := Candidates(s, c, hi);
            && i <= |p| && (forall j :: 0 <= j < i ==> TierOf(c, p[j].slot) != tier)
            && (i < |p| ==> TierOf(c, p[i].slot) == tier && Head(s, s.queue, tier) == Some(p[i].ref)
                            && p[i].slot !in s.slots && p[i].slot !in s.holds)
    decreases hi
  {
    i := 0;
    if hi > 0 {
      i := FirstIn(s, c, hi - 1, tier);
      var found, p := Candidates(s, c, hi - 1), Candidates(s, c, hi);
      if i == |found| && |p| > |found| && TierOf(c, hi) != tier {
        i := i + 1;
      }
    }
  }

  /** Progress: when a slot of a tier is free and somebody waits in it, a tick that finds the slots
      clean offers one to the head of the tier. */
  lemma TickOffersHead(s: State, c: Config, now: real, k: int)
    requires Offers(s, c) && InPool(c, k) && k !in s.slots && k !in s.holds
    requires NoneOfferedIn(s, TierOf(c, k)) && Head(s, s.queue, TierOf(c, k)).Some?
    ensures var t, r := CommitAll(Collect(s, c, now), c), Head(s, s.queue, TierOf(c, k)).value;
            && IsOffered(t.entries, r) && Get(t, r).slot.Some?
            && Get(t, r).slot.value !in s.slots && Get(t, r).slot.value !in s.holds
            && TierOf(c, Get(t, r).slot.value) == TierOf(c, k)
  {
    var u := Collect(s, c, now);
    var i := CandidateOf(s, c, c.humanSlots + c.agentSlots, k);
    CollectOffers(s, c, now);
    NextUpOffered(u, c, i, Head(s, s.queue, TierOf(c, k)).value, TierOf(c, k));
  }
}
