/** When things begin and end: sessions, offers, waiting agents, and what a restart keeps. */
module RouterClocks {
  import opened Wrappers
  import opened Fleet
  import opened RouterModel
  import opened RouterInvariants
  import opened RouterHistory
  import opened RouterAdmission

  // ---- sessions begin ------------------------------------------------------

  /** A human slot that may be given out. */
  predicate FreeHuman(s: State, c: Config, k: int)
  {
    1 <= k <= c.humanSlots && k !in s.slots && k !in s.holds
  }

  lemma {:induction false} FindsFree(s: State, k: int, hi: int, j: int)
    requires k <= j <= hi && j !in s.slots && j !in s.holds
    ensures FirstFree(s, k, hi, true).Some?
    decreases hi - k
  {
    if k < j {
      FindsFree(s, k + 1, hi, j);
    }
  }

  /** A human's entry that waits or is offered a slot. */
  ghost predicate HumanQueued(s: State)
  {
    exists r :: r in s.queue && Get(s, r).tier == Human && (Get(s, r).status == Waiting || Get(s, r).status == Offered)
  }

  lemma HumanFound(s: State)
    ensures FirstSuch(s.queue, HumanInPlay(s)).Some? <==> HumanQueued(s)
  {
    var f := FirstSuch(s.queue, HumanInPlay(s));
    if f.Some? {
      assert HumanInPlay(s)(f.value);
    } else {
      forall r | r in s.queue
        ensures !(Get(s, r).tier == Human && (Get(s, r).status == Waiting || Get(s, r).status == Offered))
      {
        assert !HumanInPlay(s)(r);
      }
    }
  }

  /** Who may be given a free slot: the owner of an idle archive; anybody else only when sessions
      are created on demand, no human is queued and no archive says that a session expired or that
      a rescue budget was spent. */
  ghost predicate MayBegin(s: State, c: Config, e: Email)
  {
    || (e in s.archives && s.archives[e].reason == Idle)
    || (c.autoCreate && !HumanQueued(s)
        && (e in s.archives ==> s.archives[e].reason !in {Expired, StreamDeadCap, RescueCap}))
  }

  lemma MayAssignExact(s: State, c: Config, e: Email)
    ensures MayAssign(s, c, e) <==> MayBegin(s, c, e)
  {
    HumanFound(s);
  }

  /** A user without a slot gets one by entering exactly when its slot wakes, a human slot is free
      and a session may begin. */
  lemma EnterExact(s: State, c: Config, e: Email, now: real, ready: bool)
    requires e !in s.users
    ensures e in Enter(s, c, e, now, ready).users
       <==> ready && (exists k :: FreeHuman(s, c, k)) && MayBegin(s, c, e)
  {
    MayAssignExact(s, c, e);
    FreeFound(s, c);
    ResolveWakes(s, c, e, now);
    EnterWakes(s, c, e, now, ready);
  }

  lemma FreeFound(s: State, c: Config)
    ensures FirstFree(s, 1, c.humanSlots, true).Some? <==> exists k :: FreeHuman(s, c, k)
  {
    if k :| FreeHuman(s, c, k) {
      FindsFree(s, 1, c.humanSlots, k);
    }
    if FirstFree(s, 1, c.humanSlots, true).Some? {
      assert FreeHuman(s, c, FirstFree(s, 1, c.humanSlots, true).value);
    }
  }

  lemma ResolveWakes(s: State, c: Config, e: Email, now: real)
    requires e !in s.users
    ensures Resolve(s, c, e, now).woke <==> MayAssign(s, c, e) && FirstFree(s, 1, c.humanSlots, true).Some?
  {
  }

  lemma ResolveSleeps(s: State, c: Config, e: Email, now: real)
    requires !Resolve(s, c, e, now).woke
    ensures Resolve(s, c, e, now).state == s
  {
  }

  lemma EnterWakes(s: State, c: Config, e: Email, now: real, ready: bool)
    requires e !in s.users
    ensures e in Enter(s, c, e, now, ready).users <==> Resolve(s, c, e, now).woke && ready
  {
    if Resolve(s, c, e, now).woke {
      ResolveShape(s, c, e, now);
    } else {
      ResolveSleeps(s, c, e, now);
    }
  }

  /** The user's session in this tier began now, on a slot whose row is the user's. */
  ghost predicate Began(t: State, e: Email, now: real, tier: Tier)
  {
    && e in t.users && t.users[e] in t.slots && t.slots[t.users[e]] == e && e in t.sessions
    && t.sessions[e] == Session(t.users[e], now, tier)
  }

  lemma AssignBegins(s: State, t: State, e: Email, k: int, now: real, tier: Tier)
    requires t.users == s.users[e := k] && t.slots == s.slots[k := e]
    requires t.sessions == s.sessions[e := Session(k, now, tier)]
    ensures Began(t, e, now, tier)
  {
  }

  lemma EnterBegins(s: State, c: Config, x: Email, ready: bool, e: Email, now: real)
    requires e !in s.users && e in Enter(s, c, x, now, ready).users
    ensures Began(Enter(s, c, x, now, ready), e, now, Human)
  {
    EnterAdmits(s, c, x, ready, e, now);
    EnterWakes(s, c, e, now, ready);
    ResolveShape(s, c, e, now);
    EnterReady(s, c, e, now);
    AssignBegins(s, Resolve(s, c, e, now).state, e, Resolve(s, c, e, now).slot.value, now, Human);
  }

  lemma EnterReady(s: State, c: Config, e: Email, now: real)
    ensures Enter(s, c, e, now, true) == Resolve(s, c, e, now).state
  {
  }

  lemma AgentBegins(s: State, c: Config, x: Email, e: Email, now: real)
    requires e !in s.users && e in EnqueueAgent(s, c, x, now).users
    ensures Began(EnqueueAgent(s, c, x, now), e, now, Agent)
  {
    AgentAdmits(s, c, x, e, now);
    AgentGranted(s, c, x, now);
    EnqueueAgentGranted(s, c, x, now);
    AssignBegins(s, EnqueueAgent(s, c, x, now), e, AgentSlot(s, c).value, now, Agent);
  }

  lemma AgentGranted(s: State, c: Config, x: Email, now: real)
    ensures AgentSlot(s, c).None? ==> EnqueueAgent(s, c, x, now).users == s.users
  {
  }

  lemma HintBegins(s: State, c: Config, k: int, x: Email, woke: bool, e: Email, now: real)
    requires e !in s.users && e in BootHint(s, c, k, x, now, woke).users
    ensures Began(BootHint(s, c, k, x, now, woke), e, now, Human)
  {
    HintAdmits(s, c, k, x, woke, e, now);
    HintBoots(s, c, k, x, now, woke);
    if MayHint(s, x) {
      HintCommitShape(s, k, x, now, woke);
      AssignBegins(s, HintCommit(s, k, x, now, woke), e, k, now, Human);
    }
  }

  lemma HintBoots(s: State, c: Config, k: int, x: Email, now: real, woke: bool)
    ensures var t := BootHint(s, c, k, x, now, woke);
            t == s || (MayHint(s, x) && t == HintCommit(s, k, x, now, woke))
  {
  }

  /** Whoever is assigned a slot has its row, and a session that begins now. */
  lemma SessionBegins(s: State, c: Config, step: Step, e: Email, now: real)
    requires Offers(s, c) && e !in s.users && e in Next(s, c, step, now).users
    ensures Began(Next(s, c, step, now), e, now, if step.StepEnqueueAgent? then Agent else Human)
  {
    match step
    case StepEnter(x, ready) => EnterBegins(s, c, x, ready, e, now);
    case StepTake(x, clean, woke) =>
      TakeAdmits(s, c, x, clean, woke, e, now);
      TakeBegins(s, c, e, now, clean, woke);
    case StepEnqueueAgent(x) => AgentBegins(s, c, x, e, now);
    case StepHint(k, x, woke) => HintBegins(s, c, k, x, woke, e, now);
    case _ => NobodyAdmitted(s, c, step, now);
  }

  lemma TakeBegins(s: State, c: Config, e: Email, now: real, clean: bool, woke: bool)
    requires Offers(s, c) && e !in s.users && e in TakeOffer(s, c, e, now, clean, woke).users && clean && woke
    ensures Began(TakeOffer(s, c, e, now, clean, woke), e, now, Human)
  {
    var r := TakeIs(s, c, e, now, clean, woke);
    TookBegins(s, TakeOffer(s, c, e, now, clean, woke), c, r, now, e);
  }

  lemma TookBegins(s: State, t: State, c: Config, r: Ref, now: real, e: Email)
    requires Offers(s, c) && TakeResult(s, t, c, r, now, true) && e !in s.users && e in t.users
    ensures Began(t, e, now, Human)
  {
    ExpireOfferUsers(s, c, r, now);
    if t != s && t != ExpireOffer(s, c, r, now) {
      var k := Get(s, r).slot.value;
      TakeCommitShape(s, r, k, now, true);
      AssignBegins(s, t, Get(s, r).email, k, now, Human);
    }
  }

  // ---- offers end ----------------------------------------------------------

  /** An offer that is committed can be taken until the grace after the tick is over, and from then
      on it has lapsed. */
  lemma OfferLasts(s: State, c: Config, now: real)
    requires |s.pending| > 0 && MayOffer(s, s.pending[0].slot, s.pending[0].ref)
    ensures var t, cand := Commit(s, c, true), s.pending[0];
            && IsOffered(t.entries, cand.ref) && Get(t, cand.ref).slot == Some(cand.slot)
            && (OfferValid(t, Get(t, cand.ref), now) <==> now < s.tick + c.offerGrace)
            && (Lapsed(t, cand.ref, now) <==> Get(t, cand.ref).email !in t.users && s.tick + c.offerGrace <= now)
  {
    CommitOffered(s, c);
  }

  /** What the sweep makes of one entry: a lapsed offer expires, and nothing else changes. */
  lemma {:induction false} LapsedAt(s: State, c: Config, refs: seq<Ref>, now: real, r: Ref)
    requires NoRepeats(refs)
    ensures var t := ExpireLapsed(s, c, refs, now);
            && Get(t, r) == (if r in refs && Lapsed(s, r, now) then Expire(c, Get(s, r), now) else Get(s, r))
            && t.users == s.users && t.queue == s.queue
    decreases |refs|
  {
    if |refs| > 0 {
      var head, rest := refs[0], refs[1..];
      var t := if Lapsed(s, head, now) then ExpireOffer(s, c, head, now) else s;
      ExpireOfferAt(s, c, head, now, r);
      LapsedAt(t, c, rest, now, r);
      assert r in refs <==> r == head || r in rest;
      if r == head {
        assert r !in rest;
      }
    }
  }

  lemma ExpireOfferAt(s: State, c: Config, x: Ref, now: real, r: Ref)
    ensures var t := ExpireOffer(s, c, x, now);
            && Get(t, r) == (if r == x then Expire(c, Get(s, x), now) else Get(s, r))
            && t.users == s.users && t.queue == s.queue
  {
    ExpireOfferTables(s, c, x, now);
  }

  lemma ExpireOfferTables(s: State, c: Config, x: Ref, now: real)
    ensures var t := ExpireOffer(s, c, x, now);
            t.users == s.users && t.queue == s.queue && t.entries == s.entries[x := Expire(c, Get(s, x), now)]
  {
  }

  /** After a sweep the offers that lasted are as they were, and no other is left but of users who
      have a slot; whoever let one lapse waits again from now, or is backed off. */
  lemma SweepExact(s: State, c: Config, now: real, r: Ref)
    requires Offers(s, c) && r in s.queue && IsOffered(s.entries, r)
    ensures var t := GraceSweep(s, c, now);
            && (!Lapsed(s, r, now) ==> r in t.queue && Get(t, r) == Get(s, r))
            && (Lapsed(s, r, now) ==> Get(t, r).status in {Waiting, BackedOff} && Get(t, r).enqueuedAt == now
                                      && Get(t, r).slot == None)
  {
    var u := ExpireLapsed(s, c, s.queue, now);
    LapsedAt(s, c, s.queue, now, r);
    FilterMember(u.queue, (x: Ref) => !CooledDown(u, x, now), r);
    ExpireShape(c, Get(s, r), now);
  }

  // ---- agents wait no longer -----------------------------------------------

  /** A queued entry is dropped exactly when it is an agent's that waits and its deadline passed. */
  lemma AgentTimeoutExact(s: State, c: Config, r: Ref, now: real, x: Ref)
    requires x in s.queue
    ensures x !in AgentTimeout(s, c, r, now).queue
       <==> x == r && Get(s, r).tier == Agent && Get(s, r).status == Waiting
            && now - Get(s, r).enqueuedAt >= c.agentTimeout
  {
    FilterMember(s.queue, (y: Ref) => y != r, x);
  }

  // ---- a restart -----------------------------------------------------------

  ghost predicate SamePeople(s: State, t: State)
  {
    t.users == s.users && t.queue == s.queue && t.expiring == s.expiring && t.quarantined == s.quarantined
  }

  /** What restoring one entry may be: nothing, a hold for an offer that lasts, an offer expired. */
  ghost predicate RestoreWay(s: State, t: State, c: Config, r: Ref, now: real)
  {
    var e := Get(s, r);
    || t == s
    || (e.slot.Some? && LastingOffer(e, e.slot.value, now) && t == s.(holds := s.holds[e.slot.value := e.email]))
    || t == ExpireOffer(s, c, r, now)
  }

  lemma RestoreOneWay(s: State, c: Config, r: Ref, now: real)
    ensures RestoreWay(s, RestoreOne(s, c, r, now), c, r, now)
  {
  }

  lemma ExpireOfferPasses(s: State, c: Config, r: Ref, now: real)
    ensures SamePeople(s, ExpireOffer(s, c, r, now))
  {
  }

  lemma ExpireOfferHolds(s: State, c: Config, r: Ref, now: real, k: int)
    ensures k in ExpireOffer(s, c, r, now).holds ==> k in s.holds
  {
  }

  lemma WayPasses(s: State, t: State, c: Config, r: Ref, now: real, k: int)
    requires RestoreWay(s, t, c, r, now)
    ensures SamePeople(s, t) && (k in t.holds ==> k in s.holds || LastingOffer(Get(s, r), k, now))
  {
    ExpireOfferPasses(s, c, r, now);
    ExpireOfferHolds(s, c, r, now, k);
  }

  /** The hold that restoring one entry leaves is an old one or that of its unlapsed offer. */
  lemma RestoreOnePasses(s: State, c: Config, r: Ref, now: real, k: int)
    ensures var t := RestoreOne(s, c, r, now);
            SamePeople(s, t) && (k in t.holds ==> k in s.holds || LastingOffer(Get(s, r), k, now))
  {
    RestoreOneWay(s, c, r, now);
    WayPasses(s, RestoreOne(s, c, r, now), c, r, now, k);
  }

  /** An offer of this slot that lasts. */
  predicate LastingOffer(e: Entry, k: int, now: real)
  {
    e.status == Offered && e.slot == Some(k) && e.offerExpiresAt.Some? && e.offerExpiresAt.value > now
  }

  lemma RestoreOneOthers(s: State, c: Config, r: Ref, now: real, x: Ref)
    requires x != r
    ensures Get(RestoreOne(s, c, r, now), x) == Get(s, x)
  {
    RestoreOneOf(s, c, r, now);
    if IsOffered(s.entries, r) {
      ExpireOfferAt(s, c, r, now, x);
    }
  }

  lemma {:induction false} RestoredHolds(s: State, c: Config, refs: seq<Ref>, now: real, k: int) returns (r: Ref)
    requires NoRepeats(refs) && k in RestoreOffers(s, c, refs, now).holds && k !in s.holds
    ensures r in refs && LastingOffer(Get(s, r), k, now)
    decreases |refs|
  {
    var t := RestoreOne(s, c, refs[0], now);
    RestoreOffersUnfolds(s, c, refs, now);
    if k in t.holds {
      RestoreOnePasses(s, c, refs[0], now, k);
      r := refs[0];
    } else {
      r := RestoredHolds(t, c, refs[1..], now, k);
      RestoreOneOthers(s, c, refs[0], now, r);
    }
  }

  lemma {:induction false} RestoredPasses(s: State, c: Config, refs: seq<Ref>, now: real)
    ensures SamePeople(s, RestoreOffers(s, c, refs, now))
    decreases |refs|
  {
    if |refs| > 0 {
      RestoreOffersUnfolds(s, c, refs, now);
      RestoreOnePasses(s, c, refs[0], now, 0);
      RestoredPasses(RestoreOne(s, c, refs[0], now), c, refs[1..], now);
    }
  }

  /** A restart keeps exactly the assignments to slots of the pools; nobody is being expired or in
      quarantine, and every hold is that of a queued offer that still lasts. */
  lemma RestartTables(s: State, c: Config, now: real, e: Email, k: int)
    requires Offers(s, c)
    ensures var t := Restart(s, c, now);
            && (e in t.users <==> e in s.users && 1 <= s.users[e] <= c.humanSlots + c.agentSlots)
            && (e in t.users ==> t.users[e] == s.users[e])
            && t.expiring == map[] && t.quarantined == map[] && t.pending == []
            && (k in t.holds ==> exists r :: r in s.queue && LastingOffer(Get(s, r), k, now))
  {
    var s1 := PurgePools(Reset(s), c, now);
    var s2 := Unstale(s1);
    FilterNoRepeats(s1.queue, StillQueued(s1));
    RestoredPasses(s2, c, s2.queue, now);
    RestartKeeps(s, c, now);
    if k in Restart(s, c, now).holds {
      var r := RestoredHolds(s2, c, s2.queue, now, k);
      FilterMember(s1.queue, StillQueued(s1), r);
      assert r in s.queue && LastingOffer(Get(s, r), k, now);
    }
  }
}
