/** What an expired session means for the way back: its user is barred until an offer, the agent
    interface or the sweep gives a slot, or until an archive of another kind lifts the bar. */
module RouterBars {
  import opened Wrappers
  import opened Fleet
  import opened RouterModel
  import opened RouterInvariants
  import opened RouterHistory
  import opened RouterAdmission
  import opened RouterClocks
  import opened RouterReleases

  /** The user's queued entry is offered a slot or backed off, so that the offer may lapse or the
      entry be dropped. */
  ghost predicate Exposed(s: State, e: Email)
  {
    exists r :: r in s.queue && Get(s, r).email == e && (Get(s, r).status == Offered || Get(s, r).status == BackedOff)
  }

  /** The steps that may write another archive for a barred user without a slot. */
  ghost predicate MayLift(s: State, step: Step, e: Email)
  {
    match step
    case StepTake(x, _, _) => x == e
    case StepGraceSweep => Exposed(s, e)
    case StepRestart => Exposed(s, e)
    case StepAgentTimeout(r) => Get(s, r).email == e
    case StepRelease(x, _) => x == e && HasOffer(s, e)
    case StepHint(_, x, woke) => x == e
    case _ => false
  }

  // ---- single offers and loops over them -----------------------------------

  ghost predicate SameEntriesOf(s: State, t: State, e: Email)
  {
    forall r :: Get(s, r).email == e || Get(t, r).email == e ==> Get(t, r) == Get(s, r)
  }

  lemma ExpireOfferArchives(s: State, c: Config, r: Ref, now: real, e: Email)
    requires Get(s, r).email != e
    ensures var t := ExpireOffer(s, c, r, now);
            SameAt(s.archives, t.archives, e) && SameEntriesOf(s, t, e) && t.queue == s.queue
  {
    ExpireShape(c, Get(s, r), now);
    ExpireOfferWrites(s, c, r, now);
  }

  lemma ExpireOfferWrites(s: State, c: Config, r: Ref, now: real)
    ensures var t := ExpireOffer(s, c, r, now);
            && t.archives == s.archives[Get(s, r).email := Archive(now, OfferExpired)] && t.queue == s.queue
            && t.entries == s.entries[r := Expire(c, Get(s, r), now)]
  {
  }

  lemma {:induction false} LapsedArchives(s: State, c: Config, refs: seq<Ref>, now: real, e: Email)
    requires forall r :: r in refs && Get(s, r).email == e ==> !IsOffered(s.entries, r)
    ensures var t := ExpireLapsed(s, c, refs, now);
            SameAt(s.archives, t.archives, e) && SameEntriesOf(s, t, e) && t.queue == s.queue
    decreases |refs|
  {
    if |refs| > 0 {
      var t := s;
      if Lapsed(s, refs[0], now) {
        ExpireOfferArchives(s, c, refs[0], now, e);
        t := ExpireOffer(s, c, refs[0], now);
      }
      LapsedArchives(t, c, refs[1..], now, e);
    }
  }

  lemma {:induction false} DroppedArchives(s: State, refs: seq<Ref>, now: real, e: Email)
    requires forall r :: r in refs && Get(s, r).email == e ==> Get(s, r).status != BackedOff
    ensures SameAt(s.archives, Dropped(s, refs, now), e)
    decreases |refs|
  {
    if |refs| > 0 {
      DroppedArchives(s, refs[..|refs| - 1], now, e);
      assert refs[|refs| - 1] in refs;
    }
  }

  lemma SweepArchives(s: State, c: Config, now: real, e: Email)
    requires !Exposed(s, e)
    ensures SameAt(s.archives, GraceSweep(s, c, now).archives, e)
  {
    var t := ExpireLapsed(s, c, s.queue, now);
    LapsedArchives(s, c, s.queue, now, e);
    DroppedArchives(t, t.queue, now, e);
  }

  lemma {:induction false} RestoredArchives(s: State, c: Config, refs: seq<Ref>, now: real, e: Email)
    requires forall r :: r in refs && Get(s, r).email == e ==> !IsOffered(s.entries, r)
    ensures var t := RestoreOffers(s, c, refs, now);
            SameAt(s.archives, t.archives, e) && SameEntriesOf(s, t, e) && t.queue == s.queue
    decreases |refs|
  {
    if |refs| > 0 {
      RestoreOffersUnfolds(s, c, refs, now);
      var t := RestoreOne(s, c, refs[0], now);
      RestoreOneArchives(s, c, refs[0], now, e);
      RestoredArchives(t, c, refs[1..], now, e);
    }
  }

  lemma RestoreOneArchives(s: State, c: Config, r: Ref, now: real, e: Email)
    requires Get(s, r).email == e ==> !IsOffered(s.entries, r)
    ensures var t := RestoreOne(s, c, r, now);
            SameAt(s.archives, t.archives, e) && SameEntriesOf(s, t, e) && t.queue == s.queue
  {
    if Get(s, r).email != e {
      RestoreOneWay(s, c, r, now);
      ExpireOfferArchives(s, c, r, now, e);
    } else {
      RestoreOneSkips(s, c, r, now);
    }
  }

  lemma RestoreOneSkips(s: State, c: Config, r: Ref, now: real)
    requires !IsOffered(s.entries, r)
    ensures RestoreOne(s, c, r, now) == s
  {
  }

  lemma RestartArchives(s: State, c: Config, now: real, e: Email)
    requires !Exposed(s, e) && e in s.archives
    ensures SameAt(s.archives, Restart(s, c, now).archives, e)
  {
    var s1 := PurgePools(Reset(s), c, now);
    var s2 := Unstale(s1);
    assert SameAt(s.archives, s1.archives, e);
    forall r
      ensures r in s2.queue ==> r in s.queue
    {
      FilterMember(s1.queue, StillQueued(s1), r);
    }
    var t := RestoreOffers(s2, c, s2.queue, now);
    RestoredArchives(s2, c, s2.queue, now, e);
    DroppedArchives(t, t.queue, now, e);
  }

  // ---- every step ----------------------------------------------------------

  lemma EnterArchives(s: State, c: Config, x: Email, now: real, ready: bool, e: Email)
    requires Barred(s, e) && e !in s.users
    ensures SameAt(s.archives, Enter(s, c, x, now, ready).archives, e)
  {
    if x == e {
      ResolveWakes(s, c, x, now);
    }
    if Resolve(s, c, x, now).woke {
      ResolveArchives(s, c, x, now);
      EnterWrites(s, c, x, now, ready);
    } else {
      ResolveSleeps(s, c, x, now);
    }
  }

  lemma ResolveArchives(s: State, c: Config, x: Email, now: real)
    requires Resolve(s, c, x, now).woke
    ensures Resolve(s, c, x, now).state.archives == if IdleArchive(s, x) then s.archives - {x} else s.archives
  {
  }

  lemma EnterWrites(s: State, c: Config, x: Email, now: real, ready: bool)
    ensures var a := Resolve(s, c, x, now).state.archives;
            var b := Enter(s, c, x, now, ready).archives;
            b == a || b == a[x := Archive(now, Idle)]
  {
  }

  lemma UnreadyArchives(s: State, x: Email, now: real, e: Email)
    requires e !in s.users
    ensures SameAt(s.archives, Unready(s, x, now).archives, e)
  {
  }

  lemma HintArchives(s: State, c: Config, k: int, x: Email, now: real, woke: bool, e: Email)
    requires x != e
    ensures SameAt(s.archives, BootHint(s, c, k, x, now, woke).archives, e)
  {
    HintBoots(s, c, k, x, now, woke);
    HintWrites(s, k, x, now, woke);
  }

  lemma HintWrites(s: State, k: int, x: Email, now: real, woke: bool)
    ensures var a := HintCommit(s, k, x, now, woke).archives;
            a == s.archives || a == s.archives - {x} || a == (s.archives - {x})[x := Archive(now, Idle)]
  {
  }

  lemma TakeArchives(s: State, c: Config, x: Email, now: real, clean: bool, woke: bool, e: Email)
    requires x != e
    ensures SameAt(s.archives, TakeOffer(s, c, x, now, clean, woke).archives, e)
  {
    var f := FirstSuch(s.queue, HumanOf(s, x));
    if f.Some? && IsOffered(s.entries, f.value) {
      assert HumanOf(s, x)(f.value);
      ExpireOfferArchives(s, c, f.value, now, e);
    }
  }

  lemma ReleaseOther(s: State, x: Email, given: Option<Reason>, now: real, e: Email)
    requires x == e ==> Late(s, e)
    ensures SameAt(s.archives, Release(s, x, given, now).archives, e)
  {
    ReleaseArchives(s, x, given, now);
  }

  lemma LeaveArchives(s: State, r: Ref)
    ensures Leave(s, r).archives == s.archives
  {
    if r in s.queue {
      LeaveShape(s, r);
    }
  }

  lemma AgentArchives(s: State, c: Config, x: Email, now: real)
    ensures EnqueueAgent(s, c, x, now).archives == s.archives
  {
    if AgentSlot(s, c).Some? {
      EnqueueAgentGranted(s, c, x, now);
    }
  }

  lemma ForceReleaseArchives(s: State, c: Config, x: Email, now: real, e: Email)
    requires e !in s.users
    ensures SameAt(s.archives, ForceRelease(s, c, x, now).archives, e)
  {
  }

  lemma TimeoutArchives(s: State, c: Config, r: Ref, now: real, e: Email)
    requires Get(s, r).email != e
    ensures SameAt(s.archives, AgentTimeout(s, c, r, now).archives, e)
  {
  }

  lemma HumanArchives(s: State, c: Config, x: Email, now: real)
    ensures EnqueueHuman(s, c, x, now).archives == s.archives
  {
  }

  lemma QueueStepArchives(s: State, c: Config, step: Step, now: real, e: Email)
    requires QueueStep(step) && !MayLift(s, step, e)
    ensures SameAt(s.archives, Next(s, c, step, now).archives, e)
  {
    match step
    case StepEnqueueHuman(x) => HumanArchives(s, c, x, now);
    case StepEnqueueAgent(x) => AgentArchives(s, c, x, now);
    case StepLeave(r) => LeaveArchives(s, r);
    case StepAgentTimeout(r) => TimeoutArchives(s, c, r, now, e);
    case StepGraceSweep => SweepArchives(s, c, now, e);
  }

  lemma UserStepArchives(s: State, c: Config, step: Step, now: real, e: Email)
    requires UserStep(step) && Barred(s, e) && e !in s.users && !MayLift(s, step, e)
    ensures SameAt(s.archives, Next(s, c, step, now).archives, e)
  {
    match step
    case StepEnter(x, ready) => EnterArchives(s, c, x, now, ready, e);
    case StepUnready(x) => UnreadyArchives(s, x, now, e);
    case StepRelease(x, given) => ReleaseOther(s, x, given, now, e);
    case StepTake(x, clean, woke) => TakeArchives(s, c, x, now, clean, woke, e);
    case StepHint(k, x, woke) => HintArchives(s, c, k, x, now, woke, e);
    case StepRestart => RestartArchives(s, c, now, e);
  }

  lemma CommitArchives(s: State, c: Config, clean: bool)
    ensures Commit(s, c, clean).archives == s.archives
  {
  }

  lemma PassiveArchives(s: State, c: Config, step: Step, now: real, e: Email)
    requires !QueueStep(step) && !UserStep(step) && e !in s.users
    ensures SameAt(s.archives, Next(s, c, step, now).archives, e)
  {
    match step
    case StepForceRelease(x) => ForceReleaseArchives(s, c, x, now, e);
    case StepCommit(clean) => CommitArchives(s, c, clean);
    case StepMarkExpiring =>
    case StepSuspendFailed(_) =>
    case StepQuarantine(_, _) =>
    case StepCollect =>
  }

  /** No other step touches the archive of a barred user without a slot. */
  lemma BarStays(s: State, c: Config, step: Step, now: real, e: Email)
    requires Barred(s, e) && e !in s.users && !MayLift(s, step, e)
    ensures Barred(Next(s, c, step, now), e)
  {
    StepArchives(s, c, step, now, e);
    BarredSame(s, Next(s, c, step, now), e);
  }

  lemma BarredSame(s: State, t: State, e: Email)
    requires Barred(s, e) && SameAt(s.archives, t.archives, e)
    ensures Barred(t, e)
  {
  }

  lemma StepArchives(s: State, c: Config, step: Step, now: real, e: Email)
    requires Barred(s, e) && e !in s.users && !MayLift(s, step, e)
    ensures SameAt(s.archives, Next(s, c, step, now).archives, e)
  {
    if QueueStep(step) {
      QueueStepArchives(s, c, step, now, e);
    } else if UserStep(step) {
      UserStepArchives(s, c, step, now, e);
    } else {
      PassiveArchives(s, c, step, now, e);
    }
  }

  // ---- runs ----------------------------------------------------------------

  /** Along the run no step lifts the bar without giving a slot. */
  ghost predicate BarKept(s: State, c: Config, steps: seq<Timed>, e: Email)
  {
    forall i :: 0 <= i < |steps| ==> !MayLift(Run(s, c, steps[..i]), steps[i].step, e)
                                     || e in Run(s, c, steps[..i + 1]).users
  }

  lemma BarKeptFront(s: State, c: Config, steps: seq<Timed>, e: Email)
    requires BarKept(s, c, steps, e) && |steps| > 0
    ensures BarKept(s, c, steps[..|steps| - 1], e)
  {
    var front := steps[..|steps| - 1];
    forall i | 0 <= i < |front|
      ensures !MayLift(Run(s, c, front[..i]), front[i].step, e) || e in Run(s, c, front[..i + 1]).users
    {
      assert front[..i] == steps[..i] && front[..i + 1] == steps[..i + 1];
    }
  }

  /** The steps by which a barred user may come back. */
  predicate ByQueue(step: Step)
  {
    step.StepTake? || step.StepEnqueueAgent? || step.StepHint?
  }

  /** Step i is the first that gives the user a slot. */
  ghost predicate FirstSlot(s: State, c: Config, steps: seq<Timed>, e: Email, i: nat)
  {
    i < |steps| && e !in Run(s, c, steps[..i]).users && e in Run(s, c, steps[..i + 1]).users
  }

  /** A barred user either still is, without a slot, or came back through the queue. */
  lemma {:induction false} BarredRun(s: State, c: Config, steps: seq<Timed>, e: Email) returns (i: nat)
    requires Offers(s, c) && Barred(s, e) && e !in s.users && BarKept(s, c, steps, e)
    ensures (i == |steps| && e !in Run(s, c, steps).users && Barred(Run(s, c, steps), e))
            || (FirstSlot(s, c, steps, e, i) && ByQueue(steps[i].step))
    decreases |steps|
  {
    i := 0;
    if |steps| > 0 {
      var front := steps[..|steps| - 1];
      BarKeptFront(s, c, steps, e);
      i := BarredRun(s, c, front, e);
      if i < |front| {
        assert front[..i] == steps[..i] && front[..i + 1] == steps[..i + 1];
      } else {
        i := BarredStep(s, c, steps, e);
      }
    }
  }

  /** The last step of a run, for a user barred before it. */
  lemma BarredStep(s: State, c: Config, steps: seq<Timed>, e: Email) returns (i: nat)
    requires Offers(s, c) && BarKept(s, c, steps, e) && |steps| > 0
    requires var u := Run(s, c, steps[..|steps| - 1]); Barred(u, e) && e !in u.users
    ensures (i == |steps| && e !in Run(s, c, steps).users && Barred(Run(s, c, steps), e))
            || (FirstSlot(s, c, steps, e, i) && ByQueue(steps[i].step))
  {
    var n := |steps| - 1;
    var u := Run(s, c, steps[..n]);
    assert steps[..n + 1] == steps;
    RunOffers(s, c, steps[..n]);
    assert Run(s, c, steps) == Next(u, c, steps[n].step, steps[n].now);
    if e in Run(s, c, steps).users {
      NoQueueJump(u, c, steps[n].step, e, steps[n].now);
      i := n;
    } else {
      BarStays(u, c, steps[n].step, steps[n].now, e);
      i := |steps|;
    }
  }

  /** After this session outlived its maximum and was released. */
  ghost predicate ReleasedLate(s: State, t: State, c: Config, e: Email)
  {
    exists now, later :: RanOut(s, c, e, now) && t == Release(MarkExpiring(s, c, now), e, None, later)
  }

  /** A session runs past its maximum and is released; whatever follows, its user gets the next slot
      by taking an offer, through the agent interface or by the sweep, unless a step in between
      replaced the expired archive by one of another kind. */
  lemma ExpiredWaitsInQueue(s: State, t: State, c: Config, e: Email, steps: seq<Timed>) returns (i: nat)
    requires Occupancy(s) && Offers(s, c) && e in s.users && e !in s.quarantined && ReleasedLate(s, t, c, e)
    requires BarKept(t, c, steps, e) && e in Run(t, c, steps).users
    ensures FirstSlot(t, c, steps, e, i) && ByQueue(steps[i].step)
  {
    ReleasedBarred(s, t, c, e);
    i := BarredRun(t, c, steps, e);
  }

  lemma ReleasedBarred(s: State, t: State, c: Config, e: Email)
    requires Occupancy(s) && Offers(s, c) && e in s.users && e !in s.quarantined && ReleasedLate(s, t, c, e)
    ensures Barred(t, e) && e !in t.users && Offers(t, c)
  {
    var now, later :| RanOut(s, c, e, now) && t == Release(MarkExpiring(s, c, now), e, None, later);
    ExpiryBars(s, c, e, now, later);
    ExpiringOffers(s, c, e, Idle, now);
    ReleaseOffers(MarkExpiring(s, c, now), c, e, None, later);
  }
}
