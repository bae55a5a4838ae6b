/** Runs in which the router does less than one might expect of it, and the conditions under
    which it does not. */
module RouterLimits {
  import opened Wrappers
  import opened Fleet
  import opened RouterModel
  import opened RouterInvariants
  import opened RouterHistory
  import opened RouterFairness

  const ONE_SLOT := Config(1, 0, true, 100.0, 100.0, 60.0, 30.0, 300.0, 3, 600.0, 900.0, {})
  const TWO_SLOTS := Config(2, 0, true, 100.0, 100.0, 60.0, 30.0, 300.0, 3, 600.0, 900.0, {})
  const ONE_AGENT := Config(0, 1, true, 100.0, 100.0, 60.0, 30.0, 300.0, 3, 600.0, 900.0, {})

  // ---- rows left behind ----------------------------------------------------

  /** Every slot row belongs to a user assigned to that slot. */
  ghost predicate RowsOwned(users: Users, slots: Rows)
  {
    forall k :: k in slots ==> slots[k] in users && users[slots[k]] == k
  }

  /** Taking an offer leaves no row behind exactly when its user had no slot before, whether or not
      the new slot wakes; an unclean slot is refused and changes nothing. */
  lemma TakeRowsExact(s: State, c: Config, email: Email, now: real, clean: bool, woke: bool)
    requires Occupancy(s) && Offers(s, c) && RowsOwned(s.users, s.slots)
    requires var f := FirstSuch(s.queue, HumanOf(s, email));
             f.Some? && IsOffered(s.entries, f.value) && OfferValid(s, Get(s, f.value), now)
    ensures var t := TakeOffer(s, c, email, now, clean, woke);
            RowsOwned(t.users, t.slots) <==> !(clean && email in s.users)
  {
    var r := FirstSuch(s.queue, HumanOf(s, email)).value;
    OfferedFree(s, c, r);
    TakeShape(s, c, email, now, clean, woke, r);
    if clean {
      GrantedRows(s.users, s.slots, email, Get(s, r).slot.value);
    }
  }

  lemma TakeShape(s: State, c: Config, email: Email, now: real, clean: bool, woke: bool, r: Ref)
    requires FirstSuch(s.queue, HumanOf(s, email)) == Some(r) && IsOffered(s.entries, r)
    requires OfferValid(s, Get(s, r), now)
    ensures var t, k := TakeOffer(s, c, email, now, clean, woke), Get(s, r).slot.value;
            if !clean then t == s
            else
              && t.users == (if woke then s.users[email := k] else s.users[email := k] - {email})
              && t.slots == if woke then s.slots[k := email] else s.slots[k := email] - {k}
  {
  }

  lemma GrantedRows(users: Users, slots: Rows, email: Email, k: int)
    requires RowsOwned(users, slots) && k !in slots
    requires email in users ==> users[email] in slots && slots[users[email]] == email
    ensures RowsOwned(users[email := k], slots[k := email]) <==> email !in users
    ensures RowsOwned(users[email := k] - {email}, slots[k := email] - {k}) <==> email !in users
  {
    var u, t, v := users[email := k], slots[k := email], slots[k := email] - {k};
    if email in users {
      assert u[email] == k != users[email];
      assert users[email] in t && t[users[email]] == email;
      assert users[email] in v && v[users[email]] == email;
    } else {
      assert forall j :: j in slots ==> slots[j] in users && slots[j] != email;
    }
  }

  /** A user archived as idle waits in the queue, resumes on slot 1 past it, and is then offered and
      takes slot 2: the row of slot 1 stays, and nobody can be assigned to it any more. */
  lemma RowLeftBehind(a: Email, woke: bool)
    ensures var t := TakeOffer(ResumedAndOffered(a), TWO_SLOTS, a, 5.0, true, woke);
            && 1 in t.slots && t.slots[1] == a && !(a in t.users && t.users[a] == 1)
            && (woke ==> a in t.users && t.users[a] == 2) && FirstFree(t, 1, 1, true).None?
  {
    ResumedShape(a);
    TakenBeside(ResumedAndOffered(a), a, woke);
    NoSlotLeft(TakeOffer(ResumedAndOffered(a), TWO_SLOTS, a, 5.0, true, woke));
  }

  lemma TakenBeside(s: State, a: Email, woke: bool)
    requires s.users == map[a := 1] && s.slots == map[1 := a] && s.holds == map[2 := a] && s.queue == [1]
    requires Get(s, 1).email == a && Get(s, 1).tier == Human && Get(s, 1).status == Offered
    requires Get(s, 1).slot == Some(2) && Get(s, 1).offerExpiresAt == Some(63.0)
    ensures var t := TakeOffer(s, TWO_SLOTS, a, 5.0, true, woke);
            && 1 in t.slots && t.slots[1] == a
            && (woke ==> a in t.users && t.users[a] == 2) && (!woke ==> a !in t.users)
  {
    assert HumanOf(s, a)(1) && FirstSuch(s.queue, HumanOf(s, a)) == Some(1);
    assert OfferValid(s, Get(s, 1), 5.0);
    TakeShape(s, TWO_SLOTS, a, 5.0, true, woke, 1);
  }

  lemma NoSlotLeft(t: State)
    requires 1 in t.slots
    ensures FirstFree(t, 1, 1, true).None?
  {
    assert FirstFree(t, 2, 1, true).None?;
  }

  /** An entry whose slot did not wake, a request for the queue, a resumed session, one tick. */
  function ResumedAndOffered(a: Email): State
  {
    var s1 := Enter(EMPTY, TWO_SLOTS, a, 0.0, false);
    var s2 := EnqueueHuman(s1, TWO_SLOTS, a, 1.0);
    Commit(Collect(Enter(s2, TWO_SLOTS, a, 2.0, true), TWO_SLOTS, 3.0), TWO_SLOTS, true)
  }

  lemma ResumedShape(a: Email)
    ensures var s := ResumedAndOffered(a);
            && s.users == map[a := 1] && s.slots == map[1 := a] && s.holds == map[2 := a] && s.queue == [1]
            && Get(s, 1).email == a && Get(s, 1).tier == Human && Get(s, 1).status == Offered
            && Get(s, 1).slot == Some(2) && Get(s, 1).offerExpiresAt == Some(63.0)
  {
    ResumedOnce(a);
    var s2 := EnqueueHuman(Enter(EMPTY, TWO_SLOTS, a, 0.0, false), TWO_SLOTS, a, 1.0);
    OfferedBeside(Enter(s2, TWO_SLOTS, a, 2.0, true), a);
  }

  lemma OfferedBeside(s: State, a: Email)
    requires s.users == map[a := 1] && s.slots == map[1 := a] && s.holds == map[] && s.queue == [1]
    requires 1 in s.entries && Get(s, 1).email == a && WaitsIn(s, 1, Human)
    ensures var t := Commit(Collect(s, TWO_SLOTS, 3.0), TWO_SLOTS, true);
            && t.users == s.users && t.slots == s.slots && t.holds == map[2 := a] && t.queue == s.queue
            && Get(t, 1).email == a && Get(t, 1).tier == Human && Get(t, 1).status == Offered
            && Get(t, 1).slot == Some(2) && Get(t, 1).offerExpiresAt == Some(63.0)
  {
    CollectOne(s);
    var u := Collect(s, TWO_SLOTS, 3.0);
    assert FirstSuch(u.queue, OfferedIn(u, Human)).None?;
    CommitOffered(u, TWO_SLOTS);
  }

  lemma ResumedOnce(a: Email)
    ensures var s2 := EnqueueHuman(Enter(EMPTY, TWO_SLOTS, a, 0.0, false), TWO_SLOTS, a, 1.0);
            var s3 := Enter(s2, TWO_SLOTS, a, 2.0, true);
            && s3.users == map[a := 1] && s3.slots == map[1 := a] && s3.holds == map[] && s3.queue == [1]
            && 1 in s3.entries && Get(s3, 1).email == a && WaitsIn(s3, 1, Human)
  {
    var s1 := Enter(EMPTY, TWO_SLOTS, a, 0.0, false);
    assert FirstFree(EMPTY, 1, 2, true) == Some(1);
    assert s1.users == map[] && s1.slots == map[] && s1.queue == [] && s1.holds == map[] && IdleArchive(s1, a);
    var s2 := EnqueueHuman(s1, TWO_SLOTS, a, 1.0);
    assert s2.queue == [1] && Get(s2, 1).email == a && WaitsIn(s2, 1, Human);
    var s3 := Enter(s2, TWO_SLOTS, a, 2.0, true);
    assert FirstFree(s2, 1, 2, true) == Some(1);
    assert s3 == Assign(s2, a, 1, 2.0, Human).(archives := s2.archives - {a});
  }

  lemma CollectOne(s: State)
    requires s.queue == [1] && s.slots.Keys == {1} && s.holds == map[] && WaitsIn(s, 1, Human)
    ensures Candidates(s, TWO_SLOTS, 2) == [Candidate(2, 1, Get(s, 1).enqueuedAt, true)]
  {
    assert Head(s, s.queue, Human) == Some(1);
    assert FirstSuch(s.queue, OfferedIn(s, Human)).None?;
    assert Candidates(s, TWO_SLOTS, 0) == [] && Candidates(s, TWO_SLOTS, 1) == [];
  }

  // ---- an expiry overtaken by a rollback -----------------------------------

  function Overdue1(a: Email): State
  {
    MarkExpiring(Enter(EMPTY, ONE_SLOT, a, 0.0, true), ONE_SLOT, 101.0)
  }

  /** A user whose session is being expired is rolled back, and the slot goes to somebody else:
      the reaper is now about to suspend a slot that is not the expired user's. */
  lemma ExpiryOvertaken(a: Email, b: Email)
    requires a != b
    ensures var s := Overdue1(a);
            var t := Enter(Unready(s, a, 102.0), ONE_SLOT, b, 103.0, true);
            && !Admissible(s, StepUnready(a))
            && a in t.expiring && t.expiring[a] in t.slots && t.slots[t.expiring[a]] == b
  {
    var s0 := Enter(EMPTY, ONE_SLOT, a, 0.0, true);
    assert s0.users == map[a := 1] && s0.slots == map[1 := a] && s0.sessions == map[a := Session(1, 0.0, Human)];
    var s := Overdue1(a);
    assert a in Overdue(s0, ONE_SLOT, 101.0);
    assert s.expiring == map[a := 1] && s.users == s0.users && s.slots == s0.slots && s.queue == [];
    var u := Unready(s, a, 102.0);
    assert u.users == map[] && u.slots == map[] && u.expiring == map[a := 1] && u.holds == map[] && u.queue == [];
    assert b !in u.archives;
  }

  /** The same by leaving the queue: an agent with a slot, overdue, leaves, and the next agent gets
      the slot that the reaper is about to suspend. */
  lemma LeaveOvertaken(a: Email, b: Email)
    requires a != b
    ensures var s := MarkExpiring(EnqueueAgent(EMPTY, ONE_AGENT, a, 0.0), ONE_AGENT, 101.0);
            var t := EnqueueAgent(Leave(s, 1), ONE_AGENT, b, 103.0);
            && !Admissible(s, StepLeave(1))
            && a in t.expiring && t.expiring[a] in t.slots && t.slots[t.expiring[a]] == b
  {
    AgentOverdue(a);
    var s := MarkExpiring(EnqueueAgent(EMPTY, ONE_AGENT, a, 0.0), ONE_AGENT, 101.0);
    LeaveShape(s, 1);
    AgentGetsSlot(Leave(s, 1), b);
  }

  lemma AgentOverdue(a: Email)
    ensures var s := MarkExpiring(EnqueueAgent(EMPTY, ONE_AGENT, a, 0.0), ONE_AGENT, 101.0);
            && s.users == map[a := 1] && s.slots == map[1 := a] && s.expiring == map[a := 1]
            && s.queue == [1] && Get(s, 1).email == a && Get(s, 1).slot == None
  {
    assert FirstFree(EMPTY, 1, 1, false) == Some(1);
    EnqueueAgentGranted(EMPTY, ONE_AGENT, a, 0.0);
    var s0 := EnqueueAgent(EMPTY, ONE_AGENT, a, 0.0);
    assert s0.sessions == map[a := Session(1, 0.0, Agent)];
    assert a in Overdue(s0, ONE_AGENT, 101.0);
  }

  lemma AgentGetsSlot(u: State, b: Email)
    requires u.slots == map[]
    ensures var t := EnqueueAgent(u, ONE_AGENT, b, 103.0);
            t.slots == map[1 := b] && t.expiring == u.expiring
  {
    assert FirstFree(u, 1, 1, false) == Some(1);
    EnqueueAgentGranted(u, ONE_AGENT, b, 103.0);
  }

  // ---- an assignment between probe and sweep -------------------------------

  /** The sweep finds slot 1 free; a user enters; the sweep then assigns the slot to the owner it
      was told, or, when the slot does not wake, removes the row of the user who is on it. */
  lemma HintOvertakes(a: Email, b: Email)
    requires a != b
    ensures var s := Enter(EMPTY, ONE_SLOT, a, 0.0, true);
            && 1 !in EMPTY.slots && 1 !in EMPTY.holds
            && HintCommit(s, 1, b, 1.0, true).users == map[a := 1, b := 1]
            && HintCommit(s, 1, b, 1.0, false).users == map[a := 1] && HintCommit(s, 1, b, 1.0, false).slots == map[]
  {
    var s := Enter(EMPTY, ONE_SLOT, a, 0.0, true);
    assert s.users == map[a := 1] && s.slots == map[1 := a] && s.holds == map[];
    assert MayHint(s, b);
    HintCommitShape(s, 1, b, 1.0, true);
    HintCommitShape(s, 1, b, 1.0, false);
    assert s.users[b := 1] - {b} == map[a := 1];
  }

  // ---- a take overtaken ----------------------------------------------------

  function OfferedAt3(a: Email): State
  {
    Commit(Collect(EnqueueHuman(EMPTY, ONE_SLOT, a, 1.0), ONE_SLOT, 3.0), ONE_SLOT, true)
  }

  lemma OfferedAt3Shape(a: Email)
    ensures var s := OfferedAt3(a);
            && s.users == map[] && s.slots == map[] && s.holds == map[1 := a] && s.queue == [1] && s.archives == map[]
            && 1 in s.entries && Get(s, 1).email == a && Get(s, 1).status == Offered && Get(s, 1).slot == Some(1)
            && Get(s, 1).offerExpiresAt == Some(63.0)
  {
    var s1 := EnqueueHuman(EMPTY, ONE_SLOT, a, 1.0);
    assert s1.queue == [1] && Get(s1, 1).email == a && WaitsIn(s1, 1, Human);
    assert Head(s1, s1.queue, Human) == Some(1) && FirstSuch(s1.queue, OfferedIn(s1, Human)).None?;
    assert Candidates(s1, ONE_SLOT, 0) == [];
    assert Candidates(s1, ONE_SLOT, 1) == [Candidate(1, 1, Get(s1, 1).enqueuedAt, true)];
    var s2 := Collect(s1, ONE_SLOT, 3.0);
    assert FirstSuch(s2.queue, OfferedIn(s2, Human)).None?;
    CommitOffered(s2, ONE_SLOT);
  }

  /** A user without a bar gets the only slot when nothing is assigned, held or queued. */
  lemma EntersFree(u: State, b: Email, now: real)
    requires u.users == map[] && u.slots == map[] && u.holds == map[] && u.queue == [] && b !in u.archives
    ensures var v := Enter(u, ONE_SLOT, b, now, true);
            v.users == map[b := 1] && v.slots == map[1 := b] && v.entries == u.entries
  {
    assert FirstFree(u, 1, 1, true) == Some(1);
    assert Resolve(u, ONE_SLOT, b, now) == Resolved(Assign(u, b, 1, now, Human), Some(1), true);
  }

  lemma ReleasedFree(s: State, a: Email, b: Email)
    requires a != b && s.users == map[] && s.slots == map[] && s.holds == map[1 := a] && s.queue == [1]
    requires Get(s, 1).email == a && b !in s.archives
    ensures var u := Release(s, a, None, 11.0);
            && u.users == map[] && u.slots == map[] && u.holds == map[] && u.queue == [] && b !in u.archives
            && u.entries == s.entries
  {
    ReleaseShape(s, a, None, 11.0);
    assert Filter([1], WithoutEmail(Withdrawn(s, a), a)) == [];
    ReleaseArchives(s, a, None, 11.0, b);
  }

  lemma ReleaseArchives(s: State, a: Email, given: Option<Reason>, now: real, b: Email)
    requires a != b
    ensures b in Release(s, a, given, now).archives <==> b in s.archives
  {
  }

  /** A user opens a valid offer; while the slot is probed the user is released and somebody else
      enters on the slot. The grant then puts two users on it, or removes the other one's row. */
  lemma TakeOvertakes(a: Email, b: Email)
    requires a != b
    ensures var s := OfferedAt3(a);
            var v := Enter(Release(s, a, None, 11.0), ONE_SLOT, b, 12.0, true);
            && OfferValid(s, Get(s, 1), 10.0) && v.users == map[b := 1] && v.slots == map[1 := b]
            && TakeCommit(v, 1, 1, a, 10.0, true).users == map[b := 1, a := 1]
            && TakeCommit(v, 1, 1, a, 10.0, false).users == map[b := 1]
            && TakeCommit(v, 1, 1, a, 10.0, false).slots == map[]
  {
    var s := OfferedAt3(a);
    OfferedAt3Shape(a);
    ReleasedFree(s, a, b);
    EntersFree(Release(s, a, None, 11.0), b, 12.0);
    var v := Enter(Release(s, a, None, 11.0), ONE_SLOT, b, 12.0, true);
    GrantedOver(v, a, b);
  }

  lemma GrantedOver(v: State, a: Email, b: Email)
    requires a != b && v.users == map[b := 1] && v.slots == map[1 := b] && Get(v, 1).email == a
    ensures TakeCommit(v, 1, 1, a, 10.0, true).users == map[b := 1, a := 1]
    ensures TakeCommit(v, 1, 1, a, 10.0, false).users == map[b := 1]
    ensures TakeCommit(v, 1, 1, a, 10.0, false).slots == map[]
  {
    TakeCommitShape(v, 1, 1, 10.0, true);
    TakeCommitShape(v, 1, 1, 10.0, false);
    assert v.users[a := 1] - {a} == map[b := 1];
  }

  // ---- an offer out of order -----------------------------------------------

  function Enqueued2(a: Email, b: Email): State
  {
    EnqueueHuman(EnqueueHuman(EMPTY, TWO_SLOTS, a, 1.0), TWO_SLOTS, b, 2.0)
  }

  lemma Enqueued2Shape(a: Email, b: Email)
    requires a != b
    ensures var s := Enqueued2(a, b);
            && s.queue == [1, 2] && s.slots == map[] && s.holds == map[] && s.users == map[]
            && 1 in s.entries && 2 in s.entries
            && s.entries[1].status == Waiting && s.entries[2].status == Waiting
            && s.entries[1].email == a && s.entries[2].email == b
            && s.entries[1].enqueuedAt == 1.0 && s.entries[2].enqueuedAt == 2.0
            && s.entries[1].tier == Human && s.entries[2].tier == Human
            && s.entries[1].priority == 0 && s.entries[2].priority == 0
            && s.entries[1].offerExpiries == []
  {
    var s1 := EnqueueHuman(EMPTY, TWO_SLOTS, a, 1.0);
    assert s1.queue == [1] && 1 in s1.entries && s1.entries[1].email == a;
    assert Get(s1, 1).email == a;
    assert FirstSuch(s1.queue, HumanInPlayFor(s1, b)).None?;
  }

  /** Opening the browser after the offer ran out puts the entry back, with a new time. */
  lemma TakeTooLate(s: State, email: Email, r: Ref, k: int, now: real)
    requires FirstSuch(s.queue, HumanOf(s, email)) == Some(r) && IsOffered(s.entries, r)
    requires Get(s, r).offerExpiries == [] && Get(s, r).slot == Some(k)
    requires Get(s, r).offerExpiresAt.Some? && Get(s, r).offerExpiresAt.value <= now
    ensures var t := TakeOffer(s, TWO_SLOTS, email, now, true, true);
            && t.queue == s.queue && t.slots == s.slots && t.pending == s.pending && t.holds == s.holds - {k}
            && t.entries == s.entries[r := t.entries[r]]
            && Get(t, r).status == Waiting && Get(t, r).enqueuedAt == now
            && Get(t, r).tier == Get(s, r).tier && Get(t, r).priority == Get(s, r).priority
  {
    assert TakeOffer(s, TWO_SLOTS, email, now, true, true) == ExpireOffer(s, TWO_SLOTS, r, now);
    assert Recent([], now - TWO_SLOTS.window) + [Expiry(Some(k), now)] == [Expiry(Some(k), now)];
    assert CountOn([Expiry(Some(k), now)], Some(k)) == 1;
  }

  /** Both slots are collected for the first entry, and the first one is offered to it. */
  function OfferedOnce(a: Email, b: Email): State
  {
    Commit(Collect(Enqueued2(a, b), TWO_SLOTS, 3.0), TWO_SLOTS, true)
  }

  lemma OfferedOnceShape(a: Email, b: Email)
    requires a != b
    ensures var s := OfferedOnce(a, b);
            && s.queue == [1, 2] && s.pending == [Candidate(2, 1, 1.0, false)]
            && s.slots == map[] && s.holds == map[1 := a]
            && 1 in s.entries && 2 in s.entries && s.entries[1].offerExpiries == []
            && s.entries[1].status == Offered && s.entries[1].slot == Some(1)
            && s.entries[1].offerExpiresAt == Some(63.0) && s.entries[1].email == a
            && s.entries[1].tier == Human && s.entries[1].priority == 0
            && s.entries[2] == Enqueued2(a, b).entries[2]
  {
    var q := Enqueued2(a, b);
    Enqueued2Shape(a, b);
    CollectBoth(q);
    var s0 := Collect(q, TWO_SLOTS, 3.0);
    NobodyOffered(s0);
    CommitOffered(s0, TWO_SLOTS);
  }

  /** The reaper collects the head of the queue for both free slots. The first offer runs out
      before the second commit, which then offers the other slot to the same, re-timed, entry
      although an earlier one waits. */
  lemma RetimedOfferUnfair(a: Email, b: Email)
    requires a != b
    ensures var s := TakeOffer(OfferedOnce(a, b), TWO_SLOTS, a, 70.0, true, true);
            && Competes(Of(s), 2, 1) && Get(s, 2).enqueuedAt < Get(s, 1).enqueuedAt
            && Get(s, 1).status == Waiting && Get(Commit(s, TWO_SLOTS, true), 1).status == Offered
  {
    Enqueued2Shape(a, b);
    OfferedOnceShape(a, b);
    RetimedThenOffered(OfferedOnce(a, b), a);
  }

  lemma RetimedThenOffered(s0: State, a: Email)
    requires s0.queue == [1, 2] && s0.pending == [Candidate(2, 1, 1.0, false)]
    requires s0.slots == map[] && s0.holds == map[1 := a]
    requires Get(s0, 1).status == Offered && Get(s0, 1).slot == Some(1) && Get(s0, 1).offerExpiries == []
    requires Get(s0, 1).offerExpiresAt == Some(63.0) && Get(s0, 1).email == a && Get(s0, 1).tier == Human
    requires Get(s0, 2).status == Waiting && Get(s0, 2).tier == Human && Get(s0, 2).enqueuedAt < 70.0
    requires Get(s0, 2).priority == Get(s0, 1).priority
    ensures var s := TakeOffer(s0, TWO_SLOTS, a, 70.0, true, true);
            && Competes(Of(s), 2, 1) && Get(s, 2).enqueuedAt < Get(s, 1).enqueuedAt
            && Get(s, 1).status == Waiting && Get(Commit(s, TWO_SLOTS, true), 1).status == Offered
  {
    assert HumanOf(s0, a)(1) && FirstSuch(s0.queue, HumanOf(s0, a)) == Some(1);
    TakeTooLate(s0, a, 1, 1, 70.0);
    var s := TakeOffer(s0, TWO_SLOTS, a, 70.0, true, true);
    NobodyOffered(s);
    CommitOffered(s, TWO_SLOTS);
  }

  lemma NobodyOffered(s: State)
    requires s.queue == [1, 2] && !IsOffered(s.entries, 1) && !IsOffered(s.entries, 2)
    ensures NoneOffered(s)
  {
    assert !OfferedIn(s, Human)(1) && !OfferedIn(s, Human)(2);
  }

  predicate NoneOffered(s: State)
  {
    FirstSuch(s.queue, OfferedIn(s, Human)).None?
  }

  lemma CollectBoth(q: State)
    requires q.queue == [1, 2] && q.slots == map[] && q.holds == map[] && 1 in q.entries && 2 in q.entries
    requires WaitsIn(q, 1, Human) && WaitsIn(q, 2, Human) && q.entries[1].priority == q.entries[2].priority
    requires q.entries[1].enqueuedAt == 1.0 && q.entries[2].enqueuedAt == 2.0
    ensures Candidates(q, TWO_SLOTS, 2) == [Candidate(1, 1, 1.0, true), Candidate(2, 1, 1.0, false)]
  {
    assert q.queue[1..] == [2];
    assert Head(q, q.queue, Human) == Some(1);
    assert FirstSuch(q.queue, OfferedIn(q, Human)).None?;
    assert Candidates(q, TWO_SLOTS, 0) == [];
    assert Candidates(q, TWO_SLOTS, 1) == [Candidate(1, 1, 1.0, true)];
    assert TierOf(TWO_SLOTS, Candidates(q, TWO_SLOTS, 1)[0].slot) == TierOf(TWO_SLOTS, 2);
    assert !FirstOf(Candidates(q, TWO_SLOTS, 1), TWO_SLOTS, 2);
  }
}
