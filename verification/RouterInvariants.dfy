/** What every step of the router keeps: who occupies a slot, who holds one, who is offered one. */
module RouterInvariants {
  import opened Wrappers
  import opened Fleet
  import opened RouterModel

  // ---- occupancy -----------------------------------------------------------

  type Users = map<Email, int>
  type Rows = map<int, Email>
  type Sessions = map<Email, Session>

  /** An assigned user owns the row of the slot and a session on it. */
  ghost predicate Assigned(users: Users, slots: Rows, sessions: Sessions)
  {
    forall e :: e in users ==>
      && users[e] in slots && slots[users[e]] == e
      && e in sessions && sessions[e].slot == users[e]
  }

  ghost predicate SessionsOwned(users: Users, sessions: Sessions)
  {
    forall e :: e in sessions ==> e in users
  }

  /** The row of a slot that is about to be suspended belongs to the user being expired. */
  ghost predicate ExpiryOwned(slots: Rows, expiring: Users)
  {
    forall e :: e in expiring ==> expiring[e] in slots && slots[expiring[e]] == e
  }

  ghost predicate Tables(users: Users, slots: Rows, sessions: Sessions, expiring: Users)
  {
    Assigned(users, slots, sessions) && SessionsOwned(users, sessions) && ExpiryOwned(slots, expiring)
  }

  /** No held human slot has a row. */
  ghost predicate HeldFree(holds: Rows, slots: Rows, humanSlots: nat)
  {
    forall k :: k in holds && 1 <= k <= humanSlots ==> k !in slots
  }

  // ---- offers --------------------------------------------------------------

  ghost predicate NoRepeats(q: seq<Ref>)
  {
    forall i, j :: 0 <= i < j < |q| ==> q[i] != q[j]
  }

  predicate IsOffered(entries: Entries, r: Ref)
  {
    At(entries, r).status == Offered
  }

  ghost predicate QueueSound(q: seq<Ref>, entries: Entries, last: nat)
  {
    && NoRepeats(q)
    && (forall r :: r in entries ==> r <= last)
    && (forall r :: r in q ==> r in entries)
    && (forall r :: r in q && At(entries, r).slot.Some? ==> IsOffered(entries, r))
  }

  ghost predicate SlotFits(entries: Entries, c: Config, r: Ref)
  {
    && At(entries, r).slot.Some? && InPool(c, At(entries, r).slot.value)
    && TierOf(c, At(entries, r).slot.value) == At(entries, r).tier
  }

  /** The offered slot belongs to the entry's tier; only offered entries carry one. */
  ghost predicate OffersFit(q: seq<Ref>, entries: Entries, c: Config)
  {
    forall r :: r in q && IsOffered(entries, r) ==> SlotFits(entries, c, r)
  }

  ghost predicate HeldFor(entries: Entries, holds: Rows, r: Ref)
  {
    var e := At(entries, r);
    e.slot.Some? && e.slot.value in holds && holds[e.slot.value] == e.email
  }

  /** The slot of an offered entry is held for its email. */
  ghost predicate OffersHeld(q: seq<Ref>, entries: Entries, holds: Rows)
  {
    forall r :: r in q && IsOffered(entries, r) ==> HeldFor(entries, holds, r)
  }

  ghost predicate OneOfferPerTier(q: seq<Ref>, entries: Entries)
  {
    forall a, b | a in q && b in q && IsOffered(entries, a) && IsOffered(entries, b)
      :: At(entries, a).tier == At(entries, b).tier ==> a == b
  }

  ghost predicate PendingFits(pending: seq<Candidate>, entries: Entries, c: Config)
  {
    forall i :: 0 <= i < |pending| ==>
      && InPool(c, pending[i].slot) && pending[i].ref in entries
      && TierOf(c, pending[i].slot) == At(entries, pending[i].ref).tier
  }

  /** The part that does not depend on the holds. */
  ghost predicate Listed(q: seq<Ref>, entries: Entries, last: nat, pending: seq<Candidate>, c: Config)
  {
    && QueueSound(q, entries, last) && OffersFit(q, entries, c)
    && OneOfferPerTier(q, entries) && PendingFits(pending, entries, c)
  }

  ghost predicate Offers(s: State, c: Config)
  {
    && HeldFree(s.holds, s.slots, c.humanSlots)
    && Listed(s.queue, s.entries, s.last, s.pending, c)
    && OffersHeld(s.queue, s.entries, s.holds)
  }

  ghost predicate Occupancy(s: State)
  {
    Tables(s.users, s.slots, s.sessions, s.expiring)
  }

  // ---- filtering -----------------------------------------------------------

  lemma {:induction false} FilterMember(q: seq<Ref>, p: Ref -> bool, r: Ref)
    ensures r in Filter(q, p) <==> r in q && p(r)
  {
    if |q| > 0 {
      FilterMember(q[1..], p, r);
      assert r in q <==> r == q[0] || r in q[1..];
    }
  }

  lemma {:induction false} FilterNoRepeats(q: seq<Ref>, p: Ref -> bool)
    requires NoRepeats(q)
    ensures NoRepeats(Filter(q, p))
  {
    if |q| > 0 {
      FilterNoRepeats(q[1..], p);
      var f := Filter(q[1..], p);
      forall i | 0 <= i < |f|
        ensures f[i] != q[0]
      {
        FilterMember(q[1..], p, f[i]);
      }
    }
  }

  /** Dropping entries from the queue keeps what is said about the ones that stay. */
  lemma FilterListed(q: seq<Ref>, p: Ref -> bool, entries: Entries, last: nat, pending: seq<Candidate>, c: Config)
    requires Listed(q, entries, last, pending, c)
    ensures Listed(Filter(q, p), entries, last, pending, c)
    ensures forall r :: r in Filter(q, p) ==> r in q && p(r)
  {
    forall r
      ensures r in Filter(q, p) ==> r in q && p(r)
    {
      FilterMember(q, p, r);
    }
    FilterNoRepeats(q, p);
  }

  // ---- the tables ----------------------------------------------------------

  lemma AssignTables(users: Users, slots: Rows, sessions: Sessions, expiring: Users, email: Email, k: int, x: Session)
    requires Tables(users, slots, sessions, expiring) && k !in slots && x.slot == k
    ensures Tables(users[email := k], slots[k := email], sessions[email := x], expiring)
    ensures Tables(users[email := k] - {email}, slots[k := email] - {k}, sessions[email := x] - {email}, expiring)
  {
  }

  /** Taking an assignment back keeps the tables exactly when no pending expiry of the same user
      needs the row. */
  lemma UnassignTables(users: Users, slots: Rows, sessions: Sessions, expiring: Users, email: Email)
    requires Tables(users, slots, sessions, expiring) && email in users
    ensures Tables(users - {email}, slots - {users[email]}, sessions - {email}, expiring)
       <==> !(email in expiring && expiring[email] == users[email])
  {
    var rows := slots - {users[email]};
    if email in expiring && expiring[email] == users[email] {
      assert expiring[email] !in rows;
    }
  }

  lemma ForgetTables(users: Users, slots: Rows, sessions: Sessions, expiring: Users, email: Email, k: int)
    requires Tables(users, slots, sessions, expiring) && k in slots && slots[k] == email
    ensures Tables(users - {email}, slots - {k}, sessions - {email}, expiring - {email})
  {
  }

  // ---- single offers -------------------------------------------------------

  /** An entry that stops being offered. */
  lemma SettleListed(q: seq<Ref>, entries: Entries, last: nat, pending: seq<Candidate>, c: Config, r: Ref, e: Entry)
    requires Listed(q, entries, last, pending, c) && r in entries
    requires e.status != Offered && e.slot == None && e.tier == At(entries, r).tier
    ensures Listed(q, entries[r := e], last, pending, c)
  {
    var t := entries[r := e];
    assert forall x :: x in q && IsOffered(t, x) ==> x != r && At(t, x) == At(entries, x);
    assert forall x :: x in q && At(t, x).slot.Some? ==> x != r && At(t, x) == At(entries, x);
    assert forall x :: x in q && IsOffered(t, x) ==> SlotFits(entries, c, x) && SlotFits(t, c, x);
  }

  /** Two offered entries of the queue have different slots. */
  lemma SlotsDiffer(q: seq<Ref>, entries: Entries, c: Config, a: Ref, b: Ref)
    requires OffersFit(q, entries, c) && OneOfferPerTier(q, entries)
    requires a in q && b in q && a != b && IsOffered(entries, a) && IsOffered(entries, b)
    ensures At(entries, a).slot.Some? && At(entries, b).slot.Some?
    ensures At(entries, a).slot.value != At(entries, b).slot.value
  {
    assert SlotFits(entries, c, a) && SlotFits(entries, c, b);
  }

  /** Settling an offered entry and dropping its hold leaves the other offers held. */
  lemma SettleHeld(q: seq<Ref>, entries: Entries, holds: Rows, c: Config, r: Ref, e: Entry)
    requires OffersHeld(q, entries, holds) && OffersFit(q, entries, c) && OneOfferPerTier(q, entries)
    requires r in q && IsOffered(entries, r) && e.status != Offered
    ensures At(entries, r).slot.Some? && OffersHeld(q, entries[r := e], holds - {At(entries, r).slot.value})
  {
    var t := entries[r := e];
    assert SlotFits(entries, c, r);
    forall x | x in q && IsOffered(t, x)
      ensures HeldFor(t, holds - {At(entries, r).slot.value}, x)
    {
      assert x != r && At(t, x) == At(entries, x) && HeldFor(entries, holds, x);
      SlotsDiffer(q, entries, c, x, r);
    }
  }

  /** An entry that was not offered and is not offered afterwards. */
  lemma ChangeHeld(q: seq<Ref>, entries: Entries, holds: Rows, r: Ref, e: Entry)
    requires OffersHeld(q, entries, holds) && e.status != Offered
    ensures OffersHeld(q, entries[r := e], holds)
  {
    var t := entries[r := e];
    forall x | x in q && IsOffered(t, x)
      ensures HeldFor(t, holds, x)
    {
      assert x != r && At(t, x) == At(entries, x) && HeldFor(entries, holds, x);
    }
  }

  lemma ExpireShape(c: Config, e: Entry, now: real)
    ensures var f := Expire(c, e, now);
            f.status in {Waiting, BackedOff} && f.slot == None && f.tier == e.tier && f.email == e.email
  {
  }

  ghost predicate SameTables(s: State, t: State)
  {
    && t.users == s.users && t.slots == s.slots && t.sessions == s.sessions
    && t.expiring == s.expiring && t.queue == s.queue && t.pending == s.pending && t.tick == s.tick && t.last == s.last
  }

  lemma ExpireOfferKeeps(s: State, c: Config, r: Ref, now: real)
    requires Offers(s, c) && r in s.queue && IsOffered(s.entries, r)
    ensures Offers(ExpireOffer(s, c, r, now), c) && SameTables(s, ExpireOffer(s, c, r, now))
  {
    var f := Expire(c, Get(s, r), now);
    ExpireShape(c, Get(s, r), now);
    SettleListed(s.queue, s.entries, s.last, s.pending, c, r, f);
    SettleHeld(s.queue, s.entries, s.holds, c, r, f);
  }

  lemma {:induction false} ExpireLapsedKeeps(s: State, c: Config, refs: seq<Ref>, now: real)
    requires Offers(s, c) && forall r :: r in refs ==> r in s.queue
    ensures Offers(ExpireLapsed(s, c, refs, now), c) && SameTables(s, ExpireLapsed(s, c, refs, now))
    decreases |refs|
  {
    if |refs| > 0 {
      assert refs[0] in s.queue;
      var t := s;
      if Lapsed(s, refs[0], now) {
        ExpireOfferKeeps(s, c, refs[0], now);
        t := ExpireOffer(s, c, refs[0], now);
      }
      ExpireLapsedKeeps(t, c, refs[1..], now);
    }
  }

  lemma PurgeKeeps(s: State, c: Config, now: real)
    requires Offers(s, c)
    ensures Offers(Purge(s, now), c)
  {
    FilterListed(s.queue, (x: Ref) => !CooledDown(s, x, now), s.entries, s.last, s.pending, c);
  }

  lemma GraceSweepKeeps(s: State, c: Config, now: real)
    requires Offers(s, c)
    ensures Offers(GraceSweep(s, c, now), c) && (Occupancy(s) ==> Occupancy(GraceSweep(s, c, now)))
  {
    ExpireLapsedKeeps(s, c, s.queue, now);
    PurgeKeeps(ExpireLapsed(s, c, s.queue, now), c, now);
  }

  // ---- restart -------------------------------------------------------------

  /** During a restart only the offers outside refs are held already; an offered human slot has
      no row, and nothing is held but offered slots. */
  ghost predicate Restoring(s: State, c: Config, refs: seq<Ref>)
  {
    && HeldFree(s.holds, s.slots, c.humanSlots)
    && Listed(s.queue, s.entries, s.last, s.pending, c)
    && NoRepeats(refs)
    && (forall r :: r in refs ==> r in s.queue)
    && (forall r :: r in s.queue && IsOffered(s.entries, r) && r !in refs ==> HeldFor(s.entries, s.holds, r))
    && (forall r :: r in refs && IsOffered(s.entries, r) ==> RowFree(s, c, r))
  }

  ghost predicate RowFree(s: State, c: Config, r: Ref)
  {
    var e := Get(s, r);
    e.slot.Some? && e.slot.value <= c.humanSlots ==> e.slot.value !in s.slots
  }

  function RestoreOne(s: State, c: Config, r: Ref, now: real): State
  {
    var e := Get(s, r);
    if e.status != Offered || e.slot.None? then s
    else if e.offerExpiresAt.Some? && e.offerExpiresAt.value > now then s.(holds := s.holds[e.slot.value := e.email])
    else ExpireOffer(s, c, r, now)
  }

  lemma RestoreOneKeeps(s: State, c: Config, refs: seq<Ref>, now: real)
    requires |refs| > 0 && Restoring(s, c, refs)
    ensures Restoring(RestoreOne(s, c, refs[0], now), c, refs[1..]) && SameTables(s, RestoreOne(s, c, refs[0], now))
  {
    var r := refs[0];
    var e := Get(s, r);
    assert r in s.queue;
    if e.status != Offered {
      RestoreSkipped(s, c, refs);
    } else {
      assert SlotFits(s.entries, c, r);
      if e.offerExpiresAt.Some? && e.offerExpiresAt.value > now {
        RestoreHeld(s, c, refs);
      } else {
        RestoreExpired(s, c, refs, now);
      }
    }
  }

  lemma RestoreSkipped(s: State, c: Config, refs: seq<Ref>)
    requires |refs| > 0 && Restoring(s, c, refs) && !IsOffered(s.entries, refs[0])
    ensures Restoring(s, c, refs[1..])
  {
    assert forall x :: x in refs <==> x == refs[0] || x in refs[1..];
  }

  /** An offer that lasts is held again. */
  lemma RestoreHeld(s: State, c: Config, refs: seq<Ref>)
    requires |refs| > 0 && Restoring(s, c, refs) && IsOffered(s.entries, refs[0]) && Get(s, refs[0]).slot.Some?
    ensures Restoring(s.(holds := s.holds[Get(s, refs[0]).slot.value := Get(s, refs[0]).email]), c, refs[1..])
  {
    var r, rest := refs[0], refs[1..];
    var t := s.(holds := s.holds[Get(s, r).slot.value := Get(s, r).email]);
    assert r in s.queue && SlotFits(s.entries, c, r) && RowFree(s, c, r);
    assert forall x :: x in refs <==> x == r || x in rest;
    forall x | x in t.queue && IsOffered(t.entries, x) && x !in rest
      ensures HeldFor(t.entries, t.holds, x)
    {
      if x != r {
        SlotsDiffer(s.queue, s.entries, c, x, r);
        assert HeldFor(s.entries, s.holds, x);
      }
    }
    forall x | x in rest && IsOffered(t.entries, x)
      ensures RowFree(t, c, x)
    {
      assert RowFree(s, c, x);
    }
  }

  lemma RestoreExpired(s: State, c: Config, refs: seq<Ref>, now: real)
    requires |refs| > 0 && Restoring(s, c, refs) && IsOffered(s.entries, refs[0])
    ensures Restoring(ExpireOffer(s, c, refs[0], now), c, refs[1..]) && SameTables(s, ExpireOffer(s, c, refs[0], now))
  {
    var r, rest := refs[0], refs[1..];
    var f, t := Expire(c, Get(s, r), now), ExpireOffer(s, c, r, now);
    assert r in s.queue && r !in rest && SlotFits(s.entries, c, r);
    ExpireShape(c, Get(s, r), now);
    SettleListed(s.queue, s.entries, s.last, s.pending, c, r, f);
    forall x | x in t.queue && IsOffered(t.entries, x)
      ensures x != r && At(t.entries, x) == At(s.entries, x) && IsOffered(s.entries, x)
      ensures x !in rest ==> HeldFor(t.entries, t.holds, x)
    {
      assert x != r;
      SlotsDiffer(s.queue, s.entries, c, x, r);
      assert x !in rest ==> HeldFor(s.entries, s.holds, x);
    }
    forall x | x in rest && IsOffered(t.entries, x)
      ensures RowFree(t, c, x)
    {
      assert x in refs && x in s.queue && RowFree(s, c, x);
    }
  }

  lemma {:induction false} RestoreOffersKeeps(s: State, c: Config, refs: seq<Ref>, now: real)
    requires Restoring(s, c, refs)
    ensures Offers(RestoreOffers(s, c, refs, now), c) && SameTables(s, RestoreOffers(s, c, refs, now))
    decreases |refs|
  {
    if |refs| > 0 {
      RestoreOneKeeps(s, c, refs, now);
      RestoreOffersKeeps(RestoreOne(s, c, refs[0], now), c, refs[1..], now);
    }
  }

  lemma PurgePoolsTables(s: State, c: Config, now: real)
    requires Occupancy(s) && s.expiring == map[]
    ensures Occupancy(PurgePools(s, c, now))
  {
    var t := PurgePools(s, c, now);
    forall e | e in t.users
      ensures t.users[e] in t.slots
    {
      assert e in s.users && InPool(c, s.users[e]);
    }
  }

  lemma RestartKeeps(s: State, c: Config, now: real)
    requires Offers(s, c)
    ensures Offers(Restart(s, c, now), c) && (Occupancy(s) ==> Occupancy(Restart(s, c, now)))
    ensures Restart(s, c, now).pending == []
  {
    var s0 := Reset(s);
    var s1 := PurgePools(s0, c, now);
    var p := StillQueued(s1);
    var s2 := Unstale(s1);
    assert Listed(s.queue, s.entries, s.last, [], c);
    FilterListed(s.queue, p, s.entries, s.last, [], c);
    forall r | r in s2.queue && IsOffered(s2.entries, r)
      ensures RowFree(s2, c, r)
    {
      assert HeldFor(s.entries, s.holds, r) && SlotFits(s.entries, c, r);
    }
    RestoreOffersKeeps(s2, c, s2.queue, now);
    PurgeKeeps(RestoreOffers(s2, c, s2.queue, now), c, now);
    if Occupancy(s) {
      PurgePoolsTables(s0, c, now);
    }
  }

  // ---- the other steps: offers ---------------------------------------------

  /** The parts of the state that no assignment touches. */
  ghost predicate SameQueue(s: State, t: State)
  {
    t.queue == s.queue && t.entries == s.entries && t.last == s.last && t.pending == s.pending && t.holds == s.holds
  }

  /** A fresh assignment is of a human slot without a row and without a hold. */
  lemma ResolveShape(s: State, c: Config, email: Email, now: real)
    requires Resolve(s, c, email, now).woke
    ensures var r := Resolve(s, c, email, now);
            && r.slot.Some? && r.slot.value !in s.slots && r.slot.value !in s.holds
            && 1 <= r.slot.value <= c.humanSlots
            && SameButArchives(r.state, Assign(s, email, r.slot.value, now, Human))
  {
  }

  ghost predicate SameButArchives(s: State, t: State)
  {
    s.(archives := map[]) == t.(archives := map[])
  }

  lemma RowsOffers(s: State, t: State, c: Config)
    requires Offers(s, c) && SameQueue(s, t) && HeldFree(t.holds, t.slots, c.humanSlots)
    ensures Offers(t, c)
  {
  }

  lemma EnterOffers(s: State, c: Config, email: Email, now: real, ready: bool)
    requires Offers(s, c)
    ensures Offers(Enter(s, c, email, now, ready), c)
  {
    if Resolve(s, c, email, now).woke {
      ResolveShape(s, c, email, now);
      RowsOffers(s, Enter(s, c, email, now, ready), c);
    }
  }

  lemma UnreadyOffers(s: State, c: Config, email: Email, now: real)
    requires Offers(s, c)
    ensures Offers(Unready(s, email, now), c)
  {
    RowsOffers(s, Unready(s, email, now), c);
  }

  lemma AppendOffers(s: State, c: Config, tier: Tier, email: Email, priority: int, now: real, status: Status)
    requires Offers(s, c) && status != Offered
    ensures Offers(Append(s, tier, email, priority, now, status), c)
  {
    var t := Append(s, tier, email, priority, now, status);
    AppendListed(s.queue, s.entries, s.last, s.pending, c, t.entries[t.last]);
    forall x | x in t.queue && IsOffered(t.entries, x)
      ensures HeldFor(t.entries, t.holds, x)
    {
      assert x != t.last && x in s.queue && At(t.entries, x) == At(s.entries, x);
      assert HeldFor(s.entries, s.holds, x);
    }
  }

  lemma AppendListed(q: seq<Ref>, entries: Entries, last: nat, pending: seq<Candidate>, c: Config, e: Entry)
    requires Listed(q, entries, last, pending, c) && e.status != Offered && e.slot == None
    ensures Listed(q + [last + 1], entries[last + 1 := e], last + 1, pending, c)
  {
    var q', t := q + [last + 1], entries[last + 1 := e];
    assert last + 1 !in entries;
    forall x | x in q'
      ensures x == last + 1 || (x in q && x in entries && At(t, x) == At(entries, x))
    {
    }
    assert forall x :: x in q' && IsOffered(t, x) ==> x in q && SlotFits(entries, c, x) && SlotFits(t, c, x);
    assert NoRepeats(q');
  }

  function AgentSlot(s: State, c: Config): Option<int>
  {
    FirstFree(s, c.humanSlots + 1, c.humanSlots + c.agentSlots, false)
  }

  lemma EnqueueAgentGranted(s: State, c: Config, email: Email, now: real)
    requires AgentSlot(s, c).Some?
    ensures EnqueueAgent(s, c, email, now)
         == Append(Assign(s, email, AgentSlot(s, c).value, now, Agent), Agent, email, 0, now, Active)
  {
  }

  lemma EnqueueAgentOffers(s: State, c: Config, email: Email, now: real)
    requires Offers(s, c)
    ensures Offers(EnqueueAgent(s, c, email, now), c)
  {
    if AgentSlot(s, c).Some? {
      var t := Assign(s, email, AgentSlot(s, c).value, now, Agent);
      RowsOffers(s, t, c);
      AppendOffers(t, c, Agent, email, 0, now, Active);
      EnqueueAgentGranted(s, c, email, now);
    } else {
      AppendOffers(s, c, Agent, email, 0, now, Waiting);
    }
  }

  function Departed(s: State, r: Ref): State
  {
    var e := Get(s, r);
    SetEntry(DropHold(s, e.slot), r, e.(status := Left, slot := None, offerExpiresAt := None))
  }

  lemma DepartedOffers(s: State, c: Config, r: Ref)
    requires Offers(s, c) && r in s.queue
    ensures Offers(Departed(s, r), c)
  {
    var f := Get(s, r).(status := Left, slot := None, offerExpiresAt := None);
    DepartedIs(s, r, f);
    SettleListed(s.queue, s.entries, s.last, s.pending, c, r, f);
    DepartedHeld(s, c, r, f);
  }

  lemma DepartedIs(s: State, r: Ref, f: Entry)
    requires f == Get(s, r).(status := Left, slot := None, offerExpiresAt := None)
    ensures var h := DropHold(s, Get(s, r).slot).holds;
            Departed(s, r) == s.(entries := s.entries[r := f], holds := h) && h.Keys <= s.holds.Keys
  {
  }

  /** Only an offered entry has a slot to give back. */
  lemma DepartedHeld(s: State, c: Config, r: Ref, f: Entry)
    requires Offers(s, c) && r in s.queue && f.status != Offered
    ensures OffersHeld(s.queue, s.entries[r := f], DropHold(s, Get(s, r).slot).holds)
  {
    if IsOffered(s.entries, r) {
      SettleHeld(s.queue, s.entries, s.holds, c, r, f);
    } else {
      ChangeHeld(s.queue, s.entries, s.holds, r, f);
    }
  }

  lemma LeaveShape(s: State, r: Ref)
    requires r in s.queue
    ensures Leave(s, r) == Withdrawn(Departed(s, r), Get(s, r).email)
  {
  }

  lemma LeaveOffers(s: State, c: Config, r: Ref)
    requires Offers(s, c)
    ensures Offers(Leave(s, r), c)
  {
    if r in s.queue {
      LeaveShape(s, r);
      DepartedOffers(s, c, r);
      RowsOffers(Departed(s, r), Leave(s, r), c);
    }
  }

  lemma AgentTimeoutOffers(s: State, c: Config, r: Ref, now: real)
    requires Offers(s, c)
    ensures Offers(AgentTimeout(s, c, r, now), c)
  {
    FilterListed(s.queue, (x: Ref) => x != r, s.entries, s.last, s.pending, c);
  }

  lemma WithoutOffers(q: seq<Ref>, entries: Entries, holds: Rows, p: Ref -> bool, user: Email)
    requires OffersHeld(q, entries, holds)
    requires forall r :: p(r) ==> At(entries, r).email != user
    ensures OffersHeld(Filter(q, p), entries, HoldsWithout(holds, user))
  {
    forall r | r in Filter(q, p) && IsOffered(entries, r)
      ensures HeldFor(entries, HoldsWithout(holds, user), r)
    {
      FilterMember(q, p, r);
      assert HeldFor(entries, holds, r);
    }
  }

  lemma ReleaseShape(s: State, user: Email, given: Option<Reason>, now: real)
    ensures var u := Release(s, user, given, now);
            && u.queue == Filter(s.queue, WithoutEmail(Withdrawn(s, user), user))
            && u.entries == s.entries && u.last == s.last && u.pending == s.pending && u.tick == s.tick
            && u.holds == HoldsWithout(s.holds, user) && u.slots.Keys <= s.slots.Keys
            && u.expiring == s.expiring - {user} && u.log == s.log
            && u.users == Withdrawn(s, user).users && u.slots == Withdrawn(s, user).slots
            && u.sessions == Withdrawn(s, user).sessions
  {
    DisconnectedShape(s, user);
    var t := Forget(Disconnected(s, user), user);
    var u := Release(s, user, given, now);
    assert u == t || u == Rearchive(t, user, now, ReleaseReason(s, user, given));
  }

  lemma DisconnectedShape(s: State, user: Email)
    ensures var t, w := Disconnected(s, user), Withdrawn(s, user);
            && t.queue == Filter(s.queue, WithoutEmail(w, user)) && t.entries == s.entries && t.last == s.last
            && t.pending == s.pending && t.tick == s.tick && t.holds == HoldsWithout(s.holds, user)
            && t.slots.Keys <= s.slots.Keys
            && t.expiring == s.expiring && t.log == s.log
            && t.users == w.users && t.slots == w.slots && t.sessions == w.sessions
  {
  }

  lemma ReleaseOffers(s: State, c: Config, user: Email, given: Option<Reason>, now: real)
    requires Offers(s, c)
    ensures Offers(Release(s, user, given, now), c)
  {
    ReleaseShape(s, user, given, now);
    var p := WithoutEmail(Withdrawn(s, user), user);
    FilterListed(s.queue, p, s.entries, s.last, s.pending, c);
    WithoutOffers(s.queue, s.entries, s.holds, p, user);
  }

  lemma ForceReleaseOffers(s: State, c: Config, email: Email, now: real)
    requires Offers(s, c)
    ensures Offers(ForceRelease(s, c, email, now), c)
  {
    if email in s.expiring {
      var t := Unassign(s, email, s.expiring[email]);
      FilterListed(s.queue, WithoutEmail(t, email), s.entries, s.last, s.pending, c);
    }
  }

  /** The slot of a human offer has no row when the offer is taken. */
  lemma OfferedFree(s: State, c: Config, r: Ref)
    requires Offers(s, c) && r in s.queue && IsOffered(s.entries, r) && Get(s, r).tier == Human
    ensures Get(s, r).slot.Some? && Get(s, r).slot.value in s.holds && Get(s, r).slot.value !in s.slots
  {
    assert SlotFits(s.entries, c, r) && HeldFor(s.entries, s.holds, r);
  }

  /** No other queued entry is offered the slot. */
  ghost predicate NoOtherOffer(q: seq<Ref>, entries: Entries, r: Ref, k: int)
  {
    forall x :: x in q && x != r && IsOffered(entries, x) ==> At(entries, x).slot != Some(k)
  }

  lemma TakeCommitShape(s: State, r: Ref, k: int, now: real, woke: bool)
    ensures var e := Get(s, r);
            var t := TakeCommit(s, r, k, e.email, now, woke);
            var f := e.(status := Active, offerExpiresAt := None, slot := None, offerExpiries := [],
                        backedOffUntil := None);
            && t.queue == s.queue && t.last == s.last && t.pending == s.pending && t.tick == s.tick
            && t.expiring == s.expiring && t.holds == s.holds - {k} && t.entries == s.entries[r := f]
            && t.users == (if woke then s.users[e.email := k] else s.users[e.email := k] - {e.email})
            && t.slots == (if woke then s.slots[k := e.email] else s.slots[k := e.email] - {k})
            && t.sessions == (if woke then s.sessions[e.email := Session(k, now, Human)]
                              else s.sessions[e.email := Session(k, now, Human)] - {e.email})
  {
  }

  /** Whatever happened to its entry, a take keeps the offers sound exactly when nobody else is
      offered the slot by now. */
  lemma TakeCommitOffers(s: State, c: Config, r: Ref, k: int, now: real, woke: bool)
    requires Offers(s, c) && r in s.entries
    ensures Offers(TakeCommit(s, r, k, Get(s, r).email, now, woke), c) <==> NoOtherOffer(s.queue, s.entries, r, k)
  {
    var t := TakeCommit(s, r, k, Get(s, r).email, now, woke);
    TakeCommitShape(s, r, k, now, woke);
    SettleListed(s.queue, s.entries, s.last, s.pending, c, r, t.entries[r]);
    DroppedHeld(s.queue, s.entries, s.holds, r, t.entries[r], k);
  }

  lemma DroppedHeld(q: seq<Ref>, entries: Entries, holds: Rows, r: Ref, e: Entry, k: int)
    requires OffersHeld(q, entries, holds) && e.status != Offered
    ensures OffersHeld(q, entries[r := e], holds - {k}) <==> NoOtherOffer(q, entries, r, k)
  {
    var t := entries[r := e];
    forall x | x in q && x != r && IsOffered(entries, x)
      ensures HeldFor(t, holds - {k}, x) <==> At(entries, x).slot != Some(k)
      ensures IsOffered(t, x)
    {
      assert At(t, x) == At(entries, x) && HeldFor(entries, holds, x);
    }
  }

  /** An entry that is still offered the slot shares it with nobody. */
  lemma OfferedAlone(s: State, c: Config, r: Ref)
    requires Offers(s, c) && r in s.queue && IsOffered(s.entries, r)
    ensures Get(s, r).slot.Some? && NoOtherOffer(s.queue, s.entries, r, Get(s, r).slot.value)
  {
    assert SlotFits(s.entries, c, r);
    forall x | x in s.queue && x != r && IsOffered(s.entries, x)
      ensures At(s.entries, x).slot != Get(s, r).slot
    {
      SlotsDiffer(s.queue, s.entries, c, x, r);
    }
  }

  /** A take changes nothing, puts its entry back, or grants it. */
  ghost predicate TakeResult(s: State, t: State, c: Config, r: Ref, now: real, woke: bool)
  {
    var e := Get(s, r);
    || t == s
    || (r in s.queue && IsOffered(s.entries, r) && e.tier == Human
        && (t == ExpireOffer(s, c, r, now)
            || (e.slot.Some? && t == TakeCommit(s, r, e.slot.value, e.email, now, woke))))
  }

  lemma TakeIs(s: State, c: Config, email: Email, now: real, clean: bool, woke: bool) returns (r: Ref)
    ensures TakeResult(s, TakeOffer(s, c, email, now, clean, woke), c, r, now, woke)
  {
    var f := FirstSuch(s.queue, HumanOf(s, email));
    r := if f.Some? then f.value else 0;
  }

  lemma TakeResultOffers(s: State, t: State, c: Config, r: Ref, now: real, woke: bool)
    requires Offers(s, c) && TakeResult(s, t, c, r, now, woke)
    ensures Offers(t, c)
  {
    if t != s {
      OfferedAlone(s, c, r);
      TakeCommitOffers(s, c, r, Get(s, r).slot.value, now, woke);
      ExpireOfferKeeps(s, c, r, now);
    }
  }

  lemma TakeOffers(s: State, c: Config, email: Email, now: real, clean: bool, woke: bool)
    requires Offers(s, c)
    ensures Offers(TakeOffer(s, c, email, now, clean, woke), c)
  {
    var r := TakeIs(s, c, email, now, clean, woke);
    TakeResultOffers(s, TakeOffer(s, c, email, now, clean, woke), c, r, now, woke);
  }

  lemma {:induction false} CandidatesFit(s: State, c: Config, hi: nat)
    requires QueueSound(s.queue, s.entries, s.last) && hi <= c.humanSlots + c.agentSlots
    ensures PendingFits(Candidates(s, c, hi), s.entries, c)
  {
    if hi > 0 {
      CandidatesFit(s, c, hi - 1);
    }
  }

  lemma CollectOffers(s: State, c: Config, now: real)
    requires Offers(s, c)
    ensures Offers(Collect(s, c, now), c)
  {
    CandidatesFit(s, c, c.humanSlots + c.agentSlots);
  }

  lemma CommitOffers(s: State, c: Config, clean: bool)
    requires Offers(s, c)
    ensures Offers(Commit(s, c, clean), c)
  {
    if |s.pending| > 0 {
      CommitSkipped(s, c, clean);
      if clean && MayOffer(s, s.pending[0].slot, s.pending[0].ref) {
        CommitTaken(s, c);
      }
    }
  }

  lemma CommitTaken(s: State, c: Config)
    requires Offers(s, c) && |s.pending| > 0 && MayOffer(s, s.pending[0].slot, s.pending[0].ref)
    ensures Offers(Commit(s, c, true), c)
  {
    var cand := s.pending[0];
    CommitOffered(s, c);
    forall x | x in s.queue && IsOffered(s.entries, x)
      ensures At(s.entries, x).tier != At(s.entries, cand.ref).tier
    {
      assert !OfferedIn(s, Get(s, cand.ref).tier)(x);
    }
    var f := Commit(s, c, true).entries[cand.ref];
    OfferListed(s.queue, s.entries, s.last, s.pending, s.holds, c, f);
  }

  /** A candidate that is passed over leaves everything but the list as it was. */
  lemma CommitSkipped(s: State, c: Config, clean: bool)
    requires |s.pending| > 0
    ensures !(clean && MayOffer(s, s.pending[0].slot, s.pending[0].ref)) ==>
              Commit(s, c, clean) == s.(pending := s.pending[1..])
  {
  }

  /** A candidate that is still free to be offered gets its slot. */
  lemma CommitOffered(s: State, c: Config)
    requires |s.pending| > 0 && MayOffer(s, s.pending[0].slot, s.pending[0].ref)
    ensures var t, cand := Commit(s, c, true), s.pending[0];
            && t.queue == s.queue && t.slots == s.slots && t.users == s.users && t.pending == s.pending[1..]
            && t.last == s.last && t.log == s.log && t.holds == s.holds[cand.slot := Get(s, cand.ref).email]
            && t.entries == s.entries[cand.ref := Get(s, cand.ref).(
                 status := Offered, offerExpiresAt := Some(s.tick + c.offerGrace), slot := Some(cand.slot))]
  {
  }

  lemma OfferListed(q: seq<Ref>, entries: Entries, last: nat, pending: seq<Candidate>, holds: Rows, c: Config, f: Entry)
    requires Listed(q, entries, last, pending, c) && OffersHeld(q, entries, holds) && |pending| > 0
    requires var cand := pending[0];
             && cand.slot !in holds && f.status == Offered && f.slot == Some(cand.slot)
             && f.tier == At(entries, cand.ref).tier && f.email == At(entries, cand.ref).email
             && forall x | x in q && IsOffered(entries, x) :: At(entries, x).tier != f.tier
    ensures var cand := pending[0];
            && Listed(q, entries[cand.ref := f], last, pending[1..], c)
            && OffersHeld(q, entries[cand.ref := f], holds[cand.slot := f.email])
  {
    var cand, t := pending[0], entries[pending[0].ref := f];
    assert TierOf(c, cand.slot) == At(entries, cand.ref).tier && InPool(c, cand.slot);
    forall x | x in q && IsOffered(t, x)
      ensures x != cand.ref ==> At(t, x) == At(entries, x) && At(t, x).tier != f.tier
      ensures SlotFits(t, c, x) && HeldFor(t, holds[cand.slot := f.email], x)
    {
      if x != cand.ref {
        assert IsOffered(entries, x) && SlotFits(entries, c, x) && HeldFor(entries, holds, x);
      }
    }
  }

  lemma HintOffers(s: State, c: Config, k: int, hint: Email, now: real, woke: bool)
    requires Offers(s, c)
    ensures Offers(BootHint(s, c, k, hint, now, woke), c)
  {
    if InPool(c, k) && k !in s.slots && k !in s.holds && MayHint(s, hint) {
      HintCommitShape(s, k, hint, now, woke);
      RowsOffers(s, HintCommit(s, k, hint, now, woke), c);
    }
  }

  lemma ExpiringOffers(s: State, c: Config, email: Email, reason: Reason, now: real)
    requires Offers(s, c)
    ensures Offers(MarkExpiring(s, c, now), c) && Offers(SuspendFailed(s, email), c)
    ensures Offers(Quarantine(s, email, reason, now), c)
  {
    RowsOffers(s, MarkExpiring(s, c, now), c);
    RowsOffers(s, SuspendFailed(s, email), c);
    RowsOffers(s, Quarantine(s, email, reason, now), c);
  }

  lemma EnqueueHumanOffers(s: State, c: Config, email: Email, now: real)
    requires Offers(s, c)
    ensures Offers(EnqueueHuman(s, c, email, now), c)
  {
    AppendOffers(s, c, Human, email, if email in c.admins then 1 else 0, now, Waiting);
  }

  predicate AssignStep(step: Step)
  {
    || step.StepEnter? || step.StepUnready? || step.StepTake? || step.StepHint? || step.StepEnqueueAgent?
    || step.StepLeave?
  }

  lemma AssignStepOffers(s: State, c: Config, step: Step, now: real)
    requires Offers(s, c) && AssignStep(step)
    ensures Offers(Next(s, c, step, now), c)
  {
    match step
    case StepEnter(e, ready) => EnterOffers(s, c, e, now, ready);
    case StepUnready(e) => UnreadyOffers(s, c, e, now);
    case StepEnqueueAgent(e) => EnqueueAgentOffers(s, c, e, now);
    case StepLeave(r) => LeaveOffers(s, c, r);
    case StepTake(e, clean, woke) => TakeOffers(s, c, e, now, clean, woke);
    case StepHint(k, e, woke) => HintOffers(s, c, k, e, now, woke);
  }

  /** Every step keeps the offers sound, whatever the other steps did. */
  lemma NextOffers(s: State, c: Config, step: Step, now: real)
    requires Offers(s, c)
    ensures Offers(Next(s, c, step, now), c)
  {
    if AssignStep(step) {
      AssignStepOffers(s, c, step, now);
    } else {
      match step
      case StepEnqueueHuman(e) => EnqueueHumanOffers(s, c, e, now);
      case StepAgentTimeout(r) => AgentTimeoutOffers(s, c, r, now);
      case StepRelease(e, given) => ReleaseOffers(s, c, e, given, now);
      case StepGraceSweep => GraceSweepKeeps(s, c, now);
      case StepMarkExpiring => ExpiringOffers(s, c, "", Idle, now);
      case StepSuspendFailed(e) => ExpiringOffers(s, c, e, Idle, now);
      case StepForceRelease(e) => ForceReleaseOffers(s, c, e, now);
      case StepQuarantine(e, reason) => ExpiringOffers(s, c, e, reason, now);
      case StepCollect => CollectOffers(s, c, now);
      case StepCommit(clean) => CommitOffers(s, c, clean);
      case StepRestart => RestartKeeps(s, c, now);
    }
  }

  // ---- the other steps: occupancy ------------------------------------------

  lemma EnterTables(s: State, c: Config, email: Email, now: real, ready: bool)
    requires Occupancy(s)
    ensures Occupancy(Enter(s, c, email, now, ready))
  {
    var r := Resolve(s, c, email, now);
    if r.woke {
      ResolveShape(s, c, email, now);
      AssignTables(s.users, s.slots, s.sessions, s.expiring, email, r.slot.value, Session(r.slot.value, now, Human));
    }
  }

  lemma EnqueueAgentTables(s: State, c: Config, email: Email, now: real)
    requires Occupancy(s)
    ensures Occupancy(EnqueueAgent(s, c, email, now))
  {
    if AgentSlot(s, c).Some? {
      var k := AgentSlot(s, c).value;
      EnqueueAgentGranted(s, c, email, now);
      AssignTables(s.users, s.slots, s.sessions, s.expiring, email, k, Session(k, now, Agent));
    }
  }

  /** A pending expiry of the user's own slot. */
  ghost predicate ExpiryPending(s: State, email: Email)
  {
    email in s.users && email in s.expiring && s.expiring[email] == s.users[email]
  }

  /** Rolling back an assignment that is not usable is safe exactly when its expiry is not
      already under way. */
  lemma UnreadyExact(s: State, email: Email, now: real)
    requires Occupancy(s)
    ensures Occupancy(Unready(s, email, now)) <==> !ExpiryPending(s, email)
  {
    if email in s.users {
      UnassignTables(s.users, s.slots, s.sessions, s.expiring, email);
    }
  }

  lemma DepartedTables(s: State, r: Ref)
    ensures var t := Departed(s, r);
            t.users == s.users && t.slots == s.slots && t.sessions == s.sessions && t.expiring == s.expiring
  {
  }

  /** So is leaving the queue. */
  lemma LeaveExact(s: State, r: Ref)
    requires Occupancy(s)
    ensures Occupancy(Leave(s, r)) <==> !(r in s.queue && ExpiryPending(s, Get(s, r).email))
  {
    if r in s.queue {
      var email := Get(s, r).email;
      LeaveShape(s, r);
      DepartedTables(s, r);
      if email in s.users {
        UnassignTables(s.users, s.slots, s.sessions, s.expiring, email);
      }
    }
  }

  lemma ReleaseTables(s: State, user: Email, given: Option<Reason>, now: real)
    requires Occupancy(s)
    ensures Occupancy(Release(s, user, given, now))
  {
    ReleaseShape(s, user, given, now);
    if user in s.users {
      ForgetTables(s.users, s.slots, s.sessions, s.expiring, user, s.users[user]);
    }
  }

  lemma ForceReleaseTables(s: State, c: Config, email: Email, now: real)
    requires Occupancy(s)
    ensures Occupancy(ForceRelease(s, c, email, now))
  {
    var t := ForceRelease(s, c, email, now);
    if t != s {
      ForceReleaseShape(s, c, email, now);
      ForgetTables(s.users, s.slots, s.sessions, s.expiring, email, s.expiring[email]);
    }
  }

  lemma ForceReleaseShape(s: State, c: Config, email: Email, now: real)
    requires ForceRelease(s, c, email, now) != s
    ensures var t := ForceRelease(s, c, email, now);
            && email in s.users && email in s.expiring
            && t.users == s.users - {email} && t.slots == s.slots - {s.expiring[email]}
            && t.sessions == s.sessions - {email} && t.expiring == s.expiring - {email}
  {
  }

  /** New pending expiries concern assigned users and their own slots. */
  lemma MoreExpiring(users: Users, slots: Rows, sessions: Sessions, expiring: Users, due: Users)
    requires Tables(users, slots, sessions, expiring)
    requires forall e :: e in due ==> e in users && due[e] == users[e]
    ensures Tables(users, slots, sessions, expiring + due)
  {
  }

  lemma MarkExpiringTables(s: State, c: Config, now: real)
    requires Occupancy(s)
    ensures Occupancy(MarkExpiring(s, c, now))
  {
    MoreExpiring(s.users, s.slots, s.sessions, s.expiring, Overdue(s, c, now));
  }

  lemma SuspendFailedTables(s: State, email: Email)
    requires Occupancy(s)
    ensures Occupancy(SuspendFailed(s, email))
  {
  }

  lemma QuarantineTables(s: State, email: Email, reason: Reason, now: real)
    requires Occupancy(s)
    ensures Occupancy(Quarantine(s, email, reason, now))
  {
    if email in s.users {
      MoreExpiring(s.users, s.slots, s.sessions, s.expiring, map[email := s.users[email]]);
      assert s.expiring + map[email := s.users[email]] == s.expiring[email := s.users[email]];
    }
  }

  lemma TakeResultTables(s: State, t: State, c: Config, r: Ref, now: real, woke: bool)
    requires Occupancy(s) && Offers(s, c) && TakeResult(s, t, c, r, now, woke)
    ensures Occupancy(t)
  {
    if t != s {
      TakeUndisturbed(s, c, r, now, woke);
      ExpireOfferKeeps(s, c, r, now);
    }
  }

  lemma TakeTables(s: State, c: Config, email: Email, now: real, clean: bool, woke: bool)
    requires Occupancy(s) && Offers(s, c)
    ensures Occupancy(TakeOffer(s, c, email, now, clean, woke))
  {
    var r := TakeIs(s, c, email, now, clean, woke);
    TakeResultTables(s, TakeOffer(s, c, email, now, clean, woke), c, r, now, woke);
  }

  lemma HintCommitShape(s: State, k: int, hint: Email, now: real, woke: bool)
    requires MayHint(s, hint)
    ensures var t, u := HintCommit(s, k, hint, now, woke), Assign(s, hint, k, now, Human);
            && SameQueue(s, t) && t.expiring == s.expiring
            && t.users == (if woke then u.users else u.users - {hint})
            && t.slots == (if woke then u.slots else u.slots - {k})
            && t.sessions == (if woke then u.sessions else u.sessions - {hint})
  {
  }

  lemma HintTables(s: State, c: Config, k: int, hint: Email, now: real, woke: bool)
    requires Occupancy(s)
    ensures Occupancy(BootHint(s, c, k, hint, now, woke))
  {
    var t := BootHint(s, c, k, hint, now, woke);
    if t != s {
      HintCommitShape(s, k, hint, now, woke);
      AssignTables(s.users, s.slots, s.sessions, s.expiring, hint, k, Session(k, now, Human));
    }
  }

  lemma PassiveTables(s: State, t: State)
    requires t.users == s.users && t.slots == s.slots && t.sessions == s.sessions && t.expiring == s.expiring
    ensures Occupancy(t) <==> Occupancy(s)
  {
  }

  // ---- runs ----------------------------------------------------------------

  /** The one thing asked of a step: an assignment whose expiry is under way is not taken back
      by a readiness rollback or by leaving the queue. */
  ghost predicate Admissible(s: State, step: Step)
  {
    match step
    case StepUnready(e) => !ExpiryPending(s, e)
    case StepLeave(r) => !(r in s.queue && ExpiryPending(s, Get(s, r).email))
    case _ => true
  }

  predicate UserStep(step: Step)
  {
    step.StepEnter? || step.StepUnready? || step.StepRelease? || step.StepTake? || step.StepHint? || step.StepRestart?
  }

  predicate QueueStep(step: Step)
  {
    || step.StepEnqueueHuman? || step.StepEnqueueAgent? || step.StepLeave? || step.StepAgentTimeout?
    || step.StepGraceSweep?
  }

  lemma UserOccupancy(s: State, c: Config, step: Step, now: real)
    requires Occupancy(s) && Offers(s, c) && UserStep(step)
    ensures Occupancy(Next(s, c, step, now)) <==> Admissible(s, step)
  {
    match step
    case StepEnter(e, ready) => EnterTables(s, c, e, now, ready);
    case StepUnready(e) => UnreadyExact(s, e, now);
    case StepRelease(e, given) => ReleaseTables(s, e, given, now);
    case StepTake(e, clean, woke) => TakeTables(s, c, e, now, clean, woke);
    case StepHint(k, e, woke) => HintTables(s, c, k, e, now, woke);
    case StepRestart => RestartKeeps(s, c, now);
  }

  lemma QueueOccupancy(s: State, c: Config, step: Step, now: real)
    requires Occupancy(s) && Offers(s, c) && QueueStep(step)
    ensures Occupancy(Next(s, c, step, now)) <==> Admissible(s, step)
  {
    match step
    case StepEnqueueHuman(e) => PassiveTables(s, EnqueueHuman(s, c, e, now));
    case StepEnqueueAgent(e) => EnqueueAgentTables(s, c, e, now);
    case StepLeave(r) => LeaveExact(s, r);
    case StepAgentTimeout(r) => PassiveTables(s, AgentTimeout(s, c, r, now));
    case StepGraceSweep => GraceSweepKeeps(s, c, now);
  }

  predicate ExpiryStep(step: Step)
  {
    step.StepMarkExpiring? || step.StepSuspendFailed? || step.StepQuarantine?
  }

  lemma ExpiryOccupancy(s: State, c: Config, step: Step, now: real)
    requires Occupancy(s) && ExpiryStep(step)
    ensures Occupancy(Next(s, c, step, now)) && Admissible(s, step)
  {
    match step
    case StepMarkExpiring => MarkExpiringTables(s, c, now);
    case StepSuspendFailed(e) => SuspendFailedTables(s, e);
    case StepQuarantine(e, reason) => QuarantineTables(s, e, reason, now);
  }

  lemma ReaperOccupancy(s: State, c: Config, step: Step, now: real)
    requires Occupancy(s) && !UserStep(step) && !QueueStep(step) && !ExpiryStep(step)
    ensures Occupancy(Next(s, c, step, now)) && Admissible(s, step)
  {
    match step
    case StepForceRelease(e) => ForceReleaseTables(s, c, e, now);
    case StepCollect => PassiveTables(s, Collect(s, c, now));
    case StepCommit(clean) => CommitTables(s, c, clean);
  }

  lemma CommitTables(s: State, c: Config, clean: bool)
    ensures Occupancy(Commit(s, c, clean)) <==> Occupancy(s)
  {
    PassiveTables(s, Commit(s, c, clean));
  }

  /** A step keeps the occupancy exactly when it is admissible. */
  lemma NextOccupancy(s: State, c: Config, step: Step, now: real)
    requires Occupancy(s) && Offers(s, c)
    ensures Occupancy(Next(s, c, step, now)) <==> Admissible(s, step)
  {
    if UserStep(step) {
      UserOccupancy(s, c, step, now);
    } else if QueueStep(step) {
      QueueOccupancy(s, c, step, now);
    } else if ExpiryStep(step) {
      ExpiryOccupancy(s, c, step, now);
    } else {
      ReaperOccupancy(s, c, step, now);
    }
  }

  lemma {:induction false} RunOffers(s: State, c: Config, steps: seq<Timed>)
    requires Offers(s, c)
    ensures Offers(Run(s, c, steps), c)
    decreases |steps|
  {
    if |steps| > 0 {
      var front, t := steps[..|steps| - 1], steps[|steps| - 1];
      RunOffers(s, c, front);
      NextOffers(Run(s, c, front), c, t.step, t.now);
    }
  }

  ghost predicate RunAdmissible(s: State, c: Config, steps: seq<Timed>)
  {
    forall i :: 0 <= i < |steps| ==> Admissible(Run(s, c, steps[..i]), steps[i].step)
  }

  lemma {:induction false} RunOccupancy(s: State, c: Config, steps: seq<Timed>)
    requires Occupancy(s) && Offers(s, c) && RunAdmissible(s, c, steps)
    ensures Occupancy(Run(s, c, steps))
    decreases |steps|
  {
    if |steps| > 0 {
      var front, t := steps[..|steps| - 1], steps[|steps| - 1];
      forall i | 0 <= i < |front|
        ensures Admissible(Run(s, c, front[..i]), front[i].step)
      {
        assert front[..i] == steps[..i];
      }
      RunOccupancy(s, c, front);
      RunOffers(s, c, front);
      NextOccupancy(Run(s, c, front), c, t.step, t.now);
    }
  }

  /** Over every admissible run from an empty fleet: no two users share a slot, every user's
      slot row and session agree, and the slot that the reaper is about to suspend still belongs
      to the user it is expiring. */
  lemma OccupancyOverRuns(c: Config, steps: seq<Timed>)
    requires RunAdmissible(EMPTY, c, steps)
    ensures var s := Run(EMPTY, c, steps);
            && (forall a, b :: a in s.users && b in s.users && a != b ==> s.users[a] != s.users[b])
            && (forall e :: e in s.users ==> s.users[e] in s.slots && s.slots[s.users[e]] == e)
            && (forall e :: e in s.users ==> e in s.sessions && s.sessions[e].slot == s.users[e])
            && (forall e :: e in s.expiring ==> s.expiring[e] in s.slots && s.slots[s.expiring[e]] == e)
  {
    RunOccupancy(EMPTY, c, steps);
  }

  /** Over every run: at most one queued entry of a tier is offered, its slot is held for its
      email, and a held human slot is nobody's. */
  lemma OffersOverRuns(c: Config, steps: seq<Timed>)
    ensures var s := Run(EMPTY, c, steps);
            && OneOfferPerTier(s.queue, s.entries)
            && OffersHeld(s.queue, s.entries, s.holds)
            && HeldFree(s.holds, s.slots, c.humanSlots)
  {
    RunOffers(EMPTY, c, steps);
  }

  // ---- the sweep's commit without its guard --------------------------------

  /** The sweep tests a slot before it probes it and assigns without a second look. Assigning a
      hinted owner to slot k is safe exactly when the slot still has no user, no pending expiry
      of another user and, being human, no hold. When the slot does not wake its row goes, whoever
      owned it: that is safe exactly when it has no user and no pending expiry at all. */
  lemma HintCommitExact(s: State, c: Config, k: int, hint: Email, now: real, woke: bool)
    requires Occupancy(s) && Offers(s, c) && MayHint(s, hint) && InPool(c, k)
    ensures Occupancy(HintCommit(s, k, hint, now, woke)) && Offers(HintCommit(s, k, hint, now, woke), c)
       <==> && (forall e :: e in s.users ==> s.users[e] != k)
            && (forall e :: e in s.expiring && (woke ==> e != hint) ==> s.expiring[e] != k)
            && (woke ==> !(k in s.holds && k <= c.humanSlots))
  {
    var t, x := HintCommit(s, k, hint, now, woke), Session(k, now, Human);
    HintCommitShape(s, k, hint, now, woke);
    if woke {
      HintedTables(s.users, s.slots, s.sessions, s.expiring, hint, k, x);
      assert HeldFree(t.holds, t.slots, c.humanSlots) <==> !(k in s.holds && k <= c.humanSlots) by {
        assert k in t.slots;
      }
    } else {
      RowGoneTables(s.users, s.slots, s.sessions, s.expiring, hint, k, x);
      RowsOffers(s, t, c);
    }
  }

  /** The same for the second section of a take, which neither looks at the slot nor at the offer
      again: it is safe exactly when nobody else has the slot, is being expired on it or is offered
      it by now, and, when the slot does not wake, no expiry at all is pending on it. */
  lemma TakeCommitExact(s: State, c: Config, r: Ref, k: int, now: real, woke: bool)
    requires Occupancy(s) && Offers(s, c) && r in s.entries
    ensures var email := Get(s, r).email;
            var t := TakeCommit(s, r, k, email, now, woke);
            (Occupancy(t) && Offers(t, c))
            <==>
            (&& (forall e :: e in s.users && e != email ==> s.users[e] != k)
             && (forall e :: e in s.expiring && (woke ==> e != email) ==> s.expiring[e] != k)
             && NoOtherOffer(s.queue, s.entries, r, k))
  {
    var email, x := Get(s, r).email, Session(k, now, Human);
    TakeCommitShape(s, r, k, now, woke);
    TakeCommitOffers(s, c, r, k, now, woke);
    if woke {
      HintedTables(s.users, s.slots, s.sessions, s.expiring, email, k, x);
    } else {
      RowGoneTables(s.users, s.slots, s.sessions, s.expiring, email, k, x);
    }
  }

  /** So a take is safe when its entry is still offered the slot. */
  lemma TakeUndisturbed(s: State, c: Config, r: Ref, now: real, woke: bool)
    requires Occupancy(s) && Offers(s, c) && r in s.queue && IsOffered(s.entries, r) && Get(s, r).tier == Human
    ensures Get(s, r).slot.Some?
    ensures var t := TakeCommit(s, r, Get(s, r).slot.value, Get(s, r).email, now, woke);
            Occupancy(t) && Offers(t, c)
  {
    OfferedFree(s, c, r);
    OfferedAlone(s, c, r);
    TakeCommitExact(s, c, r, Get(s, r).slot.value, now, woke);
  }

  lemma HintedTables(users: Users, slots: Rows, sessions: Sessions, expiring: Users, hint: Email, k: int, x: Session)
    requires Tables(users, slots, sessions, expiring) && x.slot == k
    ensures Tables(users[hint := k], slots[k := hint], sessions[hint := x], expiring)
       <==> && (forall e :: e in users && e != hint ==> users[e] != k)
            && (forall e :: e in expiring && e != hint ==> expiring[e] != k)
  {
    var u, rows := users[hint := k], slots[k := hint];
    if Tables(u, rows, sessions[hint := x], expiring) {
      forall e | e in users && e != hint
        ensures users[e] != k
      {
        assert u[e] == users[e] && rows[u[e]] == e;
      }
    }
  }

  lemma RowGoneTables(users: Users, slots: Rows, sessions: Sessions, expiring: Users, hint: Email, k: int, x: Session)
    requires Tables(users, slots, sessions, expiring)
    ensures Tables(users[hint := k] - {hint}, slots[k := hint] - {k}, sessions[hint := x] - {hint}, expiring)
       <==> && (forall e :: e in users && e != hint ==> users[e] != k)
            && (forall e :: e in expiring ==> expiring[e] != k)
  {
    var u, rows := users[hint := k] - {hint}, slots[k := hint] - {k};
    if Tables(u, rows, sessions[hint := x] - {hint}, expiring) {
      forall e | e in users && e != hint
        ensures users[e] != k
      {
        assert e in u && u[e] == users[e] && u[e] in rows;
      }
      forall e | e in expiring
        ensures expiring[e] != k
      {
        assert expiring[e] in rows;
      }
    }
  }
}
