/** Who is in the queue, and who is first. */
module RouterQueue {
  import opened Wrappers
  import opened Fleet
  import opened RouterModel
  import opened RouterInvariants
  import opened RouterHistory
  import opened RouterAdmission
  import QueueIds

  /** Every entry has the rank of its owner. */
  ghost predicate Ranked(h: History, c: Config)
  {
    forall r :: r in h.entries ==> At(h.entries, r).priority == Rank(c, At(h.entries, r).tier, At(h.entries, r).email)
  }

  /** No human waits, or is offered a slot, through two queued entries. */
  ghost predicate OneLiveEntry(h: History)
  {
    forall r, x, e: Email | r in h.queue && x in h.queue && LiveFor(At(h.entries, r), e) && LiveFor(At(h.entries, x), e)
      :: r == x
  }

  lemma EvolvesRanked(h: History, g: History, c: Config, offer: Option<Ref>, now: real)
    requires Ranked(h, c) && Evolves(h, g, c, offer, now)
    ensures Ranked(g, c)
  {
    forall r | r in g.entries
      ensures At(g.entries, r).priority == Rank(c, At(g.entries, r).tier, At(g.entries, r).email)
    {
      assert Life(h, g, c, r, offer, now);
    }
  }

  /** An entry that is live was live before, unless it is new. */
  lemma LiveBefore(h: History, g: History, c: Config, r: Ref, offer: Option<Ref>, now: real, e: Email)
    requires Evolves(h, g, c, offer, now) && r in g.queue && r in g.entries && LiveFor(At(g.entries, r), e)
    ensures r in h.entries ==> r in h.queue && LiveFor(At(h.entries, r), e)
    ensures r !in h.entries ==> Newborn(h, g, c, r, now)
  {
    assert Life(h, g, c, r, offer, now);
  }

  lemma EvolvesOneLive(h: History, g: History, c: Config, offer: Option<Ref>, now: real)
    requires OneLiveEntry(h) && Evolves(h, g, c, offer, now) && forall r :: r in g.queue ==> r in g.entries
    ensures OneLiveEntry(g)
  {
    forall r, x, e: Email | r in g.queue && x in g.queue && LiveFor(At(g.entries, r), e) && LiveFor(At(g.entries, x), e)
      ensures r == x
    {
      LiveBefore(h, g, c, r, offer, now, e);
      LiveBefore(h, g, c, x, offer, now, e);
    }
  }

  lemma {:induction false} RunQueue(c: Config, steps: seq<Timed>)
    ensures Ranked(Of(Run(EMPTY, c, steps)), c) && OneLiveEntry(Of(Run(EMPTY, c, steps)))
    decreases |steps|
  {
    if |steps| > 0 {
      var front, t := steps[..|steps| - 1], steps[|steps| - 1];
      var s := Run(EMPTY, c, front);
      RunQueue(c, front);
      RunOffers(EMPTY, c, front);
      NextEvolves(s, c, t.step, t.now);
      NextOffers(s, c, t.step, t.now);
      EvolvesRanked(Of(s), Of(Next(s, c, t.step, t.now)), c, Offering(s, t.step), t.now);
      EvolvesOneLive(Of(s), Of(Next(s, c, t.step, t.now)), c, Offering(s, t.step), t.now);
    }
  }

  /** Over every run: a human who asks again while waiting or offered a slot keeps one entry. */
  lemma OneEntryPerHuman(c: Config, steps: seq<Timed>, r: Ref, x: Ref)
    requires var s := Run(EMPTY, c, steps); r in s.queue && x in s.queue && Get(s, r).email == Get(s, x).email
    requires var s := Run(EMPTY, c, steps); LiveFor(Get(s, r), Get(s, r).email) && LiveFor(Get(s, x), Get(s, r).email)
    ensures r == x
  {
    RunQueue(c, steps);
  }

  /** Over every run: a waiting admin is ahead of every waiting human who is no admin, and the next
      offer of a human slot is an admin's while one waits. */
  lemma AdminsFirst(c: Config, steps: seq<Timed>, a: Ref, x: Ref)
    requires var s := Run(EMPTY, c, steps); a in s.queue && WaitsIn(s, a, Human) && Get(s, a).email in c.admins
    requires var s := Run(EMPTY, c, steps); x in s.queue && WaitsIn(s, x, Human) && Get(s, x).email !in c.admins
    ensures var s := Run(EMPTY, c, steps);
            && Before(Get(s, a), Get(s, x)) && !Before(Get(s, x), Get(s, a))
            && Head(s, s.queue, Human).Some? && Get(s, Head(s, s.queue, Human).value).email in c.admins
  {
    var s := Run(EMPTY, c, steps);
    RunQueue(c, steps);
    RunOffers(EMPTY, c, steps);
    assert Ranked(Of(s), c) && a in s.entries && x in s.entries;
    var h := Head(s, s.queue, Human);
    assert h.Some? && h.value in s.entries && Before(Get(s, h.value), Get(s, a));
  }

  // ---- joining -------------------------------------------------------------

  /** The queue grew by one entry at its end, and no other entry changed. */
  ghost predicate Joined(s: State, t: State, tier: Tier, e: Email, now: real, status: Status)
  {
    && |t.queue| == |s.queue| + 1 && t.queue[..|s.queue|] == s.queue
    && var r := t.queue[|s.queue|];
       && r == s.last + 1 && t.last == r && Get(t, r).id == QueueIds.Id(r)
       && Get(t, r).tier == tier && Get(t, r).email == e && Get(t, r).status == status && Get(t, r).enqueuedAt == now
       && Get(t, r).slot == None && Get(t, r).offerExpiresAt == None
       && forall x :: x != r ==> Get(t, x) == Get(s, x)
  }

  lemma AppendJoins(s: State, tier: Tier, e: Email, priority: int, now: real, status: Status)
    ensures Joined(s, Append(s, tier, e, priority, now, status), tier, e, now, status)
  {
  }

  /** A human with an entry that waits or is offered a slot is not queued again; any other is, at the
      end. */
  lemma HumanJoins(s: State, c: Config, e: Email, now: real)
    ensures var t := EnqueueHuman(s, c, e, now);
            if exists r :: r in s.queue && LiveFor(Get(s, r), e) then t == s else Joined(s, t, Human, e, now, Waiting)
  {
    var f := FirstSuch(s.queue, HumanInPlayFor(s, e));
    if f.Some? {
      assert HumanInPlayFor(s, e)(f.value) && LiveFor(Get(s, f.value), e);
    } else {
      forall r | r in s.queue
        ensures !LiveFor(Get(s, r), e)
      {
        assert !HumanInPlayFor(s, e)(r);
      }
      AppendJoins(s, Human, e, if e in c.admins then 1 else 0, now, Waiting);
    }
  }

  /** An agent is always queued: as active with the lowest agent slot that has no row, or waiting
      when there is none. */
  lemma AgentJoins(s: State, c: Config, e: Email, now: real)
    ensures var t := EnqueueAgent(s, c, e, now);
            if exists k :: c.humanSlots < k <= c.humanSlots + c.agentSlots && k !in s.slots then
              && Joined(s, t, Agent, e, now, Active) && e in t.users
              && c.humanSlots < t.users[e] <= c.humanSlots + c.agentSlots && t.users[e] !in s.slots
              && forall k :: c.humanSlots < k < t.users[e] ==> k in s.slots
            else Joined(s, t, Agent, e, now, Waiting) && t.users == s.users
  {
    var free := AgentSlot(s, c);
    if free.Some? {
      var k := free.value;
      assert c.humanSlots < k <= c.humanSlots + c.agentSlots && k !in s.slots;
      EnqueueAgentGranted(s, c, e, now);
      AppendJoins(Assign(s, e, k, now, Agent), Agent, e, 0, now, Active);
      AssignedJoins(s, e, k, now);
      forall j | c.humanSlots < j < k
        ensures j in s.slots
      {
        FirstFreeLeast(s, c.humanSlots + 1, c.humanSlots + c.agentSlots, false, j);
      }
    } else {
      EnqueueAgentWaits(s, c, e, now);
      AppendJoins(s, Agent, e, 0, now, Waiting);
    }
  }

  lemma AssignedJoins(s: State, e: Email, k: int, now: real)
    ensures var t := Append(Assign(s, e, k, now, Agent), Agent, e, 0, now, Active);
            Joined(s, t, Agent, e, now, Active) && t.users == s.users[e := k]
  {
    AppendJoins(Assign(s, e, k, now, Agent), Agent, e, 0, now, Active);
  }

  lemma EnqueueAgentWaits(s: State, c: Config, e: Email, now: real)
    requires AgentSlot(s, c).None?
    ensures EnqueueAgent(s, c, e, now) == Append(s, Agent, e, 0, now, Waiting)
  {
  }
}
