/** The offer protocol over runs: the backoff of ignored offers and the order in which the queue
    is offered slots. */
module RouterOffers {
  import opened Wrappers
  import opened Fleet
  import opened RouterModel
  import opened RouterInvariants
  import opened RouterHistory

  ghost predicate Monotone(steps: seq<Timed>)
  {
    forall i, j :: 0 <= i < j < |steps| ==> steps[i].now <= steps[j].now
  }

  // ---- expired offers in a window ------------------------------------------

  /** How many of the expiries concern slot k and fall between two times. */
  function Within(l: seq<Expiry>, k: Option<int>, from: real, to: real): nat
  {
    if |l| == 0 then 0
    else
      var x := l[|l| - 1];
      Within(l[..|l| - 1], k, from, to) + (if x.slot == k && from <= x.at <= to then 1 else 0)
  }

  /** What an entry remembers of its history: what was in the window at the last expiry. */
  ghost function Kept(c: Config, l: seq<Expiry>): seq<Expiry>
  {
    if |l| == 0 then [] else Recent(l[..|l| - 1], l[|l| - 1].at - c.window) + [l[|l| - 1]]
  }

  lemma {:induction false} RecentAppend(l: seq<Expiry>, x: Expiry, a: real)
    ensures Recent(l + [x], a) == Recent(l, a) + if x.at >= a then [x] else []
  {
    if |l| == 0 {
      assert l + [x] == [x];
    } else {
      RecentAppend(l[1..], x, a);
      assert (l + [x])[1..] == l[1..] + [x];
    }
  }

  lemma {:induction false} RecentRecent(l: seq<Expiry>, a: real, b: real)
    requires a <= b
    ensures Recent(Recent(l, a), b) == Recent(l, b)
  {
    if |l| > 0 {
      RecentRecent(l[1..], a, b);
      if l[0].at >= a {
        assert Recent(l, a)[1..] == Recent(l[1..], a);
      }
    }
  }

  /** Trimming what was kept is trimming the whole history. */
  lemma RecentKept(c: Config, l: seq<Expiry>, now: real)
    requires |l| > 0 ==> l[|l| - 1].at <= now
    ensures Recent(Kept(c, l), now - c.window) == Recent(l, now - c.window)
  {
    if |l| > 0 {
      var front, x := l[..|l| - 1], l[|l| - 1];
      RecentAppend(Recent(front, x.at - c.window), x, now - c.window);
      RecentRecent(front, x.at - c.window, now - c.window);
      RecentAppend(front, x, now - c.window);
      assert front + [x] == l;
    }
  }

  lemma {:induction false} CountAppend(l: seq<Expiry>, x: Expiry, k: Option<int>)
    ensures CountOn(l + [x], k) == CountOn(l, k) + if x.slot == k then 1 else 0
  {
    if |l| == 0 {
      assert l + [x] == [x];
    } else {
      CountAppend(l[1..], x, k);
      assert (l + [x])[1..] == l[1..] + [x];
    }
  }

  lemma {:induction false} CountRecent(l: seq<Expiry>, a: real, k: Option<int>)
    ensures CountOn(Recent(l, a), k) <= CountOn(l, k)
  {
    if |l| > 0 {
      CountRecent(l[1..], a, k);
      if l[0].at >= a {
        var rest := Recent(l[1..], a);
        assert ([l[0]] + rest)[1..] == rest;
      }
    }
  }

  lemma {:induction false} WithinRecent(l: seq<Expiry>, k: Option<int>, from: real, to: real, a: real)
    requires a <= from
    ensures Within(l, k, from, to) <= CountOn(Recent(l, a), k)
  {
    if |l| > 0 {
      var front, x := l[..|l| - 1], l[|l| - 1];
      WithinRecent(front, k, from, to, a);
      RecentAppend(front, x, a);
      CountAppend(Recent(front, a), x, k);
      assert front + [x] == l && Recent(front, a) + [] == Recent(front, a);
    }
  }

  // ---- backoff -------------------------------------------------------------

  /** The first expired offer always counts, whatever the threshold. */
  function Limit(c: Config): nat
  {
    if c.threshold > 1 then c.threshold else 1
  }

  predicate Out(e: Entry)
  {
    e.status == BackedOff || e.status == Left
  }

  ghost predicate Bounded(c: Config, l: seq<Expiry>)
  {
    forall k, from, to | to == from + c.window :: Within(l, k, from, to) <= Limit(c)
  }

  ghost predicate BelowLimit(c: Config, e: Entry)
  {
    forall k :: CountOn(e.offerExpiries, k) <= if Out(e) then Limit(c) else Limit(c) - 1
  }

  ghost predicate Paced(c: Config, e: Entry, l: seq<Expiry>, clock: real)
  {
    && e.offerExpiries == Kept(c, l) && BelowLimit(c, e) && Bounded(c, l)
    && (|l| > 0 ==> l[|l| - 1].at <= clock)
    && (e.status == BackedOff ==> |l| > 0 && e.backedOffUntil == Some(l[|l| - 1].at + c.cooldown))
  }

  lemma ExpirePaced(c: Config, e: Entry, l: seq<Expiry>, clock: real, now: real)
    requires Paced(c, e, l, clock) && !Out(e) && clock <= now
    ensures Paced(c, Expire(c, e, now), l + [Expiry(e.slot, now)], now)
  {
    var x, f := Expiry(e.slot, now), Expire(c, e, now);
    var m, recent := l + [x], Recent(l, now - c.window);
    RecentKept(c, l, now);
    assert m[..|m| - 1] == l && f.offerExpiries == recent + [x] == Kept(c, m);
    forall k
      ensures CountOn(f.offerExpiries, k) <= if Out(f) then Limit(c) else Limit(c) - 1
    {
      CountRecent(e.offerExpiries, now - c.window, k);
      CountAppend(recent, x, k);
    }
    forall k, from, to | to == from + c.window
      ensures Within(m, k, from, to) <= Limit(c)
    {
      assert Within(m, k, from, to) == Within(l, k, from, to) + if x.slot == k && from <= now <= to then 1 else 0;
      if from <= now <= to {
        WithinRecent(l, k, from, to, now - c.window);
        CountRecent(e.offerExpiries, now - c.window, k);
      }
    }
  }

  lemma FreshPaced(c: Config, e: Entry, clock: real)
    requires e.offerExpiries == [] && e.status != BackedOff
    ensures Paced(c, e, [], clock)
  {
  }

  lemma LifePaced(c: Config, e: Entry, l: seq<Expiry>, f: Entry, m: seq<Expiry>, o: bool, clock: real, now: real)
    requires Paced(c, e, l, clock) && LifeStep(c, e, l, f, m, o, now) && clock <= now
    ensures Paced(c, f, m, now)
  {
    if e.status == Offered && f == Expire(c, e, now) && m == l + [Expiry(e.slot, now)] {
      ExpirePaced(c, e, l, clock, now);
    } else if BecomesActive(e, f) && m == [] {
      FreshPaced(c, f, now);
    } else {
      assert m == l && f.offerExpiries == e.offerExpiries && (Out(e) ==> Out(f));
      assert BelowLimit(c, f) by {
        assert forall k :: CountOn(f.offerExpiries, k) == CountOn(e.offerExpiries, k);
      }
    }
  }

  ghost predicate AllPaced(c: Config, h: History, clock: real)
  {
    forall r :: r in h.entries ==> Paced(c, At(h.entries, r), Log(h, r), clock)
  }

  lemma EvolvesPaced(h: History, g: History, c: Config, offer: Option<Ref>, clock: real, now: real)
    requires AllPaced(c, h, clock) && Evolves(h, g, c, offer, now) && clock <= now
    ensures AllPaced(c, g, now)
  {
    forall r | r in g.entries
      ensures Paced(c, At(g.entries, r), Log(g, r), now)
    {
      assert Life(h, g, c, r, offer, now);
      if r in h.entries {
        LifePaced(c, At(h.entries, r), Log(h, r), At(g.entries, r), Log(g, r), offer == Some(r), clock, now);
      } else {
        FreshPaced(c, At(g.entries, r), now);
      }
    }
  }

  function Clock(steps: seq<Timed>): real
  {
    if |steps| == 0 then 0.0 else steps[|steps| - 1].now
  }

  lemma {:induction false} RunPaced(c: Config, steps: seq<Timed>)
    requires Monotone(steps)
    ensures AllPaced(c, Of(Run(EMPTY, c, steps)), Clock(steps))
    decreases |steps|
  {
    if |steps| > 0 {
      var front, t := steps[..|steps| - 1], steps[|steps| - 1];
      var s := Run(EMPTY, c, front);
      RunPaced(c, front);
      RunOffers(EMPTY, c, front);
      NextEvolves(s, c, t.step, t.now);
      if |front| == 0 {
        EmptyPaced(c, t.now);
        EvolvesPaced(Of(EMPTY), Of(Next(s, c, t.step, t.now)), c, Offering(s, t.step), t.now, t.now);
      } else {
        EvolvesPaced(Of(s), Of(Next(s, c, t.step, t.now)), c, Offering(s, t.step), Clock(front), t.now);
      }
    }
  }

  lemma EmptyPaced(c: Config, clock: real)
    ensures AllPaced(c, Of(EMPTY), clock)
  {
  }

  /** Over every run with a monotone clock, restarts included: since its last grant an entry has
      let at most THRESHOLD offers of one slot expire within any WINDOW. */
  lemma BackoffBound(c: Config, steps: seq<Timed>, r: Ref, k: Option<int>, from: real)
    requires Monotone(steps) && r in Run(EMPTY, c, steps).entries
    ensures Within(LogOf(Run(EMPTY, c, steps), r), k, from, from + c.window) <= Limit(c)
  {
    RunPaced(c, steps);
    assert Paced(c, At(Of(Run(EMPTY, c, steps)).entries, r), Log(Of(Run(EMPTY, c, steps)), r), Clock(steps));
  }

  /** Once an entry is backed off, or its user left, it is never waiting, offered or granted
      again, and collects no further expired offer. */
  lemma {:induction false} BackedOffForever(s: State, c: Config, steps: seq<Timed>, r: Ref)
    requires Offers(s, c) && r in s.entries && Out(Get(s, r))
    ensures var t := Run(s, c, steps);
            r in t.entries && Out(Get(t, r)) && LogOf(t, r) == LogOf(s, r)
    decreases |steps|
  {
    if |steps| > 0 {
      var front, t := steps[..|steps| - 1], steps[|steps| - 1];
      var u := Run(s, c, front);
      BackedOffForever(s, c, front, r);
      RunOffers(s, c, front);
      NextEvolves(u, c, t.step, t.now);
      assert Life(Of(u), Of(Next(u, c, t.step, t.now)), c, r, Offering(u, t.step), t.now);
    }
  }

  /** An entry that left the queue never comes back. */
  lemma {:induction false} GoneForever(s: State, c: Config, steps: seq<Timed>, r: Ref)
    requires Offers(s, c) && r in s.entries && r !in s.queue
    ensures r in Run(s, c, steps).entries && r !in Run(s, c, steps).queue
    decreases |steps|
  {
    if |steps| > 0 {
      var front, t := steps[..|steps| - 1], steps[|steps| - 1];
      var u := Run(s, c, front);
      GoneForever(s, c, front, r);
      RunOffers(s, c, front);
      NextEvolves(u, c, t.step, t.now);
      assert Life(Of(u), Of(Next(u, c, t.step, t.now)), c, r, Offering(u, t.step), t.now);
    }
  }

  // ---- the end of a cooldown -----------------------------------------------

  lemma {:induction false} ExpireLapsedSpares(s: State, c: Config, refs: seq<Ref>, now: real, r: Ref)
    requires !IsOffered(s.entries, r)
    ensures Get(ExpireLapsed(s, c, refs, now), r) == Get(s, r) && ExpireLapsed(s, c, refs, now).queue == s.queue
    decreases |refs|
  {
    if |refs| > 0 {
      var t := if Lapsed(s, refs[0], now) then ExpireOffer(s, c, refs[0], now) else s;
      ExpireLapsedSpares(t, c, refs[1..], now, r);
    }
  }

  lemma RestoreOneSpares(s: State, c: Config, x: Ref, now: real, r: Ref)
    requires !IsOffered(s.entries, r)
    ensures Get(RestoreOne(s, c, x, now), r) == Get(s, r) && RestoreOne(s, c, x, now).queue == s.queue
  {
    RestoreOneOf(s, c, x, now);
    if IsOffered(s.entries, x) {
      ExpireOfferSpares(s, c, x, now, r);
    }
  }

  lemma ExpireOfferSpares(s: State, c: Config, x: Ref, now: real, r: Ref)
    requires x != r
    ensures Get(ExpireOffer(s, c, x, now), r) == Get(s, r) && ExpireOffer(s, c, x, now).queue == s.queue
  {
  }

  lemma {:induction false} RestoreOffersSpares(s: State, c: Config, refs: seq<Ref>, now: real, r: Ref)
    requires !IsOffered(s.entries, r)
    ensures Get(RestoreOffers(s, c, refs, now), r) == Get(s, r) && RestoreOffers(s, c, refs, now).queue == s.queue
    decreases |refs|
  {
    if |refs| > 0 {
      RestoreOffersUnfolds(s, c, refs, now);
      RestoreOneSpares(s, c, refs[0], now, r);
      RestoreOffersSpares(RestoreOne(s, c, refs[0], now), c, refs[1..], now, r);
    }
  }

  lemma PurgeMember(s: State, now: real, r: Ref)
    ensures r in Purge(s, now).queue <==> r in s.queue && !CooledDown(s, r, now)
  {
    FilterMember(s.queue, (x: Ref) => !CooledDown(s, x, now), r);
  }

  /** A backed-off entry stays queued through a sweep or a restart exactly while its cooldown,
      counted from its last expired offer, lasts. */
  lemma CooldownExact(c: Config, steps: seq<Timed>, now: real, r: Ref)
    requires Monotone(steps)
    requires var s := Run(EMPTY, c, steps); r in s.queue && Get(s, r).status == BackedOff
    ensures var s := Run(EMPTY, c, steps);
            && |LogOf(s, r)| > 0
            && (r in GraceSweep(s, c, now).queue <==> now < LogOf(s, r)[|LogOf(s, r)| - 1].at + c.cooldown)
            && (r in Restart(s, c, now).queue <==> now < LogOf(s, r)[|LogOf(s, r)| - 1].at + c.cooldown)
  {
    RunPaced(c, steps);
    CooldownAt(Run(EMPTY, c, steps), c, Clock(steps), now, r);
  }

  lemma CooldownAt(s: State, c: Config, clock: real, now: real, r: Ref)
    requires AllPaced(c, Of(s), clock) && r in s.entries && r in s.queue && Get(s, r).status == BackedOff
    ensures |LogOf(s, r)| > 0
    ensures r in GraceSweep(s, c, now).queue <==> now < LogOf(s, r)[|LogOf(s, r)| - 1].at + c.cooldown
    ensures r in Restart(s, c, now).queue <==> now < LogOf(s, r)[|LogOf(s, r)| - 1].at + c.cooldown
  {
    assert Paced(c, At(Of(s).entries, r), Log(Of(s), r), clock);
    SweepSpares(s, c, now, r);
    RestartSpares(s, c, now, r);
  }

  lemma SweepSpares(s: State, c: Config, now: real, r: Ref)
    requires r in s.queue && Get(s, r).status == BackedOff
    ensures r in GraceSweep(s, c, now).queue <==> !CooledDown(s, r, now)
  {
    ExpireLapsedSpares(s, c, s.queue, now, r);
    PurgeMember(ExpireLapsed(s, c, s.queue, now), now, r);
  }

  lemma RestartSpares(s: State, c: Config, now: real, r: Ref)
    requires r in s.queue && Get(s, r).status == BackedOff
    ensures r in Restart(s, c, now).queue <==> !CooledDown(s, r, now)
  {
    var s0 := Reset(s);
    var s1 := PurgePools(s0, c, now);
    var s2 := Unstale(s1);
    FilterMember(s1.queue, StillQueued(s1), r);
    RestoreOffersSpares(s2, c, s2.queue, now, r);
    PurgeMember(RestoreOffers(s2, c, s2.queue, now), now, r);
  }
}
