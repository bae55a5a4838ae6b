/** What becomes of a click on Open Browser, of an offer that runs out, of a ticket that is given
    back, and of a request by somebody who has a slot. */
module RouterTakes {
  import opened Wrappers
  import opened Fleet
  import opened RouterModel
  import opened RouterInvariants
  import opened RouterHistory
  import opened RouterAdmission
  import opened RouterOffers
  import opened RouterClocks

  // ---- taking an offer -----------------------------------------------------

  /** Entry i of the queue is the first of this human. */
  ghost predicate FirstEntry(s: State, e: Email, i: nat)
  {
    && i < |s.queue| && Get(s, s.queue[i]).tier == Human && Get(s, s.queue[i]).email == e
    && forall j :: 0 <= j < i ==> !(Get(s, s.queue[j]).tier == Human && Get(s, s.queue[j]).email == e)
  }

  lemma {:induction false} FirstSuchAt(q: seq<Ref>, p: Ref -> bool, i: nat)
    requires i < |q| && p(q[i]) && forall j :: 0 <= j < i ==> !p(q[j])
    ensures FirstSuch(q, p) == Some(q[i])
    decreases i
  {
    if i > 0 {
      assert !p(q[0]);
      FirstSuchAt(q[1..], p, i - 1);
    }
  }

  /** The offer of this entry has not run out. */
  predicate Lasts(x: Entry, now: real)
  {
    x.status == Offered && x.offerExpiresAt.Some? && now < x.offerExpiresAt.value
  }

  /** What a click does, by the first entry of the human. */
  datatype Outcome = Ignored | RanOut | NotClean | Taken | TakenBack

  function ClickOn(x: Entry, now: real, clean: bool, woke: bool): Outcome
  {
    if x.status != Offered then Ignored
    else if !Lasts(x, now) then RanOut
    else if !clean then NotClean
    else if woke then Taken
    else TakenBack
  }

  ghost predicate Done(s: State, t: State, c: Config, r: Ref, e: Email, now: real, o: Outcome)
    requires o.RanOut? || o.Taken? || o.TakenBack? ==> Get(s, r).slot.Some?
  {
    match o
    case Ignored => t == s
    case NotClean => t == s
    case RanOut =>
      && t.users == s.users && Get(t, r) == Expire(c, Get(s, r), now) && Get(s, r).slot.value !in t.holds
      && e in t.archives && t.archives[e] == Archive(now, OfferExpired)
    case Taken =>
      && Began(t, e, now, Human) && t.users[e] == Get(s, r).slot.value && Get(t, r).status == Active
      && Get(t, r).slot == None && t.users[e] !in t.holds && e !in t.archives
    case TakenBack =>
      && e !in t.users && e !in t.sessions && IdleArchive(t, e) && Get(t, r).status == Active
      && Get(s, r).slot.value !in t.holds && Get(s, r).slot.value !in t.slots
  }

  lemma OfferHeld(s: State, c: Config, r: Ref, now: real)
    requires Offers(s, c) && r in s.queue && IsOffered(s.entries, r)
    ensures Get(s, r).slot.Some? && (OfferValid(s, Get(s, r), now) <==> Lasts(Get(s, r), now))
  {
    assert HeldFor(s.entries, s.holds, r);
  }

  /** A click is decided by the first entry of its human: nothing happens unless that is an offer;
      one that ran out expires; one that lasts is taken if the slot is clean and wakes, taken back
      if it does not wake, and left alone if it is not clean. */
  lemma TakeAnswers(s: State, c: Config, e: Email, now: real, clean: bool, woke: bool, i: nat)
    requires Offers(s, c) && FirstEntry(s, e, i)
    ensures var r := s.queue[i];
            var o := ClickOn(Get(s, r), now, clean, woke);
            && (o.RanOut? || o.Taken? || o.TakenBack? ==> Get(s, r).slot.Some?)
            && Done(s, TakeOffer(s, c, e, now, clean, woke), c, r, e, now, o)
  {
    var r := s.queue[i];
    forall j | 0 <= j < i
      ensures !HumanOf(s, e)(s.queue[j])
    {
    }
    FirstSuchAt(s.queue, HumanOf(s, e), i);
    TakeIsClick(s, c, e, now, clean, woke, r);
    if IsOffered(s.entries, r) {
      OfferHeld(s, c, r, now);
      if !Lasts(Get(s, r), now) {
        RanOutDone(s, c, r, now);
      } else if clean {
        TakenDone(s, c, r, now, woke);
      }
    }
  }

  lemma TakeIsClick(s: State, c: Config, e: Email, now: real, clean: bool, woke: bool, r: Ref)
    requires FirstSuch(s.queue, HumanOf(s, e)) == Some(r)
    ensures TakeOffer(s, c, e, now, clean, woke)
         == if Get(s, r).status != Offered then s
            else if !OfferValid(s, Get(s, r), now) then ExpireOffer(s, c, r, now)
            else if !clean then s
            else TakeCommit(s, r, Get(s, r).slot.value, e, now, woke)
  {
  }

  lemma RanOutDone(s: State, c: Config, r: Ref, now: real)
    requires Get(s, r).slot.Some?
    ensures Done(s, ExpireOffer(s, c, r, now), c, r, Get(s, r).email, now, RanOut)
  {
    ExpireOfferTables(s, c, r, now);
    ExpireOfferDrops(s, c, r, now);
  }

  lemma ExpireOfferDrops(s: State, c: Config, r: Ref, now: real)
    requires Get(s, r).slot.Some?
    ensures var t := ExpireOffer(s, c, r, now);
            && t.holds == s.holds - {Get(s, r).slot.value}
            && t.archives == s.archives[Get(s, r).email := Archive(now, OfferExpired)]
  {
  }

  lemma TakenDone(s: State, c: Config, r: Ref, now: real, woke: bool)
    requires Get(s, r).slot.Some?
    ensures var k := Get(s, r).slot.value;
            Done(s, TakeCommit(s, r, k, Get(s, r).email, now, woke), c, r, Get(s, r).email, now,
                 if woke then Taken else TakenBack)
  {
    var k := Get(s, r).slot.value;
    TakeCommitShape(s, r, k, now, woke);
    TakeCommitArchives(s, r, k, now, woke);
  }

  lemma TakeCommitArchives(s: State, r: Ref, k: int, now: real, woke: bool)
    ensures var e := Get(s, r).email;
            var a := TakeCommit(s, r, k, e, now, woke).archives;
            && (woke ==> e !in a)
            && (!woke ==> e in a && a[e] == Archive(now, Idle))
  {
  }

  // ---- an offer that runs out ----------------------------------------------

  /** The expired offers of one slot since a time. */
  function Since(x: seq<Expiry>, k: Option<int>, from: real): set<nat>
  {
    set i: nat | i < |x| && x[i].slot == k && x[i].at >= from
  }

  lemma {:induction false} CountSince(x: seq<Expiry>, k: Option<int>, from: real)
    ensures CountOn(Recent(x, from), k) == |Since(x, k, from)|
    decreases |x|
  {
    if |x| > 0 {
      var front, last := x[..|x| - 1], x[|x| - 1];
      assert front + [last] == x;
      CountSince(front, k, from);
      RecentAppend(front, last, from);
      if last.at >= from {
        CountAppend(Recent(front, from), last, k);
      } else {
        assert Recent(front, from) + [] == Recent(front, from);
      }
      SinceLast(front, last, k, from);
    }
  }

  lemma SinceLast(front: seq<Expiry>, last: Expiry, k: Option<int>, from: real)
    ensures |Since(front + [last], k, from)|
         == |Since(front, k, from)| + if last.slot == k && last.at >= from then 1 else 0
  {
    var x := front + [last];
    var before := Since(front, k, from);
    if last.slot == k && last.at >= from {
      assert Since(x, k, from) == before + {|front|};
    } else {
      assert Since(x, k, from) == before;
    }
  }

  /** Whoever lets an offer run out waits again as if just come, and is backed off exactly when the
      offers of this slot that ran out within the window, this one among them, reach the
      threshold. */
  lemma ExpireExact(c: Config, e: Entry, now: real)
    ensures var f := Expire(c, e, now);
            && (f.status == BackedOff <==> |Since(e.offerExpiries, e.slot, now - c.window)| + 1 >= c.threshold)
            && (f.status != BackedOff ==> f.status == Waiting && f.backedOffUntil == e.backedOffUntil)
            && (f.status == BackedOff ==> f.backedOffUntil == Some(now + c.cooldown))
            && f.enqueuedAt == now && f.slot == None && f.offerExpiresAt == None
            && f.email == e.email && f.tier == e.tier && f.priority == e.priority
  {
    CountSince(e.offerExpiries, e.slot, now - c.window);
    CountAppend(Recent(e.offerExpiries, now - c.window), Expiry(e.slot, now), e.slot);
  }

  // ---- leaving -------------------------------------------------------------

  /** Leaving gives everything back: the entry is no longer in play, a hold for it ends, and its
      email has no slot; no other entry changes. */
  lemma LeaveGivesBack(s: State, r: Ref, x: Ref)
    requires r in s.queue
    ensures var t, e := Leave(s, r), Get(s, r);
            && Get(t, r).status == Left && Get(t, r).slot == None && Get(t, r).offerExpiresAt == None
            && (e.slot.Some? ==> e.slot.value !in t.holds) && e.email !in t.users
            && (e.email in s.users ==> e.email !in t.sessions && s.users[e.email] !in t.slots)
            && (x != r ==> Get(t, x) == Get(s, x)) && t.queue == s.queue && t.archives == s.archives
  {
    LeaveShape(s, r);
    DepartedTables(s, r);
    WithdrawnTables(Departed(s, r), Get(s, r).email);
  }

  lemma DepartedTables(s: State, r: Ref)
    ensures var t, e := Departed(s, r), Get(s, r);
            && t.users == s.users && t.sessions == s.sessions && t.slots == s.slots && t.queue == s.queue
            && t.archives == s.archives && (e.slot.Some? ==> t.holds == s.holds - {e.slot.value})
            && t.entries == s.entries[r := e.(status := Left, slot := None, offerExpiresAt := None)]
  {
  }

  lemma WithdrawnTables(s: State, e: Email)
    ensures var t := Withdrawn(s, e);
            && e !in t.users && t.queue == s.queue && t.entries == s.entries && t.holds == s.holds
            && t.archives == s.archives && (e in s.users ==> e !in t.sessions && s.users[e] !in t.slots)
  {
  }

  // ---- a request by somebody who has a slot --------------------------------

  /** An assigned user is sent to that slot, unless quarantined, and nothing changes; whoever gets
      no slot is not changed either. */
  lemma ResolveAnswers(s: State, c: Config, e: Email, now: real)
    ensures var r := Resolve(s, c, e, now);
            && (e in s.users ==> r.state == s && !r.woke
                                 && r.slot == if e in s.quarantined then None else Some(s.users[e]))
            && (e !in s.users && r.slot.None? ==> r.state == s)
            && (e !in s.users ==> (r.woke <==> r.slot.Some?))
  {
  }

  lemma ResolveConsumes(s: State, c: Config, e: Email, now: real)
    requires e !in s.users && Resolve(s, c, e, now).slot.Some?
    ensures var t := Resolve(s, c, e, now).state;
            !IdleArchive(t, e) && (!IdleArchive(s, e) ==> t.archives == s.archives)
  {
  }
}
