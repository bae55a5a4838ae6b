/** The router with its tables updated in place; every method is proved against a step of
    RouterModel. Queue entries are records in `entries`, named by reference, because the reaper
    and the take path change entries that may have left the queue. */
module RouterService {
  import opened Wrappers
  import opened Fleet
  import opened RouterModel
  import opened RouterInvariants
  import RouterHistory
  import QueueIds

  lemma {:induction false} FilterAppend(q: seq<Ref>, r: Ref, p: Ref -> bool)
    ensures Filter(q + [r], p) == Filter(q, p) + if p(r) then [r] else []
  {
    if |q| == 0 {
      assert q + [r] == [r];
    } else {
      FilterAppend(q[1..], r, p);
      assert (q + [r])[1..] == q[1..] + [r];
    }
  }

  lemma {:induction false} FilterSame(q: seq<Ref>, p: Ref -> bool, same: Ref -> bool)
    requires forall r: Ref {:trigger p(r)} {:trigger same(r)} :: p(r) == same(r)
    ensures Filter(q, p) == Filter(q, same) && FirstSuch(q, p) == FirstSuch(q, same)
  {
    if |q| > 0 {
      FilterSame(q[1..], p, same);
    }
  }

  /** Loop over the items of a table, dropping the ones with value v. */
  method DropValue<K(==), V(==)>(m: map<K, V>, v: V) returns (rest: map<K, V>)
    ensures rest == map k | k in m && m[k] != v :: m[k]
  {
    rest := m;
    var todo := m.Keys;
    while todo != {}
      invariant todo <= m.Keys
      invariant forall k :: k in rest <==> k in m && (k in todo || m[k] != v)
      invariant forall k :: k in rest ==> rest[k] == m[k]
      decreases |todo|
    {
      var k :| k in todo;
      todo := todo - {k};
      if m[k] == v {
        rest := rest - {k};
      }
    }
  }

  /** Loop over the rows of a table, dropping the ones outside the pools. */
  method DropOutside<K(==)>(rows: map<K, Email>, inPool: K -> bool) returns (rest: map<K, Email>)
    ensures rest == Pooled(rows, inPool)
  {
    rest := rows;
    var todo := rows.Keys;
    while todo != {}
      invariant todo <= rows.Keys
      invariant forall k :: k in rest <==> k in rows && (k in todo || inPool(k))
      invariant forall k :: k in rest ==> rest[k] == rows[k]
      decreases |todo|
    {
      var k :| k in todo;
      todo := todo - {k};
      if !inPool(k) {
        rest := rest - {k};
      }
    }
  }

  /** What is left of the tables when the users of gone lost their slots. */
  ghost predicate Evicted<K>(users: map<Email, K>, slots: map<K, Email>, sessions: map<Email, Session>,
                             archives: map<Email, Archive>, gone: set<Email>, us: map<Email, K>,
                             sl: map<K, Email>, ss: map<Email, Session>,
                             ar: map<Email, Archive>, now: real)
  {
    && us == users - gone && ss == sessions - gone && sl == slots - Image(users, gone)
    && ar == (map e | e in gone :: Archive(now, Idle)) + archives
  }

  lemma EvictOne<K>(users: map<Email, K>, slots: map<K, Email>, sessions: map<Email, Session>,
                    archives: map<Email, Archive>, gone: set<Email>, us: map<Email, K>, sl: map<K, Email>,
                    ss: map<Email, Session>, ar: map<Email, Archive>, email: Email, now: real)
    requires email in users
    requires Evicted(users, slots, sessions, archives, gone, us, sl, ss, ar, now)
    ensures Evicted(users, slots, sessions, archives, gone + {email}, us - {email}, sl - {users[email]},
                    ss - {email},
                    if email in ar then ar else ar[email := Archive(now, Idle)], now)
  {
    assert users - gone - {email} == users - (gone + {email});
    assert sessions - gone - {email} == sessions - (gone + {email});
    assert Image(users, gone + {email}) == Image(users, gone) + {users[email]};
    assert slots - Image(users, gone) - {users[email]} == slots - Image(users, gone + {email});
    EvictArchive(archives, gone, ar, email, now);
  }

  lemma EvictArchive(archives: map<Email, Archive>, gone: set<Email>, ar: map<Email, Archive>, email: Email, now: real)
    requires ar == (map e | e in gone :: Archive(now, Idle)) + archives
    ensures (if email in ar then ar else ar[email := Archive(now, Idle)])
         == (map e | e in gone + {email} :: Archive(now, Idle)) + archives
  {
  }

  /** Loop over the users, taking back the assignments outside the pools. */
  method EvictOutside<K(==)>(users: map<Email, K>, slots: map<K, Email>, sessions: map<Email, Session>,
                             archives: map<Email, Archive>, inPool: K -> bool, now: real)
    returns (us: map<Email, K>, sl: map<K, Email>, ss: map<Email, Session>,
             ar: map<Email, Archive>)
    ensures Evicted(users, slots, sessions, archives, Outside(users, inPool), us, sl, ss, ar, now)
  {
    us, sl, ss, ar := users, slots, sessions, archives;
    var todo := users.Keys;
    ghost var gone: set<Email> := {};
    while todo != {}
      invariant todo <= users.Keys
      invariant forall e :: e in gone <==> e in users && e !in todo && !inPool(users[e])
      invariant Evicted(users, slots, sessions, archives, gone, us, sl, ss, ar, now)
      decreases |todo|
    {
      var email :| email in todo;
      todo := todo - {email};
      if !inPool(users[email]) {
        EvictOne(users, slots, sessions, archives, gone, us, sl, ss, ar, email, now);
        gone := gone + {email};
        us, sl, ss, ar := us - {email}, sl - {users[email]}, ss - {email},
          if email in ar then ar else ar[email := Archive(now, Idle)];
      }
    }
    assert gone == Outside(users, inPool);
  }

  /** Loop over the sessions, marking the overdue ones that are not marked yet. */
  method MarkLoop(sessions: map<Email, Session>, expiring: map<Email, int>, since: map<Email, real>, c: Config,
                  now: real)
    returns (marked: map<Email, int>, at: map<Email, real>)
    ensures forall e :: e in marked <==> e in expiring || (e in sessions && IsOverdue(sessions[e], c, now))
    ensures forall e :: e in at <==> e in since || (e in sessions && e !in expiring && IsOverdue(sessions[e], c, now))
    ensures forall e :: e in marked ==> marked[e] == if e in expiring then expiring[e] else sessions[e].slot
    ensures forall e :: e in at ==>
      at[e] == if e in sessions && e !in expiring && IsOverdue(sessions[e], c, now) then now else since[e]
  {
    marked, at := expiring, since;
    var todo := sessions.Keys;
    while todo != {}
      invariant todo <= sessions.Keys
      invariant forall e :: e in marked <==> e in expiring || (e in sessions - todo && IsOverdue(sessions[e], c, now))
      invariant forall e :: e in marked ==> marked[e] == if e in expiring then expiring[e] else sessions[e].slot
      invariant forall e :: e in at <==>
        e in since || (e in sessions - todo && e !in expiring && IsOverdue(sessions[e], c, now))
      invariant forall e :: e in at ==>
        at[e] == if e in sessions - todo && e !in expiring && IsOverdue(sessions[e], c, now) then now else since[e]
      decreases |todo|
    {
      var email :| email in todo;
      var ses := sessions[email];
      todo := todo - {email};
      if IsOverdue(ses, c, now) && email !in marked {
        marked := marked[email := ses.slot];
        at := at[email := now];
      }
    }
  }

  lemma MarkedDue(s: State, c: Config, now: real, marked: map<Email, int>, at: map<Email, real>)
    requires forall e :: e in marked <==> e in s.expiring || (e in s.sessions && IsOverdue(s.sessions[e], c, now))
    requires forall e :: e in at <==>
      e in s.since || (e in s.sessions && e !in s.expiring && IsOverdue(s.sessions[e], c, now))
    requires forall e :: e in marked ==> marked[e] == if e in s.expiring then s.expiring[e] else s.sessions[e].slot
    requires forall e :: e in at ==>
      at[e] == if e in s.sessions && e !in s.expiring && IsOverdue(s.sessions[e], c, now) then now else s.since[e]
    ensures marked == s.expiring + Overdue(s, c, now)
    ensures at == s.since + map e | e in Overdue(s, c, now) :: now
  {
    var due := Overdue(s, c, now);
    forall e: Email
      ensures e in due <==> e in s.sessions && e !in s.expiring && IsOverdue(s.sessions[e], c, now)
      ensures e in due ==> due[e] == s.sessions[e].slot
    {
    }
    assert marked == s.expiring + due;
    assert at == s.since + map e | e in due :: now;
  }

  predicate IsOverdue(x: Session, c: Config, now: real)
  {
    now - x.startedAt > MaxSession(c, x.tier)
  }

  lemma Recorded(c: Config, run: seq<Timed>, step: Step, now: real)
    ensures Run(EMPTY, c, run + [Timed(step, now)]) == Next(Run(EMPTY, c, run), c, step, now)
  {
    var more := run + [Timed(step, now)];
    assert more[..|more| - 1] == run;
  }

  /** What a step of a run keeps. */
  lemma Kept(c: Config, run: seq<Timed>, step: Step, now: real)
    ensures var s := Run(EMPTY, c, run);
            && Offers(Next(s, c, step, now), c)
            && (Occupancy(s) ==> (Occupancy(Next(s, c, step, now)) <==> Admissible(s, step)))
  {
    var s := Run(EMPTY, c, run);
    RunOffers(EMPTY, c, run);
    NextOffers(s, c, step, now);
    if Occupancy(s) {
      NextOccupancy(s, c, step, now);
    }
  }

  class Router {
    const c: Config
    var users: map<Email, int>
    var slots: map<int, Email>
    var sessions: map<Email, Session>
    var archives: map<Email, Archive>
    var queue: seq<Ref>
    var entries: Entries
    var last: nat
    var holds: map<int, Email>
    var expiring: map<Email, int>
    var since: map<Email, real>
    var quarantined: map<Email, Reason>
    var pending: seq<Candidate>
    var tick: real
    ghost var log: map<Ref, seq<Expiry>>
    ghost var run: seq<Timed>           // the steps performed so far

    ghost function View(): State
      reads this
    {
      State(users, slots, sessions, archives, queue, entries, last, holds, expiring, since, quarantined, pending,
            tick, log)
    }

    /** The state is that of the run so far, so whatever is proved of runs holds of this object. */
    ghost predicate Valid()
      reads this
    {
      View() == Run(EMPTY, c, run)
    }

    constructor (c: Config)
      ensures this.c == c && View() == EMPTY && Valid() && run == []
    {
      this.c := c;
      users, slots, sessions, archives := map[], map[], map[], map[];
      queue, entries, last := [], map[], 0;
      holds, expiring, since, quarantined := map[], map[], map[], map[];
      pending, tick, log, run := [], 0.0, map[], [];
    }

    // ---- lookups -----------------------------------------------------------

    method FreeSlot(lo: int, hi: int, heedHolds: bool) returns (found: Option<int>)
      ensures found == FirstFree(View(), lo, hi, heedHolds)
    {
      var k := lo;
      while k <= hi
        invariant FirstFree(View(), k, hi, heedHolds) == FirstFree(View(), lo, hi, heedHolds)
        decreases hi - k
      {
        if k !in slots && !(heedHolds && k in holds) {
          return Some(k);
        }
        k := k + 1;
      }
      return None;
    }

    method Find(p: Ref -> bool) returns (found: Option<Ref>)
      ensures found == FirstSuch(queue, p)
    {
      var i := 0;
      while i < |queue|
        invariant 0 <= i <= |queue|
        invariant FirstSuch(queue[i..], p) == FirstSuch(queue, p)
      {
        if p(queue[i]) {
          return Some(queue[i]);
        }
        i := i + 1;
      }
      return None;
    }

    method Keep(p: Ref -> bool)
      modifies this`queue
      ensures queue == Filter(old(queue), p)
    {
      var kept, i := [], 0;
      while i < |queue|
        invariant 0 <= i <= |queue| && queue == old(queue)
        invariant kept == Filter(queue[..i], p)
      {
        FilterAppend(queue[..i], queue[i], p);
        assert queue[..i + 1] == queue[..i] + [queue[i]];
        if p(queue[i]) {
          kept := kept + [queue[i]];
        }
        i := i + 1;
      }
      assert queue[..i] == queue;
      queue := kept;
    }

    // ---- assignment --------------------------------------------------------

    method AssignSlot(email: Email, k: int, now: real, tier: Tier)
      modifies this`users, this`slots, this`sessions
      ensures View() == Assign(old(View()), email, k, now, tier)
    {
      users := users[email := k];
      slots := slots[k := email];
      sessions := sessions[email := Session(k, now, tier)];
    }

    method TakeBack(email: Email, k: int)
      modifies this`users, this`slots, this`sessions
      ensures View() == Unassign(old(View()), email, k)
    {
      users := users - {email};
      slots := slots - {k};
      sessions := sessions - {email};
    }

    method HumanQueued() returns (some: bool)
      ensures some <==> FirstSuch(queue, HumanInPlay(View())).Some?
    {
      var es := entries;
      var p := (r: Ref) => At(es, r).tier == Human && (At(es, r).status == Waiting || At(es, r).status == Offered);
      var found := Find(p);
      FilterSame(queue, p, HumanInPlay(View()));
      return found.Some?;
    }

    method ResolveUser(email: Email, now: real) returns (slot: Option<int>, woke: bool)
      modifies this`users, this`slots, this`sessions, this`archives
      ensures Resolved(View(), slot, woke) == Resolve(old(View()), c, email, now)
    {
      if email in users {
        if email in quarantined {
          return None, false;
        }
        return Some(users[email]), false;
      }
      if email in archives && archives[email].reason == Idle {
        slot := FreeSlot(1, c.humanSlots, true);
        if slot.Some? {
          AssignSlot(email, slot.value, now, Human);
          archives := archives - {email};
        }
        return slot, slot.Some?;
      }
      if email in archives && archives[email].reason in {Expired, StreamDeadCap, RescueCap} {
        return None, false;
      }
      if !c.autoCreate {
        return None, false;
      }
      var queued := HumanQueued();
      if queued {
        return None, false;
      }
      slot := FreeSlot(1, c.humanSlots, true);
      if slot.Some? {
        AssignSlot(email, slot.value, now, Human);
      }
      return slot, slot.Some?;
    }

    method EnterUser(email: Email, now: real, ready: bool)
      modifies this`users, this`slots, this`sessions, this`archives
      ensures View() == Enter(old(View()), c, email, now, ready)
    {
      var slot, woke := ResolveUser(email, now);
      if woke && slot.Some? && !ready {
        TakeBack(email, slot.value);
        archives := archives[email := Archive(now, Idle)];
      }
    }

    method RollBack(email: Email, now: real)
      modifies this`users, this`slots, this`sessions, this`archives
      ensures View() == Unready(old(View()), email, now)
    {
      if email in users {
        TakeBack(email, users[email]);
        archives := archives[email := Archive(now, Idle)];
      }
    }

    // ---- the queue ---------------------------------------------------------

    method Push(tier: Tier, email: Email, priority: int, now: real, status: Status)
      modifies this`last, this`entries, this`queue, this`log
      ensures View() == Append(old(View()), tier, email, priority, now, status)
    {
      last := last + 1;
      entries := entries[last := Entry(QueueIds.Id(last), tier, email, priority, now, status, None, None, [], None)];
      queue := queue + [last];
      log := log[last := []];
    }

    method EnqueueHumanUser(email: Email, now: real)
      modifies this`last, this`entries, this`queue, this`log
      ensures View() == EnqueueHuman(old(View()), c, email, now)
    {
      var es := entries;
      var p := (r: Ref) => At(es, r).tier == Human && (At(es, r).status == Waiting || At(es, r).status == Offered)
                           && At(es, r).email == email;
      var found := Find(p);
      FilterSame(queue, p, HumanInPlayFor(View(), email));
      if found.None? {
        Push(Human, email, if email in c.admins then 1 else 0, now, Waiting);
      }
    }

    method EnqueueAgentCaller(email: Email, now: real)
      modifies this`users, this`slots, this`sessions, this`last, this`entries, this`queue, this`log
      ensures View() == EnqueueAgent(old(View()), c, email, now)
    {
      var slot := FreeSlot(c.humanSlots + 1, c.humanSlots + c.agentSlots, false);
      if slot.Some? {
        AssignSlot(email, slot.value, now, Agent);
        Push(Agent, email, 0, now, Active);
      } else {
        Push(Agent, email, 0, now, Waiting);
      }
    }

    method ReleaseHold(slot: Option<int>)
      modifies this`holds
      ensures View() == DropHold(old(View()), slot)
    {
      if slot.Some? {
        holds := holds - {slot.value};
      }
    }

    method LeaveQueue(r: Ref)
      modifies this`holds, this`entries, this`users, this`slots, this`sessions
      ensures View() == Leave(old(View()), r)
    {
      if r in queue {
        var e := At(entries, r);
        ReleaseHold(e.slot);
        entries := entries[r := e.(status := Left, slot := None, offerExpiresAt := None)];
        if e.email in users {
          TakeBack(e.email, users[e.email]);
        }
      }
    }

    method TimeOutAgent(r: Ref, now: real)
      modifies this`holds, this`queue, this`archives
      ensures View() == AgentTimeout(old(View()), c, r, now)
    {
      var e := At(entries, r);
      if r in queue && e.tier == Agent && e.status == Waiting && now - e.enqueuedAt >= c.agentTimeout {
        ReleaseHold(e.slot);
        var p, same := (x: Ref) => x != r, (x: Ref) => x != r;
        Keep(p);
        FilterSame(old(queue), p, same);
        archives := archives[e.email := Archive(now, QueueTimeout)];
      }
    }

    // ---- release -----------------------------------------------------------

    method DropEntriesOf(email: Email)
      modifies this`queue
      ensures View() == Unqueued(old(View()), email)
    {
      var es := entries;
      var p := (r: Ref) => At(es, r).email != email;
      FilterSame(queue, p, WithoutEmail(View(), email));
      Keep(p);
    }

    method Disconnect(user: Email)
      modifies this`users, this`slots, this`sessions, this`queue, this`holds
      ensures View() == Disconnected(old(View()), user)
    {
      if user in users {
        TakeBack(user, users[user]);
      }
      DropEntriesOf(user);
      holds := DropValue(holds, user);
    }

    method ForgetUser(email: Email)
      modifies this`expiring, this`since, this`quarantined
      ensures View() == Forget(old(View()), email)
    {
      expiring, since, quarantined := expiring - {email}, since - {email}, quarantined - {email};
    }

    method OfferPending(user: Email) returns (some: bool)
      ensures some <==> FirstSuch(queue, OfferedTo(View(), user)).Some?
    {
      var es := entries;
      var p := (r: Ref) => At(es, r).email == user && At(es, r).status == Offered;
      var offer := Find(p);
      FilterSame(queue, p, OfferedTo(View(), user));
      return offer.Some?;
    }

    method ReleaseUser(user: Email, given: Option<Reason>, now: real)
      modifies this`users, this`slots, this`sessions, this`queue, this`holds, this`archives, this`expiring, this`since,
               this`quarantined
      ensures View() == Release(old(View()), user, given, now)
    {
      var offered := OfferPending(user);
      var record := user in users || offered || user !in archives;
      Disconnect(user);
      var reason :=
        if user in quarantined then quarantined[user]
        else if given.Some? then given.value
        else if user in expiring then Expired
        else Idle;
      ForgetUser(user);
      if record {
        archives := archives[user := Archive(now, reason)];
      }
    }

    // ---- offers ------------------------------------------------------------

    method TrimExpiries(x: seq<Expiry>, from: real) returns (kept: seq<Expiry>)
      ensures kept == Recent(x, from)
    {
      kept := [];
      var i := |x|;
      while i > 0
        invariant 0 <= i <= |x|
        invariant kept == Recent(x[i..], from)
      {
        i := i - 1;
        if x[i].at >= from {
          kept := [x[i]] + kept;
        }
      }
    }

    method CountExpiries(x: seq<Expiry>, k: Option<int>) returns (n: nat)
      ensures n == CountOn(x, k)
    {
      n := 0;
      var i := |x|;
      while i > 0
        invariant 0 <= i <= |x|
        invariant n == CountOn(x[i..], k)
      {
        i := i - 1;
        if x[i].slot == k {
          n := n + 1;
        }
      }
    }

    method Lapse(e: Entry, now: real) returns (f: Entry)
      ensures f == Expire(c, e, now)
    {
      var kept := TrimExpiries(e.offerExpiries, now - c.window);
      var expiries := kept + [Expiry(e.slot, now)];
      var sameSlot := CountExpiries(expiries, e.slot);
      f := e.(offerExpiries := expiries, status := Waiting, enqueuedAt := now, offerExpiresAt := None, slot := None);
      if sameSlot >= c.threshold {
        f := f.(status := BackedOff, backedOffUntil := Some(now + c.cooldown));
      }
    }

    method ExpireOfferOf(r: Ref, now: real)
      modifies this`holds, this`entries, this`archives, this`log
      ensures View() == ExpireOffer(old(View()), c, r, now)
    {
      var e := At(entries, r);
      ReleaseHold(e.slot);
      var f := Lapse(e, now);
      entries := entries[r := f];
      archives := archives[e.email := Archive(now, OfferExpired)];
      log := log[r := (if r in log then log[r] else []) + [Expiry(e.slot, now)]];
    }

    method GrantSlot(r: Ref, k: int, now: real)
      modifies this`users, this`slots, this`sessions, this`holds, this`entries, this`archives, this`log
      ensures View() == Grant(old(View()), r, k, now)
    {
      var e := At(entries, r);
      AssignSlot(e.email, k, now, Human);
      entries := entries[r := e.(status := Active, offerExpiresAt := None, slot := None, offerExpiries := [],
                                 backedOffUntil := None)];
      holds := holds - {k};
      archives := archives - {e.email};
      log := log[r := []];
    }

    method OfferFor(email: Email) returns (found: Option<Ref>)
      ensures found == FirstSuch(queue, HumanOf(View(), email))
    {
      var es := entries;
      var p := (r: Ref) => At(es, r).tier == Human && At(es, r).email == email;
      found := Find(p);
      FilterSame(queue, p, HumanOf(View(), email));
    }

    method Open(email: Email, now: real, clean: bool, woke: bool)
      modifies this`users, this`slots, this`sessions, this`holds, this`entries, this`archives, this`log
      ensures View() == TakeOffer(old(View()), c, email, now, clean, woke)
    {
      var found := OfferFor(email);
      if found.None? {
        return;
      }
      var r, e := found.value, At(entries, found.value);
      if e.status != Offered {
        return;
      }
      if !(e.offerExpiresAt.Some? && e.offerExpiresAt.value > now
           && e.slot.Some? && e.slot.value in holds && holds[e.slot.value] == e.email) {
        ExpireOfferOf(r, now);
        return;
      }
      if clean {
        GrantSlot(r, e.slot.value, now);
        if !woke {
          TakeBack(email, e.slot.value);
          archives := archives[email := Archive(now, Idle)];
        }
      }
    }

    method SweepLapsed(now: real)
      modifies this`holds, this`entries, this`archives, this`log
      ensures View() == ExpireLapsed(old(View()), c, old(queue), now)
    {
      var i := 0;
      while i < |queue|
        invariant 0 <= i <= |queue|
        invariant ExpireLapsed(View(), c, queue[i..], now) == ExpireLapsed(old(View()), c, queue, now)
      {
        ghost var s := View();
        var r, e := queue[i], At(entries, queue[i]);
        assert queue[i..][0] == r && queue[i..][1..] == queue[i + 1..];
        if e.status == Offered && e.email !in users && !(e.offerExpiresAt.Some? && e.offerExpiresAt.value > now) {
          ExpireOfferOf(r, now);
        }
        i := i + 1;
      }
    }

    method PurgeBackedOff(now: real)
      modifies this`queue, this`archives
      ensures View() == Purge(old(View()), now)
    {
      var kept, i := [], 0;
      ghost var keep := (x: Ref) => !CooledDown(old(View()), x, now);
      while i < |queue|
        invariant 0 <= i <= |queue| && queue == old(queue)
        invariant kept == Filter(queue[..i], keep)
        invariant archives == Dropped(old(View()), queue[..i], now)
      {
        var r, e := queue[i], At(entries, queue[i]);
        FilterAppend(queue[..i], r, keep);
        assert queue[..i + 1] == queue[..i] + [r];
        if e.status == BackedOff && !(e.backedOffUntil.Some? && now < e.backedOffUntil.value) {
          archives := archives[e.email := Archive(now, BackedOffDropped)];
        } else {
          kept := kept + [r];
        }
        i := i + 1;
      }
      assert queue[..i] == queue;
      FilterSame(queue, keep, (x: Ref) => !CooledDown(old(View()), x, now));
      queue := kept;
    }

    method SweepGrace(now: real)
      modifies this`holds, this`entries, this`archives, this`log, this`queue
      ensures View() == GraceSweep(old(View()), c, now)
    {
      SweepLapsed(now);
      PurgeBackedOff(now);
    }

    // ---- the reaper --------------------------------------------------------

    method MarkOverdue(now: real)
      modifies this`expiring, this`since
      ensures View() == MarkExpiring(old(View()), c, now)
    {
      var marked, at := MarkLoop(sessions, expiring, since, c, now);
      MarkedDue(View(), c, now, marked, at);
      expiring, since := marked, at;
    }

    method SuspendRefused(email: Email)
      modifies this`expiring, this`since
      ensures View() == SuspendFailed(old(View()), email)
    {
      expiring, since := expiring - {email}, since - {email};
    }

    method ForceReleaseUser(email: Email, now: real)
      modifies this`users, this`slots, this`sessions, this`queue, this`archives, this`expiring, this`since,
               this`quarantined
      ensures View() == ForceRelease(old(View()), c, email, now)
    {
      if email in expiring && email in users && email in since && now - since[email] > c.releaseGrace {
        var reason := if email in quarantined then quarantined[email] else Expired;
        TakeBack(email, expiring[email]);
        DropEntriesOf(email);
        ForgetUser(email);
        archives := archives[email := Archive(now, reason)];
      }
    }

    method QuarantineUser(email: Email, reason: Reason, now: real)
      modifies this`quarantined, this`expiring, this`since
      ensures View() == Quarantine(old(View()), email, reason, now)
    {
      if email in users && email !in quarantined {
        quarantined := quarantined[email := reason];
        expiring := expiring[email := users[email]];
        since := since[email := now];
      }
    }

    method HeadOf(tier: Tier) returns (head: Option<Ref>)
      ensures head == Head(View(), queue, tier)
    {
      head := None;
      var i := |queue|;
      while i > 0
        invariant 0 <= i <= |queue|
        invariant head == Head(View(), queue[i..], tier)
      {
        i := i - 1;
        assert queue[i..][0] == queue[i] && queue[i..][1..] == queue[i + 1..];
        var e := At(entries, queue[i]);
        if e.tier == tier && e.status == Waiting && (head.None? || Before(e, At(entries, head.value))) {
          head := Some(queue[i]);
        }
      }
    }

    method OfferOut(tier: Tier) returns (some: bool)
      ensures some <==> FirstSuch(queue, OfferedIn(View(), tier)).Some?
    {
      var es := entries;
      var p := (r: Ref) => At(es, r).tier == tier && At(es, r).status == Offered;
      var found := Find(p);
      FilterSame(queue, p, OfferedIn(View(), tier));
      return found.Some?;
    }

    method CollectOffers(now: real)
      modifies this`pending, this`tick
      ensures View() == Collect(old(View()), c, now)
    {
      var found: seq<Candidate>, k := [], 0;
      while k < c.humanSlots + c.agentSlots
        invariant 0 <= k <= c.humanSlots + c.agentSlots
        invariant found == Candidates(View(), c, k) && View() == old(View())
      {
        k := k + 1;
        var tier := TierOf(c, k);
        var out := OfferOut(tier);
        var head := HeadOf(tier);
        assert Candidates(View(), c, k - 1) == found;
        if k !in slots && k !in holds && !out && head.Some? {
          found := found + [Candidate(k, head.value, At(entries, head.value).enqueuedAt, FirstOf(found, c, k))];
        }
      }
      assert found == Candidates(old(View()), c, c.humanSlots + c.agentSlots);
      pending, tick := found, now;
    }

    method CommitOffer(clean: bool)
      modifies this`pending, this`entries, this`holds
      ensures View() == Commit(old(View()), c, clean)
    {
      if |pending| == 0 {
        return;
      }
      var k, r := pending[0].slot, pending[0].ref;
      var e := At(entries, r);
      var out := OfferOut(e.tier);
      pending := pending[1..];
      if clean && k !in slots && k !in holds && e.status == Waiting && !out {
        entries := entries[r := e.(status := Offered, offerExpiresAt := Some(tick + c.offerGrace), slot := Some(k))];
        holds := holds[k := e.email];
      }
    }

    // ---- the sweep and the restart -----------------------------------------

    method WakeHinted(k: int, hint: Email, now: real, woke: bool)
      modifies this`users, this`slots, this`sessions, this`archives
      ensures View() == BootHint(old(View()), c, k, hint, now, woke)
    {
      if !InPool(c, k) || k in slots || k in holds || hint in users || hint in holds.Values {
        return;
      }
      AssignSlot(hint, k, now, Human);
      archives := archives - {hint};
      if !woke {
        TakeBack(hint, k);
        archives := archives[hint := Archive(now, Idle)];
      }
    }

    method EvictPools(now: real)
      modifies this`users, this`slots, this`sessions, this`archives
      ensures View() == PurgePools(old(View()), c, now)
    {
      users, slots, sessions, archives := EvictOutside(users, slots, sessions, archives, Pool(c), now);
      slots := DropOutside(slots, Pool(c));
    }

    method DropStale()
      modifies this`queue
      ensures View() == Unstale(old(View()))
    {
      var es, us := entries, users;
      var p := (r: Ref) => At(es, r).status != Left && !(At(es, r).status == Active && At(es, r).email !in us);
      FilterSame(queue, p, StillQueued(View()));
      Keep(p);
    }

    method ForgetMemory()
      modifies this`holds, this`expiring, this`since, this`quarantined, this`pending
      ensures View() == Reset(old(View()))
    {
      holds, expiring, since, quarantined, pending := map[], map[], map[], map[], [];
    }

    /** The boot of a new process on the persisted tables. */
    method Boot(now: real)
      modifies this`users, this`slots, this`sessions, this`archives, this`queue, this`entries, this`holds,
               this`expiring, this`since, this`quarantined, this`pending, this`log
      ensures View() == Restart(old(View()), c, now)
    {
      ForgetMemory();
      EvictPools(now);
      DropStale();
      RestoreOffersOf(now);
      PurgeBackedOff(now);
    }

    method RestoreOffersOf(now: real)
      modifies this`holds, this`entries, this`archives, this`log
      ensures View() == RestoreOffers(old(View()), c, old(queue), now)
    {
      var i := 0;
      while i < |queue|
        invariant 0 <= i <= |queue|
        invariant RestoreOffers(View(), c, queue[i..], now) == RestoreOffers(old(View()), c, queue, now)
      {
        ghost var s := View();
        var r, e := queue[i], At(entries, queue[i]);
        assert queue[i..][0] == r && queue[i..][1..] == queue[i + 1..];
        RouterHistory.RestoreOffersUnfolds(s, c, queue[i..], now);
        if e.status == Offered && e.slot.Some? {
          if e.offerExpiresAt.Some? && e.offerExpiresAt.value > now {
            holds := holds[e.slot.value := e.email];
          } else {
            ExpireOfferOf(r, now);
          }
        }
        assert View() == RestoreOne(s, c, r, now);
        i := i + 1;
      }
    }

    // ---- any request, any background step ----------------------------------

    method PerformUser(step: Step, now: real)
      requires step.StepEnter? || step.StepUnready? || step.StepRelease?
      modifies this
      ensures View() == Next(old(View()), c, step, now) && run == old(run)
    {
      match step
      case StepEnter(e, ready) => EnterUser(e, now, ready);
      case StepUnready(e) => RollBack(e, now);
      case StepRelease(e, given) => ReleaseUser(e, given, now);
    }

    method PerformGrant(step: Step, now: real)
      requires step.StepTake? || step.StepHint?
      modifies this
      ensures View() == Next(old(View()), c, step, now) && run == old(run)
    {
      match step
      case StepTake(e, clean, woke) => Open(e, now, clean, woke);
      case StepHint(k, e, woke) => WakeHinted(k, e, now, woke);
    }

    method PerformQueue(step: Step, now: real)
      requires QueueStep(step)
      modifies this
      ensures View() == Next(old(View()), c, step, now) && run == old(run)
    {
      match step
      case StepEnqueueHuman(e) => EnqueueHumanUser(e, now);
      case StepEnqueueAgent(e) => EnqueueAgentCaller(e, now);
      case StepLeave(r) => LeaveQueue(r);
      case StepAgentTimeout(r) => TimeOutAgent(r, now);
      case StepGraceSweep => SweepGrace(now);
    }

    method PerformBackground(step: Step, now: real)
      requires step.StepRestart? || !(UserStep(step) || QueueStep(step))
      modifies this
      ensures View() == Next(old(View()), c, step, now) && run == old(run)
    {
      match step
      case StepMarkExpiring => MarkOverdue(now);
      case StepSuspendFailed(e) => SuspendRefused(e);
      case StepForceRelease(e) => ForceReleaseUser(e, now);
      case StepQuarantine(e, reason) => QuarantineUser(e, reason, now);
      case StepCollect => CollectOffers(now);
      case StepCommit(clean) => CommitOffer(clean);
      case StepRestart => Boot(now);
    }

    /** Whatever is performed, in any order, the offer protocol holds, and the occupancy tables hold
        until a step takes back an assignment whose expiry is pending. */
    method Perform(step: Step, now: real)
      requires Valid()
      modifies this
      ensures Valid() && run == old(run) + [Timed(step, now)]
      ensures Offers(View(), c)
      ensures old(Occupancy(View())) ==> (Occupancy(View()) <==> old(Admissible(View(), step)))
    {
      Recorded(c, run, step, now);
      Kept(c, run, step, now);
      if step.StepEnter? || step.StepUnready? || step.StepRelease? {
        PerformUser(step, now);
      } else if step.StepTake? || step.StepHint? {
        PerformGrant(step, now);
      } else if QueueStep(step) {
        PerformQueue(step, now);
      } else {
        PerformBackground(step, now);
      }
      run := run + [Timed(step, now)];
    }
  }
}
