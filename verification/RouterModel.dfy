/** The fleet router as a state and one step for each locked section of its handlers, its sweep
    and its reaper. Times and slot replies are inputs. */
module RouterModel {
  import opened Wrappers
  import opened Fleet
  import QueueIds

  /** Identity of a queue entry: the number its id spells. */
  type Ref = nat

  datatype Reason =
    | Idle | Expired | Released | OfferExpired | QueueTimeout | BackedOffDropped | RescueCap | StreamDeadCap

  datatype Archive = Archive(at: real, reason: Reason)

  datatype Session = Session(slot: int, startedAt: real, tier: Tier)

  /** A slot and the head of its tier, as the reaper collected them. `seen` is the enqueue time
      at that moment and `first` marks the first candidate of its tier in the tick; the code
      keeps neither, statements about fairness use them. */
  datatype Candidate = Candidate(slot: int, ref: Ref, seen: real, first: bool)

  datatype Config = Config(
    humanSlots: nat, agentSlots: nat, autoCreate: bool, humanMax: real, agentMax: real,
    offerGrace: real, releaseGrace: real, window: real, threshold: int, cooldown: real,
    agentTimeout: real, admins: set<Email>)

  datatype State = State(
    users: map<Email, int>,
    slots: map<int, Email>,
    sessions: map<Email, Session>,
    archives: map<Email, Archive>,
    queue: seq<Ref>,
    entries: Entries,                  // every entry object, also those no longer queued
    last: nat,                         // queue_seq
    holds: map<int, Email>,
    expiring: map<Email, int>,
    since: map<Email, real>,
    quarantined: map<Email, Reason>,
    pending: seq<Candidate>,           // the reaper's list between collect and commit
    tick: real,                        // the time at which the reaper's tick began
    log: map<Ref, seq<Expiry>>)        // history: every expired offer since the last take

  const NO_ENTRY := Entry("", Human, "", 0, 0.0, Left, None, None, [], None)

  type Entries = map<Ref, Entry>

  function At(entries: Entries, r: Ref): Entry
  {
    if r in entries then entries[r] else NO_ENTRY
  }

  function Get(s: State, r: Ref): Entry
  {
    At(s.entries, r)
  }

  function TierOf(c: Config, k: int): Tier
  {
    if c.humanSlots < k <= c.humanSlots + c.agentSlots then Agent else Human
  }

  function MaxSession(c: Config, t: Tier): real
  {
    if t == Human then c.humanMax else c.agentMax
  }

  function Filter(q: seq<Ref>, p: Ref -> bool): seq<Ref>
  {
    if |q| == 0 then []
    else if p(q[0]) then [q[0]] + Filter(q[1..], p)
    else Filter(q[1..], p)
  }

  /** The first queued entry satisfying p. */
  function FirstSuch(q: seq<Ref>, p: Ref -> bool): (r: Option<Ref>)
    ensures r.Some? ==> r.value in q && p(r.value)
    ensures r.None? ==> forall x :: x in q ==> !p(x)
  {
    if |q| == 0 then None
    else if p(q[0]) then Some(q[0])
    else FirstSuch(q[1..], p)
  }

  // ---- assignment ----------------------------------------------------------

  /** The first slot from k to hi without a row and, if asked, without a hold. */
  function FirstFree(s: State, k: int, hi: int, heedHolds: bool): (r: Option<int>)
    ensures r.Some? ==> k <= r.value <= hi && r.value !in s.slots && (heedHolds ==> r.value !in s.holds)
    ensures r.None? ==> forall j :: k <= j <= hi ==> j in s.slots || (heedHolds && j in s.holds)
    decreases hi - k
  {
    if k > hi then None
    else if k !in s.slots && !(heedHolds && k in s.holds) then Some(k)
    else FirstFree(s, k + 1, hi, heedHolds)
  }

  function Assign(s: State, email: Email, k: int, now: real, tier: Tier): State
  {
    s.(users := s.users[email := k],
       slots := s.slots[k := email],
       sessions := s.sessions[email := Session(k, now, tier)])
  }

  function Unassign(s: State, email: Email, k: int): State
  {
    s.(users := s.users - {email}, slots := s.slots - {k}, sessions := s.sessions - {email})
  }

  /** Without the user's assignment, if there is one. */
  function Withdrawn(s: State, email: Email): State
  {
    if email in s.users then Unassign(s, email, s.users[email]) else s
  }

  function Rearchive(s: State, email: Email, now: real, reason: Reason): State
  {
    s.(archives := s.archives[email := Archive(now, reason)])
  }

  /** The slot given to a caller, if any, and whether it was assigned just now. */
  datatype Resolved = Resolved(state: State, slot: Option<int>, woke: bool)

  function HumanInPlay(s: State): Ref -> bool
  {
    (r: Ref) => Get(s, r).tier == Human && (Get(s, r).status == Waiting || Get(s, r).status == Offered)
  }

  predicate IdleArchive(s: State, email: Email)
  {
    email in s.archives && s.archives[email].reason == Idle
  }

  /** Whose archive bars a fresh assignment until the queue grants one. */
  predicate Barred(s: State, email: Email)
  {
    && email in s.archives
    && (s.archives[email].reason == Expired || s.archives[email].reason == StreamDeadCap
        || s.archives[email].reason == RescueCap)
  }

  /** An unassigned caller may get a free slot: to resume an idle session, or, when sessions are
      created on demand, while no human is queued. */
  predicate MayAssign(s: State, c: Config, email: Email)
  {
    || IdleArchive(s, email)
    || (!Barred(s, email) && c.autoCreate && FirstSuch(s.queue, HumanInPlay(s)).None?)
  }

  function Resolve(s: State, c: Config, email: Email, now: real): Resolved
  {
    if email in s.users then
      if email in s.quarantined then Resolved(s, None, false)
      else Resolved(s, Some(s.users[email]), false)
    else if !MayAssign(s, c, email) then Resolved(s, None, false)
    else
      match FirstFree(s, 1, c.humanSlots, true)
      case None => Resolved(s, None, false)
      case Some(k) =>
        var t := Assign(s, email, k, now, Human);
        Resolved(if IdleArchive(s, email) then t.(archives := t.archives - {email}) else t, Some(k), true)
  }

  /** An entry request: resolve, and take a fresh assignment back when the slot did not wake. */
  function Enter(s: State, c: Config, email: Email, now: real, ready: bool): State
  {
    var r := Resolve(s, c, email, now);
    if r.woke && r.slot.Some? && !ready then Rearchive(Unassign(r.state, email, r.slot.value), email, now, Idle)
    else r.state
  }

  /** The slot of an assigned user is not usable: the assignment is taken back. */
  function Unready(s: State, email: Email, now: real): State
  {
    if email in s.users then Rearchive(Unassign(s, email, s.users[email]), email, now, Idle) else s
  }

  // ---- the queue -----------------------------------------------------------

  /** A new entry under the next id, at the end of the queue. */
  function Append(s: State, tier: Tier, email: Email, priority: int, now: real, status: Status): State
  {
    var r := s.last + 1;
    s.(last := r,
       entries := s.entries[r := Entry(QueueIds.Id(r), tier, email, priority, now, status, None, None, [], None)],
       queue := s.queue + [r],
       log := s.log[r := []])
  }

  function HumanInPlayFor(s: State, email: Email): Ref -> bool
  {
    (r: Ref) => Get(s, r).tier == Human && (Get(s, r).status == Waiting || Get(s, r).status == Offered)
                && Get(s, r).email == email
  }

  function EnqueueHuman(s: State, c: Config, email: Email, now: real): State
  {
    if FirstSuch(s.queue, HumanInPlayFor(s, email)).Some? then s
    else Append(s, Human, email, if email in c.admins then 1 else 0, now, Waiting)
  }

  /** The instant grant looks at slot rows only, not at holds. */
  function EnqueueAgent(s: State, c: Config, email: Email, now: real): State
  {
    match FirstFree(s, c.humanSlots + 1, c.humanSlots + c.agentSlots, false)
    case Some(k) => Append(Assign(s, email, k, now, Agent), Agent, email, 0, now, Active)
    case None => Append(s, Agent, email, 0, now, Waiting)
  }

  function DropHold(s: State, slot: Option<int>): State
  {
    if slot.Some? then s.(holds := s.holds - {slot.value}) else s
  }

  function SetEntry(s: State, r: Ref, e: Entry): State
  {
    s.(entries := s.entries[r := e])
  }

  function Leave(s: State, r: Ref): State
  {
    if r !in s.queue then s
    else
      var e := Get(s, r);
      Withdrawn(SetEntry(DropHold(s, e.slot), r, e.(status := Left, slot := None, offerExpiresAt := None)), e.email)
  }

  /** A waiting agent past its deadline leaves the queue. */
  function AgentTimeout(s: State, c: Config, r: Ref, now: real): State
  {
    var e := Get(s, r);
    if r !in s.queue || e.tier != Agent || e.status != Waiting || now - e.enqueuedAt < c.agentTimeout then s
    else
      var t := DropHold(s, e.slot);
      Rearchive(t.(queue := Filter(t.queue, (x: Ref) => x != r)), e.email, now, QueueTimeout)
  }

  // ---- release -------------------------------------------------------------

  function ReleaseReason(s: State, user: Email, given: Option<Reason>): Reason
  {
    if user in s.quarantined then s.quarantined[user]
    else if given.Some? then given.value
    else if user in s.expiring then Expired
    else Idle
  }

  function WithoutEmail(s: State, email: Email): Ref -> bool
  {
    (r: Ref) => Get(s, r).email != email
  }

  function OfferedTo(s: State, email: Email): Ref -> bool
  {
    (r: Ref) => Get(s, r).email == email && Get(s, r).status == Offered
  }

  function Forget(s: State, email: Email): State
  {
    s.(expiring := s.expiring - {email}, since := s.since - {email}, quarantined := s.quarantined - {email})
  }

  function HoldsWithout(holds: map<int, Email>, user: Email): map<int, Email>
  {
    map k | k in holds && holds[k] != user :: holds[k]
  }

  /** Without the user's queue entries. */
  function Unqueued(s: State, user: Email): State
  {
    s.(queue := Filter(s.queue, WithoutEmail(s, user)))
  }

  /** Without the user's assignment, queue entries and holds. */
  function Disconnected(s: State, user: Email): State
  {
    Unqueued(Withdrawn(s, user), user).(holds := HoldsWithout(s.holds, user))
  }

  function Release(s: State, user: Email, given: Option<Reason>, now: real): State
  {
    var reason := ReleaseReason(s, user, given);
    var record := user in s.users || FirstSuch(s.queue, OfferedTo(s, user)).Some? || user !in s.archives;
    var u := Forget(Disconnected(s, user), user);
    if record then Rearchive(u, user, now, reason) else u
  }

  // ---- offers --------------------------------------------------------------

  function Recent(x: seq<Expiry>, from: real): seq<Expiry>
  {
    if |x| == 0 then []
    else if x[0].at >= from then [x[0]] + Recent(x[1..], from)
    else Recent(x[1..], from)
  }

  function CountOn(x: seq<Expiry>, k: Option<int>): nat
  {
    if |x| == 0 then 0 else (if x[0].slot == k then 1 else 0) + CountOn(x[1..], k)
  }

  /** What an expired offer makes of its entry. */
  function Expire(c: Config, e: Entry, now: real): Entry
  {
    var expiries := Recent(e.offerExpiries, now - c.window) + [Expiry(e.slot, now)];
    var f := e.(offerExpiries := expiries, status := Waiting, enqueuedAt := now, offerExpiresAt := None, slot := None);
    if CountOn(expiries, e.slot) >= c.threshold then f.(status := BackedOff, backedOffUntil := Some(now + c.cooldown))
    else f
  }

  function LogOf(s: State, r: Ref): seq<Expiry>
  {
    if r in s.log then s.log[r] else []
  }

  function ExpireOffer(s: State, c: Config, r: Ref, now: real): State
  {
    var e := Get(s, r);
    var t := DropHold(s, e.slot);
    var u := t.(log := t.log[r := LogOf(t, r) + [Expiry(e.slot, now)]]);
    Rearchive(SetEntry(u, r, Expire(c, e, now)), e.email, now, OfferExpired)
  }

  function HumanOf(s: State, email: Email): Ref -> bool
  {
    (r: Ref) => Get(s, r).tier == Human && Get(s, r).email == email
  }

  predicate OfferValid(s: State, e: Entry, now: real)
  {
    && e.offerExpiresAt.Some? && e.offerExpiresAt.value > now
    && e.slot.Some? && e.slot.value in s.holds && s.holds[e.slot.value] == e.email
  }

  function Grant(s: State, r: Ref, k: int, now: real): State
  {
    var e := Get(s, r);
    var f := e.(status := Active, offerExpiresAt := None, slot := None, offerExpiries := [], backedOffUntil := None);
    var t := SetEntry(Assign(s, e.email, k, now, Human), r, f);
    t.(holds := t.holds - {k}, archives := t.archives - {e.email}, log := t.log[r := []])
  }

  /** The second locked section of a take, after the offer was found valid and the slot was probed:
      it grants without a second look, and takes the grant back when the slot does not wake. */
  function TakeCommit(s: State, r: Ref, k: int, email: Email, now: real, woke: bool): State
  {
    var t := Grant(s, r, k, now);
    if woke then t else Rearchive(Unassign(t, email, k), email, now, Idle)
  }

  /** The Open Browser click of an offered user: the slot is taken, refused, or the offer has
      run out. A take whose slot does not wake is rolled back. */
  function TakeOffer(s: State, c: Config, email: Email, now: real, clean: bool, woke: bool): State
  {
    match FirstSuch(s.queue, HumanOf(s, email))
    case None => s
    case Some(r) =>
      var e := Get(s, r);
      if e.status != Offered then s
      else if !OfferValid(s, e, now) then ExpireOffer(s, c, r, now)
      else if !clean then s
      else TakeCommit(s, r, e.slot.value, email, now, woke)
  }

  predicate Lapsed(s: State, r: Ref, now: real)
  {
    var e := Get(s, r);
    e.status == Offered && e.email !in s.users && !(e.offerExpiresAt.Some? && e.offerExpiresAt.value > now)
  }

  /** The offers among refs that ran out. */
  function ExpireLapsed(s: State, c: Config, refs: seq<Ref>, now: real): State
    decreases |refs|
  {
    if |refs| == 0 then s
    else
      var t := if Lapsed(s, refs[0], now) then ExpireOffer(s, c, refs[0], now) else s;
      ExpireLapsed(t, c, refs[1..], now)
  }

  predicate CooledDown(s: State, r: Ref, now: real)
  {
    var e := Get(s, r);
    e.status == BackedOff && !(e.backedOffUntil.Some? && now < e.backedOffUntil.value)
  }

  function Dropped(s: State, refs: seq<Ref>, now: real): map<Email, Archive>
  {
    if |refs| == 0 then s.archives
    else
      var a := Dropped(s, refs[..|refs| - 1], now);
      var r := refs[|refs| - 1];
      if CooledDown(s, r, now) then a[Get(s, r).email := Archive(now, BackedOffDropped)] else a
  }

  /** Entries whose cooldown is over leave the queue. */
  function Purge(s: State, now: real): State
  {
    s.(queue := Filter(s.queue, (x: Ref) => !CooledDown(s, x, now)), archives := Dropped(s, s.queue, now))
  }

  function GraceSweep(s: State, c: Config, now: real): State
  {
    Purge(ExpireLapsed(s, c, s.queue, now), now)
  }

  // ---- the reaper ----------------------------------------------------------

  function Overdue(s: State, c: Config, now: real): map<Email, int>
  {
    map e | e in s.sessions && now - s.sessions[e].startedAt > MaxSession(c, s.sessions[e].tier) && e !in s.expiring
      :: s.sessions[e].slot
  }

  function MarkExpiring(s: State, c: Config, now: real): State
  {
    var due := Overdue(s, c, now);
    s.(expiring := s.expiring + due, since := s.since + (map e | e in due :: now))
  }

  /** The slot refused the suspend: retried at the next tick. */
  function SuspendFailed(s: State, email: Email): State
  {
    s.(expiring := s.expiring - {email}, since := s.since - {email})
  }

  function ForceRelease(s: State, c: Config, email: Email, now: real): State
  {
    if email !in s.expiring || email !in s.users then s
    else if email !in s.since || now - s.since[email] <= c.releaseGrace then s
    else
      var t := Unassign(s, email, s.expiring[email]);
      var reason := if email in s.quarantined then s.quarantined[email] else Expired;
      Rearchive(Forget(Unqueued(t, email), email), email, now, reason)
  }

  /** The rescue budget of an assignment is spent. */
  function Quarantine(s: State, email: Email, reason: Reason, now: real): State
  {
    if email !in s.users || email in s.quarantined then s
    else
      s.(quarantined := s.quarantined[email := reason],
         expiring := s.expiring[email := s.users[email]],
         since := s.since[email := now])
  }

  function OfferedIn(s: State, tier: Tier): Ref -> bool
  {
    (r: Ref) => Get(s, r).tier == tier && Get(s, r).status == Offered
  }

  predicate WaitsIn(s: State, r: Ref, tier: Tier)
  {
    Get(s, r).tier == tier && Get(s, r).status == Waiting
  }

  /** The waiting entry of a tier that comes first in queue order; the earlier one in the queue
      when two have the same key. */
  function Head(s: State, q: seq<Ref>, tier: Tier): (r: Option<Ref>)
    ensures r.Some? ==> r.value in q && WaitsIn(s, r.value, tier)
    ensures r.Some? ==> forall x :: x in q && WaitsIn(s, x, tier) ==> Before(Get(s, r.value), Get(s, x))
    ensures r.None? ==> forall x :: x in q ==> !WaitsIn(s, x, tier)
  {
    if |q| == 0 then None
    else
      var rest := Head(s, q[1..], tier);
      if !WaitsIn(s, q[0], tier) then rest
      else if rest.None? || Before(Get(s, q[0]), Get(s, rest.value)) then Some(q[0])
      else rest
  }

  predicate FirstOf(found: seq<Candidate>, c: Config, k: int)
  {
    forall i :: 0 <= i < |found| ==> TierOf(c, found[i].slot) != TierOf(c, k)
  }

  /** The candidates of the slots up to hi. */
  function Candidates(s: State, c: Config, hi: nat): (p: seq<Candidate>)
    ensures forall i :: 0 <= i < |p| ==> p[i].slot <= hi
  {
    if hi == 0 then []
    else
      var found := Candidates(s, c, hi - 1);
      if hi in s.slots || hi in s.holds || FirstSuch(s.queue, OfferedIn(s, TierOf(c, hi))).Some? then found
      else
        match Head(s, s.queue, TierOf(c, hi))
        case None => found
        case Some(r) => found + [Candidate(hi, r, Get(s, r).enqueuedAt, FirstOf(found, c, hi))]
  }

  function Collect(s: State, c: Config, now: real): State
  {
    s.(pending := Candidates(s, c, c.humanSlots + c.agentSlots), tick := now)
  }

  /** The re-check under the lock: it looks at the slot, at the entry's own status and at the
      offers of the queue, not at whether the entry is still queued. */
  predicate MayOffer(s: State, k: int, r: Ref)
  {
    && k !in s.slots && k !in s.holds
    && Get(s, r).status == Waiting
    && FirstSuch(s.queue, OfferedIn(s, Get(s, r).tier)).None?
  }

  function Commit(s: State, c: Config, clean: bool): State
  {
    if |s.pending| == 0 then s
    else
      var cand := s.pending[0];
      var t := s.(pending := s.pending[1..]);
      if !clean || !MayOffer(s, cand.slot, cand.ref) then t
      else
        var e := Get(t, cand.ref);
        var f := e.(status := Offered, offerExpiresAt := Some(s.tick + c.offerGrace), slot := Some(cand.slot));
        SetEntry(t, cand.ref, f).(holds := t.holds[cand.slot := e.email])
  }

  // ---- the sweep and the restart -------------------------------------------

  /** What the sweep checks under the lock before it assigns a hinted owner. */
  predicate MayHint(s: State, hint: Email)
  {
    hint !in s.users && hint !in s.holds.Values
  }

  function HintCommit(s: State, k: int, hint: Email, now: real, woke: bool): State
  {
    if !MayHint(s, hint) then s
    else
      var t := Assign(s, hint, k, now, Human);
      var u := t.(archives := t.archives - {hint});
      if woke then u else Rearchive(Unassign(u, hint, k), hint, now, Idle)
  }

  /** Probe and assignment of one idle slot, without another handler in between. */
  function BootHint(s: State, c: Config, k: int, hint: Email, now: real, woke: bool): State
  {
    if !InPool(c, k) || k in s.slots || k in s.holds then s else HintCommit(s, k, hint, now, woke)
  }

  predicate InPool(c: Config, k: int)
  {
    1 <= k <= c.humanSlots + c.agentSlots
  }

  function Pool(c: Config): int -> bool
  {
    (k: int) => InPool(c, k)
  }

  /** Users whose slot is in no pool. */
  function Outside<K>(users: map<Email, K>, inPool: K -> bool): set<Email>
  {
    set e | e in users && !inPool(users[e])
  }

  function Image<K>(users: map<Email, K>, gone: set<Email>): set<K>
  {
    set e | e in gone && e in users :: users[e]
  }

  function Pooled<K>(rows: map<K, Email>, inPool: K -> bool): map<K, Email>
  {
    map k | k in rows && inPool(k) :: rows[k]
  }

  /** Assignments outside the slot pools go. */
  function PurgePools(s: State, c: Config, now: real): State
  {
    var gone := Outside(s.users, Pool(c));
    s.(users := s.users - gone, sessions := s.sessions - gone,
       slots := Pooled(s.slots - Image(s.users, gone), Pool(c)),
       archives := (map e | e in gone :: Archive(now, Idle)) + s.archives)
  }

  function StillQueued(s: State): Ref -> bool
  {
    (r: Ref) => Get(s, r).status != Left && !(Get(s, r).status == Active && Get(s, r).email !in s.users)
  }

  /** Offers that survived the restart: held again while they last, expired otherwise. */
  function RestoreOffers(s: State, c: Config, refs: seq<Ref>, now: real): State
    decreases |refs|
  {
    if |refs| == 0 then s
    else
      var e := Get(s, refs[0]);
      var t :=
        if e.status != Offered || e.slot.None? then s
        else if e.offerExpiresAt.Some? && e.offerExpiresAt.value > now then
          s.(holds := s.holds[e.slot.value := e.email])
        else ExpireOffer(s, c, refs[0], now);
      RestoreOffers(t, c, refs[1..], now)
  }

  function Reset(s: State): State
  {
    s.(holds := map[], expiring := map[], since := map[], quarantined := map[], pending := [])
  }

  function Unstale(s: State): State
  {
    s.(queue := Filter(s.queue, StillQueued(s)))
  }

  /** A restart keeps the persisted tables and the queue; holds, pending expiries, quarantines
      and the reaper's list live in memory only. */
  function Restart(s: State, c: Config, now: real): State
  {
    var s2 := Unstale(PurgePools(Reset(s), c, now));
    Purge(RestoreOffers(s2, c, s2.queue, now), now)
  }

  // ---- steps and runs ------------------------------------------------------

  datatype Step =
    | StepEnter(email: Email, ready: bool)
    | StepUnready(email: Email)
    | StepEnqueueHuman(email: Email)
    | StepEnqueueAgent(email: Email)
    | StepLeave(ref: Ref)
    | StepAgentTimeout(ref: Ref)
    | StepRelease(email: Email, given: Option<Reason>)
    | StepTake(email: Email, clean: bool, woke: bool)
    | StepGraceSweep
    | StepMarkExpiring
    | StepSuspendFailed(email: Email)
    | StepForceRelease(email: Email)
    | StepQuarantine(email: Email, reason: Reason)
    | StepCollect
    | StepCommit(clean: bool)
    | StepHint(slot: int, email: Email, woke: bool)
    | StepRestart

  function Next(s: State, c: Config, step: Step, now: real): State
  {
    match step
    case StepEnter(e, ready) => Enter(s, c, e, now, ready)
    case StepUnready(e) => Unready(s, e, now)
    case StepEnqueueHuman(e) => EnqueueHuman(s, c, e, now)
    case StepEnqueueAgent(e) => EnqueueAgent(s, c, e, now)
    case StepLeave(r) => Leave(s, r)
    case StepAgentTimeout(r) => AgentTimeout(s, c, r, now)
    case StepRelease(e, given) => Release(s, e, given, now)
    case StepTake(e, clean, woke) => TakeOffer(s, c, e, now, clean, woke)
    case StepGraceSweep => GraceSweep(s, c, now)
    case StepMarkExpiring => MarkExpiring(s, c, now)
    case StepSuspendFailed(e) => SuspendFailed(s, e)
    case StepForceRelease(e) => ForceRelease(s, c, e, now)
    case StepQuarantine(e, reason) => Quarantine(s, e, reason, now)
    case StepCollect => Collect(s, c, now)
    case StepCommit(clean) => Commit(s, c, clean)
    case StepHint(k, e, woke) => BootHint(s, c, k, e, now, woke)
    case StepRestart => Restart(s, c, now)
  }

  datatype Timed = Timed(step: Step, now: real)

  function Run(s: State, c: Config, steps: seq<Timed>): State
  {
    if |steps| == 0 then s
    else
      var t := steps[|steps| - 1];
      Next(Run(s, c, steps[..|steps| - 1]), c, t.step, t.now)
  }

  const EMPTY := State(map[], map[], map[], map[], [], map[], 0, map[], map[], map[], map[], [], 0.0, map[])
}
