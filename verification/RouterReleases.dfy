/** How sessions end: what a release takes away, which archive it leaves, and what that archive
    means for the way back. */
module RouterReleases {
  import opened Wrappers
  import opened Fleet
  import opened RouterModel
  import opened RouterInvariants
  import opened RouterHistory
  import opened RouterAdmission

  // ---- one release ---------------------------------------------------------

  predicate SameAt<K, V(==)>(a: map<K, V>, b: map<K, V>, k: K)
  {
    (k in a <==> k in b) && (k in a ==> a[k] == b[k])
  }

  /** Somebody has offered the user a slot. */
  ghost predicate HasOffer(s: State, user: Email)
  {
    exists r :: r in s.queue && Get(s, r).email == user && Get(s, r).status == Offered
  }

  lemma OfferFound(s: State, user: Email)
    ensures FirstSuch(s.queue, OfferedTo(s, user)).Some? <==> HasOffer(s, user)
  {
    var f := FirstSuch(s.queue, OfferedTo(s, user));
    if f.Some? {
      assert OfferedTo(s, user)(f.value);
    } else {
      forall r | r in s.queue
        ensures !(Get(s, r).email == user && Get(s, r).status == Offered)
      {
        assert !OfferedTo(s, user)(r);
      }
    }
  }

  /** A late release, of a user without slot and offer who has an archive already. */
  ghost predicate Late(s: State, user: Email)
  {
    user !in s.users && !HasOffer(s, user) && user in s.archives
  }

  /** What the archive of a release says. */
  ghost predicate Tells(s: State, user: Email, given: Option<Reason>, now: real, a: Archive)
  {
    && a.at == now
    && (user in s.quarantined ==> a.reason == s.quarantined[user])
    && (user !in s.quarantined && given.Some? ==> a.reason == given.value)
    && (user !in s.quarantined && given.None? && user in s.expiring ==> a.reason == Expired)
    && (user !in s.quarantined && given.None? && user !in s.expiring ==> a.reason == Idle)
  }

  /** A late release changes no archive; any other writes the user's, with the quarantine's reason,
      else the one given, else `Expired` for a user being expired, else `Idle`. */
  ghost predicate ArchivedBy(s: State, user: Email, given: Option<Reason>, now: real, a: map<Email, Archive>)
  {
    if Late(s, user) then a == s.archives
    else user in a && Tells(s, user, given, now, a[user]) && forall e :: e != user ==> SameAt(s.archives, a, e)
  }

  lemma ReleaseArchives(s: State, user: Email, given: Option<Reason>, now: real)
    ensures ArchivedBy(s, user, given, now, Release(s, user, given, now).archives)
  {
    OfferFound(s, user);
    ReleaseWrites(s, user, given, now);
    ReasonArchives(s, user, given, now, Release(s, user, given, now).archives);
  }

  lemma ReasonArchives(s: State, user: Email, given: Option<Reason>, now: real, a: map<Email, Archive>)
    requires a == if !Late(s, user) then s.archives[user := Archive(now, ReleaseReason(s, user, given))] else s.archives
    ensures ArchivedBy(s, user, given, now, a)
  {
    ReasonTells(s, user, given, now);
  }

  lemma ReasonTells(s: State, user: Email, given: Option<Reason>, now: real)
    ensures Tells(s, user, given, now, Archive(now, ReleaseReason(s, user, given)))
  {
  }

  lemma ReleaseWrites(s: State, user: Email, given: Option<Reason>, now: real)
    ensures Release(s, user, given, now).archives
         == if user in s.users || FirstSuch(s.queue, OfferedTo(s, user)).Some? || user !in s.archives then
              s.archives[user := Archive(now, ReleaseReason(s, user, given))]
            else s.archives
  {
    DisconnectedArchives(s, user);
  }

  lemma DisconnectedArchives(s: State, user: Email)
    ensures Forget(Disconnected(s, user), user).archives == s.archives
  {
  }

  /** Nothing of the user is left: no slot, no session, no hold, no entry in the queue, no pending
      expiry and no quarantine. */
  ghost predicate Gone(t: State, user: Email)
  {
    && user !in t.users && user !in t.sessions && user !in t.expiring && user !in t.quarantined
    && (forall k :: k in t.holds ==> t.holds[k] != user)
    && (forall r :: r in t.queue ==> Get(t, r).email != user)
  }

  /** What belongs to another user. */
  ghost predicate SameFor(s: State, t: State, e: Email)
  {
    && SameAt(s.users, t.users, e) && SameAt(s.sessions, t.sessions, e) && SameAt(s.expiring, t.expiring, e)
    && (forall r :: Get(s, r).email == e ==> (r in t.queue <==> r in s.queue) && Get(t, r) == Get(s, r))
    && (forall k :: (k in s.holds && s.holds[k] == e) <==> (k in t.holds && t.holds[k] == e))
  }

  lemma HoldsOther(holds: map<int, Email>, user: Email, e: Email)
    requires e != user
    ensures var rest := HoldsWithout(holds, user);
            forall k :: (k in holds && holds[k] == e) <==> (k in rest && rest[k] == e)
  {
  }

  /** A release takes everything the user has. */
  lemma ReleaseClears(s: State, user: Email, given: Option<Reason>, now: real)
    requires Occupancy(s)
    ensures Gone(Release(s, user, given, now), user)
  {
    ReleaseTaken(s, user, given, now);
    ReleaseForgets(s, user, given, now);
    ReleaseQueue(s, user, given, now);
    GoneBy(s, Release(s, user, given, now), user);
  }

  lemma GoneBy(s: State, t: State, user: Email)
    requires Occupancy(s) && user !in t.expiring && user !in t.quarantined && t.entries == s.entries
    requires t.users == s.users - {user} && (t.sessions == s.sessions - {user} || user !in s.users)
    requires t.sessions == s.sessions || t.sessions == s.sessions - {user}
    requires t.holds == HoldsWithout(s.holds, user)
    requires forall r :: r in t.queue ==> Get(s, r).email != user
    ensures Gone(t, user)
  {
  }

  lemma ReleaseForgets(s: State, user: Email, given: Option<Reason>, now: real)
    ensures user !in Release(s, user, given, now).expiring && user !in Release(s, user, given, now).quarantined
  {
  }

  lemma ReleaseQueue(s: State, user: Email, given: Option<Reason>, now: real)
    ensures var t := Release(s, user, given, now);
            t.entries == s.entries && forall r :: r in t.queue <==> r in s.queue && Get(s, r).email != user
  {
    ReleaseShape(s, user, given, now);
    forall r
      ensures r in Release(s, user, given, now).queue <==> r in s.queue && Get(s, r).email != user
    {
      FilterMember(s.queue, WithoutEmail(Withdrawn(s, user), user), r);
    }
  }

  /** And nothing of anybody else. */
  lemma ReleaseSpares(s: State, user: Email, given: Option<Reason>, now: real, e: Email)
    requires e != user
    ensures SameFor(s, Release(s, user, given, now), e)
  {
    ReleaseTaken(s, user, given, now);
    ReleaseQueue(s, user, given, now);
    SparesBy(s, Release(s, user, given, now), user, e);
  }

  lemma SparesBy(s: State, t: State, user: Email, e: Email)
    requires e != user && t.users == s.users - {user} && t.entries == s.entries
    requires t.sessions == s.sessions || t.sessions == s.sessions - {user}
    requires t.expiring == s.expiring - {user} && t.holds == HoldsWithout(s.holds, user)
    requires forall r :: r in t.queue <==> r in s.queue && Get(s, r).email != user
    ensures SameFor(s, t, e)
  {
    HoldsOther(s.holds, user, e);
  }

  lemma ReleaseTaken(s: State, user: Email, given: Option<Reason>, now: real)
    ensures var t := Release(s, user, given, now);
            && t.users == s.users - {user} && (t.sessions == s.sessions - {user} || user !in s.users)
            && (t.sessions == s.sessions || t.sessions == s.sessions - {user})
            && t.expiring == s.expiring - {user} && t.holds == HoldsWithout(s.holds, user)
  {
    ReleaseShape(s, user, given, now);
    assert user !in s.users ==> s.users - {user} == s.users;
  }

  // ---- the reaper's own release --------------------------------------------

  /** The reaper gives a slot back itself exactly when the user still has it and the pending expiry
      is older than the grace; then the archive says `Expired`, or the quarantine's reason. */
  lemma ForceReleaseExact(s: State, c: Config, user: Email, now: real)
    requires Occupancy(s) && user in s.users
    ensures var t := ForceRelease(s, c, user, now);
            && (user !in t.users <==> user in s.expiring && user in s.since && now - s.since[user] > c.releaseGrace)
            && (user in t.users ==> t == s)
            && (user !in t.users ==>
                  && user !in t.sessions && user !in t.expiring && user !in t.quarantined
                  && (forall r :: r in t.queue ==> Get(t, r).email != user)
                  && user in t.archives && t.archives[user].at == now
                  && t.archives[user].reason == if user in s.quarantined then s.quarantined[user] else Expired)
  {
    var t := ForceRelease(s, c, user, now);
    if t.users != s.users {
      var u := Unassign(s, user, s.expiring[user]);
      forall r
        ensures r in t.queue <==> r in s.queue && Get(s, r).email != user
      {
        FilterMember(s.queue, WithoutEmail(u, user), r);
      }
    }
  }

  // ---- sessions that run out -----------------------------------------------

  /** The session has outlived the maximum of its tier. */
  predicate RanOut(s: State, c: Config, e: Email, now: real)
  {
    e in s.sessions && now - s.sessions[e].startedAt > if s.sessions[e].tier == Agent then c.agentMax else c.humanMax
  }

  /** A session is marked exactly when it has outlived the maximum of its tier; the mark names its
      slot. */
  lemma MarkedExact(s: State, c: Config, now: real, e: Email)
    requires e in s.sessions && e !in s.expiring
    ensures var t := MarkExpiring(s, c, now);
            var limit := if s.sessions[e].tier == Agent then c.agentMax else c.humanMax;
            && (e in t.expiring <==> now - s.sessions[e].startedAt > limit)
            && (e in t.expiring ==> t.expiring[e] == s.sessions[e].slot && e in t.since && t.since[e] == now)
  {
    assert e in Overdue(s, c, now) <==> now - s.sessions[e].startedAt > MaxSession(c, s.sessions[e].tier);
  }

  lemma MarkedTables(s: State, c: Config, now: real, e: Email)
    ensures var t := MarkExpiring(s, c, now);
            && t.users == s.users && t.sessions == s.sessions && t.quarantined == s.quarantined
            && t.archives == s.archives && (e in s.expiring ==> e in t.expiring)
  {
  }

  /** A session that outlives its maximum is archived as expired by the release that follows, which
      bars its user. */
  lemma ExpiryBars(s: State, c: Config, e: Email, now: real, later: real)
    requires Occupancy(s) && e in s.users && e !in s.quarantined
    requires now - s.sessions[e].startedAt > if s.sessions[e].tier == Agent then c.agentMax else c.humanMax
    ensures Barred(Release(MarkExpiring(s, c, now), e, None, later), e)
    ensures e !in Release(MarkExpiring(s, c, now), e, None, later).users
  {
    var t := MarkExpiring(s, c, now);
    if e !in s.expiring {
      MarkedExact(s, c, now, e);
    }
    MarkedTables(s, c, now, e);
    ReleaseArchives(t, e, None, later);
    ReleaseShape(t, e, None, later);
  }

  /** A session that is released within its time can be resumed. */
  lemma IdleResumes(s: State, e: Email, now: real)
    requires e in s.users && e !in s.quarantined && e !in s.expiring
    ensures IdleArchive(Release(s, e, None, now), e)
  {
    ReleaseArchives(s, e, None, now);
  }

  /** A quarantined session is archived with the reason of its quarantine, whatever the release
      says. */
  lemma QuarantineTells(s: State, e: Email, reason: Reason, given: Option<Reason>, now: real, later: real)
    requires e in s.users && e !in s.quarantined
    ensures var t := Release(Quarantine(s, e, reason, now), e, given, later);
            e in t.archives && t.archives[e].reason == reason
  {
    var q := Quarantine(s, e, reason, now);
    assert e in q.users && e in q.quarantined && q.quarantined[e] == reason;
    ReleaseArchives(q, e, given, later);
  }

  /** A spent rescue budget makes the session a pending expiry of its slot from now, once; nothing
      else changes. */
  lemma QuarantineExact(s: State, e: Email, reason: Reason, now: real)
    ensures var t := Quarantine(s, e, reason, now);
            && t.users == s.users && t.sessions == s.sessions && t.slots == s.slots && t.archives == s.archives
            && (e !in s.users || e in s.quarantined ==> t == s)
            && (e in s.users && e !in s.quarantined ==>
                  && t.quarantined == s.quarantined[e := reason] && t.expiring == s.expiring[e := s.users[e]]
                  && t.since == s.since[e := now])
  {
  }

  /** So a quarantined user is sent to no slot, and when no release arrives the reaper ends the
      session after the grace, with the reason of the quarantine. */
  lemma QuarantineEnds(s: State, c: Config, e: Email, reason: Reason, now: real, later: real)
    requires Occupancy(s) && e in s.users && e !in s.quarantined && later - now > c.releaseGrace
    ensures var q := Quarantine(s, e, reason, now);
            var t := ForceRelease(q, c, e, later);
            && Resolve(q, c, e, later).slot == None
            && e !in t.users && e !in t.quarantined && e in t.archives && t.archives[e] == Archive(later, reason)
  {
    var q := Quarantine(s, e, reason, now);
    QuarantineExact(s, e, reason, now);
    QuarantineTables(s, e, reason, now);
    ForceReleaseExact(q, c, e, later);
    QuarantinedNowhere(q, c, e, later);
  }

  lemma QuarantinedNowhere(s: State, c: Config, e: Email, now: real)
    requires e in s.users && e in s.quarantined
    ensures Resolve(s, c, e, now).slot == None
  {
  }

  /** A slot that refused the suspend is asked again: the session stays, and the next tick marks it
      anew. */
  lemma RefusalRetries(s: State, t: State, c: Config, e: Email, now: real)
    requires t == SuspendFailed(s, e) && e in s.sessions
    ensures t.users == s.users && t.sessions == s.sessions && e !in t.expiring
    ensures e in MarkExpiring(t, c, now).expiring <==> RanOut(s, c, e, now)
    ensures RanOut(s, c, e, now) ==> e in MarkExpiring(t, c, now).since && MarkExpiring(t, c, now).since[e] == now
  {
    MarkedExact(t, c, now, e);
  }

  /** An assignment that is taken back because its slot did not wake, or is not usable, can be
      resumed. */
  lemma RollbackResumes(s: State, c: Config, e: Email, now: real)
    ensures e in s.users ==> e !in Unready(s, e, now).users && IdleArchive(Unready(s, e, now), e)
    ensures Resolve(s, c, e, now).woke ==>
              e !in Enter(s, c, e, now, false).users && IdleArchive(Enter(s, c, e, now, false), e)
  {
    if Resolve(s, c, e, now).woke {
      ResolveShape(s, c, e, now);
    }
  }
}
