/** Restoring an archive to a slot, and what archive and restore give together. */
module Restore {
  import opened Wrappers
  import opened FileTree
  import opened Archive

  // ---- restoring -----------------------------------------------------------

  /** Whether restore accepts the archive of a user. */
  predicate RestoreAccepts(fs: Fs, user: User)
  {
    && HasProfile(fs, Dest(user) + ["profile"])
    && match Get(fs, Dest(user) + MARKER)
       case Some(Marker(owner)) => owner == user
       case _ => true
  }

  datatype RestoreWalk = RestoreWalk(profile: seq<Path>, downloads: seq<Path>, srcProfile: seq<Path>,
                                     srcDownloads: seq<Path>)

  ghost predicate RestoreWalks(fs: Fs, user: User, w: RestoreWalk)
  {
    && Lists(fs, PROFILE, w.profile) && Lists(fs, DOWNLOADS, w.downloads)
    && Lists(fs, Dest(user) + ["profile"], w.srcProfile) && Lists(fs, Dest(user) + ["Downloads"], w.srcDownloads)
  }

  predicate Inside(q: Path)
  {
    q != []
  }

  function WipeOne(root: Path, list: seq<Path>): seq<Op>
  {
    [Put(root, Folder)] + DelOps(root, Select(list, Inside))
  }

  /** `wipe_slot_dirs`. */
  function WipeOps(w: RestoreWalk): seq<Op>
  {
    WipeOne(PROFILE, w.profile) + WipeOne(DOWNLOADS, w.downloads)
  }

  function RestoreDownloads(fs: Fs, user: User, w: RestoreWalk): seq<Op>
  {
    var src := Dest(user) + ["Downloads"];
    if IsFolder(fs, src) then CopyOps(fs, src, DOWNLOADS, Select(w.srcDownloads, Inside)) else []
  }

  function RestoreProfile(fs: Fs, user: User, w: RestoreWalk): seq<Op>
  {
    CopyOps(fs, Dest(user) + ["profile"], PROFILE, Select(w.srcProfile, Keeps))
  }

  function RestoreOps(fs: Fs, user: User, w: RestoreWalk): seq<Op>
  {
    var copied := WipeOps(w) + RestoreProfile(fs, user, w);
    copied + StripOps(Run(fs, copied), PROFILE) + RestoreDownloads(fs, user, w)
  }

  lemma WipeOneAt(now: Fs, root: Path, list: seq<Path>, q: Path)
    requires Lists(now, root, list)
    ensures Get(Run(now, WipeOne(root, list)), root + q) == if q == [] then Some(Folder) else None
  {
    var mk := [Put(root, Folder)];
    RunConcat(now, mk, DelOps(root, Select(list, Inside)));
    RunOne(now, mk[0]);
    DelAt(Run(now, mk), root, Select(list, Inside), q);
    SelectMember(list, Inside, q);
    assert (root + q)[|root|..] == q && (q == [] ==> root + q == root);
    assert q != [] ==> |root + q| > |root|;
  }

  lemma WipeStays(root: Path, list: seq<Path>)
    ensures Stays(WipeOne(root, list), root)
  {
    DelStays(root, Select(list, Inside), root);
  }

  lemma SlotApart(q: Path)
    ensures !(PROFILE <= DOWNLOADS + q) && !(DOWNLOADS <= PROFILE + q)
  {
    assert (DOWNLOADS + q)[0] == "downloads" && (PROFILE + q)[0] == "profile";
  }

  /** A wipe empties the profile and the downloads and touches nothing else. */
  lemma WipedAt(fs: Fs, w: RestoreWalk, q: Path)
    requires Lists(fs, PROFILE, w.profile) && Lists(fs, DOWNLOADS, w.downloads)
    ensures Get(Run(fs, WipeOps(w)), PROFILE + q) == if q == [] then Some(Folder) else None
    ensures Get(Run(fs, WipeOps(w)), DOWNLOADS + q) == if q == [] then Some(Folder) else None
  {
    var first := WipeOne(PROFILE, w.profile);
    var mid := Run(fs, first);
    RunConcat(fs, first, WipeOne(DOWNLOADS, w.downloads));
    SlotApart(q);
    WipeStays(PROFILE, w.profile);
    WipeStays(DOWNLOADS, w.downloads);
    WipeOneAt(fs, PROFILE, w.profile, q);
    StaysElsewhere(mid, WipeOne(DOWNLOADS, w.downloads), DOWNLOADS, PROFILE + q);
    forall p: Path
      ensures p in w.downloads <==> DOWNLOADS + p in mid
    {
      SlotApart(p);
      StaysElsewhere(fs, first, PROFILE, DOWNLOADS + p);
    }
    WipeOneAt(mid, DOWNLOADS, w.downloads, q);
  }

  /** Paths outside the slot's two folders. */
  ghost predicate OffSlot(p: Path)
  {
    !(PROFILE <= p) && !(DOWNLOADS <= p)
  }

  lemma WipedElsewhere(fs: Fs, w: RestoreWalk, p: Path)
    requires OffSlot(p)
    ensures Get(Run(fs, WipeOps(w)), p) == Get(fs, p)
  {
    var first := WipeOne(PROFILE, w.profile);
    RunConcat(fs, first, WipeOne(DOWNLOADS, w.downloads));
    WipeStays(PROFILE, w.profile);
    WipeStays(DOWNLOADS, w.downloads);
    StaysElsewhere(fs, first, PROFILE, p);
    StaysElsewhere(Run(fs, first), WipeOne(DOWNLOADS, w.downloads), DOWNLOADS, p);
  }

  lemma RestoringElsewhere(fs: Fs, user: User, w: RestoreWalk, p: Path)
    requires OffSlot(p)
    ensures var wipe, profile := WipeOps(w), RestoreProfile(fs, user, w);
            var strip := StripOps(Run(fs, wipe + profile), PROFILE);
            Get(Run(fs, wipe), p) == Get(fs, p) && Get(Run(fs, wipe + profile + strip), p) == Get(fs, p)
  {
    var wipe, profile := WipeOps(w), RestoreProfile(fs, user, w);
    var strip := StripOps(Run(fs, wipe + profile), PROFILE);
    WipedElsewhere(fs, w, p);
    RunConcat(fs, wipe, profile);
    CopyStays(fs, Dest(user) + ["profile"], PROFILE, Select(w.srcProfile, Keeps), PROFILE);
    StaysElsewhere(Run(fs, wipe), profile, PROFILE, p);
    RunConcat(fs, wipe + profile, strip);
    assert PROFILE <= PROFILE + COOKIES;
    StaysElsewhere(Run(fs, wipe + profile), strip, PROFILE, p);
  }

  lemma RestoredElsewhere(fs: Fs, user: User, w: RestoreWalk, p: Path)
    requires OffSlot(p)
    ensures Get(Run(fs, RestoreOps(fs, user, w)), p) == Get(fs, p)
  {
    var wipe, profile := WipeOps(w), RestoreProfile(fs, user, w);
    var strip, downloads := StripOps(Run(fs, wipe + profile), PROFILE), RestoreDownloads(fs, user, w);
    RestoringElsewhere(fs, user, w, p);
    RunConcat(fs, wipe + profile + strip, downloads);
    CopyStays(fs, Dest(user) + ["Downloads"], DOWNLOADS, Select(w.srcDownloads, Inside), DOWNLOADS);
    StaysElsewhere(Run(fs, wipe + profile + strip), downloads, DOWNLOADS, p);
  }

  function RestoredProfile(fs: Fs, user: User, r: Path): Option<Data>
  {
    if r == [] then Some(Folder)
    else if r == COOKIES then Stripped(Get(fs, Dest(user) + ["profile"] + r))
    else if Keeps(r) then Get(fs, Dest(user) + ["profile"] + r)
    else None
  }

  function RestoredDownloads(fs: Fs, user: User, r: Path): Option<Data>
  {
    if r == [] then Some(Folder)
    else if IsFolder(fs, Dest(user) + ["Downloads"]) then Get(fs, Dest(user) + ["Downloads"] + r)
    else None
  }

  lemma RestoredProfileAt(fs: Fs, user: User, w: RestoreWalk, r: Path)
    requires RestoreWalks(fs, user, w) && IsFolder(fs, Dest(user) + ["profile"])
    ensures Get(Run(fs, RestoreOps(fs, user, w)), PROFILE + r) == RestoredProfile(fs, user, r)
  {
    var src := Dest(user) + ["profile"];
    var wipe, profile := WipeOps(w), RestoreProfile(fs, user, w);
    var copied := wipe + profile;
    var strip, downloads := StripOps(Run(fs, copied), PROFILE), RestoreDownloads(fs, user, w);
    WipedAt(fs, w, r);
    RunConcat(fs, wipe, profile);
    CopyAt(fs, Run(fs, wipe), src, PROFILE, Select(w.srcProfile, Keeps), r);
    SelectMember(w.srcProfile, Keeps, r);
    assert src + [] == src;
    RunConcat(fs, copied, strip);
    SlotStripAt(Run(fs, copied), r);
    RunConcat(fs, copied + strip, downloads);
    SlotApart(r);
    CopyStays(fs, Dest(user) + ["Downloads"], DOWNLOADS, Select(w.srcDownloads, Inside), DOWNLOADS);
    StaysElsewhere(Run(fs, copied + strip), downloads, DOWNLOADS, PROFILE + r);
  }

  lemma SlotStripAt(now: Fs, r: Path)
    ensures Get(Run(now, StripOps(now, PROFILE)), PROFILE + r)
         == if r == COOKIES then Stripped(Get(now, PROFILE + r)) else Get(now, PROFILE + r)
  {
    var ops := StripOps(now, PROFILE);
    assert (PROFILE + r)[|PROFILE|..] == r && (PROFILE + COOKIES)[|PROFILE|..] == COOKIES;
    if |ops| > 0 {
      RunOne(now, ops[0]);
    }
  }

  lemma RestoredDownloadsAt(fs: Fs, user: User, w: RestoreWalk, r: Path)
    requires RestoreWalks(fs, user, w)
    ensures Get(Run(fs, RestoreOps(fs, user, w)), DOWNLOADS + r) == RestoredDownloads(fs, user, r)
  {
    var wipe, profile := WipeOps(w), RestoreProfile(fs, user, w);
    var copied := wipe + profile;
    var strip, downloads := StripOps(Run(fs, copied), PROFILE), RestoreDownloads(fs, user, w);
    WipedAt(fs, w, r);
    SlotApart(r);
    RunConcat(fs, wipe, profile);
    CopyStays(fs, Dest(user) + ["profile"], PROFILE, Select(w.srcProfile, Keeps), PROFILE);
    StaysElsewhere(Run(fs, wipe), profile, PROFILE, DOWNLOADS + r);
    RunConcat(fs, copied, strip);
    assert PROFILE <= PROFILE + COOKIES;
    StaysElsewhere(Run(fs, copied), strip, PROFILE, DOWNLOADS + r);
    RunConcat(fs, copied + strip, downloads);
    CopyAt(fs, Run(fs, copied + strip), Dest(user) + ["Downloads"], DOWNLOADS, Select(w.srcDownloads, Inside), r);
    SelectMember(w.srcDownloads, Inside, r);
  }

  // ---- round trips ---------------------------------------------------------

  lemma {:induction false} UnidentifiedTwice(c: seq<Cookie>)
    ensures Unidentified(Unidentified(c)) == Unidentified(c)
  {
    if |c| > 0 {
      UnidentifiedTwice(c[1..]);
      var rest := Unidentified(c[1..]);
      if c[0].identity {
        assert [] + rest == rest;
      } else {
        assert ([c[0]] + rest)[1..] == rest;
      }
    }
  }

  lemma StrippedTwice(d: Option<Data>)
    ensures Stripped(Stripped(d)) == Stripped(d)
  {
    if d.Some? && d.value.CookieDb? {
      UnidentifiedTwice(d.value.cookies);
    }
  }

  lemma KeptNames()
    ensures Keeps([]) && Keeps(SNAPSHOT) && Keeps(COOKIES) && Keeps(["Default"]) && Keeps(["Preferences"])
  {
  }

  /** Every archive that was made is accepted by restore, on any slot that shares the volume. */
  lemma ArchivePassesRestore(fs: Fs, user: User, w: Walk, later: Fs)
    requires Walks(fs, user, w) && MayArchive(fs, user, w)
    requires SameUnder(Archived(fs, user, w), later, Dest(user))
    ensures RestoreAccepts(later, user)
  {
    KeptNames();
    ArchivedEntry(fs, user, w, later, []);
    ArchivedEntry(fs, user, w, later, ["Default"]);
    ArchivedEntry(fs, user, w, later, ["Preferences"]);
    ArchivedAt(fs, user, w, MARKER);
    assert Get(later, Dest(user) + MARKER) == Some(Marker(user));
    assert Dest(user) + ["profile"] + [] == Dest(user) + ["profile"] && PROFILE + [] == PROFILE;
  }

  /** An entry that is neither excluded nor special is archived as it is. */
  lemma ArchivedEntry(fs: Fs, user: User, w: Walk, later: Fs, r: Path)
    requires Walks(fs, user, w) && MayArchive(fs, user, w)
    requires SameUnder(Archived(fs, user, w), later, Dest(user))
    requires Keeps(r) && r != COOKIES && r != SNAPSHOT
    ensures Get(later, Dest(user) + ["profile"] + r) == Get(fs, PROFILE + r)
  {
    ArchivedProfileAt(fs, user, w, later, r);
  }

  lemma ArchivedProfileAt(fs: Fs, user: User, w: Walk, later: Fs, r: Path)
    requires Walks(fs, user, w) && MayArchive(fs, user, w)
    requires SameUnder(Archived(fs, user, w), later, Dest(user))
    ensures Get(later, Dest(user) + ["profile"] + r) == ArchivedProfile(fs, user, r)
  {
    Below(user, "profile", r);
    ArchivedAt(fs, user, w, ["profile"] + r);
    assert ["profile"] + r != MARKER;
  }

  lemma ArchivedDownloadsAt(fs: Fs, user: User, w: Walk, later: Fs, r: Path)
    requires Walks(fs, user, w) && MayArchive(fs, user, w)
    requires SameUnder(Archived(fs, user, w), later, Dest(user))
    ensures Get(later, Dest(user) + ["Downloads"] + r) == ArchivedDownloads(fs, r)
  {
    Below(user, "Downloads", r);
    ArchivedAt(fs, user, w, ["Downloads"] + r);
    assert ["Downloads"] + r != MARKER;
  }

  /** Restoring an archive gives back the profile it was made of, without the cache directories
      and the SSO cookies and with the tab snapshot of the previous archive if it had none, and
      the downloads without the slot's own marker. */
  lemma RestoreInvertsArchive(fs: Fs, user: User, w: Walk, later: Fs, v: RestoreWalk, r: Path)
    requires Walks(fs, user, w) && MayArchive(fs, user, w) && IsFolder(fs, DOWNLOADS)
    requires SameUnder(Archived(fs, user, w), later, Dest(user)) && RestoreWalks(later, user, v)
    ensures var t := Run(later, RestoreOps(later, user, v));
            && Get(t, PROFILE + r) == ArchivedProfile(fs, user, r)
            && Get(t, DOWNLOADS + r) == ArchivedDownloads(fs, r)
  {
    KeptNames();
    ArchivePassesRestore(fs, user, w, later);
    RestoredProfileAt(later, user, v, r);
    RestoredDownloadsAt(later, user, v, r);
    ArchivedProfileAt(fs, user, w, later, r);
    ArchivedDownloadsAt(fs, user, w, later, r);
    ArchivedDownloadsAt(fs, user, w, later, []);
    assert Dest(user) + ["Downloads"] + [] == Dest(user) + ["Downloads"] && PROFILE + [] == PROFILE;
    StrippedTwice(CopiedProfile(fs, user, r));
  }

  /** The archive of what was restored from an archive is that archive again. */
  lemma SecondArchive(fs: Fs, user: User, w: Walk, later: Fs, v: RestoreWalk, q: Path)
    requires Walks(fs, user, w) && MayArchive(fs, user, w) && IsFolder(fs, DOWNLOADS)
    requires SameUnder(Archived(fs, user, w), later, Dest(user)) && RestoreWalks(later, user, v)
    ensures NewArchive(Run(later, RestoreOps(later, user, v)), user, q) == NewArchive(fs, user, q)
  {
    var t := Run(later, RestoreOps(later, user, v));
    if q != [] && q[0] == "profile" {
      SecondProfile(fs, user, w, later, v, q[1..]);
    } else if q != [] && q[0] == "Downloads" {
      RestoreInvertsArchive(fs, user, w, later, v, []);
      RestoreInvertsArchive(fs, user, w, later, v, q[1..]);
      assert DOWNLOADS + [] == DOWNLOADS;
    } else if q != [] && q[0] == "grant" {
      SecondGrant(fs, user, w, later, v, []);
      SecondGrant(fs, user, w, later, v, q[1..]);
      assert Dest(user) + ["grant"] + [] == Dest(user) + ["grant"];
    }
  }

  lemma SecondProfile(fs: Fs, user: User, w: Walk, later: Fs, v: RestoreWalk, r: Path)
    requires Walks(fs, user, w) && MayArchive(fs, user, w) && IsFolder(fs, DOWNLOADS)
    requires SameUnder(Archived(fs, user, w), later, Dest(user)) && RestoreWalks(later, user, v)
    ensures ArchivedProfile(Run(later, RestoreOps(later, user, v)), user, r) == ArchivedProfile(fs, user, r)
  {
    SecondCopy(fs, user, w, later, v, r);
    StrippedTwice(CopiedProfile(fs, user, r));
  }

  /** Copying the restored profile copies what was archived. */
  lemma SecondCopy(fs: Fs, user: User, w: Walk, later: Fs, v: RestoreWalk, r: Path)
    requires Walks(fs, user, w) && MayArchive(fs, user, w) && IsFolder(fs, DOWNLOADS)
    requires SameUnder(Archived(fs, user, w), later, Dest(user)) && RestoreWalks(later, user, v)
    ensures CopiedProfile(Run(later, RestoreOps(later, user, v)), user, r) == ArchivedProfile(fs, user, r)
  {
    KeptNames();
    RestoreInvertsArchive(fs, user, w, later, v, r);
    RestoreInvertsArchive(fs, user, w, later, v, SNAPSHOT);
    ArchivedProfileAt(fs, user, w, later, SNAPSHOT);
    DestOffSlot(user, ["profile"] + SNAPSHOT);
    RestoredElsewhere(later, user, v, Dest(user) + (["profile"] + SNAPSHOT));
    assert Dest(user) + ["profile"] + SNAPSHOT == Dest(user) + (["profile"] + SNAPSHOT);
  }

  lemma DestOffSlot(user: User, q: Path)
    ensures OffSlot(Dest(user) + q)
  {
    assert (Dest(user) + q)[0] == "sessions";
  }

  lemma SecondGrant(fs: Fs, user: User, w: Walk, later: Fs, v: RestoreWalk, r: Path)
    requires Walks(fs, user, w) && MayArchive(fs, user, w)
    requires SameUnder(Archived(fs, user, w), later, Dest(user))
    ensures Get(Run(later, RestoreOps(later, user, v)), Dest(user) + ["grant"] + r)
         == if IsFolder(fs, Dest(user) + ["grant"]) then Get(fs, Dest(user) + ["grant"] + r) else None
  {
    Below(user, "grant", r);
    GrantCarried(fs, user, w, r);
    DestOffSlot(user, ["grant"] + r);
    RestoredElsewhere(later, user, v, Dest(user) + (["grant"] + r));
  }

  /** A second cycle of archive and restore changes neither the archive nor the slot, whether or
      not the second archive is skipped for its size. */
  lemma SecondCycle(fs: Fs, user: User, w: Walk, w1: RestoreWalk, w2: Walk, w3: RestoreWalk, q: Path)
    requires Walks(fs, user, w) && MayArchive(fs, user, w) && IsFolder(fs, DOWNLOADS)
    requires var a1 := Archived(fs, user, w);
             RestoreWalks(a1, user, w1) && Walks(Run(a1, RestoreOps(a1, user, w1)), user, w2)
    requires var a1 := Archived(fs, user, w);
             var r1 := Run(a1, RestoreOps(a1, user, w1));
             RestoreWalks(Archived(r1, user, w2), user, w3)
    ensures var a1 := Archived(fs, user, w);
            var r1 := Run(a1, RestoreOps(a1, user, w1));
            var a2 := Archived(r1, user, w2);
            var r2 := Run(a2, RestoreOps(a2, user, w3));
            && Get(a2, Dest(user) + q) == Get(a1, Dest(user) + q)
            && Get(r2, PROFILE + q) == Get(r1, PROFILE + q) && Get(r2, DOWNLOADS + q) == Get(r1, DOWNLOADS + q)
  {
    var a1 := Archived(fs, user, w);
    var r1 := Run(a1, RestoreOps(a1, user, w1));
    var a2 := Archived(r1, user, w2);
    forall p: Path
      ensures Get(a2, Dest(user) + p) == Get(a1, Dest(user) + p)
    {
      SecondArchiveAt(fs, user, w, w1, w2, p);
    }
    RestoreInvertsArchive(fs, user, w, a1, w1, q);
    RestoreInvertsArchive(fs, user, w, a2, w3, q);
  }

  lemma SecondArchiveAt(fs: Fs, user: User, w: Walk, w1: RestoreWalk, w2: Walk, p: Path)
    requires Walks(fs, user, w) && MayArchive(fs, user, w) && IsFolder(fs, DOWNLOADS)
    requires var a1 := Archived(fs, user, w);
             RestoreWalks(a1, user, w1) && Walks(Run(a1, RestoreOps(a1, user, w1)), user, w2)
    ensures var a1 := Archived(fs, user, w);
            var r1 := Run(a1, RestoreOps(a1, user, w1));
            Get(Archived(r1, user, w2), Dest(user) + p) == Get(a1, Dest(user) + p)
  {
    var a1 := Archived(fs, user, w);
    var r1 := Run(a1, RestoreOps(a1, user, w1));
    DestOffSlot(user, p);
    RestoredElsewhere(a1, user, w1, Dest(user) + p);
    if MayArchive(r1, user, w2) {
      ArchivedAt(r1, user, w2, p);
      ArchivedAt(fs, user, w, p);
      SecondArchive(fs, user, w, a1, w1, p);
    }
  }
}
