/** One slot over its life: its browser, the user it is bound to, and whose data is on its disk and
    in the archives. */
module Slot {
  import opened Wrappers
  import opened FileTree
  import opened Archive
  import opened Restore
  import opened Ownership
  import opened ArchiveDisk

  /** Data of a browser that serves nobody. */
  const NOBODY: User := ""

  const OWNER_FILE: Path := [".slot-user.json"]
  const LAST_GOOD: Path := ["tab-snapshot.last-good.json"]

  /** The browser: whom it serves, and which filling of the profile it was started on. */
  datatype Process = Process(user: User, epoch: nat)

  /** `epoch` counts the fillings of the profile: history, kept for the statements below. The
      binding of the slot is `bound`, in memory, and the owner file in the downloads folder. */
  datatype Slot = Slot(
    fs: Fs,
    bound: Option<User>,
    suspended: bool,
    startedFor: Option<User>,
    chrome: Option<Process>,
    epoch: nat)

  function UserOf(o: Option<User>): User
  {
    if o.Some? then o.value else NOBODY
  }

  // ---- the steps -----------------------------------------------------------

  function WriteOwner(fs: Fs, u: User): Fs
  {
    fs[DOWNLOADS + OWNER_FILE := Marker(u)]
  }

  /** `set_slot_user`: the same owner is not written again. */
  function Bind(s: Slot, u: User): Slot
  {
    var same := Get(s.fs, DOWNLOADS + OWNER_FILE) == Some(Marker(u));
    s.(bound := Some(u), fs := if same then s.fs else WriteOwner(s.fs, u))
  }

  function Stopped(s: Slot): Slot
  {
    s.(chrome := None, startedFor := None)
  }

  /** The profile a user's wake finds: the archive, or nothing. */
  function Filled(fs: Fs, u: User, w: RestoreWalk): Fs
  {
    if RestoreAccepts(fs, u) then FileTree.Run(fs, RestoreOps(fs, u, w)) else FileTree.Run(fs, WipeOps(w))
  }

  function Refilled(s: Slot, u: User, w: RestoreWalk): Slot
  {
    Bind(s.(fs := Filled(s.fs, u, w), epoch := s.epoch + 1), u)
  }

  function Started(s: Slot, u: User, started: bool): Slot
  {
    s.(suspended := false, startedFor := Some(u),
       chrome := if started then Some(Process(u, s.epoch)) else None)
  }

  /** `needRestore`: the watchdog saw the browser restart. `started`: the browser came up. */
  function Wake(s: Slot, u: User, w: RestoreWalk, needRestore: bool, started: bool): Slot
  {
    if s.bound == Some(u) && s.chrome.Some? && !needRestore then s.(suspended := false)
    else Started(Refilled(if s.chrome.Some? then Stopped(s) else s, u, w), u, started)
  }

  /** The last tabs are kept when the browser is the one started for the bound user; otherwise old
      ones are removed. `tabs`: what is there to keep, if anything. */
  function KeepTabs(s: Slot, tabs: Option<string>): Fs
  {
    if s.startedFor.Some? && s.startedFor == s.bound then
      if tabs.None? || s.chrome.None? then s.fs
      else
        var d := File(s.chrome.value.user, |tabs.value|, tabs.value);
        s.fs[PROFILE + SNAPSHOT := d][PROFILE + LAST_GOOD := d]
    else s.fs - {PROFILE + SNAPSHOT, PROFILE + LAST_GOOD}
  }

  function Wiped(s: Slot, w: RestoreWalk): Slot
  {
    s.(fs := FileTree.Run(s.fs, WipeOps(w)), bound := None, epoch := s.epoch + 1)
  }

  function Suspend(s: Slot, tabs: Option<string>, w: Walk, wipe: RestoreWalk): Slot
  {
    match s.bound
    case None => if s.chrome.None? then s.(suspended := true) else Wiped(Stopped(s), wipe).(suspended := true)
    case Some(u) =>
      if s.suspended && s.chrome.None? then s
      else
        var fs := KeepTabs(s, tabs);
        var t := Stopped(s).(fs := Archived(fs, u, w), suspended := true);
        if MayArchive(fs, u, w) then Wiped(t, wipe) else t
  }

  /** The router names the user of the slot. */
  function Identify(s: Slot, u: User): Slot
  {
    Bind(s, u)
  }

  /** The browser is restarted, or started, on the profile that is there. */
  function Restart(s: Slot, ok: bool): Slot
  {
    s.(chrome := if ok then Some(Process(UserOf(s.bound), s.epoch)) else None)
  }

  /** The container comes up again: the binding is read from the owner file and the browser starts
      by itself. */
  function Boot(s: Slot, autostart: bool): Slot
  {
    var bound := match Get(s.fs, DOWNLOADS + OWNER_FILE)
                 case Some(Marker(u)) => Some(u)
                 case _ => None;
    s.(bound := bound, suspended := false, startedFor := bound,
       chrome := if autostart then Some(Process(UserOf(bound), s.epoch)) else None)
  }

  /** The running browser writes an entry of its profile or of the downloads. */
  function Browse(s: Slot, inProfile: bool, q: Path, d: Data): Slot
  {
    if s.chrome.None? || (!inProfile && q == OWNER_FILE) || !(Owners(d) <= {s.chrome.value.user, NOBODY}) then s
    else s.(fs := s.fs[(if inProfile then PROFILE else DOWNLOADS) + q := d])
  }

  /** The router stores an entry of a user's grant. */
  function Grant(s: Slot, u: User, q: Path, d: Data): Slot
  {
    if Owners(d) <= {u, NOBODY} then s.(fs := s.fs[Dest(u) + (["grant"] + q) := d]) else s
  }

  datatype Step =
    | StepWake(u: User, restore: RestoreWalk, needRestore: bool, started: bool)
    | StepSuspend(tabs: Option<string>, walk: Walk, wipe: RestoreWalk)
    | StepIdentify(u: User)
    | StepRestart(ok: bool)
    | StepBoot(autostart: bool)
    | StepBrowse(inProfile: bool, q: Path, d: Data)
    | StepGrant(u: User, q: Path, d: Data)

  function Next(s: Slot, step: Step): Slot
  {
    match step
    case StepWake(u, w, needRestore, started) => Wake(s, u, w, needRestore, started)
    case StepSuspend(tabs, w, wipe) => Suspend(s, tabs, w, wipe)
    case StepIdentify(u) => Identify(s, u)
    case StepRestart(ok) => Restart(s, ok)
    case StepBoot(autostart) => Boot(s, autostart)
    case StepBrowse(inProfile, q, d) => Browse(s, inProfile, q, d)
    case StepGrant(u, q, d) => Grant(s, u, q, d)
  }

  // ---- isolation -----------------------------------------------------------

  /** No name of a user is the name of the build folder of another one. */
  predicate ValidUser(u: User)
  {
    u != NOBODY && (|u| < 4 || u[|u| - 4..] != ".tmp")
  }

  function Allowed(o: Option<User>): set<User>
  {
    {UserOf(o), NOBODY}
  }

  /** The running browser sits on the profile it was started on and serves nobody but the bound
      user. */
  ghost predicate ChromeAtHome(s: Slot)
  {
    s.chrome.Some? ==> s.chrome.value.epoch == s.epoch && s.chrome.value.user in Allowed(s.bound)
  }

  ghost predicate ArchivesPure(fs: Fs)
  {
    forall u: User :: ValidUser(u) ==> Pure(fs, Dest(u), {u, NOBODY}) && Pure(fs, Tmp(u), {u, NOBODY})
  }

  ghost predicate SlotPure(s: Slot)
  {
    Pure(s.fs, PROFILE, Allowed(s.bound)) && Pure(s.fs, DOWNLOADS, Allowed(s.bound))
  }

  function OwnerEntry(o: Option<User>): Option<Data>
  {
    if o.Some? then Some(Marker(o.value)) else None
  }

  ghost predicate Bound(s: Slot)
  {
    && Get(s.fs, DOWNLOADS + OWNER_FILE) == OwnerEntry(s.bound)
    && (s.bound.Some? ==> ValidUser(s.bound.value))
  }

  ghost predicate Isolated(s: Slot)
  {
    ChromeAtHome(s) && SlotPure(s) && ArchivesPure(s.fs) && Bound(s)
  }

  /** The slot is bound to somebody else. */
  predicate Rebinds(s: Slot, u: User)
  {
    s.bound.Some? && s.bound != Some(u)
  }

  /** Walks are faithful, and the router names valid users only, none on a slot that is bound to
      somebody else. */
  ghost predicate Fair(s: Slot, step: Step)
  {
    match step
    case StepWake(u, w, _, _) => ValidUser(u) && RestoreWalks(s.fs, u, w)
    case StepSuspend(tabs, w, wipe) =>
      && (s.bound.Some? ==> Walks(KeepTabs(s, tabs), s.bound.value, w))
      && Lists(if s.bound.Some? then KeepTabs(s, tabs) else s.fs, PROFILE, wipe.profile)
      && Lists(if s.bound.Some? then KeepTabs(s, tabs) else s.fs, DOWNLOADS, wipe.downloads)
    case StepIdentify(u) => ValidUser(u) && !Rebinds(s, u)
    case StepGrant(u, _, _) => ValidUser(u)
    case _ => true
  }

  // ---- writing one entry ---------------------------------------------------

  lemma PutPure(fs: Fs, p: Path, d: Data, root: Path, users: set<User>)
    requires Pure(fs, root, users) && (root <= p ==> Owners(d) <= users)
    ensures Pure(fs[p := d], root, users)
  {
    forall q: Path
      ensures Within(Get(fs[p := d], root + q), users)
    {
      assert Within(Get(fs, root + q), users);
      assert root <= root + q;
    }
  }

  lemma DropPure(fs: Fs, gone: set<Path>, root: Path, users: set<User>)
    requires Pure(fs, root, users)
    ensures Pure(fs - gone, root, users)
  {
    forall q: Path
      ensures Within(Get(fs - gone, root + q), users)
    {
      assert Within(Get(fs, root + q), users);
    }
  }

  lemma SamePure(a: Fs, b: Fs, root: Path, users: set<User>)
    requires Pure(a, root, users) && forall q: Path :: Get(b, root + q) == Get(a, root + q)
    ensures Pure(b, root, users)
  {
    forall q: Path
      ensures Within(Get(b, root + q), users)
    {
      assert Within(Get(a, root + q), users);
    }
  }

  lemma SlotRoots(u: User, q: Path)
    ensures !(Dest(u) <= PROFILE + q) && !(Tmp(u) <= PROFILE + q)
    ensures !(Dest(u) <= DOWNLOADS + q) && !(Tmp(u) <= DOWNLOADS + q)
    ensures !(PROFILE <= DOWNLOADS + q) && !(DOWNLOADS <= PROFILE + q)
    ensures OffSlot(Dest(u) + q) && OffSlot(Tmp(u) + q)
  {
    Apart(u, q);
    SlotApart(q);
    DestOffSlot(u, q);
    assert (Tmp(u) + q)[0] == "sessions";
  }

  /** Writing on the slot leaves the archives pure. */
  lemma SlotPutArchives(fs: Fs, p: Path, d: Data)
    requires ArchivesPure(fs) && (PROFILE <= p || DOWNLOADS <= p)
    ensures ArchivesPure(fs[p := d])
  {
    forall u: User | ValidUser(u)
      ensures Pure(fs[p := d], Dest(u), {u, NOBODY}) && Pure(fs[p := d], Tmp(u), {u, NOBODY})
    {
      if PROFILE <= p {
        assert p == PROFILE + p[1..];
      } else {
        assert p == DOWNLOADS + p[1..];
      }
      SlotRoots(u, p[1..]);
      PutPure(fs, p, d, Dest(u), {u, NOBODY});
      PutPure(fs, p, d, Tmp(u), {u, NOBODY});
    }
  }

  /** A change of the slot alone leaves the archives pure. */
  lemma OffSlotArchives(a: Fs, b: Fs)
    requires ArchivesPure(a) && forall p: Path :: OffSlot(p) ==> Get(b, p) == Get(a, p)
    ensures ArchivesPure(b)
  {
    forall u: User | ValidUser(u)
      ensures Pure(b, Dest(u), {u, NOBODY}) && Pure(b, Tmp(u), {u, NOBODY})
    {
      forall q: Path
        ensures OffSlot(Dest(u) + q) && OffSlot(Tmp(u) + q)
      {
        SlotRoots(u, q);
      }
      SamePure(a, b, Dest(u), {u, NOBODY});
      SamePure(a, b, Tmp(u), {u, NOBODY});
    }
  }

  // ---- binding -------------------------------------------------------------

  /** The owner file may name the new owner, who may own what is on the slot. */
  lemma BindKeeps(s: Slot, u: User)
    requires Pure(s.fs, PROFILE, {u, NOBODY}) && Pure(s.fs, DOWNLOADS, {u, NOBODY}) && ArchivesPure(s.fs)
    ensures var t := Bind(s, u);
            && Pure(t.fs, PROFILE, {u, NOBODY}) && Pure(t.fs, DOWNLOADS, {u, NOBODY}) && ArchivesPure(t.fs)
            && Get(t.fs, DOWNLOADS + OWNER_FILE) == Some(Marker(u))
  {
    var p := DOWNLOADS + OWNER_FILE;
    PutPure(s.fs, p, Marker(u), PROFILE, {u, NOBODY});
    PutPure(s.fs, p, Marker(u), DOWNLOADS, {u, NOBODY});
    assert DOWNLOADS <= p;
    SlotPutArchives(s.fs, p, Marker(u));
  }

  // ---- wake ----------------------------------------------------------------

  lemma FilledKeeps(fs: Fs, u: User, w: RestoreWalk)
    requires ValidUser(u) && RestoreWalks(fs, u, w) && ArchivesPure(fs)
    ensures var t := Filled(fs, u, w);
            Pure(t, PROFILE, {u, NOBODY}) && Pure(t, DOWNLOADS, {u, NOBODY}) && ArchivesPure(t)
  {
    var t := Filled(fs, u, w);
    if RestoreAccepts(fs, u) {
      RestoredPure(fs, u, w, {u, NOBODY});
      forall p: Path | OffSlot(p)
        ensures Get(t, p) == Get(fs, p)
      {
        RestoredElsewhere(fs, u, w, p);
      }
    } else {
      WipedPure(fs, w, {u, NOBODY});
      forall p: Path | OffSlot(p)
        ensures Get(t, p) == Get(fs, p)
      {
        WipedElsewhere(fs, w, p);
      }
    }
    OffSlotArchives(fs, t);
  }

  /** Whatever was on the slot and whoever it was bound to, as after a wrong identification: a wake
      that does not find its user's browser running leaves an isolated slot that holds the woken
      user's data only. */
  lemma WakeHandsOver(s: Slot, u: User, w: RestoreWalk, needRestore: bool, started: bool, q: Path)
    requires ArchivesPure(s.fs) && ValidUser(u) && RestoreWalks(s.fs, u, w)
    requires s.bound != Some(u) || s.chrome.None? || needRestore
    ensures var t := Wake(s, u, w, needRestore, started);
            && Isolated(t) && t.bound == Some(u)
            && Within(Get(t.fs, PROFILE + q), {u, NOBODY}) && Within(Get(t.fs, DOWNLOADS + q), {u, NOBODY})
            && t.chrome == if started then Some(Process(u, t.epoch)) else None
  {
    FilledKeeps(s.fs, u, w);
    BindKeeps(s.(fs := Filled(s.fs, u, w)), u);
    var t := Wake(s, u, w, needRestore, started);
    assert Pure(t.fs, PROFILE, {u, NOBODY}) && Pure(t.fs, DOWNLOADS, {u, NOBODY});
  }

  lemma WakeIsolated(s: Slot, u: User, w: RestoreWalk, needRestore: bool, started: bool)
    requires Isolated(s) && ValidUser(u) && RestoreWalks(s.fs, u, w)
    ensures Isolated(Wake(s, u, w, needRestore, started))
  {
    if s.bound != Some(u) || s.chrome.None? || needRestore {
      WakeHandsOver(s, u, w, needRestore, started, []);
    }
  }

  // ---- suspend -------------------------------------------------------------

  lemma KeepTabsKeeps(s: Slot, tabs: Option<string>)
    requires Isolated(s)
    ensures var fs := KeepTabs(s, tabs);
            && Pure(fs, PROFILE, Allowed(s.bound)) && Pure(fs, DOWNLOADS, Allowed(s.bound)) && ArchivesPure(fs)
            && Get(fs, DOWNLOADS + OWNER_FILE) == Get(s.fs, DOWNLOADS + OWNER_FILE)
  {
    var a, b := PROFILE + SNAPSHOT, PROFILE + LAST_GOOD;
    var allowed := Allowed(s.bound);
    SlotApart(SNAPSHOT);
    SlotApart(LAST_GOOD);
    assert PROFILE <= a && PROFILE <= b;
    assert DOWNLOADS <= DOWNLOADS + OWNER_FILE;
    assert DOWNLOADS + OWNER_FILE != a && DOWNLOADS + OWNER_FILE != b;
    if s.startedFor.Some? && s.startedFor == s.bound {
      if tabs.Some? && s.chrome.Some? {
        var d := File(s.chrome.value.user, |tabs.value|, tabs.value);
        PutPure(s.fs, a, d, PROFILE, allowed);
        PutPure(s.fs, a, d, DOWNLOADS, allowed);
        SlotPutArchives(s.fs, a, d);
        PutPure(s.fs[a := d], b, d, PROFILE, allowed);
        PutPure(s.fs[a := d], b, d, DOWNLOADS, allowed);
        SlotPutArchives(s.fs[a := d], b, d);
      }
    } else {
      DropPure(s.fs, {a, b}, PROFILE, allowed);
      DropPure(s.fs, {a, b}, DOWNLOADS, allowed);
      DropArchives(s.fs, {a, b});
    }
  }

  lemma DropArchives(fs: Fs, gone: set<Path>)
    requires ArchivesPure(fs)
    ensures ArchivesPure(fs - gone)
  {
    forall u: User | ValidUser(u)
      ensures Pure(fs - gone, Dest(u), {u, NOBODY}) && Pure(fs - gone, Tmp(u), {u, NOBODY})
    {
      DropPure(fs, gone, Dest(u), {u, NOBODY});
      DropPure(fs, gone, Tmp(u), {u, NOBODY});
    }
  }

  lemma OthersApart(u: User, v: User, q: Path)
    requires ValidUser(u) && ValidUser(v) && u != v
    ensures Foreign(u, Dest(v) + q) && Foreign(u, Tmp(v) + q)
  {
    assert (Dest(v) + q)[1] == v && (Tmp(v) + q)[1] == v + ".tmp";
    assert Dest(u)[1] == u && Tmp(u)[1] == u + ".tmp";
    assert (u + ".tmp")[|u|..] == ".tmp" && (v + ".tmp")[|v|..] == ".tmp";
    TmpInjective(u, v);
  }

  lemma TmpInjective(u: User, v: User)
    ensures u + ".tmp" == v + ".tmp" <==> u == v
  {
    assert (u + ".tmp")[..|u|] == u && (v + ".tmp")[..|v|] == v;
  }

  /** An archive run changes the archive of its user only. */
  lemma ArchivedKeeps(fs: Fs, u: User, w: Walk)
    requires ValidUser(u) && Walks(fs, u, w) && ArchivesPure(fs)
    requires Pure(fs, PROFILE, {u, NOBODY}) && Pure(fs, DOWNLOADS, {u, NOBODY})
    ensures ArchivesPure(Archived(fs, u, w))
    ensures forall q: Path :: Get(Archived(fs, u, w), PROFILE + q) == Get(fs, PROFILE + q)
    ensures forall q: Path :: Get(Archived(fs, u, w), DOWNLOADS + q) == Get(fs, DOWNLOADS + q)
  {
    var t := Archived(fs, u, w);
    ArchivedPure(fs, u, w, {u, NOBODY});
    forall v: User | ValidUser(v)
      ensures Pure(t, Dest(v), {v, NOBODY}) && Pure(t, Tmp(v), {v, NOBODY})
    {
      if v != u {
        forall q: Path
          ensures Get(t, Dest(v) + q) == Get(fs, Dest(v) + q) && Get(t, Tmp(v) + q) == Get(fs, Tmp(v) + q)
        {
          OthersApart(u, v, q);
          ArchivedElsewhere(fs, u, w, Dest(v) + q);
          ArchivedElsewhere(fs, u, w, Tmp(v) + q);
        }
        SamePure(fs, t, Dest(v), {v, NOBODY});
        SamePure(fs, t, Tmp(v), {v, NOBODY});
      }
    }
    forall q: Path
      ensures Get(t, PROFILE + q) == Get(fs, PROFILE + q) && Get(t, DOWNLOADS + q) == Get(fs, DOWNLOADS + q)
    {
      SlotRoots(u, q);
      ArchivedElsewhere(fs, u, w, PROFILE + q);
      ArchivedElsewhere(fs, u, w, DOWNLOADS + q);
    }
  }

  lemma WipedKeeps(fs: Fs, w: RestoreWalk)
    requires Lists(fs, PROFILE, w.profile) && Lists(fs, DOWNLOADS, w.downloads) && ArchivesPure(fs)
    ensures var t := FileTree.Run(fs, WipeOps(w));
            && Pure(t, PROFILE, {NOBODY}) && Pure(t, DOWNLOADS, {NOBODY}) && ArchivesPure(t)
            && Get(t, DOWNLOADS + OWNER_FILE) == None
  {
    var t := FileTree.Run(fs, WipeOps(w));
    WipedPure(fs, w, {NOBODY});
    WipedAt(fs, w, OWNER_FILE);
    forall p: Path | OffSlot(p)
      ensures Get(t, p) == Get(fs, p)
    {
      WipedElsewhere(fs, w, p);
    }
    OffSlotArchives(fs, t);
  }

  lemma SuspendIsolated(s: Slot, tabs: Option<string>, w: Walk, wipe: RestoreWalk)
    requires Isolated(s) && Fair(s, StepSuspend(tabs, w, wipe))
    ensures Isolated(Suspend(s, tabs, w, wipe))
  {
    assert Allowed(None) == {NOBODY};
    match s.bound
    case None => WipedKeeps(s.fs, wipe);
    case Some(u) =>
      var fs := KeepTabs(s, tabs);
      KeepTabsKeeps(s, tabs);
      ArchivedKeeps(fs, u, w);
      SamePure(fs, Archived(fs, u, w), PROFILE, {u, NOBODY});
      SamePure(fs, Archived(fs, u, w), DOWNLOADS, {u, NOBODY});
      SameLists(fs, Archived(fs, u, w), PROFILE, wipe.profile);
      SameLists(fs, Archived(fs, u, w), DOWNLOADS, wipe.downloads);
      WipedKeeps(Archived(fs, u, w), wipe);
  }

  lemma SameLists(a: Fs, b: Fs, root: Path, list: seq<Path>)
    requires Lists(a, root, list) && forall q: Path :: Get(b, root + q) == Get(a, root + q)
    ensures Lists(b, root, list)
  {
    forall q: Path
      ensures q in list <==> root + q in b
    {
      assert Get(b, root + q) == Get(a, root + q);
    }
  }

  // ---- the other steps -----------------------------------------------------

  /** The bound user left something on the slot beside the owner file, or is served there. */
  ghost predicate InUse(s: Slot)
  {
    || (exists q: Path :: !Within(Get(s.fs, PROFILE + q), {NOBODY}))
    || (exists q: Path :: q != OWNER_FILE && !Within(Get(s.fs, DOWNLOADS + q), {NOBODY}))
    || (s.chrome.Some? && s.chrome.value.user != NOBODY)
  }

  /** Naming a user keeps the slot isolated exactly when it is not bound to somebody else, or that
      user has left nothing there. */
  lemma IdentifyExact(s: Slot, u: User)
    requires Isolated(s) && ValidUser(u)
    ensures Isolated(Identify(s, u)) <==> !(Rebinds(s, u) && InUse(s))
  {
    IdentifyAt(s, u);
    if !Rebinds(s, u) {
      IdentifyIsolated(s, u);
    } else if InUse(s) {
      IdentifyMixes(s, u);
    } else {
      forall q: Path
        ensures Within(Get(s.fs, PROFILE + q), {u, NOBODY})
        ensures q != OWNER_FILE ==> Within(Get(s.fs, DOWNLOADS + q), {u, NOBODY})
      {
        assert Within(Get(s.fs, PROFILE + q), {NOBODY});
        assert q != OWNER_FILE ==> Within(Get(s.fs, DOWNLOADS + q), {NOBODY});
      }
      assert SlotPure(Identify(s, u));
    }
  }

  predicate EmptyBut(fs: Fs, root: Path, keep: Path)
  {
    && (root in fs ==> fs[root] == Folder)
    && (forall p :: p in fs && root <= p && p != root ==> p == root + keep)
  }

  /** What a caller can see: no browser runs, the profile folder is empty, and the downloads hold
      the owner file only. */
  predicate Vacant(s: Slot)
  {
    s.chrome.None? && EmptyBut(s.fs, PROFILE, []) && EmptyBut(s.fs, DOWNLOADS, OWNER_FILE)
  }

  /** A vacant slot may be given any name, whoever it is bound to. */
  lemma IdentifyVacant(s: Slot, u: User)
    requires Isolated(s) && ValidUser(u) && Vacant(s)
    ensures !InUse(s) && Isolated(Identify(s, u))
  {
    forall q: Path
      ensures Within(Get(s.fs, PROFILE + q), {NOBODY})
      ensures q != OWNER_FILE ==> Within(Get(s.fs, DOWNLOADS + q), {NOBODY})
    {
      EmptyAt(s.fs, PROFILE, [], q);
      EmptyAt(s.fs, DOWNLOADS, OWNER_FILE, q);
    }
    IdentifyExact(s, u);
  }

  lemma EmptyAt(fs: Fs, root: Path, keep: Path, q: Path)
    requires EmptyBut(fs, root, keep)
    ensures q == keep != [] || Get(fs, root + q) in {None, Some(Folder)}
  {
    var p := root + q;
    assert root <= p && p[|root|..] == q && (root + keep)[|root|..] == keep && (q == [] ==> p == root);
  }

  /** Naming a user changes the owner file and nothing else on the slot. */
  lemma IdentifyAt(s: Slot, u: User)
    requires ArchivesPure(s.fs)
    ensures var t := Identify(s, u);
            && (forall q: Path :: Get(t.fs, PROFILE + q) == Get(s.fs, PROFILE + q))
            && (forall q: Path ::
                  Get(t.fs, DOWNLOADS + q) == if q == OWNER_FILE then Some(Marker(u)) else Get(s.fs, DOWNLOADS + q))
            && ArchivesPure(t.fs)
  {
    var t := Identify(s, u);
    var p := DOWNLOADS + OWNER_FILE;
    assert DOWNLOADS <= p;
    SlotPutArchives(s.fs, p, Marker(u));
    forall q: Path
      ensures Get(t.fs, PROFILE + q) == Get(s.fs, PROFILE + q)
      ensures Get(t.fs, DOWNLOADS + q) == if q == OWNER_FILE then Some(Marker(u)) else Get(s.fs, DOWNLOADS + q)
    {
      SlotApart(q);
      assert (DOWNLOADS + q)[1..] == q && p[1..] == OWNER_FILE;
    }
  }

  lemma IdentifyMixes(s: Slot, u: User)
    requires Isolated(s) && ValidUser(u) && Rebinds(s, u) && InUse(s)
    ensures !Isolated(Identify(s, u))
  {
    var t, v := Identify(s, u), s.bound.value;
    IdentifyAt(s, u);
    if q: Path :| !Within(Get(s.fs, PROFILE + q), {NOBODY}) {
      assert Within(Get(s.fs, PROFILE + q), {v, NOBODY});
      assert !Within(Get(t.fs, PROFILE + q), {u, NOBODY});
    } else if q: Path :| q != OWNER_FILE && !Within(Get(s.fs, DOWNLOADS + q), {NOBODY}) {
      assert Within(Get(s.fs, DOWNLOADS + q), {v, NOBODY});
      assert !Within(Get(t.fs, DOWNLOADS + q), {u, NOBODY});
    }
  }

  lemma IdentifyIsolated(s: Slot, u: User)
    requires Isolated(s) && ValidUser(u) && !Rebinds(s, u)
    ensures Isolated(Identify(s, u))
  {
    if s.bound.None? {
      assert Allowed(None) == {NOBODY};
      MorePure(s.fs, PROFILE, {NOBODY}, {u, NOBODY});
      MorePure(s.fs, DOWNLOADS, {NOBODY}, {u, NOBODY});
    }
    BindKeeps(s, u);
  }

  lemma MorePure(fs: Fs, root: Path, users: set<User>, more: set<User>)
    requires Pure(fs, root, users) && users <= more
    ensures Pure(fs, root, more)
  {
    forall q: Path
      ensures Within(Get(fs, root + q), more)
    {
      assert Within(Get(fs, root + q), users);
    }
  }

  lemma BrowseIsolated(s: Slot, inProfile: bool, q: Path, d: Data)
    requires Isolated(s)
    ensures Isolated(Browse(s, inProfile, q, d))
  {
    var t := Browse(s, inProfile, q, d);
    if t != s {
      var root := if inProfile then PROFILE else DOWNLOADS;
      var p := root + q;
      assert root <= p;
      PutPure(s.fs, p, d, PROFILE, Allowed(s.bound));
      PutPure(s.fs, p, d, DOWNLOADS, Allowed(s.bound));
      SlotPutArchives(s.fs, p, d);
      OwnerPath(inProfile, q);
    }
  }

  lemma OwnerPath(inProfile: bool, q: Path)
    ensures (if inProfile then PROFILE else DOWNLOADS) + q == DOWNLOADS + OWNER_FILE <==> !inProfile && q == OWNER_FILE
  {
    assert (PROFILE + q)[0] == "profile" && (DOWNLOADS + q)[0] == "downloads" == (DOWNLOADS + OWNER_FILE)[0];
    assert (DOWNLOADS + q)[1..] == q && (DOWNLOADS + OWNER_FILE)[1..] == OWNER_FILE;
  }

  /** A path of one user's archive is in no folder of another user. */
  lemma GrantPath(u: User, v: User, q: Path)
    ensures Dest(v) <= Dest(u) + q ==> v == u
    ensures Tmp(v) <= Dest(u) + q ==> v + ".tmp" == u && |u| >= 4 && u[|u| - 4..] == ".tmp"
  {
    assert (Dest(u) + q)[1] == u && Dest(v)[1] == v && Tmp(v)[1] == v + ".tmp";
    assert (v + ".tmp")[|v|..] == ".tmp";
  }

  lemma GrantIsolated(s: Slot, u: User, q: Path, d: Data)
    requires Isolated(s) && ValidUser(u)
    ensures Isolated(Grant(s, u, q, d))
  {
    if Owners(d) <= {u, NOBODY} {
      var p := Dest(u) + (["grant"] + q);
      SlotRoots(u, ["grant"] + q);
      PutPure(s.fs, p, d, PROFILE, Allowed(s.bound));
      PutPure(s.fs, p, d, DOWNLOADS, Allowed(s.bound));
      assert p[0] == "sessions" && (DOWNLOADS + OWNER_FILE)[0] == "downloads";
      forall v: User | ValidUser(v)
        ensures Pure(s.fs[p := d], Dest(v), {v, NOBODY}) && Pure(s.fs[p := d], Tmp(v), {v, NOBODY})
      {
        GrantPath(u, v, ["grant"] + q);
        PutPure(s.fs, p, d, Dest(v), {v, NOBODY});
        PutPure(s.fs, p, d, Tmp(v), {v, NOBODY});
      }
    }
  }

  lemma BootIsolated(s: Slot, autostart: bool)
    requires Isolated(s)
    ensures Isolated(Boot(s, autostart)) && Boot(s, autostart).bound == s.bound
  {
  }

  // ---- runs ----------------------------------------------------------------

  lemma NextIsolated(s: Slot, step: Step)
    requires Isolated(s) && Fair(s, step)
    ensures Isolated(Next(s, step))
  {
    match step
    case StepWake(u, w, needRestore, started) => WakeIsolated(s, u, w, needRestore, started);
    case StepSuspend(tabs, w, wipe) => SuspendIsolated(s, tabs, w, wipe);
    case StepIdentify(u) => IdentifyIsolated(s, u);
    case StepRestart(ok) =>
    case StepBoot(autostart) => BootIsolated(s, autostart);
    case StepBrowse(inProfile, q, d) => BrowseIsolated(s, inProfile, q, d);
    case StepGrant(u, q, d) => GrantIsolated(s, u, q, d);
  }

  const START := Slot(map[], None, false, None, None, 0)

  function Run(steps: seq<Step>): Slot
  {
    if |steps| == 0 then START else Next(Run(steps[..|steps| - 1]), steps[|steps| - 1])
  }

  ghost predicate RunFair(steps: seq<Step>)
  {
    |steps| > 0 ==> RunFair(steps[..|steps| - 1]) && Fair(Run(steps[..|steps| - 1]), steps[|steps| - 1])
  }

  lemma {:induction false} RunIsolated(steps: seq<Step>)
    requires RunFair(steps)
    ensures Isolated(Run(steps))
    decreases |steps|
  {
    if |steps| > 0 {
      RunIsolated(steps[..|steps| - 1]);
      NextIsolated(Run(steps[..|steps| - 1]), steps[|steps| - 1]);
    }
  }

  /** Over every run of wakes, suspends, identifications, restarts, boots, browsing and grants: the
      running browser sits on the profile it was started on; what is in the profile and the
      downloads of a bound slot is its user's, or nobody's; every archive holds its user's data
      only; and the binding survives a boot. */
  lemma IsolationOverRuns(steps: seq<Step>, q: Path, u: User)
    requires RunFair(steps)
    ensures var s := Run(steps);
            && (s.chrome.Some? ==> s.chrome.value.epoch == s.epoch)
            && (s.bound.Some? ==> Within(Get(s.fs, PROFILE + q), {s.bound.value, NOBODY}))
            && (s.bound.Some? ==> Within(Get(s.fs, DOWNLOADS + q), {s.bound.value, NOBODY}))
            && (s.bound.None? ==> Within(Get(s.fs, PROFILE + q), {NOBODY}))
            && (ValidUser(u) ==> Within(Get(s.fs, Dest(u) + q), {u, NOBODY}))
            && Boot(s, true).bound == s.bound
  {
    RunIsolated(steps);
    var s := Run(steps);
    assert Allowed(None) == {NOBODY};
    assert Within(Get(s.fs, PROFILE + q), Allowed(s.bound)) && Within(Get(s.fs, DOWNLOADS + q), Allowed(s.bound));
    if ValidUser(u) {
      assert Pure(s.fs, Dest(u), {u, NOBODY});
    }
    BootIsolated(s, true);
  }

  /** A user is woken on an empty slot and another one is named before a suspend: the browser of
      the first now runs on a slot that is bound to the second. */
  lemma IdentifyOverUser(u: User, v: User, w: RestoreWalk)
    requires ValidUser(u) && ValidUser(v) && u != v && RestoreWalks(START.fs, u, w)
    ensures var s := Wake(START, u, w, true, true);
            && RunFair([StepWake(u, w, true, true)]) && s == Run([StepWake(u, w, true, true)])
            && !Isolated(Identify(s, v)) && Identify(s, v).chrome == Some(Process(u, s.epoch))
            && Identify(s, v).bound == Some(v)
  {
    var steps := [StepWake(u, w, true, true)];
    assert steps[..0] == [] && Run([]) == START && RunFair([]);
    NextIsolated(START, steps[0]);
    IdentifyMixes(Wake(START, u, w, true, true), v);
  }

  // ---- the slot in place ---------------------------------------------------

  lemma StepKeeps(s: Slot, step: Step)
    ensures Isolated(s) && Fair(s, step) ==> Isolated(Next(s, step))
  {
    if Isolated(s) && Fair(s, step) {
      NextIsolated(s, step);
    }
  }

  class Api {
    const disk: Disk
    var slotUser: Option<User>
    var suspended: bool
    var startedFor: Option<User>
    var chrome: Option<Process>
    var epoch: nat

    function View(): Slot
      reads this, disk
    {
      Slot(disk.fs, slotUser, suspended, startedFor, chrome, epoch)
    }

    constructor ()
      ensures View() == START && fresh(disk)
    {
      disk := new Disk(map[]);
      slotUser, suspended, startedFor, chrome, epoch := None, false, None, None, 0;
    }

    method StopChrome()
      modifies this`chrome, this`startedFor
      ensures View() == Stopped(old(View()))
    {
      chrome, startedFor := None, None;
    }

    method SetSlotUser(u: User)
      modifies this`slotUser, disk
      ensures View() == Bind(old(View()), u)
      ensures old(Isolated(View()) && Fair(View(), StepIdentify(u))) ==> Isolated(View())
    {
      StepKeeps(View(), StepIdentify(u));
      slotUser := Some(u);
      var p := DOWNLOADS + OWNER_FILE;
      if !(p in disk.fs && disk.fs[p] == Marker(u)) {
        RunOne(disk.fs, Put(p, Marker(u)));
        disk.Write(p, Marker(u));
      }
    }

    method Refill(u: User, w: RestoreWalk)
      modifies this`slotUser, this`epoch, disk
      ensures View() == Refilled(old(View()), u, w)
    {
      var restored := disk.RestoreUser(u, w);
      if !restored {
        disk.WipeSlotDirs(w);
      }
      epoch := epoch + 1;
      SetSlotUser(u);
    }

    method DoWake(u: User, w: RestoreWalk, needRestore: bool, started: bool)
      modifies this, disk
      ensures View() == Wake(old(View()), u, w, needRestore, started)
      ensures old(Isolated(View()) && Fair(View(), StepWake(u, w, needRestore, started))) ==> Isolated(View())
    {
      StepKeeps(View(), StepWake(u, w, needRestore, started));
      if slotUser == Some(u) && chrome.Some? && !needRestore {
        suspended := false;
        return;
      }
      if chrome.Some? {
        StopChrome();
      }
      Refill(u, w);
      suspended, startedFor := false, Some(u);
      chrome := if started then Some(Process(u, epoch)) else None;
    }

    /** The last tabs before the browser stops; `tabs` is what it shows, if it answers. */
    method KeepLastTabs(tabs: Option<string>)
      modifies disk
      ensures disk.fs == KeepTabs(old(View()), tabs)
    {
      if startedFor.Some? && startedFor == slotUser {
        if tabs.Some? && chrome.Some? {
          var d := File(chrome.value.user, |tabs.value|, tabs.value);
          RunOne(disk.fs, Put(PROFILE + SNAPSHOT, d));
          disk.Write(PROFILE + SNAPSHOT, d);
          RunOne(disk.fs, Put(PROFILE + LAST_GOOD, d));
          disk.Write(PROFILE + LAST_GOOD, d);
        }
      } else {
        disk.Remove({PROFILE + SNAPSHOT, PROFILE + LAST_GOOD});
      }
    }

    method WipeAndForget(w: RestoreWalk)
      modifies this`slotUser, this`epoch, disk
      ensures View() == Wiped(old(View()), w)
    {
      disk.WipeSlotDirs(w);
      slotUser := None;
      epoch := epoch + 1;
    }

    method DoSuspend(tabs: Option<string>, w: Walk, wipe: RestoreWalk)
      modifies this, disk
      ensures View() == Suspend(old(View()), tabs, w, wipe)
      ensures old(Isolated(View()) && Fair(View(), StepSuspend(tabs, w, wipe))) ==> Isolated(View())
    {
      StepKeeps(View(), StepSuspend(tabs, w, wipe));
      if slotUser.None? {
        if chrome.Some? {
          StopChrome();
          WipeAndForget(wipe);
        }
        suspended := true;
        return;
      }
      if suspended && chrome.None? {
        return;
      }
      KeepLastTabs(tabs);
      StopChrome();
      var archived := disk.ArchiveUser(slotUser.value, w);
      if archived {
        WipeAndForget(wipe);
      }
      suspended := true;
    }

    method RestartChrome(ok: bool)
      modifies this`chrome
      ensures View() == Restart(old(View()), ok)
      ensures old(Isolated(View()) && Fair(View(), StepRestart(ok))) ==> Isolated(View())
    {
      StepKeeps(View(), StepRestart(ok));
      chrome := if ok then Some(Process(UserOf(slotUser), epoch)) else None;
    }

    method BootUp(autostart: bool)
      modifies this
      ensures View() == Boot(old(View()), autostart)
      ensures old(Isolated(View()) && Fair(View(), StepBoot(autostart))) ==> Isolated(View())
    {
      StepKeeps(View(), StepBoot(autostart));
      var p := DOWNLOADS + OWNER_FILE;
      slotUser := if p in disk.fs && disk.fs[p].Marker? then Some(disk.fs[p].user) else None;
      suspended, startedFor := false, slotUser;
      RestartChrome(autostart);
    }
  }
}
