/** What a suspend leaves and what a wake brings back, entry by entry, and the way from one to the
    other through whatever the slot does in between. */
module Lifecycle {
  import opened Wrappers
  import opened FileTree
  import opened Archive
  import opened Restore
  import opened Ownership
  import opened Slot

  // ---- suspend -------------------------------------------------------------

  /** The slot is bound to the user and has something to suspend. */
  predicate Suspends(s: Slot, u: User)
  {
    s.bound == Some(u) && !(s.suspended && s.chrome.None?)
  }

  /** Worth an archive: a profile with its two marks, and not an empty shell over an older one. */
  predicate WorthArchiving(fs: Fs, u: User, bytes: nat)
  {
    && IsFolder(fs, PROFILE) && IsFolder(fs, PROFILE + ["Default"]) && IsFile(fs, PROFILE + ["Preferences"])
    && (IsFolder(fs, Dest(u)) ==> bytes >= 5242880)
  }

  predicate Emptied(fs: Fs, root: Path, q: Path)
  {
    Get(fs, root + q) == if q == [] then Some(Folder) else None
  }

  /** An archive that is made holds the new entry everywhere, and then the slot is empty and free.
      An archive that is refused leaves slot, binding and older archive as they were. */
  lemma SuspendLeaves(s: Slot, u: User, tabs: Option<string>, w: Walk, wipe: RestoreWalk, q: Path)
    requires Suspends(s, u) && Fair(s, StepSuspend(tabs, w, wipe))
    ensures var fs, t := KeepTabs(s, tabs), Suspend(s, tabs, w, wipe);
            && t.suspended && t.chrome == None
            && if WorthArchiving(fs, u, Bytes(fs, PROFILE, w.profile)) then
                 && t.bound == None && Emptied(t.fs, PROFILE, q) && Emptied(t.fs, DOWNLOADS, q)
                 && Get(t.fs, Dest(u) + q) == if q == MARKER then Some(Marker(u)) else NewArchive(fs, u, q)
               else
                 && t.bound == s.bound && Get(t.fs, PROFILE + q) == Get(fs, PROFILE + q)
                 && Get(t.fs, DOWNLOADS + q) == Get(fs, DOWNLOADS + q) && Get(t.fs, Dest(u) + q) == Get(fs, Dest(u) + q)
  {
    var fs := KeepTabs(s, tabs);
    if MayArchive(fs, u, w) {
      var a := Archived(fs, u, w);
      ArchivedAt(fs, u, w, q);
      ArchivedLists(fs, u, w, wipe);
      WipedAt(a, wipe, q);
      DestOffSlot(u, q);
      WipedElsewhere(a, wipe, Dest(u) + q);
    }
  }

  /** Without a user a running browser is stopped and the slot emptied; a slot that has nothing to
      suspend stays as it is. */
  lemma SuspendOwnerless(s: Slot, tabs: Option<string>, w: Walk, wipe: RestoreWalk, q: Path)
    requires Fair(s, StepSuspend(tabs, w, wipe))
    ensures var t := Suspend(s, tabs, w, wipe);
            && (s.bound.None? ==> t.suspended && t.chrome == None && t.bound == None)
            && (s.bound.None? && s.chrome.Some? ==> Emptied(t.fs, PROFILE, q) && Emptied(t.fs, DOWNLOADS, q))
            && (s.chrome.None? && (s.bound.None? || s.suspended) ==> t.fs == s.fs && t.bound == s.bound)
  {
    if s.bound.None? {
      WipedAt(s.fs, wipe, q);
    }
  }

  /** The archive run does not change what the wipe finds on the slot. */
  lemma ArchivedLists(fs: Fs, u: User, w: Walk, wipe: RestoreWalk)
    requires Lists(fs, PROFILE, wipe.profile) && Lists(fs, DOWNLOADS, wipe.downloads) && MayArchive(fs, u, w)
    ensures Lists(Archived(fs, u, w), PROFILE, wipe.profile) && Lists(Archived(fs, u, w), DOWNLOADS, wipe.downloads)
  {
    forall q: Path
      ensures Get(Archived(fs, u, w), PROFILE + q) == Get(fs, PROFILE + q)
      ensures Get(Archived(fs, u, w), DOWNLOADS + q) == Get(fs, DOWNLOADS + q)
    {
      Apart(u, q);
      ArchivedElsewhere(fs, u, w, PROFILE + q);
      ArchivedElsewhere(fs, u, w, DOWNLOADS + q);
    }
    SameLists(fs, Archived(fs, u, w), PROFILE, wipe.profile);
    SameLists(fs, Archived(fs, u, w), DOWNLOADS, wipe.downloads);
  }

  /** Before the browser stops, its tabs are written where it was started for the bound user, and
      where it was not, older ones are removed; nothing else changes. */
  lemma TabsKept(s: Slot, tabs: Option<string>, p: Path)
    ensures var t := Get(KeepTabs(s, tabs), p);
            var tabFile := p == PROFILE + ["tab-snapshot.json"] || p == PROFILE + ["tab-snapshot.last-good.json"];
            if !tabFile then t == Get(s.fs, p)
            else if s.startedFor.None? || s.startedFor != s.bound then t == None
            else if tabs.Some? && s.chrome.Some? then t == Some(File(s.chrome.value.user, |tabs.value|, tabs.value))
            else t == Get(s.fs, p)
  {
    assert SNAPSHOT == ["tab-snapshot.json"] && LAST_GOOD == ["tab-snapshot.last-good.json"];
  }

  // ---- wake ----------------------------------------------------------------

  /** The user's browser already runs on the slot and keeps running. */
  predicate Resumes(s: Slot, u: User, needRestore: bool)
  {
    s.bound == Some(u) && s.chrome.Some? && !needRestore
  }

  /** The archive has a profile with its two marks and is not marked as somebody else's. */
  ghost predicate ArchiveUsable(fs: Fs, u: User)
  {
    var root := Dest(u) + ["profile"];
    && IsFolder(fs, root) && IsFolder(fs, root + ["Default"]) && IsFile(fs, root + ["Preferences"])
    && !(exists v :: Get(fs, Dest(u) + MARKER) == Some(Marker(v)) && v != u)
  }

  /** No name on the path is that of a browser cache. */
  predicate NoCache(q: Path)
  {
    forall i :: 0 <= i < |q| ==>
      q[i] !in {"Cache", "Code Cache", "GPUCache", "ShaderCache", "DawnCache", "GrShaderCache", "DawnGraphiteCache"}
  }

  /** An entry of a copied profile: cache folders are left out and the cookie database loses its
      SSO identities. */
  function Carried(d: Option<Data>, q: Path): Option<Data>
  {
    if q == [] then Some(Folder)
    else if !NoCache(q) then None
    else if q == ["Default", "Cookies"] then Stripped(d)
    else d
  }

  function Named(d: Option<Data>, u: User, q: Path): Option<Data>
  {
    if q == OWNER_FILE then Some(Marker(u)) else if q == [] then Some(Folder) else d
  }

  /** Stripping goes through the cookies in order and drops the identities. */
  lemma StrippingIs(cookies: seq<Cookie>, last: Cookie)
    ensures Unidentified([]) == []
    ensures Unidentified(cookies + [last]) == Unidentified(cookies) + if last.identity then [] else [last]
    ensures forall size: nat ::
              Stripped(Some(CookieDb(size, cookies))) == Some(CookieDb(size, Unidentified(cookies)))
    ensures forall d: Option<Data> :: d.None? || !d.value.CookieDb? ==> Stripped(d) == d
  {
    UnidentifiedAppend(cookies, last);
  }

  lemma {:induction false} UnidentifiedAppend(cookies: seq<Cookie>, last: Cookie)
    ensures Unidentified(cookies + [last]) == Unidentified(cookies) + if last.identity then [] else [last]
  {
    if |cookies| == 0 {
      assert cookies + [last] == [last] && [last][1..] == [];
    } else {
      UnidentifiedAppend(cookies[1..], last);
      assert (cookies + [last])[1..] == cookies[1..] + [last];
    }
  }

  /** A wake that starts the browser finds the archived profile and downloads when the archive is
      usable, and empty folders otherwise; the owner file names the user, and the archive stays. */
  lemma WakeBrings(s: Slot, u: User, w: RestoreWalk, needRestore: bool, started: bool, q: Path)
    requires RestoreWalks(s.fs, u, w) && !Resumes(s, u, needRestore)
    ensures var t := Wake(s, u, w, needRestore, started);
            && t.bound == Some(u) && !t.suspended && Get(t.fs, Dest(u) + q) == Get(s.fs, Dest(u) + q)
            && if ArchiveUsable(s.fs, u) then
                 && Get(t.fs, PROFILE + q) == Carried(Get(s.fs, Dest(u) + ["profile"] + q), q)
                 && Get(t.fs, DOWNLOADS + q)
                    == Named(if IsFolder(s.fs, Dest(u) + ["Downloads"]) then Get(s.fs, Dest(u) + ["Downloads"] + q)
                             else None, u, q)
               else
                 && Emptied(t.fs, PROFILE, q) && Get(t.fs, DOWNLOADS + q) == Named(None, u, q)
  {
    var fs := Filled(s.fs, u, w);
    FilledBrings(s.fs, u, w, q);
    DestOffSlot(u, q);
    BoundAt(s.(fs := fs), u, q);
    BoundAway(s.(fs := fs), u, Dest(u) + q);
  }

  lemma FilledBrings(fs: Fs, u: User, w: RestoreWalk, q: Path)
    requires RestoreWalks(fs, u, w)
    ensures var t := Filled(fs, u, w);
            && Get(t, Dest(u) + q) == Get(fs, Dest(u) + q)
            && if ArchiveUsable(fs, u) then
                 && Get(t, PROFILE + q) == Carried(Get(fs, Dest(u) + ["profile"] + q), q)
                 && Get(t, DOWNLOADS + q)
                    == if q == [] then Some(Folder)
                       else if IsFolder(fs, Dest(u) + ["Downloads"]) then Get(fs, Dest(u) + ["Downloads"] + q)
                       else None
               else Emptied(t, PROFILE, q) && Emptied(t, DOWNLOADS, q)
  {
    DestOffSlot(u, q);
    KeptIs(q);
    AcceptedIs(fs, u);
    if RestoreAccepts(fs, u) {
      RestoredProfileAt(fs, u, w, q);
      RestoredDownloadsAt(fs, u, w, q);
      RestoredElsewhere(fs, u, w, Dest(u) + q);
    } else {
      WipedAt(fs, w, q);
      WipedElsewhere(fs, w, Dest(u) + q);
    }
  }

  lemma KeptIs(q: Path)
    ensures Keeps(q) <==> NoCache(q)
  {
  }

  lemma AcceptedIs(fs: Fs, u: User)
    ensures RestoreAccepts(fs, u) <==> ArchiveUsable(fs, u)
  {
  }

  /** Binding writes the owner file and nothing else. */
  lemma BoundAt(s: Slot, u: User, q: Path)
    ensures var t := Bind(s, u);
            && Get(t.fs, PROFILE + q) == Get(s.fs, PROFILE + q)
            && Get(t.fs, DOWNLOADS + q) == if q == OWNER_FILE then Some(Marker(u)) else Get(s.fs, DOWNLOADS + q)
  {
    SlotApart(q);
    assert (DOWNLOADS + q)[1..] == q && (DOWNLOADS + OWNER_FILE)[1..] == OWNER_FILE;
    assert DOWNLOADS <= DOWNLOADS + OWNER_FILE;
  }

  lemma BoundAway(s: Slot, u: User, p: Path)
    requires OffSlot(p)
    ensures Get(Bind(s, u).fs, p) == Get(s.fs, p)
  {
    assert DOWNLOADS <= DOWNLOADS + OWNER_FILE;
  }

  /** A wake for the user whose browser runs changes nothing but the flag; any other leaves the
      browser, if it came up, serving the user on the profile that was just filled. */
  lemma WakeServes(s: Slot, u: User, w: RestoreWalk, needRestore: bool, started: bool)
    ensures var t := Wake(s, u, w, needRestore, started);
            && (Resumes(s, u, needRestore) ==> t == s.(suspended := false))
            && (!Resumes(s, u, needRestore) ==>
                  && t.startedFor == Some(u) && t.epoch == s.epoch + 1 && (t.chrome.Some? <==> started)
                  && (started ==> t.chrome.value.user == u && t.chrome.value.epoch == t.epoch))
  {
  }

  /** A container that comes up again has the user and the files it had. */
  lemma BootKeeps(s: Slot, autostart: bool)
    requires Isolated(s)
    ensures var t := Boot(s, autostart);
            && t.fs == s.fs && t.bound == s.bound && t.startedFor == s.bound && !t.suspended
            && (t.chrome.Some? <==> autostart)
            && (autostart && s.bound.Some? ==> t.chrome.value.user == s.bound.value)
  {
  }

  // ---- what an archive holds -----------------------------------------------

  /** The profile without caches and identities, and with the tabs of the older archive when it has
      none; the downloads without the slot's own files; the grant of the older archive. */
  lemma ArchiveHolds(fs: Fs, u: User, q: Path)
    ensures NewArchive(fs, u, []) == Some(Folder)
    ensures NewArchive(fs, u, ["profile"] + q)
         == if q == ["tab-snapshot.json"] && PROFILE + q !in fs && IsFile(fs, Dest(u) + ["profile"] + q) then
              Get(fs, Dest(u) + ["profile"] + q)
            else if !NoCache(q) then None
            else if q == ["Default", "Cookies"] then Stripped(Get(fs, PROFILE + q))
            else Get(fs, PROFILE + q)
    ensures NewArchive(fs, u, ["Downloads"] + q)
         == if !IsFolder(fs, DOWNLOADS) then None
            else if q == [] then Some(Folder)
            else if ".slot-user" <= q[0] then None
            else Get(fs, DOWNLOADS + q)
    ensures NewArchive(fs, u, ["grant"] + q)
         == if IsFolder(fs, Dest(u) + ["grant"]) then Get(fs, Dest(u) + ["grant"] + q) else None
    ensures q != [] && q[0] !in {"profile", "Downloads", "grant"} ==> NewArchive(fs, u, q) == None
  {
    KeptIs(q);
    assert (["profile"] + q)[1..] == q && (["Downloads"] + q)[1..] == q && (["grant"] + q)[1..] == q;
  }

  // ---- there and back ------------------------------------------------------

  /** What a profile entry is after one suspend and one wake. */
  function Returned(fs: Fs, u: User, q: Path): Option<Data>
  {
    if q == ["tab-snapshot.json"] && PROFILE + q !in fs && IsFile(fs, Dest(u) + ["profile"] + q) then
      Get(fs, Dest(u) + ["profile"] + q)
    else Carried(Get(fs, PROFILE + q), q)
  }

  function ReturnedDownload(fs: Fs, u: User, q: Path): Option<Data>
  {
    Named(if !IsFolder(fs, DOWNLOADS) || q == [] || ".slot-user" <= q[0] then None else Get(fs, DOWNLOADS + q), u, q)
  }

  /** The user's archive was made of these files. */
  ghost predicate ArchivedFrom(fs: Fs, later: Fs, u: User)
  {
    CompleteAt(fs, later, u, Dest(u)) && Get(later, Dest(u) + MARKER) == Some(Marker(u))
  }

  lemma SuspendArchives(s: Slot, u: User, tabs: Option<string>, w: Walk, wipe: RestoreWalk, later: Fs)
    requires Suspends(s, u) && Fair(s, StepSuspend(tabs, w, wipe))
    requires WorthArchiving(KeepTabs(s, tabs), u, Bytes(KeepTabs(s, tabs), PROFILE, w.profile))
    requires SameUnder(Suspend(s, tabs, w, wipe).fs, later, Dest(u))
    ensures ArchivedFrom(KeepTabs(s, tabs), later, u)
  {
    forall q: Path
      ensures Get(later, Dest(u) + q) == if q == MARKER then Some(Marker(u)) else NewArchive(KeepTabs(s, tabs), u, q)
    {
      SuspendLeaves(s, u, tabs, w, wipe, q);
    }
  }

  lemma HeldBelow(fs: Fs, later: Fs, u: User, name: Name, q: Path)
    requires ArchivedFrom(fs, later, u) && name in {"profile", "Downloads", "grant"}
    ensures Get(later, Dest(u) + [name] + q) == NewArchive(fs, u, [name] + q)
  {
    Below(u, name, q);
    assert ([name] + q)[0] == name && MARKER[0] == ".archive-user.json";
    assert Get(later, Dest(u) + ([name] + q)) == NewArchive(fs, u, [name] + q);
  }

  /** An archive made of a profile with its two marks is usable. */
  lemma ArchivedUsable(fs: Fs, later: Fs, u: User)
    requires ArchivedFrom(fs, later, u)
    requires IsFolder(fs, PROFILE) && IsFolder(fs, PROFILE + ["Default"]) && IsFile(fs, PROFILE + ["Preferences"])
    ensures ArchiveUsable(later, u)
  {
    HeldBelow(fs, later, u, "profile", []);
    HeldBelow(fs, later, u, "profile", ["Default"]);
    HeldBelow(fs, later, u, "profile", ["Preferences"]);
    ArchiveHolds(fs, u, []);
    ArchiveHolds(fs, u, ["Default"]);
    ArchiveHolds(fs, u, ["Preferences"]);
    assert PROFILE + [] == PROFILE && Dest(u) + ["profile"] + [] == Dest(u) + ["profile"];
  }

  lemma ReturnedProfile(fs: Fs, later: Fs, u: User, q: Path)
    requires ArchivedFrom(fs, later, u) && IsFolder(fs, PROFILE)
    ensures Carried(Get(later, Dest(u) + ["profile"] + q), q) == Returned(fs, u, q)
  {
    HeldBelow(fs, later, u, "profile", q);
    ArchiveHolds(fs, u, q);
    StrippedTwice(Get(fs, PROFILE + q));
  }

  lemma ReturnedDownloads(fs: Fs, later: Fs, u: User, q: Path)
    requires ArchivedFrom(fs, later, u)
    ensures Named(if IsFolder(later, Dest(u) + ["Downloads"]) then Get(later, Dest(u) + ["Downloads"] + q) else None, u,
                  q)
         == ReturnedDownload(fs, u, q)
  {
    HeldBelow(fs, later, u, "Downloads", q);
    HeldBelow(fs, later, u, "Downloads", []);
    ArchiveHolds(fs, u, q);
    ArchiveHolds(fs, u, []);
    assert Dest(u) + ["Downloads"] + [] == Dest(u) + ["Downloads"];
  }

  /** A suspend that archives, and a wake on any slot that sees the archive as it was left: profile
      and downloads come back, without caches, identities and slot files. */
  lemma SuspendThenWake(s: Slot, u: User, tabs: Option<string>, w: Walk, wipe: RestoreWalk, later: Slot,
                        v: RestoreWalk, needRestore: bool, started: bool, q: Path)
    requires Suspends(s, u) && Fair(s, StepSuspend(tabs, w, wipe))
    requires WorthArchiving(KeepTabs(s, tabs), u, Bytes(KeepTabs(s, tabs), PROFILE, w.profile))
    requires SameUnder(Suspend(s, tabs, w, wipe).fs, later.fs, Dest(u))
    requires RestoreWalks(later.fs, u, v) && !Resumes(later, u, needRestore)
    ensures var fs, t := KeepTabs(s, tabs), Wake(later, u, v, needRestore, started);
            && t.bound == Some(u) && Get(t.fs, PROFILE + q) == Returned(fs, u, q)
            && Get(t.fs, DOWNLOADS + q) == ReturnedDownload(fs, u, q)
  {
    var fs := KeepTabs(s, tabs);
    SuspendArchives(s, u, tabs, w, wipe, later.fs);
    WakeReturns(fs, later, u, v, needRestore, started, q);
  }

  lemma WakeReturns(fs: Fs, later: Slot, u: User, v: RestoreWalk, needRestore: bool, started: bool, q: Path)
    requires ArchivedFrom(fs, later.fs, u)
    requires IsFolder(fs, PROFILE) && IsFolder(fs, PROFILE + ["Default"]) && IsFile(fs, PROFILE + ["Preferences"])
    requires RestoreWalks(later.fs, u, v) && !Resumes(later, u, needRestore)
    ensures var t := Wake(later, u, v, needRestore, started);
            && t.bound == Some(u) && Get(t.fs, PROFILE + q) == Returned(fs, u, q)
            && Get(t.fs, DOWNLOADS + q) == ReturnedDownload(fs, u, q)
  {
    ArchivedUsable(fs, later.fs, u);
    WakeBrings(later, u, v, needRestore, started, q);
    ReturnedProfile(fs, later.fs, u, q);
    ReturnedDownloads(fs, later.fs, u, q);
  }

  /** The tabs that a woken user's browser shows at the suspend are in the archive, as that user's. */
  lemma TabsArchived(s: Slot, u: User, v: RestoreWalk, needRestore: bool, tabs: string, w: Walk, wipe: RestoreWalk)
    requires RestoreWalks(s.fs, u, v) && !Resumes(s, u, needRestore)
    requires var t := Wake(s, u, v, needRestore, true);
             Fair(t, StepSuspend(Some(tabs), w, wipe))
             && WorthArchiving(KeepTabs(t, Some(tabs)), u, Bytes(KeepTabs(t, Some(tabs)), PROFILE, w.profile))
    ensures var t := Suspend(Wake(s, u, v, needRestore, true), Some(tabs), w, wipe);
            Get(t.fs, Dest(u) + ["profile", "tab-snapshot.json"]) == Some(File(u, |tabs|, tabs))
  {
    WakeServes(s, u, v, needRestore, true);
    WakeBinds(s, u, v, needRestore, true);
    TabsFollow(Wake(s, u, v, needRestore, true), u, tabs, w, wipe);
  }

  lemma TabsFollow(s: Slot, u: User, tabs: string, w: Walk, wipe: RestoreWalk)
    requires s.bound == Some(u) && s.startedFor == Some(u) && s.chrome.Some? && s.chrome.value.user == u
    requires Fair(s, StepSuspend(Some(tabs), w, wipe))
    requires WorthArchiving(KeepTabs(s, Some(tabs)), u, Bytes(KeepTabs(s, Some(tabs)), PROFILE, w.profile))
    ensures Get(Suspend(s, Some(tabs), w, wipe).fs, Dest(u) + ["profile", "tab-snapshot.json"])
         == Some(File(u, |tabs|, tabs))
  {
    var q := ["tab-snapshot.json"];
    TabsKept(s, Some(tabs), PROFILE + q);
    TabsCopied(KeepTabs(s, Some(tabs)), u, File(u, |tabs|, tabs));
    SuspendLeaves(s, u, Some(tabs), w, wipe, ["profile", "tab-snapshot.json"]);
  }

  lemma TabsCopied(fs: Fs, u: User, d: Data)
    requires Get(fs, PROFILE + ["tab-snapshot.json"]) == Some(d)
    ensures ["profile", "tab-snapshot.json"] != MARKER
    ensures NewArchive(fs, u, ["profile", "tab-snapshot.json"]) == Some(d)
  {
    ArchiveHolds(fs, u, ["tab-snapshot.json"]);
    assert ["profile"] + ["tab-snapshot.json"] == ["profile", "tab-snapshot.json"];
  }

  lemma WakeBinds(s: Slot, u: User, w: RestoreWalk, needRestore: bool, started: bool)
    ensures Wake(s, u, w, needRestore, started).bound == Some(u)
  {
  }

  // ---- in between ----------------------------------------------------------

  /** The step is for this user. */
  predicate Names(step: Step, u: User)
  {
    match step
    case StepWake(x, _, _, _) => x == u
    case StepIdentify(x) => x == u
    case StepGrant(x, _, _) => x == u
    case _ => false
  }

  lemma SuspendSpares(s: Slot, tabs: Option<string>, w: Walk, wipe: RestoreWalk, u: User, q: Path)
    requires Isolated(s) && Fair(s, StepSuspend(tabs, w, wipe)) && s.bound != Some(u) && ValidUser(u)
    ensures Get(Suspend(s, tabs, w, wipe).fs, Dest(u) + q) == Get(s.fs, Dest(u) + q)
  {
    DestOffSlot(u, q);
    if s.bound.None? {
      WipedElsewhere(s.fs, wipe, Dest(u) + q);
    } else {
      var v, fs := s.bound.value, KeepTabs(s, tabs);
      TabsKept(s, tabs, Dest(u) + q);
      OthersApart(v, u, q);
      ArchivedElsewhere(fs, v, w, Dest(u) + q);
      WipedElsewhere(Archived(fs, v, w), wipe, Dest(u) + q);
    }
  }

  lemma WakeSpares(s: Slot, x: User, w: RestoreWalk, needRestore: bool, started: bool, u: User, q: Path)
    ensures Get(Wake(s, x, w, needRestore, started).fs, Dest(u) + q) == Get(s.fs, Dest(u) + q)
  {
    DestOffSlot(u, q);
    if !Resumes(s, x, needRestore) {
      if RestoreAccepts(s.fs, x) {
        RestoredElsewhere(s.fs, x, w, Dest(u) + q);
      } else {
        WipedElsewhere(s.fs, w, Dest(u) + q);
      }
      BoundAway(s.(fs := Filled(s.fs, x, w)), x, Dest(u) + q);
    }
  }

  lemma GrantSpares(s: Slot, x: User, path: Path, d: Data, u: User, q: Path)
    requires x != u
    ensures Get(Grant(s, x, path, d).fs, Dest(u) + q) == Get(s.fs, Dest(u) + q)
  {
    GrantPath(x, u, ["grant"] + path);
    assert Dest(u) <= Dest(u) + q;
  }

  /** A step for nobody or for somebody else leaves the user's archive alone. */
  lemma OthersSpare(s: Slot, step: Step, u: User)
    requires Isolated(s) && Fair(s, step) && s.bound != Some(u) && ValidUser(u) && !Names(step, u)
    ensures Next(s, step).bound != Some(u) && SameUnder(s.fs, Next(s, step).fs, Dest(u))
  {
    forall q: Path
      ensures Get(Next(s, step).fs, Dest(u) + q) == Get(s.fs, Dest(u) + q)
    {
      DestOffSlot(u, q);
      match step
      case StepWake(x, w, needRestore, started) => WakeSpares(s, x, w, needRestore, started, u, q);
      case StepSuspend(tabs, w, wipe) => SuspendSpares(s, tabs, w, wipe, u, q);
      case StepIdentify(x) => BoundAway(s, x, Dest(u) + q);
      case StepBrowse(inProfile, path, d) => BrowseSpares(s, inProfile, path, d, Dest(u) + q);
      case StepGrant(x, path, d) => GrantSpares(s, x, path, d, u, q);
      case _ =>
    }
    if step.StepBoot? {
      BootIsolated(s, step.autostart);
    }
  }

  lemma BrowseSpares(s: Slot, inProfile: bool, path: Path, d: Data, p: Path)
    requires OffSlot(p)
    ensures Get(Browse(s, inProfile, path, d).fs, p) == Get(s.fs, p)
  {
    assert PROFILE <= PROFILE + path && DOWNLOADS <= DOWNLOADS + path;
  }

  function After(s: Slot, steps: seq<Step>): Slot
  {
    if |steps| == 0 then s else Next(After(s, steps[..|steps| - 1]), steps[|steps| - 1])
  }

  /** Fair steps, none of them for the user. */
  ghost predicate Strangers(s: Slot, steps: seq<Step>, u: User)
  {
    |steps| > 0 ==>
      && Strangers(s, steps[..|steps| - 1], u)
      && Fair(After(s, steps[..|steps| - 1]), steps[|steps| - 1]) && !Names(steps[|steps| - 1], u)
  }

  lemma {:induction false} StrangersSpare(s: Slot, steps: seq<Step>, u: User)
    requires Isolated(s) && Strangers(s, steps, u) && s.bound != Some(u) && ValidUser(u)
    ensures Isolated(After(s, steps)) && After(s, steps).bound != Some(u)
    ensures SameUnder(s.fs, After(s, steps).fs, Dest(u))
    decreases |steps|
  {
    if |steps| > 0 {
      var front, last := steps[..|steps| - 1], steps[|steps| - 1];
      StrangersSpare(s, front, u);
      NextIsolated(After(s, front), last);
      OthersSpare(After(s, front), last, u);
    }
  }

  /** A user is suspended with an archive, any steps for other users follow on the slot, and the user
      is woken again: profile and downloads are what they were, but for what is never carried. */
  lemma CycleOverSteps(s: Slot, u: User, tabs: Option<string>, w: Walk, wipe: RestoreWalk, steps: seq<Step>,
                       v: RestoreWalk, needRestore: bool, started: bool, q: Path)
    requires Isolated(s) && Suspends(s, u) && Fair(s, StepSuspend(tabs, w, wipe))
    requires WorthArchiving(KeepTabs(s, tabs), u, Bytes(KeepTabs(s, tabs), PROFILE, w.profile))
    requires Strangers(Suspend(s, tabs, w, wipe), steps, u)
    requires RestoreWalks(After(Suspend(s, tabs, w, wipe), steps).fs, u, v)
    ensures var fs := KeepTabs(s, tabs);
            var t := Wake(After(Suspend(s, tabs, w, wipe), steps), u, v, needRestore, started);
            && t.bound == Some(u) && Get(t.fs, PROFILE + q) == Returned(fs, u, q)
            && Get(t.fs, DOWNLOADS + q) == ReturnedDownload(fs, u, q)
  {
    var s1 := Suspend(s, tabs, w, wipe);
    NextIsolated(s, StepSuspend(tabs, w, wipe));
    SuspendLeaves(s, u, tabs, w, wipe, []);
    StrangersSpare(s1, steps, u);
    SuspendThenWake(s, u, tabs, w, wipe, After(s1, steps), v, needRestore, started, q);
  }
}
