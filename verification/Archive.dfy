/** Archiving a user of a slot: the profile and the downloads are copied to the sessions volume.
    Every file operation is one step, so that stopping between two of them can be reasoned about. */
module Archive {
  import opened Wrappers
  import opened FileTree

  const PROFILE: Path := ["profile"]
  const DOWNLOADS: Path := ["downloads"]
  const SESSIONS: Path := ["sessions"]
  const MARKER: Path := [".archive-user.json"]
  const SNAPSHOT: Path := ["tab-snapshot.json"]
  const COOKIES: Path := ["Default", "Cookies"]
  const SLOT_USER := ".slot-user"
  const EXCLUDED: set<Name> :=
    {"Cache", "Code Cache", "GPUCache", "ShaderCache", "DawnCache", "GrShaderCache", "DawnGraphiteCache"}
  const MIN_PROFILE_B: nat := 5242880

  function Dest(user: User): Path
  {
    SESSIONS + [user]
  }

  function Tmp(user: User): Path
  {
    SESSIONS + [user + ".tmp"]
  }

  // ---- what is copied ------------------------------------------------------

  predicate Keeps(q: Path)
  {
    forall i :: 0 <= i < |q| ==> q[i] !in EXCLUDED
  }

  predicate NotMarker(q: Path)
  {
    |q| > 0 && !(SLOT_USER <= q[0])
  }

  function Select(list: seq<Path>, p: Path -> bool): seq<Path>
  {
    if |list| == 0 then []
    else if p(list[0]) then [list[0]] + Select(list[1..], p)
    else Select(list[1..], p)
  }

  lemma {:induction false} SelectMember(list: seq<Path>, p: Path -> bool, q: Path)
    ensures q in Select(list, p) <==> q in list && p(q)
  {
    if |list| > 0 {
      SelectMember(list[1..], p, q);
      assert q in list <==> q == list[0] || q in list[1..];
    }
  }

  function Unidentified(cookies: seq<Cookie>): seq<Cookie>
  {
    if |cookies| == 0 then []
    else (if cookies[0].identity then [] else [cookies[0]]) + Unidentified(cookies[1..])
  }

  /** The cookie database without SSO identities; any other entry as it is. */
  function Stripped(d: Option<Data>): Option<Data>
  {
    if d.Some? && d.value.CookieDb? then Some(d.value.(cookies := Unidentified(d.value.cookies))) else d
  }

  function StripOps(fs: Fs, profile: Path): seq<Op>
  {
    var d := Get(fs, profile + COOKIES);
    if d.Some? && d.value.CookieDb? then [Put(profile + COOKIES, Stripped(d).value)] else []
  }

  // ---- archiving -----------------------------------------------------------

  /** The directory walks of one archive run; their order is up to the file system. */
  datatype Walk = Walk(profile: seq<Path>, downloads: seq<Path>, grant: seq<Path>, dest: seq<Path>, tmp: seq<Path>)

  ghost predicate Walks(fs: Fs, user: User, w: Walk)
  {
    && Lists(fs, PROFILE, w.profile) && Lists(fs, DOWNLOADS, w.downloads)
    && Lists(fs, Dest(user) + ["grant"], w.grant) && Lists(fs, Dest(user), w.dest) && Lists(fs, Tmp(user), w.tmp)
  }

  function Bytes(fs: Fs, root: Path, list: seq<Path>): nat
  {
    if |list| == 0 then 0
    else
      var d := Get(fs, root + list[0]);
      Bytes(fs, root, list[1..])
      + match d
        case Some(File(_, size, _)) => size
        case Some(CookieDb(size, _)) => size
        case _ => 0
  }

  predicate HasProfile(fs: Fs, root: Path)
  {
    IsFolder(fs, root) && IsFolder(fs, root + ["Default"]) && IsFile(fs, root + ["Preferences"])
  }

  /** An empty shell is not archived, and a small one not over an existing archive. */
  predicate MayArchive(fs: Fs, user: User, w: Walk)
  {
    HasProfile(fs, PROFILE) && (IsFolder(fs, Dest(user)) ==> Bytes(fs, PROFILE, w.profile) >= MIN_PROFILE_B)
  }

  /** The old tab snapshot is carried over when the profile has none. */
  function CarryOps(fs: Fs, user: User): seq<Op>
  {
    if PROFILE + SNAPSHOT !in fs && IsFile(fs, Dest(user) + ["profile"] + SNAPSHOT) then
      [Put(Tmp(user) + ["profile"] + SNAPSHOT, fs[Dest(user) + ["profile"] + SNAPSHOT])]
    else []
  }

  function FreshOps(user: User, w: Walk): seq<Op>
  {
    DelOps(Tmp(user), w.tmp) + [Put(Tmp(user), Folder)]
  }

  function ProfileOps(fs: Fs, user: User, w: Walk): seq<Op>
  {
    CopyOps(fs, PROFILE, Tmp(user) + ["profile"], Select(w.profile, Keeps)) + CarryOps(fs, user)
  }

  function DownloadsOps(fs: Fs, user: User, w: Walk): seq<Op>
  {
    if !IsFolder(fs, DOWNLOADS) then []
    else
      [Put(Tmp(user) + ["Downloads"], Folder)]
      + CopyOps(fs, DOWNLOADS, Tmp(user) + ["Downloads"], Select(w.downloads, NotMarker))
  }

  function GrantOps(fs: Fs, user: User, w: Walk): seq<Op>
  {
    if IsFolder(fs, Dest(user) + ["grant"]) then
      CopyOps(fs, Dest(user) + ["grant"], Tmp(user) + ["grant"], w.grant)
    else []
  }

  function HalfOps(fs: Fs, user: User, w: Walk): seq<Op>
  {
    var copied := FreshOps(user, w) + ProfileOps(fs, user, w);
    copied + StripOps(Run(fs, copied), Tmp(user) + ["profile"])
  }

  /** The new archive is built beside the old one. */
  function BuildOps(fs: Fs, user: User, w: Walk): seq<Op>
  {
    HalfOps(fs, user, w) + DownloadsOps(fs, user, w) + GrantOps(fs, user, w)
  }

  function RemoveOps(user: User, w: Walk): seq<Op>
  {
    DelOps(Dest(user), w.dest)
  }

  /** The old archive is removed, the new one gets its owner marker and takes the place. */
  function ArchiveOps(fs: Fs, user: User, w: Walk): seq<Op>
  {
    BuildOps(fs, user, w) + RemoveOps(user, w)
    + [Put(Tmp(user) + MARKER, Marker(user)), Rename(Tmp(user), Dest(user))]
  }

  /** `archive_user`, run to its end. */
  function Archived(fs: Fs, user: User, w: Walk): Fs
  {
    if MayArchive(fs, user, w) then Run(fs, ArchiveOps(fs, user, w)) else fs
  }

  // ---- what the new archive holds ------------------------------------------

  function CopiedProfile(fs: Fs, user: User, r: Path): Option<Data>
  {
    if r == SNAPSHOT && PROFILE + SNAPSHOT !in fs && IsFile(fs, Dest(user) + ["profile"] + SNAPSHOT) then
      Get(fs, Dest(user) + ["profile"] + SNAPSHOT)
    else if Keeps(r) then Get(fs, PROFILE + r)
    else None
  }

  function ArchivedProfile(fs: Fs, user: User, r: Path): Option<Data>
  {
    if r == COOKIES then Stripped(CopiedProfile(fs, user, r)) else CopiedProfile(fs, user, r)
  }

  function ArchivedDownloads(fs: Fs, r: Path): Option<Data>
  {
    if !IsFolder(fs, DOWNLOADS) then None
    else if r == [] then Some(Folder)
    else if NotMarker(r) then Get(fs, DOWNLOADS + r)
    else None
  }

  function ArchivedGrant(fs: Fs, user: User, r: Path): Option<Data>
  {
    if IsFolder(fs, Dest(user) + ["grant"]) then Get(fs, Dest(user) + ["grant"] + r) else None
  }

  /** The entry of the new archive at q, its owner marker apart. */
  function NewArchive(fs: Fs, user: User, q: Path): Option<Data>
  {
    if q == [] then Some(Folder)
    else if q[0] == "profile" then ArchivedProfile(fs, user, q[1..])
    else if q[0] == "Downloads" then ArchivedDownloads(fs, q[1..])
    else if q[0] == "grant" then ArchivedGrant(fs, user, q[1..])
    else None
  }

  /** A full copy of the user's data, the grant included, is at root. */
  ghost predicate CompleteAt(fs: Fs, now: Fs, user: User, root: Path)
  {
    forall q: Path :: q != MARKER ==> Get(now, root + q) == NewArchive(fs, user, q)
  }

  // ---- building ------------------------------------------------------------

  lemma Apart(user: User, q: Path)
    ensures !(Tmp(user) <= PROFILE + q) && !(Tmp(user) <= DOWNLOADS + q) && !(Tmp(user) <= Dest(user) + q)
    ensures !(Dest(user) <= PROFILE + q) && !(Dest(user) <= DOWNLOADS + q) && !(Dest(user) <= Tmp(user) + q)
  {
    assert Tmp(user)[0] == "sessions" && Dest(user)[0] == "sessions";
    assert (PROFILE + q)[0] == "profile" && (DOWNLOADS + q)[0] == "downloads";
    assert |user + ".tmp"| > |user|;
    assert (Dest(user) + q)[1] == user && (Tmp(user) + q)[1] == user + ".tmp";
  }

  lemma FreshAt(fs: Fs, user: User, w: Walk, q: Path)
    requires Lists(fs, Tmp(user), w.tmp)
    ensures Get(Run(fs, FreshOps(user, w)), Tmp(user) + q) == if q == [] then Some(Folder) else None
  {
    var cleared := DelOps(Tmp(user), w.tmp);
    DelAt(fs, Tmp(user), w.tmp, q);
    RunConcat(fs, cleared, [Put(Tmp(user), Folder)]);
    RunOne(Run(fs, cleared), Put(Tmp(user), Folder));
    assert q == [] ==> Tmp(user) + q == Tmp(user);
    assert q != [] ==> |Tmp(user) + q| > |Tmp(user)|;
  }

  lemma NameOf(root: Path, name: Name, q: Path)
    ensures root + [name] <= root + q <==> |q| > 0 && q[0] == name
  {
    if |q| > 0 {
      assert (root + q)[|root|] == q[0];
      assert q[0] == name ==> root + q == (root + [name]) + q[1..];
    }
  }

  /** Copying to the folder `name` below root, as seen from root. */
  lemma CopyInto(fs: Fs, now: Fs, src: Path, root: Path, name: Name, list: seq<Path>, q: Path)
    ensures Get(Run(now, CopyOps(fs, src, root + [name], list)), root + q)
         == if |q| > 0 && q[0] == name && q[1..] in list && src + q[1..] in fs then Get(fs, src + q[1..])
            else Get(now, root + q)
  {
    if |q| > 0 && q[0] == name {
      assert root + q == (root + [name]) + q[1..];
      CopyAt(fs, now, src, root + [name], list, q[1..]);
    } else {
      CopyStays(fs, src, root + [name], list, root + [name]);
      NameOf(root, name, q);
      StaysElsewhere(now, CopyOps(fs, src, root + [name], list), root + [name], root + q);
    }
  }

  function Relative(name: Name, q: Path): Option<Path>
  {
    if |q| > 0 && q[0] == name then Some(q[1..]) else None
  }

  lemma ProfileAt(fs: Fs, now: Fs, user: User, w: Walk, q: Path)
    requires Lists(fs, PROFILE, w.profile)
    requires Get(now, Tmp(user) + q) == if q == [] then Some(Folder) else None
    ensures Get(Run(now, ProfileOps(fs, user, w)), Tmp(user) + q)
         == if q == [] then Some(Folder)
            else if q[0] == "profile" then CopiedProfile(fs, user, q[1..])
            else None
  {
    var list := Select(w.profile, Keeps);
    var copy := CopyOps(fs, PROFILE, Tmp(user) + ["profile"], list);
    var carry := CarryOps(fs, user);
    RunConcat(now, copy, carry);
    CopyInto(fs, now, PROFILE, Tmp(user), "profile", list, q);
    if |q| > 0 {
      SelectMember(w.profile, Keeps, q[1..]);
    }
    CarryAt(fs, Run(now, copy), user, q);
  }

  lemma CarryAt(fs: Fs, now: Fs, user: User, q: Path)
    ensures Get(Run(now, CarryOps(fs, user)), Tmp(user) + q)
         == if |CarryOps(fs, user)| > 0 && Relative("profile", q) == Some(SNAPSHOT) then
              Get(fs, Dest(user) + ["profile"] + SNAPSHOT)
            else Get(now, Tmp(user) + q)
  {
    if |CarryOps(fs, user)| > 0 {
      RunOne(now, CarryOps(fs, user)[0]);
      CarryTarget(user, q);
    }
  }

  lemma CarryTarget(user: User, q: Path)
    ensures Tmp(user) + q == Tmp(user) + ["profile"] + SNAPSHOT <==> |q| > 0 && q[0] == "profile" && q[1..] == SNAPSHOT
  {
    var target := ["profile"] + SNAPSHOT;
    assert Tmp(user) + ["profile"] + SNAPSHOT == Tmp(user) + target;
    assert (Tmp(user) + q)[|Tmp(user)|..] == q && (Tmp(user) + target)[|Tmp(user)|..] == target;
    assert |q| > 0 ==> q == [q[0]] + q[1..];
  }

  lemma StripAt(now: Fs, root: Path, q: Path)
    ensures Get(Run(now, StripOps(now, root + ["profile"])), root + q)
         == if Relative("profile", q) == Some(COOKIES) then Stripped(Get(now, root + q)) else Get(now, root + q)
  {
    var target := ["profile"] + COOKIES;
    assert root + ["profile"] + COOKIES == root + target;
    assert (root + q)[|root|..] == q && (root + target)[|root|..] == target;
    assert |q| > 0 ==> q == [q[0]] + q[1..];
    var ops := StripOps(now, root + ["profile"]);
    if |ops| > 0 {
      RunOne(now, ops[0]);
    }
  }

  lemma DownloadsAt(fs: Fs, now: Fs, user: User, w: Walk, q: Path)
    requires Lists(fs, DOWNLOADS, w.downloads)
    requires Relative("Downloads", q).Some? ==> Get(now, Tmp(user) + q) == None
    ensures Get(Run(now, DownloadsOps(fs, user, w)), Tmp(user) + q)
         == if Relative("Downloads", q).Some? then ArchivedDownloads(fs, q[1..]) else Get(now, Tmp(user) + q)
  {
    if IsFolder(fs, DOWNLOADS) {
      var root, list := Tmp(user), Select(w.downloads, NotMarker);
      var mk, copy := [Put(root + ["Downloads"], Folder)], CopyOps(fs, DOWNLOADS, root + ["Downloads"], list);
      RunConcat(now, mk, copy);
      RunOne(now, mk[0]);
      CopyInto(fs, Run(now, mk), DOWNLOADS, root, "Downloads", list, q);
      assert (root + q)[|root|..] == q && (root + ["Downloads"])[|root|..] == ["Downloads"];
      if Relative("Downloads", q).Some? {
        SelectMember(w.downloads, NotMarker, q[1..]);
        assert q == ["Downloads"] + q[1..];
        assert q[1..] == [] ==> q == ["Downloads"];
        assert q[1..] in w.downloads <==> DOWNLOADS + q[1..] in fs;
      }
    }
  }

  lemma GrantAt(fs: Fs, now: Fs, user: User, w: Walk, q: Path)
    requires Lists(fs, Dest(user) + ["grant"], w.grant)
    requires Relative("grant", q).Some? ==> Get(now, Tmp(user) + q) == None
    ensures Get(Run(now, GrantOps(fs, user, w)), Tmp(user) + q)
         == if Relative("grant", q).Some? then ArchivedGrant(fs, user, q[1..]) else Get(now, Tmp(user) + q)
  {
    if IsFolder(fs, Dest(user) + ["grant"]) {
      CopyInto(fs, now, Dest(user) + ["grant"], Tmp(user), "grant", w.grant, q);
    }
  }

  /** The entry of the new archive at q as long as neither downloads nor grant are copied. */
  function HalfArchive(fs: Fs, user: User, q: Path): Option<Data>
  {
    if q == [] then Some(Folder)
    else if q[0] == "profile" then ArchivedProfile(fs, user, q[1..])
    else None
  }

  lemma HalfAt(fs: Fs, user: User, w: Walk, q: Path)
    requires Walks(fs, user, w)
    ensures Get(Run(fs, HalfOps(fs, user, w)), Tmp(user) + q) == HalfArchive(fs, user, q)
  {
    var start, profile := FreshOps(user, w), ProfileOps(fs, user, w);
    FreshAt(fs, user, w, q);
    RunConcat(fs, start, profile);
    ProfileAt(fs, Run(fs, start), user, w, q);
    var now := Run(fs, start + profile);
    RunConcat(fs, start + profile, StripOps(now, Tmp(user) + ["profile"]));
    StripAt(now, Tmp(user), q);
  }

  lemma BuildAt(fs: Fs, user: User, w: Walk, q: Path)
    requires Walks(fs, user, w)
    ensures Get(Run(fs, BuildOps(fs, user, w)), Tmp(user) + q) == NewArchive(fs, user, q)
  {
    var half, downloads := HalfOps(fs, user, w), DownloadsOps(fs, user, w);
    HalfAt(fs, user, w, q);
    RunConcat(fs, half, downloads);
    DownloadsAt(fs, Run(fs, half), user, w, q);
    RunConcat(fs, half + downloads, GrantOps(fs, user, w));
    GrantAt(fs, Run(fs, half + downloads), user, w, q);
  }

  // ---- stopping at any operation -------------------------------------------

  lemma BuildStays(fs: Fs, user: User, w: Walk)
    ensures Stays(BuildOps(fs, user, w), Tmp(user))
  {
    var root := Tmp(user);
    var start, profile := FreshOps(user, w), ProfileOps(fs, user, w);
    DelStays(root, w.tmp, root);
    CopyStays(fs, PROFILE, root + ["profile"], Select(w.profile, Keeps), root);
    assert root <= root + ["profile"] + SNAPSHOT && root <= root + ["profile"] + COOKIES;
    StaysConcat(start, profile, root);
    StaysConcat(start + profile, StripOps(Run(fs, start + profile), root + ["profile"]), root);
    CopyStays(fs, DOWNLOADS, root + ["Downloads"], Select(w.downloads, NotMarker), root);
    StaysConcat(HalfOps(fs, user, w), DownloadsOps(fs, user, w), root);
    CopyStays(fs, Dest(user) + ["grant"], root + ["grant"], w.grant, root);
    StaysConcat(HalfOps(fs, user, w) + DownloadsOps(fs, user, w), GrantOps(fs, user, w), root);
  }

  /** Paths of the slot and of the other users' archives. */
  ghost predicate Foreign(user: User, p: Path)
  {
    !(Tmp(user) <= p) && !(Dest(user) <= p)
  }

  lemma BuiltElsewhere(fs: Fs, user: User, w: Walk, n: nat, p: Path)
    requires n <= |BuildOps(fs, user, w)| && !(Tmp(user) <= p)
    ensures Get(Run(fs, BuildOps(fs, user, w)[..n]), p) == Get(fs, p)
  {
    BuildStays(fs, user, w);
    StaysElsewhere(fs, BuildOps(fs, user, w)[..n], Tmp(user), p);
  }

  /** While the old archive is being removed the new one stays complete. */
  lemma RemovingComplete(fs: Fs, user: User, w: Walk, n: nat, p: Path)
    requires n <= |RemoveOps(user, w)| && !(Dest(user) <= p)
    ensures Get(Run(fs, BuildOps(fs, user, w) + RemoveOps(user, w)[..n]), p) == Get(Run(fs, BuildOps(fs, user, w)), p)
  {
    var build, remove := BuildOps(fs, user, w), RemoveOps(user, w);
    RunConcat(fs, build, remove[..n]);
    DelStays(Dest(user), w.dest, Dest(user));
    StaysElsewhere(Run(fs, build), remove[..n], Dest(user), p);
  }

  lemma RemovedAt(fs: Fs, user: User, w: Walk, q: Path)
    requires Walks(fs, user, w)
    ensures Get(Run(fs, BuildOps(fs, user, w) + RemoveOps(user, w)), Dest(user) + q) == None
  {
    var build := BuildOps(fs, user, w);
    RunConcat(fs, build, RemoveOps(user, w));
    DelAt(Run(fs, build), Dest(user), w.dest, q);
    Apart(user, q);
    BuiltElsewhere(fs, user, w, |build|, Dest(user) + q);
    assert build[..|build|] == build;
  }

  function Marking(user: User): Op
  {
    Put(Tmp(user) + MARKER, Marker(user))
  }

  function Marked(fs: Fs, user: User, w: Walk): Fs
  {
    Exec(Run(fs, BuildOps(fs, user, w) + RemoveOps(user, w)), Marking(user))
  }

  lemma MarkedAt(fs: Fs, user: User, w: Walk, q: Path)
    requires Walks(fs, user, w)
    ensures Get(Marked(fs, user, w), Tmp(user) + q)
         == if q == MARKER then Some(Marker(user)) else NewArchive(fs, user, q)
    ensures Get(Marked(fs, user, w), Dest(user) + q) == None
  {
    Apart(user, q);
    RemovedAt(fs, user, w, q);
    RemovingComplete(fs, user, w, |RemoveOps(user, w)|, Tmp(user) + q);
    assert RemoveOps(user, w)[..|RemoveOps(user, w)|] == RemoveOps(user, w);
    BuildAt(fs, user, w, q);
    assert (Tmp(user) + q)[|Tmp(user)|..] == q && (Tmp(user) + MARKER)[|Tmp(user)|..] == MARKER;
    assert Tmp(user) <= Tmp(user) + MARKER;
    assert Dest(user) + q != Tmp(user) + MARKER;
  }

  lemma MarkedPrefix(fs: Fs, user: User, w: Walk)
    ensures var ops := ArchiveOps(fs, user, w);
            ops[..|ops| - 1] == BuildOps(fs, user, w) + RemoveOps(user, w) + [Marking(user)]
    ensures Run(fs, BuildOps(fs, user, w) + RemoveOps(user, w) + [Marking(user)]) == Marked(fs, user, w)
  {
    RunNext(fs, BuildOps(fs, user, w) + RemoveOps(user, w), Marking(user));
  }

  lemma ArchivedIsMoved(fs: Fs, user: User, w: Walk)
    ensures Run(fs, ArchiveOps(fs, user, w)) == Move(Marked(fs, user, w), Tmp(user), Dest(user))
  {
    var marked, move := BuildOps(fs, user, w) + RemoveOps(user, w) + [Marking(user)], Rename(Tmp(user), Dest(user));
    MarkedPrefix(fs, user, w);
    RunNext(fs, marked, move);
    assert ArchiveOps(fs, user, w) == marked + [move];
  }

  /** What a completed run leaves in the archive, beside it and elsewhere. */
  lemma ArchivedAt(fs: Fs, user: User, w: Walk, q: Path)
    requires Walks(fs, user, w)
    ensures var t := Run(fs, ArchiveOps(fs, user, w));
            && Get(t, Dest(user) + q) == (if q == MARKER then Some(Marker(user)) else NewArchive(fs, user, q))
            && Get(t, Tmp(user) + q) == None
  {
    var m := Marked(fs, user, w);
    ArchivedIsMoved(fs, user, w);
    forall p | p in m
      ensures !(Dest(user) <= p)
    {
      if Dest(user) <= p {
        assert p == Dest(user) + p[|Dest(user)|..];
        MarkedAt(fs, user, w, p[|Dest(user)|..]);
      }
    }
    MoveAt(m, Tmp(user), Dest(user), q);
    MarkedAt(fs, user, w, q);
    MovedAway(m, user, q);
  }

  lemma MovedAway(m: Fs, user: User, q: Path)
    ensures Get(Move(m, Tmp(user), Dest(user)), Tmp(user) + q) == None
  {
    Apart(user, q);
    assert Tmp(user) <= Tmp(user) + q;
    if Tmp(user) + q in Grafted(m, Tmp(user), Dest(user)) {
      GraftedOnly(m, Tmp(user), Dest(user), Tmp(user) + q);
    }
  }

  lemma ArchivedElsewhere(fs: Fs, user: User, w: Walk, p: Path)
    requires Foreign(user, p)
    ensures Get(Run(fs, ArchiveOps(fs, user, w)), p) == Get(fs, p)
  {
    var build := BuildOps(fs, user, w);
    ArchivedIsMoved(fs, user, w);
    MoveElsewhere(Marked(fs, user, w), Tmp(user), Dest(user), p);
    assert Tmp(user) <= Tmp(user) + MARKER;
    RemovingComplete(fs, user, w, |RemoveOps(user, w)|, p);
    assert RemoveOps(user, w)[..|RemoveOps(user, w)|] == RemoveOps(user, w);
    BuiltElsewhere(fs, user, w, |build|, p);
    assert build[..|build|] == build;
  }

  lemma PrefixOf(a: seq<Op>, b: seq<Op>, c: seq<Op>, n: nat)
    requires n <= |a + b + c|
    ensures n <= |a| ==> (a + b + c)[..n] == a[..n]
    ensures |a| <= n <= |a| + |b| ==> (a + b + c)[..n] == a + b[..n - |a|]
    ensures |a| + |b| <= n ==> (a + b + c)[..n] == a + b + c[..n - |a| - |b|]
  {
  }

  /** Wherever the run is stopped: the old archive is untouched, or the new one is complete beside
      it, or complete in its place. */
  lemma CrashSafe(fs: Fs, user: User, w: Walk, n: nat)
    requires Walks(fs, user, w) && n <= |ArchiveOps(fs, user, w)|
    ensures var t := Run(fs, ArchiveOps(fs, user, w)[..n]);
            || SameUnder(fs, t, Dest(user))
            || CompleteAt(fs, t, user, Tmp(user))
            || CompleteAt(fs, t, user, Dest(user))
  {
    var build, remove := BuildOps(fs, user, w), RemoveOps(user, w);
    var finish := [Marking(user), Rename(Tmp(user), Dest(user))];
    var ops := ArchiveOps(fs, user, w);
    var t := Run(fs, ops[..n]);
    assert ops == build + remove + finish;
    PrefixOf(build, remove, finish, n);
    if n <= |build| {
      forall q: Path
        ensures Get(fs, Dest(user) + q) == Get(t, Dest(user) + q)
      {
        Apart(user, q);
        BuiltElsewhere(fs, user, w, n, Dest(user) + q);
      }
    } else if n <= |build| + |remove| {
      forall q: Path
        ensures Get(t, Tmp(user) + q) == NewArchive(fs, user, q)
      {
        Apart(user, q);
        RemovingComplete(fs, user, w, n - |build|, Tmp(user) + q);
        BuildAt(fs, user, w, q);
      }
    } else if n == |ops| {
      assert ops[..n] == ops;
      forall q: Path | q != MARKER
        ensures Get(t, Dest(user) + q) == NewArchive(fs, user, q)
      {
        ArchivedAt(fs, user, w, q);
      }
    } else {
      MarkedPrefix(fs, user, w);
      forall q: Path | q != MARKER
        ensures Get(t, Tmp(user) + q) == NewArchive(fs, user, q)
      {
        MarkedAt(fs, user, w, q);
      }
    }
  }

  lemma Below(user: User, name: Name, r: Path)
    ensures Dest(user) + [name] + r == Dest(user) + ([name] + r) && ([name] + r)[0] == name && ([name] + r)[1..] == r
  {
  }

  /** The grant survives in one of the two places, and the slot itself is not touched. */
  lemma GrantSurvives(fs: Fs, user: User, w: Walk, n: nat)
    requires Walks(fs, user, w) && n <= |ArchiveOps(fs, user, w)| && IsFolder(fs, Dest(user) + ["grant"])
    ensures var t := Run(fs, ArchiveOps(fs, user, w)[..n]);
            || (forall r: Path :: Get(t, Dest(user) + (["grant"] + r)) == Get(fs, Dest(user) + (["grant"] + r)))
            || (forall r: Path :: Get(t, Tmp(user) + (["grant"] + r)) == Get(fs, Dest(user) + (["grant"] + r)))
  {
    CrashSafe(fs, user, w, n);
    forall r: Path
      ensures NewArchive(fs, user, ["grant"] + r) == Get(fs, Dest(user) + (["grant"] + r)) && ["grant"] + r != MARKER
    {
      Below(user, "grant", r);
    }
  }

  // ---- stopping and archiving again ----------------------------------------

  /** An archive run carries over the grant that is in the archive when it starts. */
  lemma GrantCarried(fs: Fs, user: User, w: Walk, r: Path)
    requires Walks(fs, user, w)
    ensures Get(Run(fs, ArchiveOps(fs, user, w)), Dest(user) + (["grant"] + r))
         == if IsFolder(fs, Dest(user) + ["grant"]) then Get(fs, Dest(user) + (["grant"] + r)) else None
  {
    Below(user, "grant", r);
    ArchivedAt(fs, user, w, ["grant"] + r);
  }

  /** A run stopped after the old archive was removed, followed by a complete one, loses the grant:
      the second run clears the copy beside the archive, where the grant was. */
  lemma RetryLosesGrant(fs: Fs, user: User, w: Walk, v: Walk, r: Path)
    requires Walks(fs, user, w)
    requires Walks(Run(fs, BuildOps(fs, user, w) + RemoveOps(user, w)), user, v)
    ensures var stopped := Run(fs, BuildOps(fs, user, w) + RemoveOps(user, w));
            var t := Run(stopped, ArchiveOps(stopped, user, v));
            && Get(stopped, Tmp(user) + (["grant"] + r)) == ArchivedGrant(fs, user, r)
            && Get(t, Dest(user) + (["grant"] + r)) == None && Get(t, Tmp(user) + (["grant"] + r)) == None
  {
    var stopped := Run(fs, BuildOps(fs, user, w) + RemoveOps(user, w));
    var q := ["grant"] + r;
    assert q[1..] == r && q[0] == "grant" && q != MARKER;
    MarkedAt(fs, user, w, q);
    Apart(user, q);
    assert Tmp(user) + q != Tmp(user) + MARKER by {
      assert (Tmp(user) + q)[|Tmp(user)|..] == q && (Tmp(user) + MARKER)[|Tmp(user)|..] == MARKER;
    }
    RemovedAt(fs, user, w, ["grant"]);
    GrantCarried(stopped, user, v, r);
    ArchivedAt(stopped, user, v, q);
  }

  /** How many entries of the old archive a run stopped after n operations has removed. */
  function Removed(fs: Fs, user: User, w: Walk, n: nat): (m: nat)
    ensures m <= |w.dest|
  {
    var build := |BuildOps(fs, user, w)|;
    if n <= build then 0 else if n - build <= |w.dest| then n - build else |w.dest|
  }

  /** The old archive of a run that was stopped before its end. */
  lemma StoppedAt(fs: Fs, user: User, w: Walk, n: nat, q: Path)
    requires Walks(fs, user, w) && n < |ArchiveOps(fs, user, w)|
    ensures Get(Run(fs, ArchiveOps(fs, user, w)[..n]), Dest(user) + q)
         == if q in w.dest[..Removed(fs, user, w, n)] then None else Get(fs, Dest(user) + q)
  {
    var build, remove := BuildOps(fs, user, w), RemoveOps(user, w);
    PrefixOf(build, remove, [Marking(user), Rename(Tmp(user), Dest(user))], n);
    DelPrefix(Dest(user), w.dest, Removed(fs, user, w, n));
    if n <= |build| {
      Apart(user, q);
      BuiltElsewhere(fs, user, w, n, Dest(user) + q);
    } else if n <= |build| + |w.dest| {
      RemovingAt(fs, user, w, n - |build|, q);
    } else {
      MarkedPrefix(fs, user, w);
      MarkedAt(fs, user, w, q);
      assert w.dest[..|w.dest|] == w.dest;
    }
  }

  lemma RemovingAt(fs: Fs, user: User, w: Walk, m: nat, q: Path)
    requires m <= |w.dest|
    ensures m <= |RemoveOps(user, w)|
    ensures Get(Run(fs, BuildOps(fs, user, w) + RemoveOps(user, w)[..m]), Dest(user) + q)
         == if q in w.dest[..m] then None else Get(fs, Dest(user) + q)
  {
    var build := BuildOps(fs, user, w);
    DelPrefix(Dest(user), w.dest, m);
    RunConcat(fs, build, RemoveOps(user, w)[..m]);
    DelAt(Run(fs, build), Dest(user), w.dest[..m], q);
    Apart(user, q);
    BuiltElsewhere(fs, user, w, |build|, Dest(user) + q);
    assert build[..|build|] == build;
  }

  ghost predicate GrantKept(fs: Fs, t: Fs, user: User)
  {
    forall r: Path :: Get(t, Dest(user) + (["grant"] + r)) == Get(fs, Dest(user) + (["grant"] + r))
  }

  /** A run stopped after any operation and followed by a complete one keeps the grant exactly when
      the first run had removed nothing of it, or had come to its end. */
  lemma RetryKeepsGrantExact(fs: Fs, user: User, w: Walk, n: nat, v: Walk)
    requires Walks(fs, user, w) && n <= |ArchiveOps(fs, user, w)| && IsFolder(fs, Dest(user) + ["grant"])
    requires Walks(Run(fs, ArchiveOps(fs, user, w)[..n]), user, v)
    ensures var stopped := Run(fs, ArchiveOps(fs, user, w)[..n]);
            GrantKept(fs, Run(stopped, ArchiveOps(stopped, user, v)), user)
            <==>
            (|| n == |ArchiveOps(fs, user, w)|
             || (forall i :: 0 <= i < Removed(fs, user, w, n) ==> !(["grant"] <= w.dest[i])))
  {
    var stopped := Run(fs, ArchiveOps(fs, user, w)[..n]);
    var t := Run(stopped, ArchiveOps(stopped, user, v));
    RetryKeepsStanding(fs, stopped, user, v);
    if n == |ArchiveOps(fs, user, w)| {
      assert ArchiveOps(fs, user, w)[..n] == ArchiveOps(fs, user, w);
      forall r: Path
        ensures Get(stopped, Dest(user) + (["grant"] + r)) == Get(fs, Dest(user) + (["grant"] + r))
      {
        GrantCarried(fs, user, w, r);
      }
    } else {
      GrantTouched(fs, user, w, n);
    }
  }

  /** A complete run keeps the grant of an earlier state exactly when it still stands. */
  lemma RetryKeepsStanding(fs: Fs, stopped: Fs, user: User, v: Walk)
    requires Walks(stopped, user, v) && IsFolder(fs, Dest(user) + ["grant"])
    ensures GrantKept(fs, Run(stopped, ArchiveOps(stopped, user, v)), user) <==> GrantKept(fs, stopped, user)
  {
    var t := Run(stopped, ArchiveOps(stopped, user, v));
    forall r: Path
      ensures Get(t, Dest(user) + (["grant"] + r))
           == if IsFolder(stopped, Dest(user) + ["grant"]) then Get(stopped, Dest(user) + (["grant"] + r)) else None
    {
      GrantCarried(stopped, user, v, r);
    }
    assert ["grant"] + [] == ["grant"];
    assert GrantKept(fs, t, user) ==> Get(t, Dest(user) + (["grant"] + [])) == Get(fs, Dest(user) + ["grant"]);
    assert GrantKept(fs, stopped, user) ==>
        Get(stopped, Dest(user) + (["grant"] + [])) == Get(fs, Dest(user) + ["grant"]);
  }

  lemma GrantTouched(fs: Fs, user: User, w: Walk, n: nat)
    requires Walks(fs, user, w) && n < |ArchiveOps(fs, user, w)|
    ensures GrantKept(fs, Run(fs, ArchiveOps(fs, user, w)[..n]), user)
       <==> forall i :: 0 <= i < Removed(fs, user, w, n) ==> !(["grant"] <= w.dest[i])
  {
    var stopped, m := Run(fs, ArchiveOps(fs, user, w)[..n]), Removed(fs, user, w, n);
    forall r: Path
      ensures Get(stopped, Dest(user) + (["grant"] + r))
           == if ["grant"] + r in w.dest[..m] then None else Get(fs, Dest(user) + (["grant"] + r))
    {
      StoppedAt(fs, user, w, n, ["grant"] + r);
    }
    if i :| 0 <= i < m && ["grant"] <= w.dest[i] {
      var r := w.dest[i][1..];
      assert w.dest[i] == ["grant"] + r && w.dest[..m][i] == w.dest[i] && w.dest[i] in w.dest;
      assert Get(stopped, Dest(user) + (["grant"] + r)) == None;
    }
  }
}
