/** Archive and restore as loops over a file system updated in place. */
module ArchiveDisk {
  import opened Wrappers
  import opened FileTree
  import opened Archive
  import opened Restore

  class Disk {
    var fs: Fs

    constructor (fs: Fs)
      ensures this.fs == fs
    {
      this.fs := fs;
    }

    method Write(p: Path, d: Data)
      modifies this
      ensures fs == Run(old(fs), [Put(p, d)])
    {
      RunOne(fs, Put(p, d));
      fs := fs[p := d];
    }

    method Remove(paths: set<Path>)
      modifies this
      ensures fs == old(fs) - paths
    {
      fs := fs - paths;
    }

    method CopyTree(src: Path, dst: Path, list: seq<Path>)
      requires forall q: Path :: !(dst <= src + q)
      modifies this
      ensures fs == Run(old(fs), CopyOps(old(fs), src, dst, list))
    {
      var i := 0;
      while i < |list|
        invariant 0 <= i <= |list|
        invariant fs == Run(old(fs), CopyOps(old(fs), src, dst, list[..i]))
      {
        var q := list[i];
        CopyStays(old(fs), src, dst, list[..i], dst);
        StaysElsewhere(old(fs), CopyOps(old(fs), src, dst, list[..i]), dst, src + q);
        assert list[..i + 1][..i] == list[..i] && list[..i + 1][i] == q;
        CopyNext(old(fs), old(fs), src, dst, list[..i + 1]);
        if src + q in fs {
          fs := fs[dst + q := fs[src + q]];
        }
        i := i + 1;
      }
      assert list[..i] == list;
    }

    method RemoveTree(root: Path, list: seq<Path>)
      modifies this
      ensures fs == Run(old(fs), DelOps(root, list))
    {
      var i := 0;
      while i < |list|
        invariant 0 <= i <= |list|
        invariant fs == Run(old(fs), DelOps(root, list[..i]))
      {
        var ops := DelOps(root, list[..i + 1]);
        assert list[..i + 1][..i] == list[..i] && ops[..|ops| - 1] == DelOps(root, list[..i]);
        fs := fs - {root + list[i]};
        i := i + 1;
      }
      assert list[..i] == list;
    }

    method Strip(profile: Path)
      modifies this
      ensures fs == Run(old(fs), StripOps(old(fs), profile))
    {
      var p := profile + COOKIES;
      if p in fs && fs[p].CookieDb? {
        RunOne(fs, StripOps(fs, profile)[0]);
        fs := fs[p := fs[p].(cookies := Unidentified(fs[p].cookies))];
      }
    }

    method WipeFolder(root: Path, list: seq<Path>)
      modifies this
      ensures fs == Run(old(fs), WipeOne(root, list))
    {
      RunConcat(fs, [Put(root, Folder)], DelOps(root, Select(list, Inside)));
      Write(root, Folder);
      RemoveTree(root, Select(list, Inside));
    }

    method WipeSlotDirs(w: RestoreWalk)
      modifies this
      ensures fs == Run(old(fs), WipeOps(w))
    {
      RunConcat(fs, WipeOne(PROFILE, w.profile), WipeOne(DOWNLOADS, w.downloads));
      WipeFolder(PROFILE, w.profile);
      WipeFolder(DOWNLOADS, w.downloads);
    }

    method CopyProfile(user: User, w: Walk)
      modifies this
      ensures fs == Run(old(fs), HalfOps(old(fs), user, w))
    {
      ghost var fs0 := fs;
      var root := Tmp(user);
      var carry := CarryOps(fs, user);
      ProfileApart(user);
      RunConcat(fs0, DelOps(root, w.tmp), [Put(root, Folder)]);
      RemoveTree(root, w.tmp);
      Write(root, Folder);
      ghost var begun := fs;
      FreshElsewhere(fs0, user, w);
      CopySame(fs0, begun, PROFILE, root + ["profile"], Select(w.profile, Keeps));
      CopyTree(PROFILE, root + ["profile"], Select(w.profile, Keeps));
      RunConcat(begun, CopyOps(fs0, PROFILE, root + ["profile"], Select(w.profile, Keeps)), carry);
      if |carry| > 0 {
        RunOne(fs, carry[0]);
        Write(carry[0].path, carry[0].data);
      }
      RunConcat(fs0, FreshOps(user, w), ProfileOps(fs0, user, w));
      RunConcat(fs0, FreshOps(user, w) + ProfileOps(fs0, user, w), StripOps(fs, root + ["profile"]));
      Strip(root + ["profile"]);
    }

    /** fs0 is the state in which the run began; the slot and the archive are still as they were. */
    method CopyDownloads(ghost fs0: Fs, user: User, w: Walk)
      requires forall q: Path :: Get(fs, DOWNLOADS + q) == Get(fs0, DOWNLOADS + q)
      modifies this
      ensures fs == Run(old(fs), DownloadsOps(fs0, user, w))
    {
      assert DOWNLOADS + [] == DOWNLOADS;
      assert IsFolder(fs, DOWNLOADS) <==> IsFolder(fs0, DOWNLOADS);
      if IsFolder(fs, DOWNLOADS) {
        var root, list := Tmp(user), Select(w.downloads, NotMarker);
        ghost var mk := [Put(root + ["Downloads"], Folder)];
        RunConcat(fs, mk, CopyOps(fs0, DOWNLOADS, root + ["Downloads"], list));
        ProfileApart(user);
        DownloadsKept(fs, user);
        Write(root + ["Downloads"], Folder);
        CopySame(fs0, fs, DOWNLOADS, root + ["Downloads"], list);
        CopyTree(DOWNLOADS, root + ["Downloads"], list);
      }
    }

    method CopyGrant(ghost fs0: Fs, user: User, w: Walk)
      requires forall q: Path :: Get(fs, Dest(user) + ["grant"] + q) == Get(fs0, Dest(user) + ["grant"] + q)
      modifies this
      ensures fs == Run(old(fs), GrantOps(fs0, user, w))
    {
      var src := Dest(user) + ["grant"];
      assert src + [] == src;
      assert IsFolder(fs, src) <==> IsFolder(fs0, src);
      if IsFolder(fs, src) {
        ProfileApart(user);
        CopySame(fs0, fs, src, Tmp(user) + ["grant"], w.grant);
        CopyTree(src, Tmp(user) + ["grant"], w.grant);
      }
    }

    /** Everything up to the removal of the old archive. */
    method Build(user: User, w: Walk)
      modifies this
      ensures fs == Run(old(fs), BuildOps(old(fs), user, w))
    {
      ghost var fs0 := fs;
      ghost var half, downloads := HalfOps(fs, user, w), DownloadsOps(fs, user, w);
      HalfStays(fs0, user, w);
      SourcesKept(fs0, fs0, half, user);
      DownloadsStays(fs0, user, w);
      SourcesKept(fs0, Run(fs0, half), downloads, user);
      RunConcat(fs0, half, downloads);
      RunConcat(fs0, half + downloads, GrantOps(fs0, user, w));
      CopyProfile(user, w);
      CopyDownloads(fs0, user, w);
      CopyGrant(fs0, user, w);
    }

    method ArchiveUser(user: User, w: Walk) returns (ok: bool)
      modifies this
      ensures ok == MayArchive(old(fs), user, w) && fs == Archived(old(fs), user, w)
    {
      if !MayArchive(fs, user, w) {
        return false;
      }
      ghost var fs0 := fs;
      ArchivedIsMoved(fs0, user, w);
      RunConcat(fs0, BuildOps(fs0, user, w), RemoveOps(user, w));
      Build(user, w);
      RemoveTree(Dest(user), w.dest);
      fs := fs[Tmp(user) + MARKER := Marker(user)];
      fs := Move(fs, Tmp(user), Dest(user));
      return true;
    }

    method RestoreInto(src: Path, dst: Path, list: seq<Path>, ghost fs0: Fs)
      requires forall q: Path :: !(dst <= src + q)
      requires forall q: Path :: Get(fs, src + q) == Get(fs0, src + q)
      modifies this
      ensures fs == Run(old(fs), CopyOps(fs0, src, dst, list))
    {
      CopySame(fs0, fs, src, dst, list);
      CopyTree(src, dst, list);
    }

    method RestoreUser(user: User, w: RestoreWalk) returns (ok: bool)
      modifies this
      ensures ok == RestoreAccepts(old(fs), user)
      ensures fs == if ok then Run(old(fs), RestoreOps(old(fs), user, w)) else old(fs)
    {
      if !RestoreAccepts(fs, user) {
        return false;
      }
      ghost var fs0 := fs;
      ghost var wipe, profile := WipeOps(w), RestoreProfile(fs, user, w);
      ghost var strip := StripOps(Run(fs, wipe + profile), PROFILE);
      var downloads := IsFolder(fs, Dest(user) + ["Downloads"]);
      DestApart(user);
      RestoringKeeps(fs, user, w, "profile");
      RestoringKeeps(fs, user, w, "Downloads");
      RunConcat(fs0, wipe, profile);
      RunConcat(fs0, wipe + profile, strip);
      RunConcat(fs0, wipe + profile + strip, RestoreDownloads(fs0, user, w));
      WipeSlotDirs(w);
      RestoreInto(Dest(user) + ["profile"], PROFILE, Select(w.srcProfile, Keeps), fs0);
      Strip(PROFILE);
      if downloads {
        RestoreInto(Dest(user) + ["Downloads"], DOWNLOADS, Select(w.srcDownloads, Inside), fs0);
      }
      return true;
    }
  }

  // ---- sources that are not written ----------------------------------------

  lemma ProfileApart(user: User)
    ensures forall q: Path, name: Name :: !(Tmp(user) + [name] <= PROFILE + q)
    ensures forall q: Path, name: Name :: !(Tmp(user) + [name] <= DOWNLOADS + q)
    ensures forall q: Path, name: Name :: !(Tmp(user) + [name] <= Dest(user) + ["grant"] + q)
  {
    forall q: Path, name: Name
      ensures !(Tmp(user) + [name] <= PROFILE + q) && !(Tmp(user) + [name] <= DOWNLOADS + q)
      ensures !(Tmp(user) + [name] <= Dest(user) + ["grant"] + q)
    {
      Apart(user, q);
      Apart(user, ["grant"] + q);
      assert Dest(user) + ["grant"] + q == Dest(user) + (["grant"] + q);
      assert Tmp(user) <= Tmp(user) + [name];
    }
  }

  /** What is written beside the archive leaves the slot and the archive as they were. */
  lemma SourcesKept(fs: Fs, now: Fs, ops: seq<Op>, user: User)
    requires Stays(ops, Tmp(user))
    requires forall p: Path :: !(Tmp(user) <= p) ==> Get(now, p) == Get(fs, p)
    ensures forall q: Path :: Get(Run(now, ops), PROFILE + q) == Get(fs, PROFILE + q)
    ensures forall q: Path :: Get(Run(now, ops), DOWNLOADS + q) == Get(fs, DOWNLOADS + q)
    ensures forall q: Path :: Get(Run(now, ops), Dest(user) + ["grant"] + q) == Get(fs, Dest(user) + ["grant"] + q)
  {
    forall q: Path
      ensures Get(Run(now, ops), PROFILE + q) == Get(fs, PROFILE + q)
      ensures Get(Run(now, ops), DOWNLOADS + q) == Get(fs, DOWNLOADS + q)
      ensures Get(Run(now, ops), Dest(user) + ["grant"] + q) == Get(fs, Dest(user) + ["grant"] + q)
    {
      Apart(user, q);
      Apart(user, ["grant"] + q);
      assert Dest(user) + ["grant"] + q == Dest(user) + (["grant"] + q);
      StaysElsewhere(now, ops, Tmp(user), PROFILE + q);
      StaysElsewhere(now, ops, Tmp(user), DOWNLOADS + q);
      StaysElsewhere(now, ops, Tmp(user), Dest(user) + (["grant"] + q));
    }
  }

  lemma FreshElsewhere(fs: Fs, user: User, w: Walk)
    ensures forall q: Path :: Get(Run(fs, FreshOps(user, w)), PROFILE + q) == Get(fs, PROFILE + q)
  {
    DelStays(Tmp(user), w.tmp, Tmp(user));
    SourcesKept(fs, fs, FreshOps(user, w), user);
  }

  lemma HalfStays(fs: Fs, user: User, w: Walk)
    ensures Stays(HalfOps(fs, user, w), Tmp(user))
    ensures forall p: Path :: !(Tmp(user) <= p) ==> Get(Run(fs, HalfOps(fs, user, w)), p) == Get(fs, p)
  {
    BuildStays(fs, user, w);
    var half, build := HalfOps(fs, user, w), BuildOps(fs, user, w);
    assert build[..|half|] == half;
    forall p: Path | !(Tmp(user) <= p)
      ensures Get(Run(fs, half), p) == Get(fs, p)
    {
      StaysElsewhere(fs, half, Tmp(user), p);
    }
  }

  lemma DownloadsStays(fs: Fs, user: User, w: Walk)
    ensures Stays(DownloadsOps(fs, user, w), Tmp(user))
  {
    CopyStays(fs, DOWNLOADS, Tmp(user) + ["Downloads"], Select(w.downloads, NotMarker), Tmp(user));
  }

  lemma DestApart(user: User)
    ensures forall q: Path, name: Name ::
      !(PROFILE <= Dest(user) + [name] + q) && !(DOWNLOADS <= Dest(user) + [name] + q)
  {
    forall q: Path, name: Name
      ensures !(PROFILE <= Dest(user) + [name] + q) && !(DOWNLOADS <= Dest(user) + [name] + q)
    {
      assert (Dest(user) + [name] + q)[0] == "sessions";
    }
  }

  lemma DownloadsKept(fs: Fs, user: User)
    ensures forall q: Path ::
      Get(Run(fs, [Put(Tmp(user) + ["Downloads"], Folder)]), DOWNLOADS + q) == Get(fs, DOWNLOADS + q)
  {
    RunOne(fs, Put(Tmp(user) + ["Downloads"], Folder));
    assert (Tmp(user) + ["Downloads"])[0] == "sessions";
  }

  /** What a restore has done so far leaves the archive as it was. */
  lemma RestoringKeeps(fs: Fs, user: User, w: RestoreWalk, name: Name)
    ensures var wipe, profile := WipeOps(w), RestoreProfile(fs, user, w);
            var strip := StripOps(Run(fs, wipe + profile), PROFILE);
            forall q: Path ::
              && Get(Run(fs, wipe), Dest(user) + [name] + q) == Get(fs, Dest(user) + [name] + q)
              && Get(Run(fs, wipe + profile + strip), Dest(user) + [name] + q) == Get(fs, Dest(user) + [name] + q)
  {
    forall q: Path
      ensures var wipe, profile := WipeOps(w), RestoreProfile(fs, user, w);
              var strip := StripOps(Run(fs, wipe + profile), PROFILE);
              && Get(Run(fs, wipe), Dest(user) + [name] + q) == Get(fs, Dest(user) + [name] + q)
              && Get(Run(fs, wipe + profile + strip), Dest(user) + [name] + q) == Get(fs, Dest(user) + [name] + q)
    {
      DestOffSlot(user, [name] + q);
      assert Dest(user) + [name] + q == Dest(user) + ([name] + q);
      RestoringElsewhere(fs, user, w, Dest(user) + ([name] + q));
    }
  }
}
