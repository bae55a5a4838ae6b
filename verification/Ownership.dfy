/** Whose data is on a slot and in an archive. */
module Ownership {
  import opened Wrappers
  import opened FileTree
  import opened Archive
  import opened Restore

  /** The users whose data an entry holds. */
  function Owners(d: Data): set<User>
  {
    match d
    case Folder => {}
    case File(owner, _, _) => {owner}
    case CookieDb(_, cookies) => OwnersOf(cookies)
    case Marker(user) => {user}
  }

  function OwnersOf(cookies: seq<Cookie>): set<User>
  {
    if |cookies| == 0 then {} else {cookies[0].owner} + OwnersOf(cookies[1..])
  }

  lemma {:induction false} UnidentifiedOwners(c: seq<Cookie>)
    ensures OwnersOf(Unidentified(c)) <= OwnersOf(c)
  {
    if |c| > 0 {
      UnidentifiedOwners(c[1..]);
      var rest := Unidentified(c[1..]);
      if c[0].identity {
        assert [] + rest == rest;
      } else {
        assert ([c[0]] + rest)[1..] == rest;
      }
    }
  }

  predicate Within(d: Option<Data>, users: set<User>)
  {
    d.Some? ==> Owners(d.value) <= users
  }

  lemma StrippedWithin(d: Option<Data>, users: set<User>)
    requires Within(d, users)
    ensures Within(Stripped(d), users)
  {
    if d.Some? && d.value.CookieDb? {
      UnidentifiedOwners(d.value.cookies);
    }
  }

  /** Everything below root belongs to one of the users. */
  ghost predicate Pure(fs: Fs, root: Path, users: set<User>)
  {
    forall q: Path :: Within(Get(fs, root + q), users)
  }

  /** An archive run keeps the user's archive, and what lies beside it, pure. */
  lemma ArchivedPure(fs: Fs, user: User, w: Walk, users: set<User>)
    requires Walks(fs, user, w) && user in users
    requires Pure(fs, PROFILE, users) && Pure(fs, DOWNLOADS, users) && Pure(fs, Dest(user), users)
    requires Pure(fs, Tmp(user), users)
    ensures Pure(Archived(fs, user, w), Dest(user), users) && Pure(Archived(fs, user, w), Tmp(user), users)
  {
    if MayArchive(fs, user, w) {
      forall q: Path
        ensures Within(Get(Archived(fs, user, w), Dest(user) + q), users)
        ensures Within(Get(Archived(fs, user, w), Tmp(user) + q), users)
      {
        ArchivedAt(fs, user, w, q);
        NewArchiveWithin(fs, user, q, users);
      }
    }
  }

  lemma NewArchiveWithin(fs: Fs, user: User, q: Path, users: set<User>)
    requires Pure(fs, PROFILE, users) && Pure(fs, DOWNLOADS, users) && Pure(fs, Dest(user), users)
    ensures Within(NewArchive(fs, user, q), users)
  {
    if q != [] {
      var r := q[1..];
      Below(user, "grant", r);
      assert Dest(user) + ["profile"] + SNAPSHOT == Dest(user) + (["profile"] + SNAPSHOT);
      assert Within(Get(fs, PROFILE + r), users) && Within(Get(fs, DOWNLOADS + r), users);
      assert Within(Get(fs, Dest(user) + (["grant"] + r)), users);
      assert Within(Get(fs, Dest(user) + (["profile"] + SNAPSHOT)), users);
      StrippedWithin(CopiedProfile(fs, user, r), users);
    }
  }

  /** A restore fills the slot from the user's archive only. */
  lemma RestoredPure(fs: Fs, user: User, w: RestoreWalk, users: set<User>)
    requires RestoreWalks(fs, user, w) && RestoreAccepts(fs, user) && Pure(fs, Dest(user), users)
    ensures var t := Run(fs, RestoreOps(fs, user, w));
            Pure(t, PROFILE, users) && Pure(t, DOWNLOADS, users)
  {
    forall r: Path
      ensures Within(Get(Run(fs, RestoreOps(fs, user, w)), PROFILE + r), users)
      ensures Within(Get(Run(fs, RestoreOps(fs, user, w)), DOWNLOADS + r), users)
    {
      RestoredProfileAt(fs, user, w, r);
      RestoredDownloadsAt(fs, user, w, r);
      Below(user, "profile", r);
      Below(user, "Downloads", r);
      assert Within(Get(fs, Dest(user) + (["profile"] + r)), users);
      assert Within(Get(fs, Dest(user) + (["Downloads"] + r)), users);
      StrippedWithin(Get(fs, Dest(user) + ["profile"] + r), users);
    }
  }

  lemma WipedPure(fs: Fs, w: RestoreWalk, users: set<User>)
    requires Lists(fs, PROFILE, w.profile) && Lists(fs, DOWNLOADS, w.downloads)
    ensures Pure(Run(fs, WipeOps(w)), PROFILE, users) && Pure(Run(fs, WipeOps(w)), DOWNLOADS, users)
  {
    forall r: Path
      ensures Within(Get(Run(fs, WipeOps(w)), PROFILE + r), users)
      ensures Within(Get(Run(fs, WipeOps(w)), DOWNLOADS + r), users)
    {
      WipedAt(fs, w, r);
    }
  }
}
