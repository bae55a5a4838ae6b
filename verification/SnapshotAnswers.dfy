/** What the tab snapshots promise, said of the lists themselves: which tabs a snapshot holds and in
    which order, what loading gives back, and which file it comes from. */
module SnapshotAnswers {
  import opened Wrappers
  import opened Snapshots

  // ---- picking from a list -------------------------------------------------

  /** `kept` is what stands in `urls` at the increasing indices `at`. */
  ghost predicate Picks(urls: seq<Url>, at: seq<nat>, kept: seq<Url>)
  {
    && |at| == |kept|
    && (forall i :: 0 <= i < |at| ==> at[i] < |urls| && kept[i] == urls[at[i]])
    && (forall i, j :: 0 <= i < j < |at| ==> at[i] < at[j])
  }

  lemma PicksFront(urls: seq<Url>, u: Url, at: seq<nat>, kept: seq<Url>)
    requires Picks(urls, at, kept)
    ensures Picks(urls + [u], at, kept)
  {
  }

  lemma PicksLast(urls: seq<Url>, u: Url, at: seq<nat>, kept: seq<Url>)
    requires Picks(urls, at, kept)
    ensures Picks(urls + [u], at + [|urls|], kept + [u])
  {
  }

  // ---- pages ---------------------------------------------------------------

  /** A page that is given back: its url begins with http and belongs to no sign-in flow. */
  predicate Restorable(v: Env, u: Url)
  {
    |u| >= 4 && u[..4] == "http" && !v.isSso(u)
  }

  lemma LoadableIs(v: Env, u: Url)
    ensures Loadable(v, u) <==> Restorable(v, u)
  {
    var http := "http";
    assert http <= u <==> |u| >= |http| && u[..|http|] == http;
  }

  /** A page that is saved: its url begins with either scheme and belongs to no sign-in flow. */
  predicate Web(v: Env, u: Url)
  {
    ((|u| >= 7 && u[..7] == "http://") || (|u| >= 8 && u[..8] == "https://")) && !v.isSso(u)
  }

  lemma SavableIs(v: Env, u: Url)
    ensures Savable(v, u) <==> Web(v, u)
  {
    var plain, tls := "http://", "https://";
    assert plain <= u <==> |u| >= |plain| && u[..|plain|] == plain;
    assert tls <= u <==> |u| >= |tls| && u[..|tls|] == tls;
  }

  /** The homepage, but for slashes at the end. */
  ghost predicate HomeLike(v: Env, u: Url)
  {
    exists stem: Url, m: nat, n: nat :: u == stem + Slashes(m) && v.home == stem + Slashes(n)
  }

  lemma {:induction false} TrimSplits(u: Url) returns (n: nat)
    ensures u == TrimSlashes(u) + Slashes(n)
  {
    n := 0;
    if |u| > 0 && u[|u| - 1] == '/' {
      var m := TrimSplits(u[..|u| - 1]);
      n := m + 1;
      assert u == u[..|u| - 1] + "/";
    } else {
      assert u == u + Slashes(0);
    }
  }

  lemma HomeExact(v: Env, u: Url)
    ensures IsHome(v, u) <==> HomeLike(v, u)
  {
    if IsHome(v, u) {
      var m := TrimSplits(u);
      var n := TrimSplits(v.home);
      assert u == TrimSlashes(u) + Slashes(m) && v.home == TrimSlashes(u) + Slashes(n);
    }
    if HomeLike(v, u) {
      var stem: Url, m: nat, n: nat :| u == stem + Slashes(m) && v.home == stem + Slashes(n);
      TrimVariant(stem, m);
      TrimVariant(stem, n);
    }
  }

  /** Some page is not the homepage. */
  ghost predicate Elsewhere(v: Env, urls: seq<Url>)
  {
    exists u :: u in urls && !HomeLike(v, u)
  }

  lemma ElsewhereExact(v: Env, urls: seq<Url>)
    ensures HasOther(v, urls) <==> Elsewhere(v, urls)
  {
    if HasOther(v, urls) {
      var i :| 0 <= i < |urls| && !IsHome(v, urls[i]);
      HomeExact(v, urls[i]);
      assert urls[i] in urls && !HomeLike(v, urls[i]);
    }
    if u :| u in urls && !HomeLike(v, u) {
      HomeExact(v, u);
      var i :| 0 <= i < |urls| && urls[i] == u;
      assert !IsHome(v, urls[i]);
    }
  }

  // ---- loading -------------------------------------------------------------

  /** The pages of a stored list that are given back, in their order and with repetitions. */
  ghost predicate Restores(v: Env, urls: seq<Url>, at: seq<nat>, kept: seq<Url>)
  {
    Picks(urls, at, kept) && forall j: nat :: j < |urls| ==> (j in at <==> Restorable(v, urls[j]))
  }

  lemma {:induction false} LoadedRestores(v: Env, urls: seq<Url>) returns (at: seq<nat>)
    ensures Restores(v, urls, at, Loaded(v, urls))
    decreases |urls|
  {
    at := [];
    if |urls| > 0 {
      var front, u := urls[..|urls| - 1], urls[|urls| - 1];
      at := LoadedRestores(v, front);
      assert front + [u] == urls;
      LoadableIs(v, u);
      PicksFront(front, u, at, Loaded(v, front));
      PicksLast(front, u, at, Loaded(v, front));
      if Loadable(v, u) {
        at := at + [|front|];
      }
    }
  }

  /** What a readable file gives: its restorable pages, or nothing if they are all the homepage. */
  ghost predicate Gives(v: Env, urls: seq<Url>, r: seq<Url>)
  {
    exists at, kept :: Restores(v, urls, at, kept) && r == if Elsewhere(v, kept) then kept else []
  }

  /** Loading gives the live list whenever the live file can be read, also when that list is empty;
      only if it cannot the recovery copy's, and nothing when neither can. */
  lemma LoadAnswers(v: Env, f: Files)
    ensures f.live.Doc? ==> Gives(v, f.live.urls, Load(v, f))
    ensures f.live.Bad? && f.lastGood.Doc? ==> Gives(v, f.lastGood.urls, Load(v, f))
    ensures f.live.Bad? && f.lastGood.Bad? ==> Load(v, f) == []
  {
    if f.live.Doc? {
      ReadGives(v, f.live);
    } else if f.lastGood.Doc? {
      ReadGives(v, f.lastGood);
    }
  }

  lemma ReadGives(v: Env, d: Doc)
    requires d.Doc?
    ensures Read(v, d).Some? && Gives(v, d.urls, Read(v, d).value)
  {
    var at := LoadedRestores(v, d.urls);
    ElsewhereExact(v, Loaded(v, d.urls));
    assert Restores(v, d.urls, at, Loaded(v, d.urls));
  }

  /** There is one such answer. */
  lemma RestoresOnce(v: Env, urls: seq<Url>, at: seq<nat>, kept: seq<Url>)
    requires Restores(v, urls, at, kept)
    ensures kept == Loaded(v, urls)
  {
    var bt := LoadedRestores(v, urls);
    SameIndices(urls, at, bt, kept, Loaded(v, urls));
  }

  lemma FrontIndices(at: seq<nat>, j: nat)
    requires |at| > 0 && forall i, k :: 0 <= i < k < |at| ==> at[i] < at[k]
    ensures j in at[..|at| - 1] <==> j in at && j != at[|at| - 1]
    ensures j in at ==> j <= at[|at| - 1]
  {
    assert at == at[..|at| - 1] + [at[|at| - 1]];
  }

  lemma BothEmpty(urls: seq<Url>, at: seq<nat>, bt: seq<nat>, kept: seq<Url>)
    requires Picks(urls, at, kept) && forall j: nat :: j < |urls| ==> (j in at <==> j in bt)
    ensures |at| > 0 ==> |bt| > 0
  {
    if |at| > 0 {
      assert at[0] in at;
    }
  }

  /** Increasing indices are determined by which they are. */
  lemma {:induction false} SameIndices(urls: seq<Url>, at: seq<nat>, bt: seq<nat>, kept: seq<Url>, lept: seq<Url>)
    requires Picks(urls, at, kept) && Picks(urls, bt, lept)
    requires forall j: nat :: j < |urls| ==> (j in at <==> j in bt)
    ensures at == bt && kept == lept
    decreases |at| + |bt|
  {
    BothEmpty(urls, at, bt, kept);
    BothEmpty(urls, bt, at, lept);
    if |at| > 0 {
      var a, b := at[|at| - 1], bt[|bt| - 1];
      assert a in at && b in bt && a < |urls| && b < |urls|;
      FrontIndices(at, b);
      FrontIndices(bt, a);
      var at1, bt1 := at[..|at| - 1], bt[..|bt| - 1];
      forall j: nat | j < |urls|
        ensures j in at1 <==> j in bt1
      {
        FrontIndices(at, j);
        FrontIndices(bt, j);
      }
      SameIndices(urls, at1, bt1, kept[..|at1|], lept[..|bt1|]);
    }
  }

  // ---- saving --------------------------------------------------------------

  /** The tab at j is the first with its page, and the page can be saved. */
  ghost predicate FirstTab(v: Env, pages: seq<Url>, j: nat)
    requires j < |pages|
  {
    Web(v, pages[j]) && pages[j] !in pages[..j]
  }

  /** The pages that can be saved, each where its first tab stands. */
  ghost predicate FirstTabs(v: Env, pages: seq<Url>, at: seq<nat>, c: seq<Url>)
  {
    Picks(pages, at, c) && forall j: nat :: j < |pages| ==> (j in at <==> FirstTab(v, pages, j))
  }

  lemma {:induction false} CandidatesFirst(v: Env, pages: seq<Url>) returns (at: seq<nat>)
    ensures FirstTabs(v, pages, at, Candidates(v, pages))
    decreases |pages|
  {
    at := [];
    if |pages| > 0 {
      var front, u := pages[..|pages| - 1], pages[|pages| - 1];
      var c := Candidates(v, front);
      at := CandidatesFirst(v, front);
      assert front + [u] == pages;
      SavableIs(v, u);
      assert Savable(v, u) ==> (u in c <==> u in front);
      PicksFront(front, u, at, c);
      PicksLast(front, u, at, c);
      forall j: nat | j < |front|
        ensures FirstTab(v, pages, j) <==> FirstTab(v, front, j)
      {
        assert pages[..j] == front[..j];
      }
      assert pages[..|front|] == front;
      if Savable(v, u) && u !in c {
        at := at + [|front|];
      }
    }
  }

  /** The first ten at most. */
  ghost predicate Cut(urls: seq<Url>, t: seq<Url>)
  {
    t <= urls && |t| == if |urls| < 10 then |urls| else 10
  }

  /** The stored list outweighs the open tabs: it is longer, and younger than the limit. */
  predicate Outweighs(v: Env, f: Files, stored: seq<Url>, c: seq<Url>, now: real)
  {
    |stored| > |c| && now - (if f.live.Doc? then f.live.ts as real else 0.0) < v.stale
  }

  /** What one snapshot leaves of the files, with `c` the pages open and `stored` those of the live
      file: nothing changes when only the homepage is open or the stored list outweighs, but that an
      unreadable recovery copy is then made anew; otherwise both files hold the pages. */
  ghost predicate Leaves(v: Env, f: Files, t: Files, c: seq<Url>, stored: seq<Url>, now: real)
  {
    && (!Elsewhere(v, c) ==> t == f)
    && (Elsewhere(v, c) && Outweighs(v, f, stored, c, now) ==>
          && t.live == f.live
          && (f.lastGood.Doc? ==> t.lastGood == f.lastGood)
          && (f.lastGood.Bad? ==> t.lastGood.Doc? && f.live.Doc? && t.lastGood.ts == f.live.ts
                                  && Cut(stored, t.lastGood.urls)))
    && (Elsewhere(v, c) && !Outweighs(v, f, stored, c, now) ==>
          t.live.Doc? && t.live.ts == now.Floor && Cut(c, t.live.urls) && t.lastGood == t.live)
  }

  lemma SnapshotAnswers(v: Env, f: Files, pages: seq<Url>, now: real) returns (c: seq<Url>, stored: seq<Url>)
    ensures exists at :: FirstTabs(v, pages, at, c)
    ensures f.live.Doc? ==> exists at :: Restores(v, f.live.urls, at, stored)
    ensures f.live.Bad? ==> stored == []
    ensures Leaves(v, f, Snapshot(v, f, pages, now), c, stored, now)
  {
    c, stored := Candidates(v, pages), Stored(v, f);
    var at := CandidatesFirst(v, pages);
    assert FirstTabs(v, pages, at, c);
    if f.live.Doc? {
      var bt := LoadedRestores(v, f.live.urls);
      assert Restores(v, f.live.urls, bt, stored);
    }
    SnapshotLeaves(v, f, pages, now);
  }

  lemma SnapshotLeaves(v: Env, f: Files, pages: seq<Url>, now: real)
    ensures Leaves(v, f, Snapshot(v, f, pages, now), Candidates(v, pages), Stored(v, f), now)
  {
    var c, stored := Candidates(v, pages), Stored(v, f);
    ElsewhereExact(v, c);
    SnapshotIs(v, f, pages, now);
    if HasOther(v, c) && |stored| > |c| && Young(v, f, now) {
      SnapshotRepairs(v, f, pages, now);
    }
  }

  lemma SnapshotRepairs(v: Env, f: Files, pages: seq<Url>, now: real)
    requires HasOther(v, Candidates(v, pages)) && |Stored(v, f)| > |Candidates(v, pages)| && Young(v, f, now)
    ensures Snapshot(v, f, pages, now).lastGood
         == if f.lastGood.Bad? then Doc(StoredAt(f), Take(Stored(v, f))) else f.lastGood
  {
    WriteOne(f, false, Doc(StoredAt(f), Take(Stored(v, f))));
  }
}
