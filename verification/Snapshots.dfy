/** Tab snapshots: which tabs are saved, when a richer snapshot is kept, and what the two files
    give back (`snapshot_tabs`, `load_snapshot`). */
module Snapshots {
  import opened Wrappers

  type Url = string

  const MAX: nat := 10

  /** A snapshot file; `Bad` is missing or unreadable. */
  datatype Doc = Bad | Doc(ts: int, urls: seq<Url>)

  /** The live file, the recovery copy, and their temporary files. */
  datatype Files = Files(live: Doc, lastGood: Doc, liveTmp: Doc, lastGoodTmp: Doc)

  /** Settings: the homepage, the age at which a snapshot is stale, and which pages belong to a
      sign-in flow. */
  datatype Env = Env(home: Url, stale: real, isSso: Url -> bool)

  // ---- filters -------------------------------------------------------------

  function TrimSlashes(u: Url): Url
  {
    if |u| > 0 && u[|u| - 1] == '/' then TrimSlashes(u[..|u| - 1]) else u
  }

  predicate IsHome(v: Env, u: Url)
  {
    TrimSlashes(u) == TrimSlashes(v.home)
  }

  predicate Savable(v: Env, u: Url)
  {
    !v.isSso(u) && ("http://" <= u || "https://" <= u)
  }

  predicate Loadable(v: Env, u: Url)
  {
    "http" <= u && !v.isSso(u)
  }

  predicate HasOther(v: Env, urls: seq<Url>)
  {
    exists i :: 0 <= i < |urls| && !IsHome(v, urls[i])
  }

  /** The savable pages, each once, in the order of their first tabs. */
  function Candidates(v: Env, pages: seq<Url>): (c: seq<Url>)
    ensures forall i :: 0 <= i < |c| ==> Savable(v, c[i]) && c[i] in pages
    ensures forall i, j :: 0 <= i < j < |c| ==> c[i] != c[j]
    ensures forall u :: u in pages && Savable(v, u) ==> u in c
  {
    if |pages| == 0 then []
    else
      var c, u := Candidates(v, pages[..|pages| - 1]), pages[|pages| - 1];
      if Savable(v, u) && u !in c then c + [u] else c
  }

  /** What is worth saving: nothing when only the homepage is open. */
  function Workspace(v: Env, pages: seq<Url>): seq<Url>
  {
    var c := Candidates(v, pages);
    if HasOther(v, c) then c else []
  }

  function Loaded(v: Env, urls: seq<Url>): seq<Url>
  {
    if |urls| == 0 then []
    else if Loadable(v, urls[|urls| - 1]) then Loaded(v, urls[..|urls| - 1]) + [urls[|urls| - 1]]
    else Loaded(v, urls[..|urls| - 1])
  }

  function Take(urls: seq<Url>): (t: seq<Url>)
    ensures |t| <= MAX && t <= urls
  {
    if |urls| <= MAX then urls else urls[..MAX]
  }

  // ---- reading -------------------------------------------------------------

  /** The urls of a readable file; a homepage-only list counts as an empty workspace. */
  function Read(v: Env, d: Doc): Option<seq<Url>>
  {
    if d.Bad? then None
    else
      var urls := Loaded(v, d.urls);
      Some(if HasOther(v, urls) then urls else [])
  }

  function Load(v: Env, f: Files): seq<Url>
  {
    match Read(v, f.live)
    case Some(urls) => urls
    case None =>
      match Read(v, f.lastGood)
      case Some(urls) => urls
      case None => []
  }

  // ---- writing -------------------------------------------------------------

  datatype Op = WriteTmp(isLive: bool, doc: Doc) | Replace(isLive: bool)

  function Exec(f: Files, op: Op): Files
  {
    match op
    case WriteTmp(isLive, d) => if isLive then f.(liveTmp := d) else f.(lastGoodTmp := d)
    case Replace(isLive) =>
      if isLive then f.(live := f.liveTmp, liveTmp := Bad) else f.(lastGood := f.lastGoodTmp, lastGoodTmp := Bad)
  }

  function Run(f: Files, ops: seq<Op>): Files
  {
    if |ops| == 0 then f else Exec(Run(f, ops[..|ops| - 1]), ops[|ops| - 1])
  }

  lemma RunNext(f: Files, ops: seq<Op>, op: Op)
    ensures Run(f, ops + [op]) == Exec(Run(f, ops), op)
  {
    assert (ops + [op])[..|ops|] == ops;
  }

  function WriteOps(isLive: bool, d: Doc): seq<Op>
  {
    [WriteTmp(isLive, d), Replace(isLive)]
  }

  /** The urls of the stored snapshot that count when it is compared with the open tabs. */
  function Stored(v: Env, f: Files): seq<Url>
  {
    if f.live.Bad? then [] else Loaded(v, f.live.urls)
  }

  function StoredAt(f: Files): int
  {
    if f.live.Bad? then 0 else f.live.ts
  }

  predicate Young(v: Env, f: Files, now: real)
  {
    now - StoredAt(f) as real < v.stale
  }

  /** The file operations of one snapshot. */
  function SnapshotOps(v: Env, f: Files, pages: seq<Url>, now: real): seq<Op>
  {
    var urls, stored := Workspace(v, pages), Stored(v, f);
    if |urls| == 0 then []
    else if |stored| > |urls| && Young(v, f, now) then
      if Read(v, f.lastGood).None? then WriteOps(false, Doc(StoredAt(f), Take(stored))) else []
    else
      var d := Doc(now.Floor, Take(urls));
      WriteOps(true, d) + WriteOps(false, d)
  }

  function Snapshot(v: Env, f: Files, pages: seq<Url>, now: real): Files
  {
    Run(f, SnapshotOps(v, f, pages, now))
  }

  lemma WriteAfter(f: Files, ops: seq<Op>, isLive: bool, d: Doc)
    ensures Run(f, ops + WriteOps(isLive, d))
         == if isLive then Run(f, ops).(live := d, liveTmp := Bad) else Run(f, ops).(lastGood := d, lastGoodTmp := Bad)
  {
    RunNext(f, ops, WriteTmp(isLive, d));
    RunNext(f, ops + [WriteTmp(isLive, d)], Replace(isLive));
    assert ops + WriteOps(isLive, d) == ops + [WriteTmp(isLive, d)] + [Replace(isLive)];
  }

  lemma WriteOne(f: Files, isLive: bool, d: Doc)
    ensures Run(f, WriteOps(isLive, d))
         == if isLive then f.(live := d, liveTmp := Bad) else f.(lastGood := d, lastGoodTmp := Bad)
  {
    WriteAfter(f, [], isLive, d);
    assert [] + WriteOps(isLive, d) == WriteOps(isLive, d);
  }

  lemma WriteBoth(f: Files, d: Doc)
    ensures Run(f, WriteOps(true, d) + WriteOps(false, d)) == Files(d, d, Bad, Bad)
  {
    WriteOne(f, true, d);
    WriteAfter(f, WriteOps(true, d), false, d);
  }

  lemma SnapshotIs(v: Env, f: Files, pages: seq<Url>, now: real)
    ensures var urls, stored, t := Workspace(v, pages), Stored(v, f), Snapshot(v, f, pages, now);
            if |urls| == 0 then t == f
            else if |stored| > |urls| && Young(v, f, now) then t.live == f.live
            else t.live == Doc(now.Floor, Take(urls)) && t.lastGood == t.live
  {
    var urls, stored := Workspace(v, pages), Stored(v, f);
    if |urls| > 0 {
      if |stored| > |urls| && Young(v, f, now) {
        WriteOne(f, false, Doc(StoredAt(f), Take(stored)));
      } else {
        WriteBoth(f, Doc(now.Floor, Take(urls)));
      }
    }
  }

  // ---- what is saved reads back --------------------------------------------

  lemma {:induction false} LoadedSavable(v: Env, urls: seq<Url>)
    requires forall i :: 0 <= i < |urls| ==> Savable(v, urls[i])
    ensures Loaded(v, urls) == urls
  {
    if |urls| > 0 {
      var u := urls[|urls| - 1];
      LoadedSavable(v, urls[..|urls| - 1]);
      assert Savable(v, u);
      assert "http" <= "http://" && "http" <= "https://";
      assert urls[..|urls| - 1] + [u] == urls;
    }
  }

  predicate Written(v: Env, f: Files, pages: seq<Url>, now: real)
  {
    |Workspace(v, pages)| > 0 && !(|Stored(v, f)| > |Workspace(v, pages)| && Young(v, f, now))
  }

  /** A saved list reads back as it was, cut at MAX, exactly when a page other than the homepage is
      among its first MAX. For at most MAX tabs that is always so. */
  lemma SavedReadsBackExact(v: Env, f: Files, pages: seq<Url>, now: real)
    requires Written(v, f, pages, now)
    ensures var urls, t := Workspace(v, pages), Snapshot(v, f, pages, now);
            && (Load(v, t) == Take(urls) <==> HasOther(v, Take(urls)))
            && (|urls| <= MAX ==> Load(v, t) == urls)
  {
    var urls := Workspace(v, pages);
    SnapshotIs(v, f, pages, now);
    LoadedSavable(v, Take(urls));
  }

  function Slashes(n: nat): string
  {
    if n == 0 then "" else Slashes(n - 1) + "/"
  }

  lemma {:induction false} TrimVariant(u: Url, n: nat)
    ensures TrimSlashes(u + Slashes(n)) == TrimSlashes(u) && |u + Slashes(n)| == |u| + n
  {
    if n == 0 {
      assert u + Slashes(0) == u;
    } else {
      TrimVariant(u, n - 1);
      assert u + Slashes(n) == (u + Slashes(n - 1)) + "/";
      assert ((u + Slashes(n - 1)) + "/")[..|u| + n - 1] == u + Slashes(n - 1);
    }
  }

  lemma {:induction false} CandidatesAll(v: Env, pages: seq<Url>)
    requires forall i :: 0 <= i < |pages| ==> Savable(v, pages[i])
    requires forall i, j :: 0 <= i < j < |pages| ==> pages[i] != pages[j]
    ensures Candidates(v, pages) == pages
    decreases |pages|
  {
    if |pages| > 0 {
      var front, u := pages[..|pages| - 1], pages[|pages| - 1];
      CandidatesAll(v, front);
      assert Savable(v, u) && u !in front;
      assert front + [u] == pages;
    }
  }

  /** Ten spellings of the homepage and then another page: what is saved reads back empty, unless
      the homepage itself belongs to a sign-in flow. */
  lemma HomepagesHideOthers(v: Env, other: Url, now: real)
    requires !v.isSso(other) && forall i: nat :: i < MAX ==> !v.isSso(v.home + Slashes(i))
    requires ("http://" <= v.home || "https://" <= v.home) && ("http://" <= other || "https://" <= other)
    requires !IsHome(v, other)
    ensures var pages := seq(MAX, i requires 0 <= i < MAX => v.home + Slashes(i)) + [other];
            var t := Snapshot(v, Files(Bad, Bad, Bad, Bad), pages, now);
            Workspace(v, pages) == pages && Load(v, t) == []
  {
    var f := Files(Bad, Bad, Bad, Bad);
    var homes := seq(MAX, i requires 0 <= i < MAX => v.home + Slashes(i));
    var pages := homes + [other];
    forall i | 0 <= i < MAX
      ensures IsHome(v, pages[i]) && |pages[i]| == |v.home| + i && Savable(v, pages[i])
    {
      TrimVariant(v.home, i);
    }
    CandidatesAll(v, pages);
    assert !IsHome(v, pages[MAX]);
    assert Take(pages) == homes && !HasOther(v, homes);
    SnapshotIs(v, f, pages, now);
    LoadedSavable(v, homes);
  }

  // ---- the count -----------------------------------------------------------

  /** While the stored snapshot is young its count falls only from above MAX, and then to MAX. */
  lemma CountFallsExact(v: Env, f: Files, pages: seq<Url>, now: real)
    requires Young(v, f, now)
    ensures |Stored(v, Snapshot(v, f, pages, now))| < |Stored(v, f)|
       <==> MAX < |Stored(v, f)| <= |Workspace(v, pages)|
  {
    var urls := Workspace(v, pages);
    SnapshotIs(v, f, pages, now);
    LoadedSavable(v, Take(urls));
  }

  datatype Timed = Timed(pages: seq<Url>, now: real)

  function Snapshots(v: Env, f: Files, ticks: seq<Timed>): Files
  {
    if |ticks| == 0 then f
    else Snapshot(v, Snapshots(v, f, ticks[..|ticks| - 1]), ticks[|ticks| - 1].pages, ticks[|ticks| - 1].now)
  }

  /** No snapshot of this program is longer than MAX. */
  lemma {:induction false} StoredBound(v: Env, f: Files, ticks: seq<Timed>)
    requires |Stored(v, f)| <= MAX
    ensures |Stored(v, Snapshots(v, f, ticks))| <= MAX
    decreases |ticks|
  {
    if |ticks| > 0 {
      var front, t := ticks[..|ticks| - 1], ticks[|ticks| - 1];
      StoredBound(v, f, front);
      SnapshotIs(v, Snapshots(v, f, front), t.pages, t.now);
      LoadedSavable(v, Take(Workspace(v, t.pages)));
    }
  }

  /** So over every run the count never falls while the stored snapshot is young. */
  lemma CountNeverFalls(v: Env, f: Files, ticks: seq<Timed>, pages: seq<Url>, now: real)
    requires |Stored(v, f)| <= MAX && Young(v, Snapshots(v, f, ticks), now)
    ensures var g := Snapshots(v, f, ticks);
            |Stored(v, Snapshot(v, g, pages, now))| >= |Stored(v, g)|
  {
    StoredBound(v, f, ticks);
    CountFallsExact(v, Snapshots(v, f, ticks), pages, now);
  }

  // ---- stopping between two writes -----------------------------------------

  lemma {:induction false} LiveKept(f: Files, ops: seq<Op>)
    requires forall i :: 0 <= i < |ops| ==> !ops[i].isLive
    ensures Run(f, ops).live == f.live
    decreases |ops|
  {
    if |ops| > 0 {
      LiveKept(f, ops[..|ops| - 1]);
    }
  }

  /** Stopping a snapshot at any operation leaves readers with the whole old list or the whole new
      one. */
  lemma CrashAtomic(v: Env, f: Files, pages: seq<Url>, now: real, n: nat)
    requires n <= |SnapshotOps(v, f, pages, now)|
    ensures var t := Run(f, SnapshotOps(v, f, pages, now)[..n]);
            Load(v, t) == Load(v, f) || Load(v, t) == Load(v, Snapshot(v, f, pages, now))
  {
    var ops := SnapshotOps(v, f, pages, now);
    SnapshotIs(v, f, pages, now);
    if Written(v, f, pages, now) {
      WrittenPrefix(f, Doc(now.Floor, Take(Workspace(v, pages))), n);
    } else if |ops| > 0 {
      LiveKept(f, ops[..n]);
    } else {
      assert ops[..n] == ops;
    }
  }

  lemma WrittenPrefix(f: Files, d: Doc, n: nat)
    requires n <= 4
    ensures var t := Run(f, (WriteOps(true, d) + WriteOps(false, d))[..n]);
            if n < 2 then t.live == f.live && t.lastGood == f.lastGood else t.live == d
  {
    var first, ops := WriteOps(true, d), WriteOps(true, d) + WriteOps(false, d);
    if n < 2 {
      assert n == 1 ==> ops[..n] == [] + [WriteTmp(true, d)];
      RunNext(f, [], WriteTmp(true, d));
    } else if n == 2 {
      assert ops[..n] == first;
      WriteOne(f, true, d);
    } else if n == 3 {
      assert ops[..n] == first + [WriteTmp(false, d)];
      RunNext(f, first, WriteTmp(false, d));
      WriteOne(f, true, d);
    } else {
      assert ops[..n] == ops;
      WriteBoth(f, d);
    }
  }

  // ---- the keeper in place -------------------------------------------------

  class Keeper {
    const v: Env
    var live: Doc
    var lastGood: Doc
    var liveTmp: Doc
    var lastGoodTmp: Doc

    function View(): Files
      reads this
    {
      Files(live, lastGood, liveTmp, lastGoodTmp)
    }

    constructor (v: Env, f: Files)
      ensures this.v == v && View() == f
    {
      this.v := v;
      live, lastGood, liveTmp, lastGoodTmp := f.live, f.lastGood, f.liveTmp, f.lastGoodTmp;
    }

    method Collect(pages: seq<Url>) returns (c: seq<Url>, other: bool)
      ensures c == Candidates(v, pages) && other == HasOther(v, c)
    {
      c, other := [], false;
      var i := 0;
      while i < |pages|
        invariant 0 <= i <= |pages|
        invariant c == Candidates(v, pages[..i]) && other == HasOther(v, c)
      {
        var u := pages[i];
        assert pages[..i + 1][..i] == pages[..i] && pages[..i + 1][i] == u;
        if Savable(v, u) && u !in c {
          OtherAppend(v, c, u);
          c, other := c + [u], other || !IsHome(v, u);
        }
        i := i + 1;
      }
      assert pages[..i] == pages;
    }

    method Filter(urls: seq<Url>) returns (kept: seq<Url>)
      ensures kept == Loaded(v, urls)
    {
      kept := [];
      var i := 0;
      while i < |urls|
        invariant 0 <= i <= |urls|
        invariant kept == Loaded(v, urls[..i])
      {
        assert urls[..i + 1][..i] == urls[..i] && urls[..i + 1][i] == urls[i];
        if Loadable(v, urls[i]) {
          kept := kept + [urls[i]];
        }
        i := i + 1;
      }
      assert urls[..i] == urls;
    }

    method Write(isLive: bool, d: Doc)
      modifies this
      ensures View() == Run(old(View()), WriteOps(isLive, d))
    {
      WriteOne(View(), isLive, d);
      if isLive {
        liveTmp := d;
        live, liveTmp := liveTmp, Bad;
      } else {
        lastGoodTmp := d;
        lastGood, lastGoodTmp := lastGoodTmp, Bad;
      }
    }

    method SnapshotTabs(pages: seq<Url>, now: real)
      modifies this
      ensures View() == Snapshot(v, old(View()), pages, now)
    {
      var urls, other := Collect(pages);
      if !other {
        return;
      }
      var stored: seq<Url> := [];
      if live.Doc? {
        stored := Filter(live.urls);
      }
      if |stored| > |urls| && now - (if live.Doc? then live.ts else 0) as real < v.stale {
        if lastGood.Bad? {
          Write(false, Doc(live.ts, Take(stored)));
        }
        return;
      }
      WriteBoth(View(), Doc(now.Floor, Take(urls)));
      WriteOne(View(), true, Doc(now.Floor, Take(urls)));
      Write(true, Doc(now.Floor, Take(urls)));
      WriteOne(View(), false, Doc(now.Floor, Take(urls)));
      Write(false, Doc(now.Floor, Take(urls)));
    }
  }

  lemma OtherAppend(v: Env, c: seq<Url>, u: Url)
    ensures HasOther(v, c + [u]) <==> HasOther(v, c) || !IsHome(v, u)
  {
    if HasOther(v, c) {
      var i :| 0 <= i < |c| && !IsHome(v, c[i]);
      assert (c + [u])[i] == c[i];
    }
    assert (c + [u])[|c|] == u;
  }
}
