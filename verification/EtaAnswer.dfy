/** What the waiting-time estimate answers, said without the steps that compute it: which number
    the typical session length is, how long each session still runs, and which simulated service
    the answer is. */
module EtaAnswer {
  import opened Wrappers
  import opened Fleet
  import opened Eta

  // ---- the typical session -------------------------------------------------

  ghost function AtMost(s: seq<real>, m: real): nat
  {
    if |s| == 0 then 0 else (if s[0] <= m then 1 else 0) + AtMost(s[1..], m)
  }

  ghost function AtLeast(s: seq<real>, m: real): nat
  {
    if |s| == 0 then 0 else (if s[0] >= m then 1 else 0) + AtLeast(s[1..], m)
  }

  /** The values next to the middle of an even number of values. */
  ghost predicate Straddles(vals: seq<real>, a: real, b: real)
  {
    a in vals && b in vals && a <= b && forall x :: x in vals ==> x <= a || b <= x
  }

  /** At least half of the values are at most m and at least half are at least m; m is one of them,
      or, for an even number, the mean of two with none between. */
  ghost predicate IsMiddle(vals: seq<real>, m: real)
  {
    && 2 * AtMost(vals, m) >= |vals| && 2 * AtLeast(vals, m) >= |vals|
    && (|vals| % 2 == 1 ==> m in vals)
    && (|vals| % 2 == 0 ==> exists a, b :: Straddles(vals, a, b) && m == (a + b) / 2.0)
  }

  /** The values are split into the fifty largest and the others. */
  ghost predicate LargestFifty(vals: seq<real>, top: seq<real>, rest: seq<real>)
  {
    && |top| == 50 && multiset(vals) == multiset(top) + multiset(rest)
    && forall x, y :: x in rest && y in top ==> x <= y
  }

  lemma {:induction false} InsertCounts(x: real, s: seq<real>, m: real)
    ensures AtMost(Insert(x, s), m) == AtMost(s, m) + if x <= m then 1 else 0
    ensures AtLeast(Insert(x, s), m) == AtLeast(s, m) + if x >= m then 1 else 0
  {
    if |s| == 0 {
      assert [x][1..] == s;
    } else if x <= s[0] {
      assert ([x] + s)[1..] == s;
    } else {
      InsertCounts(x, s[1..], m);
      assert ([s[0]] + Insert(x, s[1..]))[1..] == Insert(x, s[1..]);
    }
  }

  lemma {:induction false} SortCounts(s: seq<real>, m: real)
    ensures AtMost(Sort(s), m) == AtMost(s, m) && AtLeast(Sort(s), m) == AtLeast(s, m)
  {
    if |s| > 0 {
      SortCounts(s[1..], m);
      InsertCounts(s[0], Sort(s[1..]), m);
    }
  }

  /** The first k values are at most m, the ones from j on at least m. */
  lemma {:induction false} SortedCounts(s: seq<real>, m: real, k: nat, j: nat)
    requires k <= |s| && j <= |s|
    requires forall i :: 0 <= i < k ==> s[i] <= m
    requires forall i :: j <= i < |s| ==> s[i] >= m
    ensures AtMost(s, m) >= k && AtLeast(s, m) >= |s| - j
  {
    if |s| > 0 {
      SortedCounts(s[1..], m, if k > 0 then k - 1 else 0, if j > 0 then j - 1 else 0);
    }
  }

  function MiddleOf(s: seq<real>): real
    requires |s| > 0
  {
    var n := |s|;
    if n % 2 == 1 then s[n / 2] else (s[n / 2 - 1] + s[n / 2]) / 2.0
  }

  lemma SortedMiddle(s: seq<real>)
    requires |s| > 0 && Sorted(s)
    ensures IsMiddle(s, MiddleOf(s))
  {
    var n, m := |s|, MiddleOf(s);
    if n % 2 == 1 {
      SortedCounts(s, m, n / 2 + 1, n / 2);
    } else {
      var a, b := s[n / 2 - 1], s[n / 2];
      assert a <= m <= b;
      SortedCounts(s, m, n / 2, n / 2);
      assert Straddles(s, a, b);
    }
  }

  lemma SameMembers(s: seq<real>, t: seq<real>)
    requires multiset(s) == multiset(t)
    ensures forall x :: x in s <==> x in t
  {
    forall x
      ensures x in s <==> x in t
    {
      assert x in multiset(s) <==> x in multiset(t);
    }
  }

  lemma MiddleOfUnsorted(vals: seq<real>)
    requires |vals| > 0
    ensures IsMiddle(vals, MiddleOf(Sort(vals)))
  {
    var t, m := Sort(vals), MiddleOf(Sort(vals));
    SortSorts(vals);
    SortedMiddle(t);
    SortCounts(vals, m);
    SameMembers(vals, t);
    if |vals| % 2 == 0 {
      var a, b :| Straddles(t, a, b) && m == (a + b) / 2.0;
      assert Straddles(vals, a, b);
    }
  }

  /** The middle of the values, or of the fifty largest when there are more. */
  ghost predicate IsMedian(vals: seq<real>, m: real)
  {
    if |vals| <= 50 then IsMiddle(vals, m)
    else exists top, rest :: LargestFifty(vals, top, rest) && IsMiddle(top, m)
  }

  lemma LargestOfSorted(vals: seq<real>, t: seq<real>)
    requires Sorted(t) && multiset(t) == multiset(vals) && |t| > 50
    ensures LargestFifty(vals, t[|t| - 50..], t[..|t| - 50])
  {
    var n := |t| - 50;
    var top, rest := t[n..], t[..n];
    assert t == rest + top;
    forall x, y | x in rest && y in top
      ensures x <= y
    {
      var i :| 0 <= i < n && rest[i] == x;
      var j :| 0 <= j < 50 && top[j] == y;
      assert t[i] <= t[n + j];
    }
  }

  lemma MedianIs(vals: seq<real>)
    requires |vals| > 0
    ensures var t := Sort(vals);
            Median(vals) == Some(MiddleOf(if |t| > 50 then t[|t| - 50..] else t))
  {
  }

  lemma MedianIsMiddle(vals: seq<real>)
    requires |vals| > 0
    ensures Median(vals).Some? && IsMedian(vals, Median(vals).value)
  {
    var t := Sort(vals);
    MedianIs(vals);
    if |vals| <= 50 {
      MiddleOfUnsorted(vals);
    } else {
      SortSorts(vals);
      SortedMiddle(t[|t| - 50..]);
      LargestOfSorted(vals, t);
    }
  }

  /** What the sessions of the past say about the next one: half the maximum when there are none. */
  ghost predicate Suggests(history: seq<real>, c: Config, m: real)
  {
    if |history| == 0 then m == c.maxSession / 2.0 else IsMedian(history, m)
  }

  /** The length a session is expected to have, which is never more than the maximum. */
  ghost predicate IsTypical(history: seq<real>, c: Config, med: real)
  {
    exists m :: Suggests(history, c, m) && med <= c.maxSession && med <= m && (med == m || med == c.maxSession)
  }

  lemma CappedIsTypical(history: seq<real>, c: Config)
    ensures IsTypical(history, c, CappedMedian(history, c))
  {
    if |history| > 0 {
      MedianIsMiddle(history);
    }
    assert Suggests(history, c, if |history| == 0 then c.maxSession / 2.0 else Median(history).value);
  }

  // ---- remaining times -----------------------------------------------------

  /** The session may be over at this time: its maximum has passed, and its teardown if it is being
      expired. */
  predicate Over(s: SessionView, c: Config, now: real, at: real)
  {
    && at >= OrNow(s.startedAt, now) + c.maxSession
    && (s.expiring ==> at >= OrNow(s.expiringSince, now) + c.teardown)
  }

  /** The session is over after x and not before. */
  ghost predicate FreesIn(s: SessionView, c: Config, now: real, x: real)
  {
    x >= 0.0 && Over(s, c, now, now + x) && forall at :: now <= at < now + x ==> !Over(s, c, now, at)
  }

  lemma RemainingIsLeast(s: SessionView, c: Config, now: real)
    ensures FreesIn(s, c, now, Remaining(s, c, now))
  {
  }

  ghost function OfTier(sessions: seq<SessionView>, tier: Tier): seq<SessionView>
  {
    if |sessions| == 0 then []
    else (if sessions[0].tier == tier then [sessions[0]] else []) + OfTier(sessions[1..], tier)
  }

  ghost predicate AllFree(sessions: seq<SessionView>, c: Config, now: real, times: seq<real>)
  {
    |times| == |sessions| && forall i :: 0 <= i < |sessions| ==> FreesIn(sessions[i], c, now, times[i])
  }

  lemma {:induction false} AllRemainingFree(sessions: seq<SessionView>, tier: Tier, c: Config, now: real)
    ensures AllFree(OfTier(sessions, tier), c, now, AllRemaining(sessions, tier, c, now))
  {
    if |sessions| > 0 {
      AllRemainingFree(sessions[1..], tier, c, now);
      var later, times := OfTier(sessions[1..], tier), AllRemaining(sessions[1..], tier, c, now);
      assert [] + later == later;
      OneMoreFree(sessions[0], later, c, now, times);
    }
  }

  lemma OneMoreFree(s: SessionView, later: seq<SessionView>, c: Config, now: real, times: seq<real>)
    requires AllFree(later, c, now, times)
    ensures AllFree([s] + later, c, now, [Remaining(s, c, now)] + times)
  {
    RemainingIsLeast(s, c, now);
  }

  /** The times at which the slots of the tier free, in order. */
  ghost predicate SlotsFree(sessions: seq<SessionView>, tier: Tier, c: Config, now: real, rems: seq<real>)
  {
    Sorted(rems) && exists times :: AllFree(OfTier(sessions, tier), c, now, times) && multiset(rems) == multiset(times)
  }

  lemma SortedSlotsFree(sessions: seq<SessionView>, tier: Tier, c: Config, now: real)
    ensures SlotsFree(sessions, tier, c, now, Sort(AllRemaining(sessions, tier, c, now)))
  {
    AllRemainingFree(sessions, tier, c, now);
    SortSorts(AllRemaining(sessions, tier, c, now));
  }

  // ---- the answer ----------------------------------------------------------

  /** n is the wait without its fraction. */
  predicate IsWhole(n: int, wait: real)
  {
    if wait >= 0.0 then n as real <= wait < n as real + 1.0 else n as real - 1.0 < wait <= n as real
  }

  /** Whole seconds of a wait, at least one polling interval. */
  ghost predicate Reported(eta: real, wait: real, c: Config)
  {
    exists n :: IsWhole(n, wait) && eta == if n as real >= c.poll then n as real else c.poll
  }

  /** The answer for a position, given when slots free and how long a session lasts. */
  ghost predicate Answers(eta: real, pos: nat, rems: seq<real>, med: real, c: Config)
    requires pos >= 1
  {
    && (|rems| == 0 ==> Reported(eta, (pos - 1) as real * med, c))
    && (|rems| > 0 && Spread(rems, med) ==> Reported(eta, Simulated(rems, med, pos - 1), c))
    && (0 < pos <= |rems| ==> Reported(eta, rems[pos - 1], c))
    && eta >= c.poll
  }

  /** An entry in play is told its position and the time at which the simulation serves it, when
      the slots free within a session of each other; on an idle tier a session for every entry
      before it. */
  lemma EtaAnswers(entry: Entry, queue: seq<Entry>, sessions: seq<SessionView>, history: seq<real>, c: Config,
                   now: real)
    requires Position(queue, entry).Some?
    ensures EtaFor(entry, queue, sessions, history, c, now).0 == Position(queue, entry)
    ensures exists rems, med ::
              && SlotsFree(sessions, entry.tier, c, now, rems) && IsTypical(history, c, med)
              && Answers(EtaFor(entry, queue, sessions, history, c, now).1, Position(queue, entry).value, rems, med, c)
  {
    var rems, med := Sort(AllRemaining(sessions, entry.tier, c, now)), CappedMedian(history, c);
    SortedSlotsFree(sessions, entry.tier, c, now);
    CappedIsTypical(history, c);
    AnswerAt(Position(queue, entry).value, sessions, entry.tier, history, c, now);
  }

  lemma AnswerAt(pos: nat, sessions: seq<SessionView>, tier: Tier, history: seq<real>, c: Config, now: real)
    requires pos >= 1
    ensures Answers(EtaAt(pos, sessions, tier, history, c, now), pos, Sort(AllRemaining(sessions, tier, c, now)),
                    CappedMedian(history, c), c)
  {
    var rems, med := Sort(AllRemaining(sessions, tier, c, now)), CappedMedian(history, c);
    SortSorts(AllRemaining(sessions, tier, c, now));
    ServedWhenSimulated(rems, med, pos);
    MaxReports(ClosedForm(rems, med, pos), c);
  }

  lemma ServedWhenSimulated(rems: seq<real>, med: real, pos: nat)
    requires pos >= 1 && Sorted(rems)
    ensures |rems| > 0 && Spread(rems, med) ==> ClosedForm(rems, med, pos) == Simulated(rems, med, pos - 1)
  {
    if |rems| > 0 && Spread(rems, med) {
      ClosedFormIsRoundRobin(rems, med, pos);
      SimulatedIsRoundRobin(rems, med, 0, pos - 1);
      assert Window(rems, med, 0) == rems;
    }
  }

  lemma MaxReports(wait: real, c: Config)
    ensures Reported(Max(Trunc(wait) as real, c.poll), wait, c)
  {
    assert IsWhole(Trunc(wait), wait);
  }
}
