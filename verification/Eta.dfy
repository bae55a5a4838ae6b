/** Queue positions and waiting times (`_eta_for`). Times are reals, in seconds. */
module Eta {
  import opened Wrappers
  import opened Fleet

  // ---- sorting -------------------------------------------------------------

  predicate Sorted(s: seq<real>)
  {
    forall i, j :: 0 <= i < j < |s| ==> s[i] <= s[j]
  }

  function Insert(x: real, s: seq<real>): (t: seq<real>)
    ensures |t| == |s| + 1
  {
    if |s| == 0 then [x]
    else if x <= s[0] then [x] + s
    else [s[0]] + Insert(x, s[1..])
  }

  function Sort(s: seq<real>): (t: seq<real>)
    ensures |t| == |s|
  {
    if |s| == 0 then [] else Insert(s[0], Sort(s[1..]))
  }

  lemma {:induction false} InsertSorts(x: real, s: seq<real>)
    requires Sorted(s)
    ensures Sorted(Insert(x, s))
    ensures forall i :: 0 <= i < |s| + 1 ==> Insert(x, s)[i] == x || Insert(x, s)[i] in s
  {
    if |s| > 0 && x > s[0] {
      InsertSorts(x, s[1..]);
    }
  }

  lemma {:induction false} InsertPermutes(x: real, s: seq<real>)
    ensures multiset(Insert(x, s)) == multiset{x} + multiset(s)
  {
    if |s| > 0 && x > s[0] {
      InsertPermutes(x, s[1..]);
      assert s == [s[0]] + s[1..];
    }
  }

  /** Sorting orders the values and keeps every one of them. */
  lemma {:induction false} SortSorts(s: seq<real>)
    ensures Sorted(Sort(s)) && multiset(Sort(s)) == multiset(s)
  {
    if |s| > 0 {
      SortSorts(s[1..]);
      InsertSorts(s[0], Sort(s[1..]));
      InsertPermutes(s[0], Sort(s[1..]));
      assert s == [s[0]] + s[1..];
    }
  }

  // ---- the simulation and its closed form ----------------------------------

  /** Slots free at the times of s, in order. Each time, the slot that frees first serves the
      next entry in the queue and frees again a median session later. This is the time at which
      entry p, counted from 0, is served. */
  function Simulated(s: seq<real>, med: real, p: nat): real
    requires |s| > 0
    decreases p
  {
    if p == 0 then s[0] else Simulated(Insert(s[0] + med, s[1..]), med, p - 1)
  }

  /** The closed form, with its divmod. The free slot of an idle tier serves the head at once. */
  function ClosedForm(rems: seq<real>, med: real, pos: nat): real
    requires pos >= 1
  {
    var busy := |rems|;
    if pos <= busy then rems[pos - 1]
    else if busy == 0 then (pos - 1) as real * med
    else
      var q, m := (pos - busy - 1) / busy, (pos - busy - 1) % busy;
      rems[m] + (q + 1) as real * med
  }

  /** Entry i of the round robin through the slots, one median later on each round. */
  function RoundRobin(r: seq<real>, med: real, i: nat): real
    requires |r| > 0
    decreases i
  {
    if i < |r| then r[i] else RoundRobin(r, med, i - |r|) + med
  }

  ghost predicate Spread(r: seq<real>, med: real)
  {
    |r| > 0 ==> r[|r| - 1] - r[0] <= med
  }

  lemma {:induction false} RoundRobinStep(r: seq<real>, med: real, i: nat)
    requires |r| > 0 && Sorted(r) && Spread(r, med)
    ensures RoundRobin(r, med, i) <= RoundRobin(r, med, i + 1)
    decreases i
  {
    if i >= |r| {
      RoundRobinStep(r, med, i - |r|);
    } else if i + 1 == |r| {
      assert RoundRobin(r, med, i + 1) == r[0] + med;
    }
  }

  lemma {:induction false} RoundRobinMono(r: seq<real>, med: real, i: nat, j: nat)
    requires |r| > 0 && Sorted(r) && Spread(r, med) && i <= j
    ensures RoundRobin(r, med, i) <= RoundRobin(r, med, j)
    decreases j
  {
    if i < j {
      RoundRobinMono(r, med, i, j - 1);
      RoundRobinStep(r, med, j - 1);
    }
  }

  /** The slots after k services. */
  ghost function Window(r: seq<real>, med: real, k: nat): (w: seq<real>)
    requires |r| > 0
    ensures |w| == |r|
  {
    seq(|r|, j requires 0 <= j < |r| => RoundRobin(r, med, k + j))
  }

  lemma {:induction false} InsertMax(x: real, s: seq<real>)
    requires forall i :: 0 <= i < |s| ==> s[i] <= x
    requires Sorted(s)
    ensures Insert(x, s) == s + [x]
  {
    if |s| > 0 {
      if x <= s[0] {
        assert forall i :: 0 <= i < |s| ==> s[i] == x;
      } else {
        InsertMax(x, s[1..]);
      }
    }
  }

  lemma WindowNext(r: seq<real>, med: real, k: nat)
    requires |r| > 0 && Sorted(r) && Spread(r, med)
    ensures Insert(Window(r, med, k)[0] + med, Window(r, med, k)[1..]) == Window(r, med, k + 1)
  {
    var w := Window(r, med, k);
    var x := RoundRobin(r, med, k + |r|);
    assert x == w[0] + med;
    forall i, j | 0 <= i <= j < |r|
      ensures w[i] <= w[j] <= x
    {
      RoundRobinMono(r, med, k + i, k + j);
      RoundRobinMono(r, med, k + j, k + |r|);
    }
    InsertMax(x, w[1..]);
    assert w[1..] + [x] == Window(r, med, k + 1);
  }

  lemma {:induction false} SimulatedIsRoundRobin(r: seq<real>, med: real, k: nat, p: nat)
    requires |r| > 0 && Sorted(r) && Spread(r, med)
    ensures Simulated(Window(r, med, k), med, p) == RoundRobin(r, med, k + p)
    decreases p
  {
    if p > 0 {
      WindowNext(r, med, k);
      SimulatedIsRoundRobin(r, med, k + 1, p - 1);
    }
  }

  lemma {:induction false} RoundRobinRounds(r: seq<real>, med: real, q: nat, m: nat, i: nat)
    requires m < |r| && i == q * |r| + m
    ensures RoundRobin(r, med, i) == r[m] + q as real * med
    decreases q
  {
    if q > 0 {
      Rounds(q, |r|);
      RoundRobinRounds(r, med, q - 1, m, i - |r|);
      OneMore(q, med);
    }
  }

  lemma Rounds(q: nat, b: nat)
    requires q > 0
    ensures q * b == (q - 1) * b + b
  {
  }

  lemma OneMore(q: nat, med: real)
    requires q > 0
    ensures q as real * med == (q - 1) as real * med + med
  {
    assert q as real == (q - 1) as real + 1.0;
  }

  lemma ClosedFormIsRoundRobin(r: seq<real>, med: real, pos: nat)
    requires |r| > 0 && pos >= 1
    ensures ClosedForm(r, med, pos) == RoundRobin(r, med, pos - 1)
  {
    var b := |r|;
    if pos > b {
      var q, m := (pos - b - 1) / b, (pos - b - 1) % b;
      Rounds(q + 1, b);
      DivMod(pos - b - 1, b);
      RoundRobinRounds(r, med, q + 1, m, pos - 1);
    }
  }

  lemma DivMod(n: nat, b: nat)
    requires b > 0
    ensures n == (n / b) * b + n % b
  {
  }

  // ---- exactly when the two agree ------------------------------------------

  lemma {:induction false} InsertPushesRight(x: real, s: seq<real>, i: nat)
    requires Sorted(s) && i < |s|
    ensures Insert(x, s)[i] <= s[i]
  {
    if x <= s[0] {
      assert i > 0 ==> s[i - 1] <= s[i];
    } else if i > 0 {
      InsertPushesRight(x, s[1..], i - 1);
    }
  }

  lemma {:induction false} SimulatedAtMost(s: seq<real>, med: real, p: nat)
    requires Sorted(s) && p < |s|
    ensures Simulated(s, med, p) <= s[p]
    decreases p
  {
    if p > 0 {
      InsertSorts(s[0] + med, s[1..]);
      InsertPushesRight(s[0] + med, s[1..], p - 1);
      SimulatedAtMost(Insert(s[0] + med, s[1..]), med, p - 1);
    }
  }

  lemma {:induction false} InsertLands(x: real, s: seq<real>, i: nat)
    requires Sorted(s) && i < |s| && x < s[i] && (i > 0 ==> s[i - 1] <= x)
    ensures Insert(x, s)[i] == x
  {
    if x <= s[0] {
      if i > 0 {
        assert s[0] <= s[i - 1] <= x;
      }
    } else {
      InsertLands(x, s[1..], i - 1);
    }
  }

  /** The first slot that frees more than a median after the first one. */
  lemma FirstLate(r: seq<real>, med: real) returns (j: nat)
    requires |r| > 0 && Sorted(r) && med >= 0.0 && !Spread(r, med)
    ensures 0 < j < |r| && r[0] + med < r[j] && r[j - 1] <= r[0] + med
  {
    j := 1;
    while r[j] <= r[0] + med
      invariant 0 < j < |r| && r[j - 1] <= r[0] + med
      decreases |r| - j
    {
      j := j + 1;
    }
  }

  lemma LateSlotIsWrong(r: seq<real>, med: real, j: nat)
    requires Sorted(r) && 0 < j < |r| && r[0] + med < r[j] && r[j - 1] <= r[0] + med && med >= 0.0
    ensures Simulated(r, med, j) < ClosedForm(r, med, j + 1)
  {
    var x, u := r[0] + med, r[1..];
    InsertSorts(x, u);
    InsertLands(x, u, j - 1);
    SimulatedAtMost(Insert(x, u), med, j - 1);
  }

  /** The closed form gives every position the simulated waiting time exactly when the times at
      which the slots free differ by at most the median. */
  lemma ClosedFormRefinesSimulation(r: seq<real>, med: real)
    requires |r| > 0 && Sorted(r) && med >= 0.0
    ensures (forall pos: nat :: pos >= 1 ==> ClosedForm(r, med, pos) == Simulated(r, med, pos - 1)) <==> Spread(r, med)
  {
    if Spread(r, med) {
      forall pos: nat | pos >= 1
        ensures ClosedForm(r, med, pos) == Simulated(r, med, pos - 1)
      {
        ClosedFormIsRoundRobin(r, med, pos);
        SimulatedIsRoundRobin(r, med, 0, pos - 1);
        assert Window(r, med, 0) == r;
      }
    } else {
      var j := FirstLate(r, med);
      LateSlotIsWrong(r, med, j);
      var pos: nat := j + 1;
      assert ClosedForm(r, med, pos) != Simulated(r, med, pos - 1);
    }
  }

  /** One slot is free now and one in ten medians: the second in the queue is told to wait for the
      second slot although the first one serves it long before. */
  lemma LateSlotMisleads(med: real)
    requires med > 0.0
    ensures ClosedForm([0.0, 10.0 * med], med, 2) == 10.0 * med && Simulated([0.0, 10.0 * med], med, 1) == med
  {
    var s := [0.0, 10.0 * med];
    assert s[1..] == [10.0 * med];
    assert Insert(s[0] + med, s[1..])[0] == med;
  }

  /** An idle tier drains like a single slot that is free now. */
  lemma IdleTier(med: real, pos: nat)
    requires pos >= 1 && med >= 0.0
    ensures ClosedForm([], med, pos) == Simulated([0.0], med, pos - 1)
  {
    ClosedFormRefinesSimulation([0.0], med);
    assert ClosedForm([0.0], med, pos) == Simulated([0.0], med, pos - 1);
    if pos > 1 {
      OneMore(pos - 1, med);
    }
  }

  // ---- remaining times -----------------------------------------------------

  /** What the estimate reads of one session; absent fields default to now. */
  datatype SessionView = SessionView(tier: Tier, startedAt: Option<real>, expiring: bool, expiringSince: Option<real>)

  datatype Config = Config(maxSession: real, teardown: real, poll: real)

  function OrNow(t: Option<real>, now: real): real
  {
    if t.Some? then t.value else now
  }

  function Max(a: real, b: real): real
  {
    if a < b then b else a
  }

  function Remaining(s: SessionView, c: Config, now: real): real
  {
    var rem := OrNow(s.startedAt, now) + c.maxSession - now;
    var held := if s.expiring then Max(rem, OrNow(s.expiringSince, now) + c.teardown - now) else rem;
    Max(held, 0.0)
  }

  function AllRemaining(sessions: seq<SessionView>, tier: Tier, c: Config, now: real): seq<real>
  {
    if |sessions| == 0 then []
    else
      var rest := AllRemaining(sessions[1..], tier, c, now);
      if sessions[0].tier == tier then [Remaining(sessions[0], c, now)] + rest else rest
  }

  /** The middle of the last fifty values in increasing order; none without values. */
  function Median(vals: seq<real>): (m: Option<real>)
    ensures m.None? <==> |vals| == 0
  {
    if |vals| == 0 then None
    else
      var t := Sort(vals);
      var s := if |t| > 50 then t[|t| - 50..] else t;
      var n := |s|;
      Some(if n % 2 == 1 then s[n / 2] else (s[n / 2 - 1] + s[n / 2]) / 2.0)
  }

  function CappedMedian(history: seq<real>, c: Config): real
  {
    var m := Median(history);
    var med := if m.Some? then m.value else c.maxSession / 2.0;
    if med < c.maxSession then med else c.maxSession
  }

  /** `int(x)`: truncation toward zero */
  function Trunc(x: real): int
  {
    if x >= 0.0 then x.Floor else -(-x).Floor
  }

  /** The estimate for a position. */
  function EtaAt(pos: nat, sessions: seq<SessionView>, tier: Tier, history: seq<real>, c: Config, now: real): real
    requires pos >= 1
  {
    var eta := ClosedForm(Sort(AllRemaining(sessions, tier, c, now)), CappedMedian(history, c), pos);
    Max(Trunc(eta) as real, c.poll)
  }

  // ---- positions -----------------------------------------------------------

  predicate InPlay(e: Entry, tier: Tier)
  {
    e.tier == tier && (e.status == Waiting || e.status == Offered)
  }

  function SelectInPlay(queue: seq<Entry>, tier: Tier): (s: seq<Entry>)
    ensures forall i :: 0 <= i < |s| ==> InPlay(s[i], tier) && s[i] in queue
  {
    if |queue| == 0 then []
    else
      var rest := SelectInPlay(queue[1..], tier);
      if InPlay(queue[0], tier) then [queue[0]] + rest else rest
  }

  /** Stable: an entry goes before the ones of equal key that came after it. */
  function InsertEntry(e: Entry, s: seq<Entry>): (t: seq<Entry>)
    ensures |t| == |s| + 1
  {
    if |s| == 0 then [e]
    else if Before(e, s[0]) then [e] + s
    else [s[0]] + InsertEntry(e, s[1..])
  }

  function SortEntries(s: seq<Entry>): (t: seq<Entry>)
    ensures |t| == |s|
  {
    if |s| == 0 then [] else InsertEntry(s[0], SortEntries(s[1..]))
  }

  function Order(queue: seq<Entry>, tier: Tier): seq<Entry>
  {
    SortEntries(SelectInPlay(queue, tier))
  }

  /** Index of the first entry with this id and email. */
  function Find(order: seq<Entry>, entry: Entry): (i: Option<nat>)
    ensures i.Some? ==> i.value < |order|
  {
    if |order| == 0 then None
    else if order[0].id == entry.id && order[0].email == entry.email then Some(0)
    else
      match Find(order[1..], entry)
      case None => None
      case Some(i) => Some(i + 1)
  }

  function Position(queue: seq<Entry>, entry: Entry): Option<nat>
  {
    match Find(Order(queue, entry.tier), entry)
    case None => None
    case Some(i) => Some(i + 1)
  }

  ghost predicate DistinctIds(queue: seq<Entry>)
  {
    forall i, j :: 0 <= i < j < |queue| ==> queue[i].id != queue[j].id
  }

  lemma {:induction false} SelectComplete(queue: seq<Entry>, tier: Tier, e: Entry)
    requires e in queue && InPlay(e, tier)
    ensures e in SelectInPlay(queue, tier)
  {
    if queue[0] != e {
      assert e in queue[1..];
      SelectComplete(queue[1..], tier, e);
    }
  }

  lemma {:induction false} SelectDistinct(queue: seq<Entry>, tier: Tier)
    requires DistinctIds(queue)
    ensures DistinctIds(SelectInPlay(queue, tier))
  {
    if |queue| > 0 {
      SelectDistinct(queue[1..], tier);
    }
  }

  lemma {:induction false} InsertMembers(e: Entry, s: seq<Entry>, f: Entry)
    ensures f in InsertEntry(e, s) <==> f == e || f in s
  {
    if |s| > 0 && !Before(e, s[0]) {
      InsertMembers(e, s[1..], f);
      assert f in s <==> f == s[0] || f in s[1..];
      assert InsertEntry(e, s) == [s[0]] + InsertEntry(e, s[1..]);
    }
  }

  lemma {:induction false} SortMembers(s: seq<Entry>, f: Entry)
    ensures f in SortEntries(s) <==> f in s
  {
    if |s| > 0 {
      SortMembers(s[1..], f);
      InsertMembers(s[0], SortEntries(s[1..]), f);
      assert f in s <==> f == s[0] || f in s[1..];
    }
  }

  lemma {:induction false} InsertOrders(e: Entry, s: seq<Entry>)
    requires InQueueOrder(s)
    ensures InQueueOrder(InsertEntry(e, s))
  {
    if |s| > 0 && !Before(e, s[0]) {
      InsertOrders(e, s[1..]);
      var u := InsertEntry(e, s[1..]);
      forall j | 0 <= j < |u|
        ensures Before(s[0], u[j])
      {
        InsertMembers(e, s[1..], u[j]);
      }
    }
  }

  lemma {:induction false} SortOrders(s: seq<Entry>)
    ensures InQueueOrder(SortEntries(s))
  {
    if |s| > 0 {
      SortOrders(s[1..]);
      InsertOrders(s[0], SortEntries(s[1..]));
    }
  }

  lemma {:induction false} InsertDistinct(e: Entry, s: seq<Entry>)
    requires DistinctIds(s) && forall i :: 0 <= i < |s| ==> s[i].id != e.id
    ensures DistinctIds(InsertEntry(e, s))
  {
    if |s| > 0 && !Before(e, s[0]) {
      InsertDistinct(e, s[1..]);
      var u := InsertEntry(e, s[1..]);
      forall j | 0 <= j < |u|
        ensures s[0].id != u[j].id
      {
        InsertMembers(e, s[1..], u[j]);
      }
    }
  }

  lemma {:induction false} SortDistinct(s: seq<Entry>)
    requires DistinctIds(s)
    ensures DistinctIds(SortEntries(s))
  {
    if |s| > 0 {
      var t := SortEntries(s[1..]);
      SortDistinct(s[1..]);
      forall i | 0 <= i < |t|
        ensures t[i].id != s[0].id
      {
        SortMembers(s[1..], t[i]);
      }
      InsertDistinct(s[0], t);
    }
  }

  /** With distinct ids, the n waiting and offered entries of a tier have the positions 1 to n,
      in order of priority and then enqueue time. */
  lemma PositionsAreRanks(queue: seq<Entry>, tier: Tier)
    requires DistinctIds(queue)
    ensures InQueueOrder(Order(queue, tier))
    ensures forall e :: e in queue && InPlay(e, tier) <==> e in Order(queue, tier)
    ensures forall i :: 0 <= i < |Order(queue, tier)| ==> Position(queue, Order(queue, tier)[i]) == Some(i + 1)
  {
    var s, order := SelectInPlay(queue, tier), Order(queue, tier);
    SelectDistinct(queue, tier);
    SortDistinct(s);
    SortOrders(s);
    forall e
      ensures e in queue && InPlay(e, tier) <==> e in order
    {
      SortMembers(s, e);
      if e in queue && InPlay(e, tier) {
        SelectComplete(queue, tier, e);
      }
    }
    forall i | 0 <= i < |order|
      ensures Position(queue, order[i]) == Some(i + 1)
    {
      SortMembers(s, order[i]);
      FindAt(order, order[i], i);
    }
  }

  lemma {:induction false} FindAt(order: seq<Entry>, e: Entry, i: nat)
    requires DistinctIds(order) && i < |order| && order[i] == e
    ensures Find(order, e) == Some(i)
  {
    if i > 0 {
      FindAt(order[1..], e, i - 1);
    }
  }

  // ---- the handler ---------------------------------------------------------

  /** Position and estimate; an entry that is not in play has neither. */
  function EtaFor(entry: Entry, queue: seq<Entry>, sessions: seq<SessionView>, history: seq<real>, c: Config, now: real)
    : (Option<nat>, real)
  {
    match Position(queue, entry)
    case None => (None, 0.0)
    case Some(pos) => (Some(pos), EtaAt(pos, sessions, entry.tier, history, c, now))
  }

  method CollectRemaining(sessions: seq<SessionView>, tier: Tier, c: Config, now: real) returns (rems: seq<real>)
    ensures rems == AllRemaining(sessions, tier, c, now)
  {
    rems := [];
    var i := 0;
    while i < |sessions|
      invariant 0 <= i <= |sessions|
      invariant AllRemaining(sessions, tier, c, now) == rems + AllRemaining(sessions[i..], tier, c, now)
    {
      assert sessions[i..][1..] == sessions[i + 1..];
      if sessions[i].tier == tier {
        rems := rems + [Remaining(sessions[i], c, now)];
      }
      i := i + 1;
    }
    assert rems + [] == rems;
  }

  method ComputeEta(entry: Entry, queue: seq<Entry>, sessions: seq<SessionView>, history: seq<real>, c: Config,
                    now: real)
    returns (pos: Option<nat>, eta: real)
    ensures (pos, eta) == EtaFor(entry, queue, sessions, history, c, now)
  {
    pos := Position(queue, entry);
    if pos.None? {
      return None, 0.0;
    }
    var med := CappedMedian(history, c);
    var rems := CollectRemaining(sessions, entry.tier, c, now);
    eta := ClosedForm(Sort(rems), med, pos.value);
    eta := Max(Trunc(eta) as real, c.poll);
  }

  // ---- the estimate counts down --------------------------------------------

  ghost predicate Pointwise(a: seq<real>, b: seq<real>)
  {
    |a| == |b| && forall i :: 0 <= i < |a| ==> a[i] <= b[i]
  }

  function Min(a: real, b: real): real
  {
    if a < b then a else b
  }

  /** Element i after inserting x into a sorted sequence. */
  ghost function Inserted(x: real, s: seq<real>, i: nat): real
    requires i <= |s|
  {
    var upper := if i < |s| then Min(x, s[i]) else x;
    if i > 0 then Max(s[i - 1], upper) else upper
  }

  lemma {:induction false} InsertedAt(x: real, s: seq<real>, i: nat)
    requires Sorted(s) && i <= |s|
    ensures Insert(x, s)[i] == Inserted(x, s, i)
  {
    if |s| > 0 && i > 0 {
      if x <= s[0] {
        assert s[0] <= s[i - 1];
      } else {
        InsertedAt(x, s[1..], i - 1);
      }
    }
  }

  lemma InsertPointwise(x: real, y: real, s: seq<real>, t: seq<real>)
    requires x <= y && Pointwise(s, t) && Sorted(s) && Sorted(t)
    ensures Pointwise(Insert(x, s), Insert(y, t))
  {
    forall i | 0 <= i <= |s|
      ensures Insert(x, s)[i] <= Insert(y, t)[i]
    {
      InsertedAt(x, s, i);
      InsertedAt(y, t, i);
    }
  }

  lemma {:induction false} SortPointwise(s: seq<real>, t: seq<real>)
    requires Pointwise(s, t)
    ensures Pointwise(Sort(s), Sort(t))
  {
    if |s| > 0 {
      SortPointwise(s[1..], t[1..]);
      SortSorts(s[1..]);
      SortSorts(t[1..]);
      InsertPointwise(s[0], t[0], Sort(s[1..]), Sort(t[1..]));
    }
  }

  lemma {:induction false} RemainingFalls(sessions: seq<SessionView>, tier: Tier, c: Config, now: real, later: real)
    requires now <= later
    ensures Pointwise(AllRemaining(sessions, tier, c, later), AllRemaining(sessions, tier, c, now))
  {
    if |sessions| > 0 {
      RemainingFalls(sessions[1..], tier, c, now, later);
    }
  }

  lemma TruncMono(x: real, y: real)
    requires x <= y
    ensures Trunc(x) <= Trunc(y)
  {
  }

  /** While the queue, the sessions and the history stay as they are, the reported position
      stays and the reported time never grows. */
  lemma EtaNeverIncreases(entry: Entry, queue: seq<Entry>, sessions: seq<SessionView>, history: seq<real>, c: Config,
                          now: real, later: real)
    requires now <= later
    ensures EtaFor(entry, queue, sessions, history, c, later).0 == EtaFor(entry, queue, sessions, history, c, now).0
    ensures EtaFor(entry, queue, sessions, history, c, later).1 <= EtaFor(entry, queue, sessions, history, c, now).1
  {
    var pos := Position(queue, entry);
    if pos.Some? {
      var a, b := AllRemaining(sessions, entry.tier, c, later), AllRemaining(sessions, entry.tier, c, now);
      RemainingFalls(sessions, entry.tier, c, now, later);
      SortPointwise(a, b);
      var med := CappedMedian(history, c);
      var x, y := ClosedForm(Sort(a), med, pos.value), ClosedForm(Sort(b), med, pos.value);
      ClosedFormMono(Sort(a), Sort(b), med, pos.value);
      TruncMono(x, y);
    }
  }

  lemma ClosedFormMono(a: seq<real>, b: seq<real>, med: real, pos: nat)
    requires Pointwise(a, b) && pos >= 1
    ensures ClosedForm(a, med, pos) <= ClosedForm(b, med, pos)
  {
    var busy := |a|;
    if pos > busy > 0 {
      var q, m := (pos - busy - 1) / busy, (pos - busy - 1) % busy;
      assert a[m] <= b[m];
    }
  }
}
