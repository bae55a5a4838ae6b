/** Identity of queue entries across enqueues and restarts (`_next_eid`, `load_state`). */
module QueueIds {
  import opened Wrappers
  import opened Fleet
  import Eta

  // ---- hexadecimal ---------------------------------------------------------

  const DIGITS: string := "0123456789abcdef"

  /** `f"{n:x}"` */
  function Hex(n: nat): (s: string)
    ensures |s| > 0
  {
    if n < 16 then [DIGITS[n]] else Hex(n / 16) + [DIGITS[n % 16]]
  }

  function DigitValue(c: char): Option<nat>
  {
    if '0' <= c <= '9' then Some(c as nat - '0' as nat)
    else if 'a' <= c <= 'f' then Some(c as nat - 'a' as nat + 10)
    else if 'A' <= c <= 'F' then Some(c as nat - 'A' as nat + 10)
    else None
  }

  /** The value of a string of hexadecimal digits; none for any other string. */
  function HexValue(s: string): Option<nat>
  {
    if |s| == 0 then None
    else
      match DigitValue(s[|s| - 1])
      case None => None
      case Some(d) =>
        if |s| == 1 then Some(d)
        else
          match HexValue(s[..|s| - 1])
          case None => None
          case Some(v) => Some(16 * v + d)
  }

  lemma {:induction false} HexRoundTrip(n: nat)
    ensures HexValue(Hex(n)) == Some(n)
  {
    DigitRoundTrip(n % 16);
    if n >= 16 {
      HexRoundTrip(n / 16);
      OneMoreDigit(Hex(n / 16), DIGITS[n % 16], n / 16, n % 16);
    }
  }

  lemma OneMoreDigit(s: string, c: char, v: nat, d: nat)
    requires HexValue(s) == Some(v) && DigitValue(c) == Some(d)
    ensures HexValue(s + [c]) == Some(16 * v + d)
  {
    assert (s + [c])[..|s|] == s;
  }

  lemma DigitRoundTrip(d: nat)
    requires d < 16
    ensures DigitValue(DIGITS[d]) == Some(d)
  {
    if d < 10 {
      assert DIGITS[d] == "0123456789"[d];
    } else {
      assert DIGITS[d] == "abcdef"[d - 10];
    }
  }

  /** `int(s, 16)`, none when it raises. Python reads plain digits as HexValue does, and some
      further spellings in its own way. */
  type IntParser = string -> Option<int>

  ghost predicate ReadsDigits(parse: IntParser)
  {
    forall s: string :: HexValue(s).Some? ==> parse(s) == Some(HexValue(s).value)
  }

  // ---- ids -----------------------------------------------------------------

  function Id(n: nat): (id: string)
  {
    "q-" + Hex(n)
  }

  lemma IdInjective(m: nat, n: nat)
    requires Id(m) == Id(n)
    ensures m == n
  {
    assert Hex(m) == Id(m)[2..] == Id(n)[2..] == Hex(n);
    HexRoundTrip(m);
    HexRoundTrip(n);
  }

  /** The persisted part of the queue: its entries and the last sequence number used. */
  datatype Store = Store(queue: seq<Entry>, last: nat)

  // ---- healing at load -----------------------------------------------------

  /** Entry i comes before entry j when they are sorted by enqueue time, stably. */
  ghost predicate Precedes(q: seq<Entry>, i: nat, j: nat)
    requires i < |q| && j < |q|
  {
    q[i].enqueuedAt < q[j].enqueuedAt || (q[i].enqueuedAt == q[j].enqueuedAt && i < j)
  }

  ghost function Predecessors(q: seq<Entry>, j: nat): set<nat>
    requires j < |q|
  {
    set i: nat | i < |q| && Precedes(q, i, j)
  }

  /** Index of entry j in the sorted queue. */
  ghost function Rank(q: seq<Entry>, j: nat): nat
    requires j < |q|
  {
    |Predecessors(q, j)|
  }

  lemma SmallerSet<T>(a: set<T>, b: set<T>)
    requires a < b
    ensures |a| < |b|
  {
    var x :| x in b && x !in a;
    SubsetSize(a, b - {x});
  }

  lemma {:induction false} SubsetSize<T>(a: set<T>, b: set<T>)
    requires a <= b
    ensures |a| <= |b|
  {
    if a != {} {
      var x :| x in a;
      SubsetSize(a - {x}, b - {x});
    }
  }

  ghost function UpTo(n: nat): (r: set<nat>)
    ensures |r| == n && forall i: nat :: i in r <==> i < n
  {
    if n == 0 then {} else UpTo(n - 1) + {n - 1}
  }

  lemma RankOrders(q: seq<Entry>, i: nat, j: nat)
    requires i < |q| && j < |q| && Precedes(q, i, j)
    ensures Rank(q, i) < Rank(q, j)
  {
    assert i in Predecessors(q, j) && i !in Predecessors(q, i);
    SmallerSet(Predecessors(q, i), Predecessors(q, j));
  }

  lemma RankBound(q: seq<Entry>, j: nat)
    requires j < |q|
    ensures Rank(q, j) < |q|
  {
    assert j !in Predecessors(q, j) && j in UpTo(|q|);
    SmallerSet(Predecessors(q, j), UpTo(|q|));
  }

  /** Ids 1 to n in order of enqueue time; the order of the queue stays. */
  ghost function Renumber(q: seq<Entry>): (r: seq<Entry>)
    ensures |r| == |q|
  {
    seq(|q|, j requires 0 <= j < |q| => q[j].(id := Id(Rank(q, j) + 1)))
  }

  /** The largest number spelled by an id with the prefix, and at least 0. */
  function LargestId(parse: IntParser, q: seq<Entry>): (m: nat)
  {
    if |q| == 0 then 0
    else
      var m := LargestId(parse, q[1..]);
      var id := q[0].id;
      if |id| >= 2 && id[..2] == "q-" then
        match parse(id[2..])
        case None => m
        case Some(v) => if v > m then v else m
      else m
  }

  function Max(a: nat, b: nat): nat
  {
    if a < b then b else a
  }

  ghost function Load(parse: IntParser, s: Store): Store
  {
    if !Eta.DistinctIds(s.queue) then Store(Renumber(s.queue), Max(s.last, |s.queue|))
    else Store(s.queue, Max(s.last, LargestId(parse, s.queue)))
  }

  // ---- runs ----------------------------------------------------------------

  datatype Op =
    | Enqueue(entry: Entry)                // a new entry; its id is the next one
    | Update(index: nat, entry: Entry)     // fields other than the id change in place
    | Remove(index: nat)
    | Restart(parse: IntParser)

  function NextId(s: Store): string
  {
    Id(s.last + 1)
  }

  ghost function Apply(s: Store, op: Op): Store
  {
    match op
    case Enqueue(e) => Store(s.queue + [e.(id := NextId(s))], s.last + 1)
    case Update(i, e) => if i < |s.queue| then s.(queue := s.queue[i := e.(id := s.queue[i].id)]) else s
    case Remove(i) => if i < |s.queue| then s.(queue := s.queue[..i] + s.queue[i + 1..]) else s
    case Restart(parse) => Load(parse, s)
  }

  ghost function Run(s: Store, ops: seq<Op>): Store
  {
    if |ops| == 0 then s else Apply(Run(s, ops[..|ops| - 1]), ops[|ops| - 1])
  }

  ghost predicate ParsersReadDigits(ops: seq<Op>)
  {
    forall i :: 0 <= i < |ops| && ops[i].Restart? ==> ReadsDigits(ops[i].parse)
  }

  /** Ids are distinct, and none is the id of a number still to come. */
  ghost predicate Sound(s: Store)
  {
    && Eta.DistinctIds(s.queue)
    && forall i, n: nat :: 0 <= i < |s.queue| && s.queue[i].id == Id(n) ==> n <= s.last
  }

  lemma {:induction false} LargestIdCovers(parse: IntParser, q: seq<Entry>, i: nat, n: nat)
    requires ReadsDigits(parse) && i < |q| && q[i].id == Id(n)
    ensures n <= LargestId(parse, q)
  {
    if i == 0 {
      var id := q[0].id;
      assert id[..2] == "q-" && id[2..] == Hex(n);
      HexRoundTrip(n);
    } else {
      LargestIdCovers(parse, q[1..], i - 1, n);
    }
  }

  /** Whatever was persisted, loading leaves distinct ids and a fresh next id. */
  lemma LoadHeals(parse: IntParser, s: Store)
    requires ReadsDigits(parse)
    ensures Sound(Load(parse, s))
    ensures |Load(parse, s).queue| == |s.queue|
    ensures Eta.DistinctIds(s.queue) ==> Load(parse, s).queue == s.queue
  {
    var t := Load(parse, s);
    var q := s.queue;
    if Eta.DistinctIds(q) {
      forall i, n: nat | 0 <= i < |q| && q[i].id == Id(n)
        ensures n <= t.last
      {
        LargestIdCovers(parse, q, i, n);
      }
    } else {
      forall i, j | 0 <= i < j < |q|
        ensures t.queue[i].id != t.queue[j].id
      {
        RenumberedDistinct(q, i, j);
      }
      forall i, n: nat | 0 <= i < |q| && t.queue[i].id == Id(n)
        ensures n <= t.last
      {
        RankBound(q, i);
        IdInjective(Rank(q, i) + 1, n);
      }
    }
  }

  lemma RenumberedDistinct(q: seq<Entry>, i: nat, j: nat)
    requires i < j < |q|
    ensures Id(Rank(q, i) + 1) != Id(Rank(q, j) + 1)
  {
    if Precedes(q, i, j) {
      RankOrders(q, i, j);
    } else {
      RankOrders(q, j, i);
    }
    if Id(Rank(q, i) + 1) == Id(Rank(q, j) + 1) {
      IdInjective(Rank(q, i) + 1, Rank(q, j) + 1);
    }
  }

  lemma ApplySound(s: Store, op: Op)
    requires Sound(s) && (op.Restart? ==> ReadsDigits(op.parse))
    ensures Sound(Apply(s, op))
  {
    match op
    case Enqueue(e) =>
      NextIdFresh(s);
      var t := Apply(s, op);
      forall i, n: nat | 0 <= i < |t.queue| && t.queue[i].id == Id(n)
        ensures n <= t.last
      {
        if i == |s.queue| {
          IdInjective(s.last + 1, n);
        }
      }
    case Update(i, e) =>
    case Remove(i) =>
    case Restart(parse) =>
      LoadHeals(parse, s);
  }

  /** The next id belongs to no entry of the queue. */
  lemma NextIdFresh(s: Store)
    requires Sound(s)
    ensures forall i :: 0 <= i < |s.queue| ==> s.queue[i].id != NextId(s)
  {
  }

  lemma {:induction false} RunSound(parse: IntParser, persisted: Store, ops: seq<Op>)
    requires ReadsDigits(parse) && ParsersReadDigits(ops)
    ensures Sound(Run(Load(parse, persisted), ops))
    decreases |ops|
  {
    if |ops| == 0 {
      LoadHeals(parse, persisted);
    } else {
      RunSound(parse, persisted, ops[..|ops| - 1]);
      ApplySound(Run(Load(parse, persisted), ops[..|ops| - 1]), ops[|ops| - 1]);
    }
  }

  /** From any persisted state, through any mix of enqueues, updates, removals and restarts, the
      n waiting and offered entries of a tier hold the positions 1 to n. */
  lemma PositionsAfterRuns(parse: IntParser, persisted: Store, ops: seq<Op>, tier: Tier)
    requires ReadsDigits(parse) && ParsersReadDigits(ops)
    ensures var q := Run(Load(parse, persisted), ops).queue;
            && (forall e :: e in q && Eta.InPlay(e, tier) <==> e in Eta.Order(q, tier))
            && InQueueOrder(Eta.Order(q, tier))
            && forall i :: 0 <= i < |Eta.Order(q, tier)| ==> Eta.Position(q, Eta.Order(q, tier)[i]) == Some(i + 1)
  {
    RunSound(parse, persisted, ops);
    Eta.PositionsAreRanks(Run(Load(parse, persisted), ops).queue, tier);
  }
}
