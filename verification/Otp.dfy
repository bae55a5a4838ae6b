/** The one-time-code exchange of the router: a broker arms a challenge for its slot, an agent
    submits a code for it, and the broker fetches that code once. */
module Otp {
  import opened Wrappers

  type Rid = string
  type Email = string

  datatype Challenge = Challenge(requestedAt: real, code: Option<string>, submittedAt: Option<real>, slot: int,
                                 owner: Email)

  /** The pending challenges and the order in which they were armed. */
  datatype Store = Store(order: seq<Rid>, table: map<Rid, Challenge>)

  /** Requests, after the caller's slot and its owner have been derived from its token. Random ids
      are inputs; an empty challenge asks for the oldest open one of the email. */
  datatype Event =
    | Arm(rid: Rid, slot: int, owner: Email)
    | Submit(challenge: string, code: string, email: Email)
    | Fetch(rid: Rid, slot: int, owner: Email)
    | Cancel(rid: Rid, slot: int, owner: Email)

  /** `Accepted` names the challenge that took the code, for the histories below. */
  datatype Reply =
    | Armed(rid: Rid) | Accepted(rid: Rid) | Fetched(code: Option<string>) | Cancelled | Refused(status: int)

  datatype Outcome = Outcome(store: Store, reply: Reply)

  // ---- the handlers --------------------------------------------------------

  predicate ValidCode(code: string)
  {
    0 < |code| <= 10 && forall i :: 0 <= i < |code| ==> '0' <= code[i] <= '9'
  }

  function Drop(s: Store, rid: Rid): Store
  {
    Store(Without(s.order, rid), s.table - {rid})
  }

  function Without(order: seq<Rid>, rid: Rid): seq<Rid>
  {
    if |order| == 0 then []
    else if order[0] == rid then Without(order[1..], rid)
    else [order[0]] + Without(order[1..], rid)
  }

  function DoArm(s: Store, rid: Rid, slot: int, owner: Email, now: real): Outcome
  {
    var order := if rid in s.table then s.order else s.order + [rid];
    Outcome(Store(order, s.table[rid := Challenge(now, None, None, slot, owner)]), Armed(rid))
  }

  predicate IsOpen(s: Store, rid: Rid, email: Email)
  {
    && rid in s.table && s.table[rid].owner == email
    && s.table[rid].code.None? && s.table[rid].submittedAt.None?
  }

  /** The first open challenge of an email from position i on. */
  function FirstOpen(s: Store, i: nat, email: Email): (r: Option<Rid>)
    requires i <= |s.order|
    ensures r.Some? ==> IsOpen(s, r.value, email)
    ensures r.None? ==> forall j :: i <= j < |s.order| ==> !IsOpen(s, s.order[j], email)
    decreases |s.order| - i
  {
    if i == |s.order| then None
    else if IsOpen(s, s.order[i], email) then Some(s.order[i])
    else FirstOpen(s, i + 1, email)
  }

  predicate Live(s: Store, rid: Rid, ttl: real, now: real)
  {
    rid in s.table && now - s.table[rid].requestedAt <= ttl
  }

  function SubmitTo(s: Store, ttl: real, rid: Rid, code: string, now: real): Outcome
  {
    if !Live(s, rid, ttl, now) then Outcome(Drop(s, rid), Refused(404))
    else if s.table[rid].submittedAt.Some? || s.table[rid].code.Some? then Outcome(s, Refused(409))
    else
      var p := s.table[rid].(code := Some(code), submittedAt := Some(now));
      Outcome(s.(table := s.table[rid := p]), Accepted(rid))
  }

  function DoSubmit(s: Store, ttl: real, challenge: string, code: string, email: Email, now: real): Outcome
  {
    if !ValidCode(code) then Outcome(s, Refused(400))
    else if challenge != "" then SubmitTo(s, ttl, challenge, code, now)
    else
      match FirstOpen(s, 0, email)
      case None => Outcome(s, Refused(404))
      case Some(rid) => SubmitTo(s, ttl, rid, code, now)
  }

  predicate Owns(s: Store, rid: Rid, slot: int, owner: Email)
  {
    rid in s.table && s.table[rid].slot == slot && s.table[rid].owner == owner
  }

  function DoFetch(s: Store, ttl: real, rid: Rid, slot: int, owner: Email, now: real): Outcome
  {
    if rid == "" then Outcome(s, Refused(400))
    else if !Live(s, rid, ttl, now) then Outcome(Drop(s, rid), Refused(404))
    else if !Owns(s, rid, slot, owner) then Outcome(s, Refused(403))
    else Outcome(s.(table := s.table[rid := s.table[rid].(code := None)]), Fetched(s.table[rid].code))
  }

  /** The challenge is gone even when it belongs to another slot. */
  function DoCancel(s: Store, rid: Rid, slot: int, owner: Email): Outcome
  {
    Outcome(Drop(s, rid), if Owns(s, rid, slot, owner) then Cancelled else Refused(404))
  }

  function Step(s: Store, ttl: real, e: Event, now: real): Outcome
  {
    match e
    case Arm(rid, slot, owner) => DoArm(s, rid, slot, owner, now)
    case Submit(challenge, code, email) => DoSubmit(s, ttl, challenge, code, email, now)
    case Fetch(rid, slot, owner) => DoFetch(s, ttl, rid, slot, owner, now)
    case Cancel(rid, slot, owner) => DoCancel(s, rid, slot, owner)
  }

  // ---- traces and what they tell about one challenge -----------------------

  datatype Timed = Timed(event: Event, now: real)

  function Front(tr: seq<Timed>): seq<Timed>
    requires |tr| > 0
  {
    tr[..|tr| - 1]
  }

  function Last(tr: seq<Timed>): Timed
    requires |tr| > 0
  {
    tr[|tr| - 1]
  }

  function Run(ttl: real, tr: seq<Timed>): Store
  {
    if |tr| == 0 then Store([], map[]) else Step(Run(ttl, Front(tr)), ttl, Last(tr).event, Last(tr).now).store
  }

  /** The reply to the last request. */
  function Answer(ttl: real, tr: seq<Timed>): Reply
    requires |tr| > 0
  {
    Step(Run(ttl, Front(tr)), ttl, Last(tr).event, Last(tr).now).reply
  }

  datatype Arming = Arming(slot: int, owner: Email, at: real)

  /** Who armed the challenge, and when. */
  function ArmedBy(tr: seq<Timed>, rid: Rid): Option<Arming>
  {
    if |tr| == 0 then None
    else if Last(tr).event.Arm? && Last(tr).event.rid == rid then
      Some(Arming(Last(tr).event.slot, Last(tr).event.owner, Last(tr).now))
    else ArmedBy(Front(tr), rid)
  }

  /** The codes accepted for the challenge. */
  function Codes(ttl: real, tr: seq<Timed>, rid: Rid): seq<string>
  {
    if |tr| == 0 then []
    else
      Codes(ttl, Front(tr), rid)
      + if Last(tr).event.Submit? && Answer(ttl, tr) == Accepted(rid) then [Last(tr).event.code] else []
  }

  /** The codes handed out for the challenge. */
  function Reads(ttl: real, tr: seq<Timed>, rid: Rid): seq<string>
  {
    if |tr| == 0 then []
    else
      var x := Answer(ttl, tr);
      Reads(ttl, Front(tr), rid)
      + if Last(tr).event.Fetch? && Last(tr).event.rid == rid && x.Fetched? && x.code.Some? then [x.code.value] else []
  }

  /** Somebody asked to cancel the challenge since it was armed. */
  predicate CancelAsked(tr: seq<Timed>, rid: Rid)
  {
    && |tr| > 0
    && !(Last(tr).event.Arm? && Last(tr).event.rid == rid)
    && ((Last(tr).event.Cancel? && Last(tr).event.rid == rid) || CancelAsked(Front(tr), rid))
  }

  function Clock(tr: seq<Timed>): real
  {
    if |tr| == 0 then 0.0 else Last(tr).now
  }

  /** Every id is armed once and is not empty; time does not go back. */
  ghost predicate Sane(tr: seq<Timed>)
  {
    |tr| > 0 ==>
      && Sane(Front(tr)) && (|tr| > 1 ==> Clock(Front(tr)) <= Last(tr).now)
      && (Last(tr).event.Arm? ==> Last(tr).event.rid != "" && ArmedBy(Front(tr), Last(tr).event.rid).None?)
  }

  // ---- the invariant -------------------------------------------------------

  ghost predicate Faithful(p: Challenge, a: Arming, codes: seq<string>, read: seq<string>)
  {
    && p.slot == a.slot && p.owner == a.owner && p.requestedAt == a.at
    && (p.submittedAt.None? <==> codes == [])
    && p.code == if |codes| == 1 && read == [] then Some(codes[0]) else None
  }

  /** What a trace says about a challenge and what the store holds agree. */
  ghost predicate Agrees(s: Store, ttl: real, rid: Rid, armed: Option<Arming>, codes: seq<string>, read: seq<string>,
                         cancelled: bool, clock: real)
  {
    match armed
    case None => rid !in s.table && codes == [] && read == []
    case Some(a) =>
      && |codes| <= 1 && (read == [] || read == codes)
      && (rid in s.table ==> Faithful(s.table[rid], a, codes, read))
      && (cancelled ==> rid !in s.table)
      && (!cancelled && clock - a.at <= ttl ==> rid in s.table)
  }

  ghost predicate AgreesOn(ttl: real, tr: seq<Timed>, rid: Rid)
  {
    Agrees(Run(ttl, tr), ttl, rid, ArmedBy(tr, rid), Codes(ttl, tr, rid), Reads(ttl, tr, rid), CancelAsked(tr, rid),
           Clock(tr))
  }

  /** Which challenge a submit aims at. */
  function Target(s: Store, challenge: string, email: Email): Option<Rid>
  {
    if challenge != "" then Some(challenge) else FirstOpen(s, 0, email)
  }

  lemma SubmitAgrees(s: Store, ttl: real, rid: Rid, armed: Option<Arming>, codes: seq<string>, read: seq<string>,
                     cancelled: bool, clock: real, e: Event, now: real)
    requires Agrees(s, ttl, rid, armed, codes, read, cancelled, clock) && clock <= now && e.Submit?
    ensures var o := Step(s, ttl, e, now);
            Agrees(o.store, ttl, rid, armed, if o.reply == Accepted(rid) then codes + [e.code] else codes, read,
                   cancelled, now)
  {
    var target := Target(s, e.challenge, e.email);
    if ValidCode(e.code) && target.Some? {
      assert Step(s, ttl, e, now) == SubmitTo(s, ttl, target.value, e.code, now);
    }
  }

  lemma FetchAgrees(s: Store, ttl: real, rid: Rid, armed: Option<Arming>, codes: seq<string>, read: seq<string>,
                    cancelled: bool, clock: real, e: Event, now: real)
    requires Agrees(s, ttl, rid, armed, codes, read, cancelled, clock) && clock <= now && e.Fetch?
    ensures var o := Step(s, ttl, e, now);
            var more := if e.rid == rid && o.reply.Fetched? && o.reply.code.Some? then [o.reply.code.value] else [];
            Agrees(o.store, ttl, rid, armed, codes, read + more, cancelled, now)
  {
    if e.rid == rid && rid in s.table {
      assert codes == [] || codes == [codes[0]];
    }
    assert read + [] == read;
  }

  lemma OtherAgrees(s: Store, ttl: real, rid: Rid, armed: Option<Arming>, codes: seq<string>, read: seq<string>,
                    cancelled: bool, clock: real, e: Event, now: real)
    requires Agrees(s, ttl, rid, armed, codes, read, cancelled, clock) && clock <= now
    requires e.Cancel? || (e.Arm? && (e.rid == rid ==> armed.None?))
    ensures Agrees(Step(s, ttl, e, now).store, ttl, rid,
                   if e.Arm? && e.rid == rid then Some(Arming(e.slot, e.owner, now)) else armed, codes, read,
                   if e.rid == rid then e.Cancel? else cancelled, now)
  {
  }

  lemma {:induction false} RunAgrees(ttl: real, tr: seq<Timed>, rid: Rid)
    requires Sane(tr)
    ensures AgreesOn(ttl, tr, rid)
    decreases |tr|
  {
    if |tr| > 0 {
      var front, e, now := Front(tr), Last(tr).event, Last(tr).now;
      var s := Run(ttl, front);
      RunAgrees(ttl, front, rid);
      var armed, codes, read := ArmedBy(front, rid), Codes(ttl, front, rid), Reads(ttl, front, rid);
      var clock := if |front| == 0 then now else Clock(front);
      var cancelled := CancelAsked(front, rid);
      assert Agrees(s, ttl, rid, armed, codes, read, cancelled, clock);
      assert codes + [] == codes && read + [] == read;
      if e.Submit? {
        SubmitAgrees(s, ttl, rid, armed, codes, read, cancelled, clock, e, now);
      } else if e.Fetch? {
        FetchAgrees(s, ttl, rid, armed, codes, read, cancelled, clock, e, now);
      } else {
        OtherAgrees(s, ttl, rid, armed, codes, read, cancelled, clock, e, now);
      }
    }
  }

  // ---- the exchange --------------------------------------------------------

  /** Over any trace with fresh ids and a monotone clock a challenge takes at most one code and
      hands out at most one, which is the one it took. */
  lemma OneCode(ttl: real, tr: seq<Timed>, rid: Rid)
    requires Sane(tr)
    ensures |Codes(ttl, tr, rid)| <= 1 && |Reads(ttl, tr, rid)| <= 1 && Reads(ttl, tr, rid) <= Codes(ttl, tr, rid)
  {
    RunAgrees(ttl, tr, rid);
  }

  /** A fetch returns a code exactly when its slot and owner armed the challenge at most TTL ago,
      this code was accepted for it, nobody fetched it before and nobody cancelled it. */
  lemma FetchExact(ttl: real, tr: seq<Timed>, rid: Rid, slot: int, owner: Email, now: real, code: string)
    requires Sane(tr) && (|tr| > 0 ==> Clock(tr) <= now)
    ensures Step(Run(ttl, tr), ttl, Fetch(rid, slot, owner), now).reply == Fetched(Some(code))
       <==> && (exists at :: ArmedBy(tr, rid) == Some(Arming(slot, owner, at)) && now - at <= ttl)
            && Codes(ttl, tr, rid) == [code] && Reads(ttl, tr, rid) == [] && !CancelAsked(tr, rid)
  {
    var s := Run(ttl, tr);
    RunAgrees(ttl, tr, rid);
    if ArmedBy(tr, rid).Some? {
      ArmedNotEmpty(tr, rid);
      var a := ArmedBy(tr, rid).value;
      assert ArmedBy(tr, rid) == Some(Arming(a.slot, a.owner, a.at));
    }
  }

  lemma {:induction false} ArmedNotEmpty(tr: seq<Timed>, rid: Rid)
    requires Sane(tr) && ArmedBy(tr, rid).Some?
    ensures rid != ""
    decreases |tr|
  {
    if !(Last(tr).event.Arm? && Last(tr).event.rid == rid) {
      ArmedNotEmpty(Front(tr), rid);
    }
  }

  // ---- the oldest challenge ------------------------------------------------

  ghost predicate Ordered(order: seq<Rid>, table: map<Rid, Challenge>)
  {
    && (forall i :: 0 <= i < |order| ==> order[i] in table)
    && (forall i, j :: 0 <= i < j < |order| ==> table[order[i]].requestedAt <= table[order[j]].requestedAt)
  }

  /** The order lists every pending challenge, earlier armed ones first. */
  ghost predicate InOrder(s: Store, clock: real)
  {
    && (forall rid :: rid in s.table ==> rid in s.order && s.table[rid].requestedAt <= clock)
    && Ordered(s.order, s.table)
  }

  lemma {:induction false} WithoutMember(order: seq<Rid>, rid: Rid, x: Rid)
    ensures x in Without(order, rid) <==> x in order && x != rid
  {
    if |order| > 0 {
      WithoutMember(order[1..], rid, x);
      assert x in order <==> x == order[0] || x in order[1..];
    }
  }

  lemma {:induction false} WithoutOrdered(order: seq<Rid>, table: map<Rid, Challenge>, rid: Rid)
    requires Ordered(order, table)
    ensures Ordered(Without(order, rid), table)
  {
    if |order| > 0 {
      var rest := Without(order[1..], rid);
      WithoutOrdered(order[1..], table, rid);
      forall j | 0 <= j < |rest|
        ensures table[order[0]].requestedAt <= table[rest[j]].requestedAt
      {
        WithoutMember(order[1..], rid, rest[j]);
      }
    }
  }

  lemma DropInOrder(s: Store, rid: Rid, clock: real)
    requires InOrder(s, clock)
    ensures InOrder(Drop(s, rid), clock)
  {
    var t := Drop(s, rid);
    WithoutOrdered(s.order, s.table, rid);
    forall x | x in s.order
      ensures x in t.order <==> x != rid
    {
      WithoutMember(s.order, rid, x);
    }
    forall i | 0 <= i < |t.order|
      ensures t.order[i] in t.table
    {
      WithoutMember(s.order, rid, t.order[i]);
    }
  }

  lemma ArmInOrder(s: Store, rid: Rid, p: Challenge, clock: real)
    requires InOrder(s, clock) && rid !in s.table && clock <= p.requestedAt
    ensures InOrder(Store(s.order + [rid], s.table[rid := p]), p.requestedAt)
  {
    var order, table := s.order + [rid], s.table[rid := p];
    assert forall i :: 0 <= i < |s.order| ==> order[i] == s.order[i] && order[i] != rid;
  }

  lemma ChangeInOrder(s: Store, rid: Rid, p: Challenge, clock: real)
    requires InOrder(s, clock) && rid in s.table && p.requestedAt == s.table[rid].requestedAt
    ensures InOrder(s.(table := s.table[rid := p]), clock)
  {
    var table := s.table[rid := p];
    assert forall x :: x in s.table ==> x in table && table[x].requestedAt == s.table[x].requestedAt;
  }

  /** What a submit, a fetch or a cancel can do to the store. */
  lemma StepShape(s: Store, ttl: real, e: Event, now: real)
    requires !e.Arm?
    ensures var t := Step(s, ttl, e, now).store;
            || t == s
            || (exists rid :: t == Drop(s, rid))
            || (exists rid, p: Challenge | rid in s.table && p.requestedAt == s.table[rid].requestedAt ::
                  t == s.(table := s.table[rid := p]))
  {
  }

  lemma StepInOrder(s: Store, ttl: real, e: Event, clock: real, now: real)
    requires InOrder(s, clock) && clock <= now && (e.Arm? ==> e.rid !in s.table)
    ensures InOrder(Step(s, ttl, e, now).store, now)
  {
    if e.Arm? {
      ArmInOrder(s, e.rid, Challenge(now, None, None, e.slot, e.owner), clock);
    } else {
      StepShape(s, ttl, e, now);
      var t := Step(s, ttl, e, now).store;
      if rid :| t == Drop(s, rid) {
        DropInOrder(s, rid, clock);
      } else if rid, p: Challenge :| rid in s.table && p.requestedAt == s.table[rid].requestedAt
                                     && t == s.(table := s.table[rid := p]) {
        ChangeInOrder(s, rid, p, clock);
      }
    }
  }

  lemma {:induction false} RunInOrder(ttl: real, tr: seq<Timed>)
    requires Sane(tr) && |tr| > 0
    ensures InOrder(Run(ttl, tr), Clock(tr))
    decreases |tr|
  {
    var front, e := Front(tr), Last(tr).event;
    if e.Arm? {
      RunAgrees(ttl, front, e.rid);
    }
    if |front| > 0 {
      RunInOrder(ttl, front);
      StepInOrder(Run(ttl, front), ttl, e, Clock(front), Last(tr).now);
    } else {
      StepInOrder(Run(ttl, front), ttl, e, Last(tr).now, Last(tr).now);
    }
  }

  lemma {:induction false} FirstOpenIsFirst(s: Store, i: nat, email: Email)
    requires i <= |s.order| && FirstOpen(s, i, email).Some?
    ensures exists j :: i <= j < |s.order| && s.order[j] == FirstOpen(s, i, email).value
                        && forall k :: i <= k < j ==> !IsOpen(s, s.order[k], email)
    decreases |s.order| - i
  {
    if IsOpen(s, s.order[i], email) {
      assert s.order[i] == FirstOpen(s, i, email).value;
    } else {
      FirstOpenIsFirst(s, i + 1, email);
    }
  }

  lemma OldestReply(s: Store, ttl: real, code: string, email: Email, now: real)
    requires Target(s, "", email).Some? && IsOpen(s, Target(s, "", email).value, email)
    ensures var target, reply := Target(s, "", email).value, Step(s, ttl, Submit("", code, email), now).reply;
            && (reply.Accepted? <==> ValidCode(code) && Live(s, target, ttl, now))
            && (reply.Accepted? ==> reply.rid == target)
  {
  }

  /** A code submitted without a challenge goes to the oldest open one of its email, and is accepted
      exactly when it is a code and that challenge is still live: the search does not look at the
      age. */
  lemma OldestFirst(ttl: real, tr: seq<Timed>, code: string, email: Email, now: real, other: Rid)
    requires Sane(tr) && |tr| > 0
    requires IsOpen(Run(ttl, tr), other, email)
    ensures var s := Run(ttl, tr);
            var target := Target(s, "", email);
            && target.Some? && IsOpen(s, target.value, email)
            && s.table[target.value].requestedAt <= s.table[other].requestedAt
            && var reply := Step(s, ttl, Submit("", code, email), now).reply;
            && (reply.Accepted? <==> ValidCode(code) && Live(s, target.value, ttl, now))
            && (reply.Accepted? ==> reply.rid == target.value)
  {
    var s := Run(ttl, tr);
    RunInOrder(ttl, tr);
    var j :| 0 <= j < |s.order| && s.order[j] == other;
    FirstOpenIsFirst(s, 0, email);
    OldestReply(s, ttl, code, email, now);
  }

  /** Two challenges of one email, the older one past its time: a code without an id is refused
      although the younger one is open and live. */
  lemma StaleHidesLive(a: Rid, b: Rid, slot: int, email: Email, code: string)
    requires a != "" && b != "" && a != b && ValidCode(code)
    ensures var tr := [Timed(Arm(a, slot, email), 0.0), Timed(Arm(b, slot, email), 100.0)];
            var s := Run(120.0, tr);
            && Sane(tr) && IsOpen(s, b, email) && Live(s, b, 120.0, 130.0)
            && Step(s, 120.0, Submit("", code, email), 130.0).reply == Refused(404)
            && Step(s, 120.0, Submit(b, code, email), 130.0).reply == Accepted(b)
  {
    var first := [Timed(Arm(a, slot, email), 0.0)];
    var tr := first + [Timed(Arm(b, slot, email), 100.0)];
    assert Front(first) == [] && Front(tr) == first;
    assert Run(120.0, []) == Store([], map[]);
    assert Run(120.0, first) == Store([a], map[a := Challenge(0.0, None, None, slot, email)]);
    assert Run(120.0, tr).order == [a, b];
    assert Sane([]) && ArmedBy([], a).None? && ArmedBy(first, b).None?;
  }

  // ---- the handlers on the table in place ----------------------------------

  /** No challenge took a second code or handed one out twice. */
  ghost predicate OnceOnly(ttl: real, tr: seq<Timed>)
  {
    forall rid ::
      |Codes(ttl, tr, rid)| <= 1 && |Reads(ttl, tr, rid)| <= 1 && Reads(ttl, tr, rid) <= Codes(ttl, tr, rid)
  }

  /** One more request, and what it keeps. */
  lemma Recorded(ttl: real, tr: seq<Timed>, e: Event, now: real)
    ensures Run(ttl, tr + [Timed(e, now)]) == Step(Run(ttl, tr), ttl, e, now).store
    ensures Sane(tr + [Timed(e, now)]) ==> OnceOnly(ttl, tr + [Timed(e, now)])
  {
    var more := tr + [Timed(e, now)];
    assert Front(more) == tr;
    if Sane(more) {
      forall rid
        ensures |Codes(ttl, more, rid)| <= 1 && |Reads(ttl, more, rid)| <= 1
                && Reads(ttl, more, rid) <= Codes(ttl, more, rid)
      {
        OneCode(ttl, more, rid);
      }
    }
  }

  class Desk {
    const ttl: real
    var order: seq<Rid>
    var table: map<Rid, Challenge>
    ghost var trace: seq<Timed>         // the requests so far

    function View(): Store
      reads this
    {
      Store(order, table)
    }

    /** The table is that of the requests so far, so whatever is proved of traces holds of this
        object. */
    ghost predicate Valid()
      reads this
    {
      View() == Run(ttl, trace)
    }

    constructor (ttl: real)
      ensures this.ttl == ttl && View() == Store([], map[]) && Valid() && trace == []
    {
      this.ttl, order, table, trace := ttl, [], map[], [];
    }

    method Pop(rid: Rid)
      modifies this`order, this`table
      ensures View() == Drop(old(View()), rid)
    {
      var kept, i := [], |order|;
      while i > 0
        invariant 0 <= i <= |order| && View() == old(View())
        invariant kept == Without(order[i..], rid)
      {
        i := i - 1;
        assert order[i..][0] == order[i] && order[i..][1..] == order[i + 1..];
        if order[i] != rid {
          kept := [order[i]] + kept;
        }
      }
      order, table := kept, table - {rid};
    }

    method ArmChallenge(rid: Rid, slot: int, owner: Email, now: real) returns (reply: Reply)
      requires Valid()
      modifies this
      ensures Outcome(View(), reply) == DoArm(old(View()), rid, slot, owner, now)
      ensures Valid() && trace == old(trace) + [Timed(Arm(rid, slot, owner), now)]
      ensures Sane(trace) ==> OnceOnly(ttl, trace)
    {
      Recorded(ttl, trace, Arm(rid, slot, owner), now);
      trace := trace + [Timed(Arm(rid, slot, owner), now)];
      if rid !in table {
        order := order + [rid];
      }
      table := table[rid := Challenge(now, None, None, slot, owner)];
      return Armed(rid);
    }

    method Find(email: Email) returns (found: Option<Rid>)
      ensures found == FirstOpen(View(), 0, email)
    {
      var i := 0;
      while i < |order|
        invariant 0 <= i <= |order|
        invariant FirstOpen(View(), i, email) == FirstOpen(View(), 0, email)
      {
        var rid := order[i];
        if rid in table && table[rid].owner == email && table[rid].code.None? && table[rid].submittedAt.None? {
          return Some(rid);
        }
        i := i + 1;
      }
      return None;
    }

    method SubmitCode(challenge: string, code: string, email: Email, now: real) returns (reply: Reply)
      requires Valid()
      modifies this
      ensures Outcome(View(), reply) == DoSubmit(old(View()), ttl, challenge, code, email, now)
      ensures Valid() && trace == old(trace) + [Timed(Submit(challenge, code, email), now)]
      ensures Sane(trace) ==> OnceOnly(ttl, trace)
    {
      Recorded(ttl, trace, Submit(challenge, code, email), now);
      trace := trace + [Timed(Submit(challenge, code, email), now)];
      if !ValidCode(code) {
        return Refused(400);
      }
      var target := Some(challenge);
      if challenge == "" {
        target := Find(email);
      }
      if target.None? {
        return Refused(404);
      }
      var rid := target.value;
      if !(rid in table && now - table[rid].requestedAt <= ttl) {
        Pop(rid);
        return Refused(404);
      }
      if table[rid].submittedAt.Some? || table[rid].code.Some? {
        return Refused(409);
      }
      table := table[rid := table[rid].(code := Some(code), submittedAt := Some(now))];
      return Accepted(rid);
    }

    method FetchCode(rid: Rid, slot: int, owner: Email, now: real) returns (reply: Reply)
      requires Valid()
      modifies this
      ensures Outcome(View(), reply) == DoFetch(old(View()), ttl, rid, slot, owner, now)
      ensures Valid() && trace == old(trace) + [Timed(Fetch(rid, slot, owner), now)]
      ensures Sane(trace) ==> OnceOnly(ttl, trace)
    {
      Recorded(ttl, trace, Fetch(rid, slot, owner), now);
      trace := trace + [Timed(Fetch(rid, slot, owner), now)];
      if rid == "" {
        return Refused(400);
      }
      if !(rid in table && now - table[rid].requestedAt <= ttl) {
        Pop(rid);
        return Refused(404);
      }
      if table[rid].slot != slot || table[rid].owner != owner {
        return Refused(403);
      }
      var code := table[rid].code;
      table := table[rid := table[rid].(code := None)];
      return Fetched(code);
    }

    method CancelChallenge(rid: Rid, slot: int, owner: Email, ghost now: real) returns (reply: Reply)
      requires Valid()
      modifies this
      ensures Outcome(View(), reply) == DoCancel(old(View()), rid, slot, owner)
      ensures Valid() && trace == old(trace) + [Timed(Cancel(rid, slot, owner), now)]
      ensures Sane(trace) ==> OnceOnly(ttl, trace)
    {
      Recorded(ttl, trace, Cancel(rid, slot, owner), now);
      trace := trace + [Timed(Cancel(rid, slot, owner), now)];
      var mine := rid in table && table[rid].slot == slot && table[rid].owner == owner;
      Pop(rid);
      return if mine then Cancelled else Refused(404);
    }
  }
}
