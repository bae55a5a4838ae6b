/** Every reply of the one-time-code exchange, said of the requests that came before it. */
module OtpAnswers {
  import opened Wrappers
  import opened Otp

  /** One to ten decimal digits. */
  predicate Digits(code: string)
  {
    1 <= |code| <= 10 && forall c :: c in code ==> c in "0123456789"
  }

  lemma DigitsExact(code: string)
    ensures ValidCode(code) <==> Digits(code)
  {
    forall c: char
      ensures c in "0123456789" <==> '0' <= c <= '9'
    {
      DigitExact(c);
    }
    if Digits(code) {
      assert forall i :: 0 <= i < |code| ==> code[i] in code;
    }
  }

  lemma DigitExact(c: char)
    ensures c in "0123456789" <==> '0' <= c <= '9'
  {
    var d := "0123456789";
    if '0' <= c <= '9' {
      assert d[c as int - '0' as int] == c;
    }
  }

  /** The challenge was armed, at most ttl ago, and nobody asked to cancel it since. */
  ghost predicate Pending(ttl: real, tr: seq<Timed>, rid: Rid, now: real)
  {
    exists a :: ArmedBy(tr, rid) == Some(a) && now - a.at <= ttl && !CancelAsked(tr, rid)
  }

  lemma PendingLive(ttl: real, tr: seq<Timed>, rid: Rid, now: real)
    requires Sane(tr) && (|tr| > 0 ==> Clock(tr) <= now)
    ensures Pending(ttl, tr, rid, now) <==> Live(Run(ttl, tr), rid, ttl, now)
  {
    RunAgrees(ttl, tr, rid);
    if ArmedBy(tr, rid).Some? {
      var a := ArmedBy(tr, rid).value;
      assert ArmedBy(tr, rid) == Some(a);
    }
  }

  /** A code for a named challenge: 400 when it is no code, 404 when the challenge is not pending,
      409 when a code was accepted for it before, and else it is accepted. The email plays no part. */
  lemma SubmitExact(ttl: real, tr: seq<Timed>, rid: Rid, code: string, email: Email, now: real)
    requires Sane(tr) && (|tr| > 0 ==> Clock(tr) <= now) && rid != ""
    ensures Step(Run(ttl, tr), ttl, Submit(rid, code, email), now).reply
         == if !Digits(code) then Refused(400)
            else if !Pending(ttl, tr, rid, now) then Refused(404)
            else if Codes(ttl, tr, rid) != [] then Refused(409)
            else Accepted(rid)
  {
    DigitsExact(code);
    PendingLive(ttl, tr, rid, now);
    RunAgrees(ttl, tr, rid);
  }

  /** A fetch: 400 without an id, 404 when the challenge is not pending, 403 for another slot or
      owner than the one that armed it; else the accepted code, unless it was handed out already. */
  lemma FetchAnswers(ttl: real, tr: seq<Timed>, rid: Rid, slot: int, owner: Email, now: real)
    requires Sane(tr) && (|tr| > 0 ==> Clock(tr) <= now)
    ensures Step(Run(ttl, tr), ttl, Fetch(rid, slot, owner), now).reply
         == if rid == "" then Refused(400)
            else if !Pending(ttl, tr, rid, now) then Refused(404)
            else if ArmedBy(tr, rid).value.slot != slot || ArmedBy(tr, rid).value.owner != owner then Refused(403)
            else if Codes(ttl, tr, rid) == [] || Reads(ttl, tr, rid) != [] then Fetched(None)
            else Fetched(Some(Codes(ttl, tr, rid)[0]))
  {
    PendingLive(ttl, tr, rid, now);
    RunAgrees(ttl, tr, rid);
  }

  /** A cancel of a pending challenge succeeds exactly for the slot and owner that armed it; nobody
      else's ever does, but the challenge is gone in any case. */
  lemma CancelAnswers(ttl: real, tr: seq<Timed>, rid: Rid, slot: int, owner: Email, now: real, later: real)
    requires Sane(tr) && (|tr| > 0 ==> Clock(tr) <= now) && now <= later
    ensures var more := tr + [Timed(Cancel(rid, slot, owner), now)];
            var mine := exists at :: ArmedBy(tr, rid) == Some(Arming(slot, owner, at));
            && (Answer(ttl, more) == Cancelled ==> mine)
            && (mine && Pending(ttl, tr, rid, now) ==> Answer(ttl, more) == Cancelled)
            && (Answer(ttl, more) != Cancelled ==> Answer(ttl, more) == Refused(404))
            && !Pending(ttl, more, rid, later)
  {
    var more := tr + [Timed(Cancel(rid, slot, owner), now)];
    assert Front(more) == tr && Last(more) == Timed(Cancel(rid, slot, owner), now);
    PendingLive(ttl, tr, rid, now);
    RunAgrees(ttl, tr, rid);
    if ArmedBy(tr, rid).Some? {
      var a := ArmedBy(tr, rid).value;
      assert ArmedBy(tr, rid) == Some(Arming(a.slot, a.owner, a.at));
    }
  }
}
