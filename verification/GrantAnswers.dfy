/** Why a request to the grant store is refused, and what a granted one leaves, after any requests
    before it. */
module GrantAnswers {
  import opened Wrappers
  import opened Bits
  import opened GrantStore

  /** What the requests so far make of an identity. */
  datatype Standing = Unnamed | Unknown | Withdrawn | Shared(grant: Plain)

  function Of(v: Env, ops: seq<Op>, email: Email): Standing
  {
    var c, m := v.canon(email), PlainRun(v, ops);
    if c.None? then Unnamed
    else if c.value !in m then Unknown
    else if m[c.value].revoked then Withdrawn
    else Shared(m[c.value])
  }

  function Refusal(s: Standing): Fault
    requires !s.Shared?
  {
    match s
    case Unnamed => NonCanonical
    case Unknown => NoGrant
    case Withdrawn => GrantRevoked
  }

  ghost predicate AllFit(v: Env, ops: seq<Op>)
  {
    forall i :: 0 <= i < |ops| ==> Fits(v, ops[i])
  }

  lemma LoadAnswers(v: Env, ops: seq<Op>, email: Email)
    requires Sound(v) && AllFit(v, ops)
    ensures var s, r := Of(v, ops, email), LoadKuser(v, Run(v, ops), email);
            if s.Shared? then r.Ok? && |r.value| == 32 else r == Err(Refusal(s))
  {
    RunRefines(v, ops);
    var m := PlainRun(v, ops);
    if v.canon(email).Some? && v.canon(email).value in m {
      assert Holds(v, Run(v, ops), v.canon(email).value, m[v.canon(email).value]);
    }
  }

  /** Reading the key and the session: the granted ones, or the reason why not. */
  lemma ReadAnswers(v: Env, ops: seq<Op>, email: Email)
    requires Sound(v) && AllFit(v, ops)
    ensures var s, d := Of(v, ops, email), Run(v, ops);
            && Unwrap(v, d, email) == (if s.Shared? then Ok(v.enc(s.grant.key)) else Err(Refusal(s)))
            && UnwrapSession(v, d, email)
               == (if !s.Shared? then Err(Refusal(s))
                   else if s.grant.session.None? then Err(SessionMissing)
                   else Ok(s.grant.session.value))
  {
    LoadAnswers(v, ops, email);
    ReadersSeePlain(v, ops, email);
    var s, d := Of(v, ops, email), Run(v, ops);
    if !s.Shared? {
      RefusedReads(v, d, email, Refusal(s));
    } else if s.grant.session.None? {
      RunRefines(v, ops);
      var c := v.canon(email).value;
      assert Holds(v, d, c, PlainRun(v, ops)[c]);
      SessionlessRead(v, d, email);
    }
  }

  lemma RefusedReads(v: Env, d: Disk, email: Email, f: Fault)
    requires LoadKuser(v, d, email) == Err(f)
    ensures Unwrap(v, d, email) == Err(f) && UnwrapSession(v, d, email) == Err(f)
  {
  }

  lemma SessionlessRead(v: Env, d: Disk, email: Email)
    requires LoadKuser(v, d, email).Ok? && GrantOf(v, d, email).session.None?
    ensures UnwrapSession(v, d, email) == Err(SessionMissing)
  {
  }

  lemma GrantAnswers(v: Env, d: Disk, op: Op)
    requires Sound(v) && Fits(v, op) && op.OpGrant?
    ensures GrantKey(v, d, op).result
         == if v.dec(op.key).None? then Err(WrapFailed)
            else if v.canon(op.email).None? then Err(NonCanonical)
            else Ok(true)
  {
    if v.dec(op.key).Some? {
      var wrapped := Wrapped(v, v.dec(op.key).value, op.kUser, op.iv);
      var leg := Wrapped(v, v.utf8(op.session), op.kUser, op.iv2);
      GrantSaves(v, d, op, wrapped, leg);
    }
  }

  lemma UpgradeAnswers(v: Env, d: Disk, op: Op)
    requires Sound(v) && Fits(v, op) && op.OpUpgrade?
    requires LoadKuser(v, d, op.email).Ok? ==> |LoadKuser(v, d, op.email).value| == 32
    ensures var k, r := LoadKuser(v, d, op.email), UpgradeSession(v, d, op).result;
            r == if k.Ok? then Ok(true) else Err(k.error)
  {
    if LoadKuser(v, d, op.email).Ok? {
      var leg := Wrapped(v, v.utf8(op.session), LoadKuser(v, d, op.email).value, op.iv);
      UpgradeWrites(v, d, op, leg);
    }
  }

  /** Writing: a grant needs base64 and a name, a session an existing grant, a revoke a name only. */
  lemma WriteAnswers(v: Env, ops: seq<Op>, op: Op)
    requires Sound(v) && AllFit(v, ops) && Fits(v, op)
    ensures var s, r := Of(v, ops, op.email), Step(v, Run(v, ops), op).result;
            match op
            case OpGrant(_, key, _, _, _, _, _) =>
              r == if v.dec(key).None? then Err(WrapFailed) else if s.Unnamed? then Err(NonCanonical) else Ok(true)
            case OpUpgrade(_, _, _) => r == if s.Shared? then Ok(true) else Err(Refusal(s))
            case OpRevoke(_) => r == if s.Unnamed? then Err(NonCanonical) else Ok(!s.Unknown?)
  {
    var d := Run(v, ops);
    match op
    case OpGrant(_, _, _, _, _, _, _) => GrantAnswers(v, d, op);
    case OpUpgrade(_, _, _) =>
      LoadAnswers(v, ops, op.email);
      UpgradeAnswers(v, d, op);
    case OpRevoke(email) =>
      RunRefines(v, ops);
      RevokeAnswers(v, d, PlainRun(v, ops), email);
  }

  lemma RevokeAnswers(v: Env, d: Disk, m: PlainMap, email: Email)
    requires Refines(v, d, m)
    ensures var c := v.canon(email);
            Revoke(v, d, email).result == if c.None? then Err(NonCanonical) else Ok(c.value in m)
  {
  }

  /** A record carries the name and the scope it was granted under; its key file the fresh key. */
  lemma GrantWritten(v: Env, d: Disk, op: Op)
    requires Sound(v) && Fits(v, op) && op.OpGrant? && v.canon(op.email).Some? && v.dec(op.key).Some?
    ensures var t, c := Step(v, d, op).disk, v.canon(op.email).value;
            && c in t.records && t.records[c].user == op.email && t.records[c].scope == op.scope
            && !t.records[c].revoked && (t.records[c].session.Some? <==> op.session != "")
            && t.keys == d.keys[c := op.kUser]
            && OpenPayload(v, t.records[c].key, op.kUser) == Ok(v.dec(op.key).value)
  {
    var wrapped := Wrapped(v, v.dec(op.key).value, op.kUser, op.iv);
    var leg := Wrapped(v, v.utf8(op.session), op.kUser, op.iv2);
    GrantSaves(v, d, op, wrapped, leg);
  }

  /** The record keeps the name, the scope and the wrapped key, and a revoked one stays revoked. */
  ghost predicate Kept(a: map<Email, Record>, b: map<Email, Record>, c: Email)
  {
    && c in a && c in b && b[c].user == a[c].user && b[c].scope == a[c].scope && b[c].key == a[c].key
    && (a[c].revoked ==> b[c].revoked)
  }

  /** No other request takes that away. */
  lemma OthersKeep(v: Env, d: Disk, op: Op, c: Email)
    requires c in d.records && (op.OpGrant? ==> v.canon(op.email) != Some(c))
    ensures Kept(d.records, Step(v, d, op).disk.records, c)
  {
    match op
    case OpGrant(_, _, _, _, _, _, _) => GrantKeeps(v, d, op, c);
    case OpUpgrade(_, _, _) => UpgradeKeeps(v, d, op, c);
    case OpRevoke(email) => RevokeKeeps(v, d, email, c);
  }

  lemma GrantKeeps(v: Env, d: Disk, op: Op, c: Email)
    requires op.OpGrant? && c in d.records && v.canon(op.email) != Some(c)
    ensures Kept(d.records, GrantKey(v, d, op).disk.records, c)
  {
    GrantChanges(v, d, op);
    SaveKeeps(v, d, op, c);
  }

  lemma GrantChanges(v: Env, d: Disk, op: Op)
    requires op.OpGrant?
    ensures var t := GrantKey(v, d, op).disk;
            t == d || exists p, session :: t == SaveGrant(v, d, op.email, p, session, op.scope, op.kUser).disk
  {
  }

  lemma SaveKeeps(v: Env, d: Disk, op: Op, c: Email)
    requires op.OpGrant? && c in d.records && v.canon(op.email) != Some(c)
    ensures forall p, session ::
              Kept(d.records, SaveGrant(v, d, op.email, p, session, op.scope, op.kUser).disk.records, c)
  {
  }

  lemma UpgradeKeeps(v: Env, d: Disk, op: Op, c: Email)
    requires op.OpUpgrade? && c in d.records
    ensures Kept(d.records, UpgradeSession(v, d, op).disk.records, c)
  {
    UpgradeSaves(v, d, op);
    AddSessionKeeps(v, d, op.email, c);
  }

  lemma UpgradeSaves(v: Env, d: Disk, op: Op)
    requires op.OpUpgrade?
    ensures var t := UpgradeSession(v, d, op).disk;
            t == d || exists p :: t == AddSession(v, d, op.email, p).disk
  {
  }

  lemma AddSessionKeeps(v: Env, d: Disk, email: Email, c: Email)
    requires c in d.records
    ensures forall p :: Kept(d.records, AddSession(v, d, email, p).disk.records, c)
  {
  }

  lemma RevokeKeeps(v: Env, d: Disk, email: Email, c: Email)
    requires c in d.records
    ensures Kept(d.records, Revoke(v, d, email).disk.records, c)
  {
  }
}
