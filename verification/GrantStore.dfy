/** The encrypted grant store: for each user a record with wrapped payloads and, in a second file,
    the key that unwraps them. It behaves as a plain map from email to key and session. */
module GrantStore {
  import opened Wrappers
  import opened Bits
  import opened Gcm

  type Email = string

  /** base64 text of the nonce, the ciphertext and the tag. */
  datatype Payload = Payload(nonce: string, ct: string, tag: string)

  datatype Record = Record(user: Email, key: Payload, session: Option<Payload>, scope: string, revoked: bool)

  /** The two files of every grant folder, by folder name. */
  datatype Disk = Disk(records: map<Email, Record>, keys: map<Email, bytes>)

  datatype Fault =
    | NonCanonical | NoGrant | GrantRevoked | KeyMissing | BadKey | SessionMissing | UnwrapFailed
    | WrapFailed     // the handler reports every other exception of a wrap as this
    | Uncaught       // an exception that unwrap lets through

  /** The libraries the store stands on: the strict email grammar, base64, UTF-8 and the cipher. */
  datatype Env = Env(
    canon: Email -> Option<Email>,
    enc: bytes -> string,
    dec: string -> Option<bytes>,
    utf8: string -> bytes,
    text: bytes -> string,
    aes: Cipher)

  ghost predicate Sound(v: Env)
  {
    && (forall e :: v.canon(e).Some? ==> v.canon(v.canon(e).value) == v.canon(e))
    && (forall b: bytes :: v.dec(v.enc(b)) == Some(b))
    && (forall s: string :: v.text(v.utf8(s)) == s)
  }

  // ---- wrapping ------------------------------------------------------------

  function WrapBytes(v: Env, raw: bytes, kUser: bytes, iv: bytes): Result<Payload, Fault>
  {
    match Seal(v.aes, kUser, iv, raw, [])
    case Err(_) => Err(WrapFailed)
    case Ok(sealed) => Ok(Payload(v.enc(iv), v.enc(sealed.0), v.enc(sealed.1)))
  }

  function OpenPayload(v: Env, p: Payload, kUser: bytes): Result<bytes, Error>
  {
    var nonce, ct, tag := v.dec(p.nonce), v.dec(p.ct), v.dec(p.tag);
    if nonce.None? || ct.None? || tag.None? then Err(TagMismatch)
    else Open(v.aes, kUser, nonce.value, ct.value, tag.value, [])
  }

  lemma WrapRoundTrip(v: Env, raw: bytes, kUser: bytes, iv: bytes)
    requires Sound(v) && |kUser| == 32 && |iv| == 12 && |raw| < MAX_BYTES
    ensures WrapBytes(v, raw, kUser, iv).Ok?
    ensures OpenPayload(v, WrapBytes(v, raw, kUser, iv).value, kUser) == Ok(raw)
  {
    RoundTrip(v.aes, kUser, iv, raw, []);
  }

  // ---- reading -------------------------------------------------------------

  /** The record of an identity, or the error of a path that may not be formed. */
  function LoadGrant(v: Env, d: Disk, email: Email): Result<Option<Record>, Fault>
  {
    match v.canon(email)
    case None => Err(NonCanonical)
    case Some(c) => Ok(if c in d.records then Some(d.records[c]) else None)
  }

  datatype Status = Status(shared: bool, session: bool, usable: bool, revoked: bool)

  function StatusOf(v: Env, d: Disk, email: Email): Result<Status, Fault>
  {
    match LoadGrant(v, d, email)
    case Err(f) => Err(f)
    case Ok(None) => Ok(Status(false, false, false, false))
    case Ok(Some(g)) =>
      var shared := !g.revoked;
      var session := shared && g.session.Some?;
      Ok(Status(shared, session, shared && session, g.revoked))
  }

  function LoadKuser(v: Env, d: Disk, email: Email): Result<bytes, Fault>
  {
    match LoadGrant(v, d, email)
    case Err(f) => Err(f)
    case Ok(None) => Err(NoGrant)
    case Ok(Some(g)) =>
      if g.revoked then Err(GrantRevoked)
      else
        var c := v.canon(email).value;
        if c !in d.keys then Err(KeyMissing)
        else if |d.keys[c]| != 32 then Err(BadKey)
        else Ok(d.keys[c])
  }

  /** The record a loaded key belongs to. */
  function GrantOf(v: Env, d: Disk, email: Email): Record
    requires LoadKuser(v, d, email).Ok?
  {
    d.records[v.canon(email).value]
  }

  function Unwrap(v: Env, d: Disk, email: Email): Result<string, Fault>
  {
    match LoadKuser(v, d, email)
    case Err(f) => Err(f)
    case Ok(k) =>
      match OpenPayload(v, GrantOf(v, d, email).key, k)
      case Ok(raw) => Ok(v.enc(raw))
      case Err(TagMismatch) => Err(UnwrapFailed)
      case Err(_) => Err(Uncaught)
  }

  function UnwrapSession(v: Env, d: Disk, email: Email): Result<string, Fault>
  {
    match LoadKuser(v, d, email)
    case Err(f) => Err(f)
    case Ok(k) =>
      match GrantOf(v, d, email).session
      case None => Err(SessionMissing)
      case Some(p) =>
        match OpenPayload(v, p, k)
        case Ok(raw) => Ok(v.text(raw))
        case Err(OverflowError) => Err(Uncaught)
        case Err(_) => Err(UnwrapFailed)
  }

  // ---- writing -------------------------------------------------------------

  datatype Saved<T> = Saved(disk: Disk, result: Result<T, Fault>)

  function WriteRecord(d: Disk, c: Email, g: Record): Disk
  {
    d.(records := d.records[c := g])
  }

  function SaveGrant(v: Env, d: Disk, email: Email, wrapped: Payload, session: Option<Payload>, scope: string,
                     kUser: bytes): Saved<bool>
  {
    match v.canon(email)
    case None => Saved(d, Err(NonCanonical))
    case Some(c) =>
      var half := WriteRecord(d, c, Record(email, wrapped, session, scope, false));
      Saved(half.(keys := half.keys[c := kUser]), Ok(true))
  }

  function AddSession(v: Env, d: Disk, email: Email, session: Payload): Saved<bool>
  {
    match LoadGrant(v, d, email)
    case Err(f) => Saved(d, Err(f))
    case Ok(None) => Saved(d, Err(NoGrant))
    case Ok(Some(g)) =>
      if g.revoked then Saved(d, Err(GrantRevoked))
      else Saved(WriteRecord(d, v.canon(email).value, g.(session := Some(session))), Ok(true))
  }

  /** Ok(true) when there was a grant. */
  function Revoke(v: Env, d: Disk, email: Email): Saved<bool>
  {
    match LoadGrant(v, d, email)
    case Err(f) => Saved(d, Err(f))
    case Ok(None) => Saved(d, Ok(false))
    case Ok(Some(g)) =>
      var c := v.canon(email).value;
      var half := WriteRecord(d, c, g.(revoked := true));
      Saved(half.(keys := half.keys - {c}), Ok(true))
  }

  /** The kill switch over the sorted folder names; the first error ends it. */
  function RevokeAll(v: Env, d: Disk, names: seq<Email>): Saved<nat>
    decreases |names|
  {
    if |names| == 0 then Saved(d, Ok(0))
    else
      var one := Revoke(v, d, names[0]);
      match one.result
      case Err(f) => Saved(one.disk, Err(f))
      case Ok(existed) =>
        var rest := RevokeAll(v, one.disk, names[1..]);
        match rest.result
        case Err(f) => rest
        case Ok(n) => Saved(rest.disk, Ok(n + if existed then 1 else 0))
  }

  // ---- requests ------------------------------------------------------------

  /** What the broker and the admin ask for; random keys and nonces are inputs. */
  datatype Op =
    | OpGrant(email: Email, key: string, session: string, scope: string, kUser: bytes, iv: bytes, iv2: bytes)
    | OpUpgrade(email: Email, session: string, iv: bytes)
    | OpRevoke(email: Email)

  function GrantKey(v: Env, d: Disk, op: Op): Saved<bool>
    requires op.OpGrant?
  {
    match v.dec(op.key)
    case None => Saved(d, Err(WrapFailed))
    case Some(raw) =>
      match WrapBytes(v, raw, op.kUser, op.iv)
      case Err(f) => Saved(d, Err(f))
      case Ok(wrapped) =>
        if op.session == "" then SaveGrant(v, d, op.email, wrapped, None, op.scope, op.kUser)
        else
          match WrapBytes(v, v.utf8(op.session), op.kUser, op.iv2)
          case Err(f) => Saved(d, Err(f))
          case Ok(session) => SaveGrant(v, d, op.email, wrapped, Some(session), op.scope, op.kUser)
  }

  function UpgradeSession(v: Env, d: Disk, op: Op): Saved<bool>
    requires op.OpUpgrade?
  {
    match LoadKuser(v, d, op.email)
    case Err(f) => Saved(d, Err(f))
    case Ok(k) =>
      match WrapBytes(v, v.utf8(op.session), k, op.iv)
      case Err(f) => Saved(d, Err(f))
      case Ok(session) => AddSession(v, d, op.email, session)
  }

  function Step(v: Env, d: Disk, op: Op): Saved<bool>
  {
    match op
    case OpGrant(_, _, _, _, _, _, _) => GrantKey(v, d, op)
    case OpUpgrade(_, _, _) => UpgradeSession(v, d, op)
    case OpRevoke(email) => Revoke(v, d, email)
  }

  /** Random values have their lengths and payloads fit the cipher. */
  predicate Fits(v: Env, op: Op)
  {
    match op
    case OpGrant(_, key, session, _, kUser, iv, iv2) =>
      && |kUser| == 32 && |iv| == 12 && |iv2| == 12 && |v.utf8(session)| < MAX_BYTES
      && (v.dec(key).Some? ==> |v.dec(key).value| < MAX_BYTES)
    case OpUpgrade(_, session, iv) => |iv| == 12 && |v.utf8(session)| < MAX_BYTES
    case OpRevoke(_) => true
  }

  // ---- the plain map -------------------------------------------------------

  /** A grant without any cryptography. */
  datatype Plain = Plain(key: bytes, session: Option<string>, revoked: bool)

  type PlainMap = map<Email, Plain>

  function PlainStep(v: Env, m: PlainMap, op: Op): (PlainMap, bool)
  {
    match v.canon(op.email)
    case None => (m, false)
    case Some(c) =>
      match op
      case OpGrant(_, key, session, _, _, _, _) =>
        if v.dec(key).None? then (m, false)
        else (m[c := Plain(v.dec(key).value, if session == "" then None else Some(session), false)], true)
      case OpUpgrade(_, session, _) =>
        if c in m && !m[c].revoked then (m[c := m[c].(session := Some(session))], true) else (m, false)
      case OpRevoke(_) => if c in m then (m[c := m[c].(revoked := true)], true) else (m, true)
  }

  ghost predicate Holds(v: Env, d: Disk, c: Email, p: Plain)
  {
    && c in d.records && d.records[c].revoked == p.revoked
    && if p.revoked then c !in d.keys
       else
         && c in d.keys && |d.keys[c]| == 32
         && OpenPayload(v, d.records[c].key, d.keys[c]) == Ok(p.key)
         && (d.records[c].session.None? <==> p.session.None?)
         && (p.session.Some? ==> OpenPayload(v, d.records[c].session.value, d.keys[c]) == Ok(v.utf8(p.session.value)))
  }

  ghost predicate Refines(v: Env, d: Disk, m: PlainMap)
  {
    d.records.Keys == m.Keys && forall c :: c in m ==> Holds(v, d, c, m[c])
  }

  /** Only the folder of c changed, and now it holds p. */
  lemma ChangedOne(v: Env, d: Disk, e: Disk, m: PlainMap, c: Email, p: Plain)
    requires Refines(v, d, m) && Holds(v, e, c, p)
    requires e.records.Keys == d.records.Keys + {c}
    requires forall x :: x != c && x in d.records ==> e.records[x] == d.records[x]
    requires forall x :: x != c ==> ((x in e.keys <==> x in d.keys) && (x in d.keys ==> e.keys[x] == d.keys[x]))
    ensures Refines(v, e, m[c := p])
  {
    var n := m[c := p];
    forall x | x in n
      ensures Holds(v, e, x, n[x])
    {
      if x != c {
        assert Holds(v, d, x, m[x]);
      }
    }
  }

  lemma GrantRefines(v: Env, d: Disk, m: PlainMap, op: Op)
    requires Sound(v) && Refines(v, d, m) && Fits(v, op) && op.OpGrant?
    ensures Refines(v, GrantKey(v, d, op).disk, PlainStep(v, m, op).0)
    ensures GrantKey(v, d, op).result.Ok? <==> PlainStep(v, m, op).1
  {
    if v.dec(op.key).Some? {
      var wrapped := Wrapped(v, v.dec(op.key).value, op.kUser, op.iv);
      var leg := Wrapped(v, v.utf8(op.session), op.kUser, op.iv2);
      GrantSaves(v, d, op, wrapped, leg);
      SavedRefines(v, d, m, op, wrapped, leg);
    }
  }

  lemma SavedRefines(v: Env, d: Disk, m: PlainMap, op: Op, wrapped: Payload, leg: Payload)
    requires Refines(v, d, m) && op.OpGrant? && |op.kUser| == 32 && v.dec(op.key).Some?
    requires OpenPayload(v, wrapped, op.kUser) == Ok(v.dec(op.key).value)
    requires OpenPayload(v, leg, op.kUser) == Ok(v.utf8(op.session))
    ensures var session := if op.session == "" then None else Some(leg);
            var t := SaveGrant(v, d, op.email, wrapped, session, op.scope, op.kUser);
            Refines(v, t.disk, PlainStep(v, m, op).0) && (t.result.Ok? <==> PlainStep(v, m, op).1)
  {
    if v.canon(op.email).Some? {
      var session := if op.session == "" then None else Some(leg);
      var plain := if op.session == "" then None else Some(op.session);
      SaveHolds(v, d, m, op.email, wrapped, session, op.scope, op.kUser, Plain(v.dec(op.key).value, plain, false));
    }
  }

  lemma Wrapped(v: Env, raw: bytes, kUser: bytes, iv: bytes) returns (p: Payload)
    requires Sound(v) && |kUser| == 32 && |iv| == 12 && |raw| < MAX_BYTES
    ensures WrapBytes(v, raw, kUser, iv) == Ok(p) && OpenPayload(v, p, kUser) == Ok(raw)
  {
    WrapRoundTrip(v, raw, kUser, iv);
    p := WrapBytes(v, raw, kUser, iv).value;
  }

  /** When both payloads wrap the request saves them. */
  lemma GrantSaves(v: Env, d: Disk, op: Op, wrapped: Payload, leg: Payload)
    requires op.OpGrant? && v.dec(op.key).Some?
    requires WrapBytes(v, v.dec(op.key).value, op.kUser, op.iv) == Ok(wrapped)
    requires WrapBytes(v, v.utf8(op.session), op.kUser, op.iv2) == Ok(leg)
    ensures GrantKey(v, d, op)
         == SaveGrant(v, d, op.email, wrapped, if op.session == "" then None else Some(leg), op.scope, op.kUser)
  {
  }

  lemma SaveHolds(v: Env, d: Disk, m: PlainMap, email: Email, wrapped: Payload, session: Option<Payload>, scope: string,
                  kUser: bytes, p: Plain)
    requires Refines(v, d, m) && v.canon(email).Some? && |kUser| == 32 && !p.revoked
    requires OpenPayload(v, wrapped, kUser) == Ok(p.key) && (session.None? <==> p.session.None?)
    requires p.session.Some? ==> OpenPayload(v, session.value, kUser) == Ok(v.utf8(p.session.value))
    ensures Refines(v, SaveGrant(v, d, email, wrapped, session, scope, kUser).disk, m[v.canon(email).value := p])
  {
    ChangedOne(v, d, SaveGrant(v, d, email, wrapped, session, scope, kUser).disk, m, v.canon(email).value, p);
  }

  lemma UpgradeRefines(v: Env, d: Disk, m: PlainMap, op: Op)
    requires Sound(v) && Refines(v, d, m) && Fits(v, op) && op.OpUpgrade?
    ensures Refines(v, UpgradeSession(v, d, op).disk, PlainStep(v, m, op).0)
    ensures UpgradeSession(v, d, op).result.Ok? <==> PlainStep(v, m, op).1
  {
    if v.canon(op.email).Some? && v.canon(op.email).value in m {
      var c := v.canon(op.email).value;
      assert Holds(v, d, c, m[c]);
      if !m[c].revoked {
        var leg := Wrapped(v, v.utf8(op.session), d.keys[c], op.iv);
        UpgradeWrites(v, d, op, leg);
        SessionRefines(v, d, m, c, leg, op.session);
      }
    }
  }

  /** When there is a grant and the session wraps the request writes it beside the key. */
  lemma UpgradeWrites(v: Env, d: Disk, op: Op, leg: Payload)
    requires op.OpUpgrade? && LoadKuser(v, d, op.email).Ok?
    requires WrapBytes(v, v.utf8(op.session), LoadKuser(v, d, op.email).value, op.iv) == Ok(leg)
    ensures var c := v.canon(op.email).value;
            UpgradeSession(v, d, op) == Saved(WriteRecord(d, c, d.records[c].(session := Some(leg))), Ok(true))
  {
  }

  lemma SessionRefines(v: Env, d: Disk, m: PlainMap, c: Email, leg: Payload, session: string)
    requires Refines(v, d, m) && c in m && !m[c].revoked && c in d.keys
    requires OpenPayload(v, leg, d.keys[c]) == Ok(v.utf8(session))
    ensures Refines(v, WriteRecord(d, c, d.records[c].(session := Some(leg))), m[c := m[c].(session := Some(session))])
  {
    assert Holds(v, d, c, m[c]);
    var e, p := WriteRecord(d, c, d.records[c].(session := Some(leg))), m[c].(session := Some(session));
    assert Holds(v, e, c, p);
    ChangedOne(v, d, e, m, c, p);
  }

  lemma RevokeRefines(v: Env, d: Disk, m: PlainMap, email: Email)
    requires Refines(v, d, m)
    ensures Refines(v, Revoke(v, d, email).disk, PlainStep(v, m, OpRevoke(email)).0)
    ensures Revoke(v, d, email).result.Ok? <==> v.canon(email).Some?
    ensures Revoke(v, d, email).result.Ok? ==> Revoke(v, d, email).result.value == (v.canon(email).value in m)
  {
    if v.canon(email).Some? && v.canon(email).value in m {
      RevokedRefines(v, d, m, v.canon(email).value);
    }
  }

  lemma RevokedRefines(v: Env, d: Disk, m: PlainMap, c: Email)
    requires Refines(v, d, m) && c in m
    ensures Refines(v, Disk(d.records[c := d.records[c].(revoked := true)], d.keys - {c}),
                    m[c := m[c].(revoked := true)])
  {
    assert Holds(v, d, c, m[c]);
    var e, p := Disk(d.records[c := d.records[c].(revoked := true)], d.keys - {c}), m[c].(revoked := true);
    assert Holds(v, e, c, p);
    ChangedOne(v, d, e, m, c, p);
  }

  function Run(v: Env, ops: seq<Op>): Disk
  {
    if |ops| == 0 then Disk(map[], map[]) else Step(v, Run(v, ops[..|ops| - 1]), ops[|ops| - 1]).disk
  }

  function PlainRun(v: Env, ops: seq<Op>): PlainMap
  {
    if |ops| == 0 then map[] else PlainStep(v, PlainRun(v, ops[..|ops| - 1]), ops[|ops| - 1]).0
  }

  lemma {:induction false} RunRefines(v: Env, ops: seq<Op>)
    requires Sound(v) && forall i :: 0 <= i < |ops| ==> Fits(v, ops[i])
    ensures Refines(v, Run(v, ops), PlainRun(v, ops))
    decreases |ops|
  {
    if |ops| > 0 {
      var front, op := ops[..|ops| - 1], ops[|ops| - 1];
      RunRefines(v, front);
      match op
      case OpGrant(_, _, _, _, _, _, _) => GrantRefines(v, Run(v, front), PlainRun(v, front), op);
      case OpUpgrade(_, _, _) => UpgradeRefines(v, Run(v, front), PlainRun(v, front), op);
      case OpRevoke(email) => RevokeRefines(v, Run(v, front), PlainRun(v, front), email);
    }
  }

  // ---- what readers get ----------------------------------------------------

  /** After any completed operations: unwrap gives the last stored key exactly when there is an
      unrevoked grant, unwrap_session the last stored session exactly when it has one, and status
      reports just that. Everything else raises. */
  lemma ReadersSeePlain(v: Env, ops: seq<Op>, email: Email)
    requires Sound(v) && forall i :: 0 <= i < |ops| ==> Fits(v, ops[i])
    ensures var d, m, c := Run(v, ops), PlainRun(v, ops), v.canon(email);
            var shared := c.Some? && c.value in m && !m[c.value].revoked;
            && (Unwrap(v, d, email).Ok? <==> shared)
            && (shared ==> Unwrap(v, d, email).value == v.enc(m[c.value].key))
            && (UnwrapSession(v, d, email).Ok? <==> shared && m[c.value].session.Some?)
            && (UnwrapSession(v, d, email).Ok? ==> UnwrapSession(v, d, email).value == m[c.value].session.value)
            && (StatusOf(v, d, email).Ok? <==> c.Some?)
            && (c.Some? ==> StatusOf(v, d, email).value == Status(shared, UnwrapSession(v, d, email).Ok?,
                                                                  UnwrapSession(v, d, email).Ok?,
                                                                  c.value in m && m[c.value].revoked))
  {
    RunRefines(v, ops);
    var m := PlainRun(v, ops);
    if v.canon(email).Some? && v.canon(email).value in m {
      assert Holds(v, Run(v, ops), v.canon(email).value, m[v.canon(email).value]);
    }
  }

  /** The key that was granted comes back just when it was canonical base64. */
  lemma GrantedKeyReturns(v: Env, ops: seq<Op>, op: Op)
    requires Sound(v) && (forall i :: 0 <= i < |ops| ==> Fits(v, ops[i])) && Fits(v, op) && op.OpGrant?
    requires v.canon(op.email).Some? && v.dec(op.key).Some?
    ensures Unwrap(v, Step(v, Run(v, ops), op).disk, op.email) == Ok(op.key) <==> exists b :: op.key == v.enc(b)
  {
    var more := ops + [op];
    assert more[..|ops|] == ops && forall i :: 0 <= i < |more| ==> Fits(v, more[i]);
    ReadersSeePlain(v, more, op.email);
    if b :| op.key == v.enc(b) {
      assert v.dec(op.key) == Some(b);
    }
  }

  /** A grant of which only the record was written, by a process that stopped before the key, is
      reported as shared. When there was no key nothing is unwrapped. When there was an older one,
      a payload comes out as raw bytes exactly when the older key seals these bytes to the very same
      ciphertext and tag; so the new payloads are lost unless the keys collide. */
  lemma HalfGrant(v: Env, d: Disk, email: Email, g: Record)
    requires v.canon(email).Some? && !g.revoked
    ensures var half, c := WriteRecord(d, v.canon(email).value, g), v.canon(email).value;
            && StatusOf(v, half, email).Ok? && StatusOf(v, half, email).value.shared
            && (c !in d.keys ==> Unwrap(v, half, email) == UnwrapSession(v, half, email) == Err(KeyMissing))
            && (c in d.keys ==>
                  && (Unwrap(v, half, email).Ok? <==> Opens(v, g.key, d.keys[c]))
                  && (UnwrapSession(v, half, email).Ok? <==> g.session.Some? && Opens(v, g.session.value, d.keys[c])))
  {
    var c := v.canon(email).value;
    if c in d.keys && |d.keys[c]| == 32 {
      OpensExact(v, g.key, d.keys[c]);
      if g.session.Some? {
        OpensExact(v, g.session.value, d.keys[c]);
      }
    }
  }

  /** A key of the right length seals some bytes to exactly this payload. */
  ghost predicate Opens(v: Env, p: Payload, k: bytes)
  {
    && |k| == 32 && v.dec(p.nonce).Some? && v.dec(p.ct).Some? && v.dec(p.tag).Some?
    && exists raw :: Seals(v.aes, k, v.dec(p.nonce).value, raw, v.dec(p.ct).value, v.dec(p.tag).value)
  }

  ghost predicate Seals(aes: Cipher, k: bytes, nonce: bytes, raw: bytes, ct: bytes, tag: bytes)
  {
    Seal(aes, k, nonce, raw, []) == Ok((ct, tag))
  }

  lemma OpenSome(aes: Cipher, k: bytes, nonce: bytes, ct: bytes, tag: bytes)
    ensures Open(aes, k, nonce, ct, tag, []).Ok? <==> exists raw :: Seals(aes, k, nonce, raw, ct, tag)
  {
    var r := Open(aes, k, nonce, ct, tag, []);
    if r.Ok? {
      OpenInvertsSeal(aes, k, nonce, r.value, ct, tag, []);
      assert Seals(aes, k, nonce, r.value, ct, tag);
    } else if raw :| Seals(aes, k, nonce, raw, ct, tag) {
      OpenInvertsSeal(aes, k, nonce, raw, ct, tag, []);
    }
  }

  lemma OpensExact(v: Env, p: Payload, k: bytes)
    requires |k| == 32
    ensures OpenPayload(v, p, k).Ok? <==> Opens(v, p, k)
  {
    var nonce, ct, tag := v.dec(p.nonce), v.dec(p.ct), v.dec(p.tag);
    if nonce.Some? && ct.Some? && tag.Some? {
      OpenSome(v.aes, k, nonce.value, ct.value, tag.value);
    }
  }

  /** A revoke stopped between its two writes already closes the grant, and running it again
      finishes it. */
  lemma HalfRevoke(v: Env, d: Disk, email: Email)
    requires LoadGrant(v, d, email).Ok? && LoadGrant(v, d, email).value.Some?
    ensures var c := v.canon(email).value;
            var half := WriteRecord(d, c, d.records[c].(revoked := true));
            && Unwrap(v, half, email) == Err(GrantRevoked) && UnwrapSession(v, half, email) == Err(GrantRevoked)
            && StatusOf(v, half, email) == Ok(Status(false, false, false, true))
            && Revoke(v, half, email) == Revoke(v, d, email)
  {
    var c := v.canon(email).value;
    var g := d.records[c].(revoked := true);
    assert d.records[c := g][c := g.(revoked := true)] == d.records[c := g];
  }

  // ---- the kill switch -----------------------------------------------------

  /** The names before the first one that is no canonical identity. */
  function Reached(v: Env, names: seq<Email>): nat
    ensures Reached(v, names) <= |names|
  {
    if |names| == 0 || v.canon(names[0]).None? then 0 else 1 + Reached(v, names[1..])
  }

  ghost predicate Named(v: Env, names: seq<Email>, c: Email)
  {
    exists i :: 0 <= i < |names| && v.canon(names[i]) == Some(c)
  }

  function PlainRevokeAll(v: Env, m: PlainMap, names: seq<Email>): PlainMap
  {
    if |names| == 0 then m else PlainRevokeAll(v, PlainStep(v, m, OpRevoke(names[0])).0, names[1..])
  }

  lemma {:induction false} RevokeAllRefines(v: Env, d: Disk, m: PlainMap, names: seq<Email>)
    requires Refines(v, d, m)
    ensures Refines(v, RevokeAll(v, d, names).disk, PlainRevokeAll(v, m, names[..Reached(v, names)]))
    ensures RevokeAll(v, d, names).result.Ok? <==> Reached(v, names) == |names|
    decreases |names|
  {
    if |names| > 0 && v.canon(names[0]).Some? {
      RevokeRefines(v, d, m, names[0]);
      var reached := names[..Reached(v, names)];
      assert reached[0] == names[0] && reached[1..] == names[1..][..Reached(v, names[1..])];
      RevokeAllRefines(v, Revoke(v, d, names[0]).disk, PlainStep(v, m, OpRevoke(names[0])).0, names[1..]);
    } else {
      assert names[..Reached(v, names)] == [];
    }
  }

  lemma {:induction false} PlainRevokeAllIs(v: Env, m: PlainMap, names: seq<Email>, c: Email)
    requires c in m
    ensures c in PlainRevokeAll(v, m, names)
    ensures PlainRevokeAll(v, m, names)[c] == if Named(v, names, c) then m[c].(revoked := true) else m[c]
    decreases |names|
  {
    if |names| > 0 {
      PlainRevokeAllIs(v, PlainStep(v, m, OpRevoke(names[0])).0, names[1..], c);
      assert Named(v, names, c) <==> v.canon(names[0]) == Some(c) || Named(v, names[1..], c) by {
        if i :| 0 <= i < |names| && v.canon(names[i]) == Some(c) && i > 0 {
          assert names[1..][i - 1] == names[i];
        }
        if i :| 0 <= i < |names| - 1 && v.canon(names[1..][i]) == Some(c) {
          assert names[i + 1] == names[1..][i];
        }
      }
    }
  }

  lemma {:induction false} AllReached(v: Env, names: seq<Email>)
    ensures Reached(v, names) == |names| <==> forall i :: 0 <= i < |names| ==> v.canon(names[i]).Some?
  {
    if |names| > 0 {
      AllReached(v, names[1..]);
      assert forall i :: 0 < i < |names| ==> names[i] == names[1..][i - 1];
    }
  }

  /** The kill switch completes exactly when every folder name is a canonical identity. It revokes
      the grants of the names before the first other one and leaves the rest as they were. */
  lemma RevokeAllExact(v: Env, ops: seq<Op>, names: seq<Email>, c: Email)
    requires Sound(v) && forall i :: 0 <= i < |ops| ==> Fits(v, ops[i])
    requires v.canon(c) == Some(c) && Unwrap(v, Run(v, ops), c).Ok?
    ensures var d := RevokeAll(v, Run(v, ops), names);
            && (d.result.Ok? <==> forall i :: 0 <= i < |names| ==> v.canon(names[i]).Some?)
            && (Unwrap(v, d.disk, c).Err? <==> Named(v, names[..Reached(v, names)], c))
            && (Unwrap(v, d.disk, c).Ok? ==> Unwrap(v, d.disk, c) == Unwrap(v, Run(v, ops), c))
  {
    var m := PlainRun(v, ops);
    RunRefines(v, ops);
    ReadersSeePlain(v, ops, c);
    RevokeAllRefines(v, Run(v, ops), m, names);
    var d, n := RevokeAll(v, Run(v, ops), names).disk, PlainRevokeAll(v, m, names[..Reached(v, names)]);
    PlainRevokeAllIs(v, m, names[..Reached(v, names)], c);
    AllReached(v, names);
    assert Holds(v, d, c, n[c]);
  }

  /** One grant, and a folder whose name is no canonical identity listed before it: the kill switch
      stops there, and the grant can still be unwrapped. */
  lemma KillSwitchMisses(v: Env, op: Op, other: Email, c: Email)
    requires Sound(v) && Fits(v, op) && op.OpGrant? && v.canon(op.email) == Some(c) && v.dec(op.key).Some?
    requires v.canon(other).None?
    ensures var d := Run(v, [op]);
            && RevokeAll(v, d, [other, c]) == Saved(d, Err(NonCanonical))
            && Unwrap(v, RevokeAll(v, d, [other, c]).disk, c) == Ok(v.enc(v.dec(op.key).value))
  {
    assert [op][..0] == [] && PlainRun(v, []) == map[];
    ReadersSeePlain(v, [op], c);
    assert PlainRun(v, [op]) == PlainStep(v, map[], op).0;
  }

  // ---- the store in place --------------------------------------------------

  class Store {
    const v: Env
    var records: map<Email, Record>
    var keys: map<Email, bytes>

    function View(): Disk
      reads this
    {
      Disk(records, keys)
    }

    constructor (v: Env)
      ensures this.v == v && View() == Disk(map[], map[])
    {
      this.v, records, keys := v, map[], map[];
    }

    method Wrap(raw: bytes, kUser: bytes, iv: bytes) returns (r: Result<Payload, Fault>)
      ensures r == WrapBytes(v, raw, kUser, iv)
    {
      var sealed := GcmEncrypt(v.aes, kUser, iv, raw, []);
      if sealed.Err? {
        return Err(WrapFailed);
      }
      return Ok(Payload(v.enc(iv), v.enc(sealed.value.0), v.enc(sealed.value.1)));
    }

    method Save(email: Email, wrapped: Payload, session: Option<Payload>, scope: string, kUser: bytes)
      returns (r: Result<bool, Fault>)
      modifies this
      ensures Saved(View(), r) == SaveGrant(v, old(View()), email, wrapped, session, scope, kUser)
    {
      var c := v.canon(email);
      if c.None? {
        return Err(NonCanonical);
      }
      records := records[c.value := Record(email, wrapped, session, scope, false)];
      keys := keys[c.value := kUser];
      return Ok(true);
    }

    method Grant(op: Op) returns (r: Result<bool, Fault>)
      requires op.OpGrant?
      modifies this
      ensures Saved(View(), r) == GrantKey(v, old(View()), op)
    {
      var raw := v.dec(op.key);
      if raw.None? {
        return Err(WrapFailed);
      }
      var wrapped := Wrap(raw.value, op.kUser, op.iv);
      if wrapped.Err? {
        return Err(wrapped.error);
      }
      var session: Option<Payload> := None;
      if op.session != "" {
        var leg := Wrap(v.utf8(op.session), op.kUser, op.iv2);
        if leg.Err? {
          return Err(leg.error);
        }
        session := Some(leg.value);
      }
      r := Save(op.email, wrapped.value, session, op.scope, op.kUser);
    }

    method Upgrade(op: Op) returns (r: Result<bool, Fault>)
      requires op.OpUpgrade?
      modifies this
      ensures Saved(View(), r) == UpgradeSession(v, old(View()), op)
    {
      var k := LoadKuser(v, View(), op.email);
      if k.Err? {
        return Err(k.error);
      }
      var leg := Wrap(v.utf8(op.session), k.value, op.iv);
      if leg.Err? {
        return Err(leg.error);
      }
      var c := v.canon(op.email).value;
      records := records[c := records[c].(session := Some(leg.value))];
      return Ok(true);
    }

    method RevokeGrant(email: Email) returns (r: Result<bool, Fault>)
      modifies this
      ensures Saved(View(), r) == Revoke(v, old(View()), email)
    {
      var c := v.canon(email);
      if c.None? {
        return Err(NonCanonical);
      }
      if c.value !in records {
        return Ok(false);
      }
      records := records[c.value := records[c.value].(revoked := true)];
      keys := keys - {c.value};
      return Ok(true);
    }

    method RevokeEvery(names: seq<Email>) returns (r: Result<nat, Fault>)
      modifies this
      ensures Saved(View(), r) == RevokeAll(v, old(View()), names)
    {
      var n, i := 0, 0;
      while i < |names|
        invariant 0 <= i <= |names|
        invariant Continued(RevokeAll(v, View(), names[i..]), n) == RevokeAll(v, old(View()), names)
      {
        assert names[i..][0] == names[i] && names[i..][1..] == names[i + 1..];
        var one := RevokeGrant(names[i]);
        if one.Err? {
          return Err(one.error);
        }
        if one.value {
          n := n + 1;
        }
        i := i + 1;
      }
      return Ok(n);
    }

    method UnwrapKey(email: Email) returns (r: Result<string, Fault>)
      ensures r == Unwrap(v, View(), email)
    {
      var k := LoadKuser(v, View(), email);
      if k.Err? {
        return Err(k.error);
      }
      var p := GrantOf(v, View(), email).key;
      var nonce, ct, tag := v.dec(p.nonce), v.dec(p.ct), v.dec(p.tag);
      if nonce.None? || ct.None? || tag.None? {
        return Err(UnwrapFailed);
      }
      var raw := GcmDecrypt(v.aes, k.value, nonce.value, ct.value, tag.value, []);
      return
        match raw
        case Ok(b) => Ok(v.enc(b))
        case Err(e) => Err(if e == TagMismatch then UnwrapFailed else Uncaught);
    }
  }

  /** A count that goes on from n. */
  function Continued(s: Saved<nat>, n: nat): Saved<nat>
  {
    if s.result.Err? then s else Saved(s.disk, Ok(s.result.value + n))
  }
}
