/** The DER reader of the vault client and the RSA private-key extraction built on it. */
module Der {
  import opened Wrappers
  import opened Bits

  datatype DerError =
    | TruncatedTag | TruncatedLength | InvalidLength | TruncatedValue | ChildBoundary
    | EmptyInteger | NegativeInteger | NotASequence | UnsupportedPkcs8 | UnsupportedFormat

  const INTEGER: byte := 0x02
  const OCTETS: byte := 0x04
  const SEQUENCE: byte := 0x30

  /** One element read at an offset: its tag, its value, and the offset after it. */
  datatype Tlv = Tlv(tag: byte, value: bytes, next: nat)

  function ReadTlv(data: bytes, offset: nat): (r: Result<Tlv, DerError>)
    ensures r.Ok? ==> offset + 2 <= r.value.next <= |data| && |r.value.value| < |data|
  {
    if offset >= |data| then Err(TruncatedTag)
    else if offset + 1 >= |data| then Err(TruncatedLength)
    else
      var first := data[offset + 1];
      if first < 0x80 then TakeValue(data, data[offset], offset + 2, first)
      else
        var n := first - 0x80;
        if n == 0 || n > 4 || offset + 2 + n > |data| then Err(InvalidLength)
        else TakeValue(data, data[offset], offset + 2 + n, ToInt(data[offset + 2..offset + 2 + n]))
  }

  function TakeValue(data: bytes, tag: byte, start: nat, length: nat): Result<Tlv, DerError>
    requires start <= |data|
  {
    if start + length > |data| then Err(TruncatedValue)
    else Ok(Tlv(tag, data[start..start + length], start + length))
  }

  /** A child of a constructed value: its tag and its value. */
  datatype Child = Child(tag: byte, value: bytes)

  function Children(value: bytes, offset: nat): Result<seq<Child>, DerError>
    requires offset <= |value|
    decreases |value| - offset
  {
    if offset == |value| then Ok([])
    else
      match ReadTlv(value, offset)
      case Err(e) => Err(e)
      case Ok(t) =>
        match Children(value, t.next)
        case Err(e) => Err(e)
        case Ok(rest) => Ok([Child(t.tag, t.value)] + rest)
  }

  /** The loop always stops, and the boundary test after it never fails. */
  method ReadChildren(value: bytes) returns (r: Result<seq<Child>, DerError>)
    ensures r == Children(value, 0)
    ensures r != Err(ChildBoundary)
  {
    var children := [];
    var offset: nat := 0;
    NoBoundaryError(value, 0);
    PrependNone(Children(value, 0));
    while offset < |value|
      invariant offset <= |value|
      invariant Children(value, 0) == Prepend(children, Children(value, offset))
    {
      var t := ReadTlv(value, offset);
      if t.Err? {
        return Err(t.error);
      }
      PrependOne(children, Child(t.value.tag, t.value.value), Children(value, t.value.next));
      children := children + [Child(t.value.tag, t.value.value)];
      offset := t.value.next;
    }
    assert children + [] == children;
    r := if offset != |value| then Err(ChildBoundary) else Ok(children);
  }

  function Prepend(children: seq<Child>, r: Result<seq<Child>, DerError>): Result<seq<Child>, DerError>
  {
    match r
    case Err(e) => Err(e)
    case Ok(rest) => Ok(children + rest)
  }

  lemma PrependNone(r: Result<seq<Child>, DerError>)
    ensures Prepend([], r) == r
  {
    if r.Ok? {
      assert [] + r.value == r.value;
    }
  }

  lemma PrependOne(a: seq<Child>, c: Child, r: Result<seq<Child>, DerError>)
    ensures Prepend(a, Prepend([c], r)) == Prepend(a + [c], r)
  {
    if r.Ok? {
      assert a + ([c] + r.value) == a + [c] + r.value;
    }
  }

  lemma {:induction false} NoBoundaryError(value: bytes, offset: nat)
    requires offset <= |value|
    ensures Children(value, offset) != Err(ChildBoundary)
    decreases |value| - offset
  {
    var t := ReadTlv(value, offset);
    if t.Ok? {
      NoBoundaryError(value, t.value.next);
    }
  }

  function DerInteger(value: bytes): Result<nat, DerError>
  {
    if |value| == 0 then Err(EmptyInteger)
    else if value[0] >= 0x80 then Err(NegativeInteger)
    else Ok(ToInt(value))
  }

  /** Modulus and private exponent. */
  datatype RsaKey = RsaKey(n: nat, d: nat)

  /** The numbers of a PKCS#1 key, or of the key wrapped in a PKCS#8 octet string. */
  function RsaPrivateNumbers(der: bytes): Result<RsaKey, DerError>
    decreases |der|
  {
    match ReadTlv(der, 0)
    case Err(e) => Err(e)
    case Ok(t) =>
      if t.tag != SEQUENCE || t.next != |der| then Err(NotASequence)
      else
        match Children(t.value, 0)
        case Err(e) => Err(e)
        case Ok(fields) =>
          ChildrenAreSmaller(t.value, 0, fields);
          if |fields| >= 9 && fields[0].tag == INTEGER && fields[1].tag == INTEGER then
            KeyOf(fields[1].value, fields[3].value)
          else if |fields| >= 3 && fields[0].tag == INTEGER then
            if fields[1].tag != SEQUENCE || fields[2].tag != OCTETS then Err(UnsupportedPkcs8)
            else RsaPrivateNumbers(fields[2].value)
          else Err(UnsupportedFormat)
  }

  function KeyOf(modulus: bytes, exponent: bytes): Result<RsaKey, DerError>
  {
    match DerInteger(modulus)
    case Err(e) => Err(e)
    case Ok(n) =>
      match DerInteger(exponent)
      case Err(e) => Err(e)
      case Ok(d) => Ok(RsaKey(n, d))
  }

  lemma {:induction false} ChildrenAreSmaller(value: bytes, offset: nat, children: seq<Child>)
    requires offset <= |value| && Children(value, offset) == Ok(children)
    ensures forall i :: 0 <= i < |children| ==> |children[i].value| < |value|
    decreases |value| - offset
  {
    if offset < |value| {
      ChildrenAreSmaller(value, ReadTlv(value, offset).value.next, children[1..]);
    }
  }

  // ---- the reference encoder (X.690 section 8.1) ---------------------------

  /** form 0 is the short form; form n in 1..4 spells the length in n bytes. */
  ghost predicate FormFits(length: nat, form: nat)
  {
    if form == 0 then length < 0x80 else form <= 4 && length < Pow256(form)
  }

  ghost function EncodeLength(length: nat, form: nat): (b: bytes)
    requires FormFits(length, form)
  {
    if form == 0 then [length] else [0x80 + form] + FromInt(length, form)
  }

  ghost function EncodeTlv(tag: byte, value: bytes, form: nat): (b: bytes)
    requires FormFits(|value|, form)
    ensures |b| > |value|
  {
    [tag] + EncodeLength(|value|, form) + value
  }

  /** The bytes of data from an offset on start with enc. */
  ghost predicate StandsAt(data: bytes, offset: nat, enc: bytes)
  {
    offset + |enc| <= |data| && data[offset..offset + |enc|] == enc
  }

  lemma SubSlice(data: bytes, offset: nat, enc: bytes, i: nat, j: nat)
    requires StandsAt(data, offset, enc) && i <= j <= |enc|
    ensures data[offset + i..offset + j] == enc[i..j]
  {
    forall k | i <= k < j
      ensures data[offset + k] == enc[k]
    {
      assert data[offset..offset + |enc|][k] == data[offset + k];
    }
  }

  lemma EncodedParts(tag: byte, value: bytes, form: nat)
    requires FormFits(|value|, form)
    ensures var enc, len := EncodeTlv(tag, value, form), EncodeLength(|value|, form);
            && |enc| == 1 + |len| + |value| && |len| == 1 + form
            && enc[0..1] == [tag] && enc[1..2 + form] == len && enc[2 + form..] == value
  {
  }

  /** The parts of an element are in place at an offset. */
  ghost predicate PartsAt(data: bytes, offset: nat, tag: byte, value: bytes, form: nat)
  {
    && FormFits(|value|, form) && offset + 2 + form + |value| <= |data|
    && data[offset] == tag
    && data[offset + 1] == (if form == 0 then |value| else 0x80 + form)
    && (form > 0 ==> ToInt(data[offset + 2..offset + 2 + form]) == |value|)
    && data[offset + 2 + form..offset + 2 + form + |value|] == value
  }

  lemma PartsStand(data: bytes, offset: nat, enc: bytes, len: bytes, tag: byte, value: bytes, form: nat)
    requires FormFits(|value|, form) && StandsAt(data, offset, enc)
    requires |len| == 1 + form && |enc| == 2 + form + |value|
    requires enc[0..1] == [tag] && enc[1..2 + form] == len && enc[2 + form..] == value
    requires len[0] == if form == 0 then |value| else 0x80 + form
    requires form > 0 ==> ToInt(len[1..]) == |value|
    ensures PartsAt(data, offset, tag, value, form)
  {
    SubSlice(data, offset, enc, 0, 1);
    SubSlice(data, offset, enc, 1, 2 + form);
    SubSlice(data, offset, enc, 2 + form, |enc|);
    assert data[offset] == data[offset + 0..offset + 1][0];
    assert data[offset + 1] == data[offset + 1..offset + (2 + form)][0];
    assert data[offset + 2..offset + 2 + form] == data[offset + 1..offset + (2 + form)][1..];
  }

  lemma ReadParts(data: bytes, offset: nat, tag: byte, value: bytes, form: nat)
    requires PartsAt(data, offset, tag, value, form)
    ensures ReadTlv(data, offset) == Ok(Tlv(tag, value, offset + 2 + form + |value|))
  {
  }

  /** Reading gives back what was written, in every length form, wherever it stands. */
  lemma ReadInvertsEncode(data: bytes, offset: nat, tag: byte, value: bytes, form: nat)
    requires FormFits(|value|, form) && StandsAt(data, offset, EncodeTlv(tag, value, form))
    ensures ReadTlv(data, offset) == Ok(Tlv(tag, value, offset + |EncodeTlv(tag, value, form)|))
  {
    EncodedParts(tag, value, form);
    LengthParts(|value|, form);
    PartsStand(data, offset, EncodeTlv(tag, value, form), EncodeLength(|value|, form), tag, value, form);
    ReadParts(data, offset, tag, value, form);
  }

  lemma LengthParts(length: nat, form: nat)
    requires FormFits(length, form)
    ensures var len := EncodeLength(length, form);
            && |len| == 1 + form && len[0] == (if form == 0 then length else 0x80 + form)
            && (form > 0 ==> ToInt(len[1..]) == length)
  {
    if form > 0 {
      assert EncodeLength(length, form)[1..] == FromInt(length, form);
      ToIntOfFromInt(length, form);
    }
  }

  /** Whatever is read was written there in some length form. */
  lemma EncodeInvertsRead(data: bytes, offset: nat) returns (form: nat)
    requires ReadTlv(data, offset).Ok?
    ensures var t := ReadTlv(data, offset).value;
            FormFits(|t.value|, form) && data[offset..t.next] == EncodeTlv(t.tag, t.value, form)
  {
    var t := ReadTlv(data, offset).value;
    var first := data[offset + 1];
    if first < 0x80 {
      form := 0;
    } else {
      form := first - 0x80;
      FromIntOfToInt(data[offset + 2..offset + 2 + form]);
    }
    assert data[offset..t.next] == [data[offset]] + EncodeLength(|t.value|, form) + t.value;
  }

  /** A child to write, with the length form to write it in. */
  datatype Field = Field(tag: byte, value: bytes, form: nat)

  ghost predicate FieldsFit(fields: seq<Field>)
  {
    forall i :: 0 <= i < |fields| ==> FormFits(|fields[i].value|, fields[i].form)
  }

  ghost function EncodeAll(fields: seq<Field>): bytes
    requires FieldsFit(fields)
  {
    if |fields| == 0 then []
    else EncodeTlv(fields[0].tag, fields[0].value, fields[0].form) + EncodeAll(fields[1..])
  }

  ghost function Bare(fields: seq<Field>): (c: seq<Child>)
    ensures |c| == |fields|
  {
    seq(|fields|, i requires 0 <= i < |fields| => Child(fields[i].tag, fields[i].value))
  }

  lemma {:induction false} ChildrenAt(data: bytes, offset: nat, fields: seq<Field>)
    requires FieldsFit(fields) && offset <= |data| && data[offset..] == EncodeAll(fields)
    ensures Children(data, offset) == Ok(Bare(fields))
    decreases |fields|
  {
    if |fields| > 0 {
      var f, rest := fields[0], fields[1..];
      var next := FirstAt(data, offset, f, EncodeAll(rest));
      ChildrenAt(data, next, rest);
      ChildrenNext(data, offset, Tlv(f.tag, f.value, next), Bare(rest));
      BareFirst(fields);
    }
  }

  /** The first element of what stands at an offset. */
  lemma FirstAt(data: bytes, offset: nat, f: Field, tail: bytes) returns (next: nat)
    requires FormFits(|f.value|, f.form) && offset <= |data|
    requires data[offset..] == EncodeTlv(f.tag, f.value, f.form) + tail
    ensures offset < next <= |data| && data[next..] == tail && ReadTlv(data, offset) == Ok(Tlv(f.tag, f.value, next))
  {
    var enc := EncodeTlv(f.tag, f.value, f.form);
    SplitAt(data, offset, enc, tail);
    ReadInvertsEncode(data, offset, f.tag, f.value, f.form);
    next := offset + |enc|;
  }

  lemma ChildrenNext(data: bytes, offset: nat, t: Tlv, rest: seq<Child>)
    requires offset < |data| && ReadTlv(data, offset) == Ok(t) && Children(data, t.next) == Ok(rest)
    ensures Children(data, offset) == Ok([Child(t.tag, t.value)] + rest)
  {
  }

  lemma SplitAt(data: bytes, offset: nat, enc: bytes, tail: bytes)
    requires offset <= |data| && data[offset..] == enc + tail
    ensures StandsAt(data, offset, enc) && data[offset + |enc|..] == tail
  {
    assert data[offset..][..|enc|] == enc && data[offset..][|enc|..] == tail;
  }

  lemma BareFirst(fields: seq<Field>)
    requires |fields| > 0
    ensures Bare(fields) == [Child(fields[0].tag, fields[0].value)] + Bare(fields[1..])
  {
  }

  lemma FirstField(f: Field, rest: seq<Field>)
    requires FieldsFit(rest) && FormFits(|f.value|, f.form)
    ensures FieldsFit([f] + rest)
    ensures EncodeAll([f] + rest) == EncodeTlv(f.tag, f.value, f.form) + EncodeAll(rest)
    ensures Bare([f] + rest) == [Child(f.tag, f.value)] + Bare(rest)
  {
    assert ([f] + rest)[1..] == rest;
    BareFirst([f] + rest);
  }

  lemma {:induction false} ChildrenCover(value: bytes, offset: nat) returns (fields: seq<Field>)
    requires offset <= |value| && Children(value, offset).Ok?
    ensures FieldsFit(fields) && EncodeAll(fields) == value[offset..]
    ensures Bare(fields) == Children(value, offset).value
    decreases |value| - offset
  {
    if offset == |value| {
      fields := [];
    } else {
      var next := ReadTlv(value, offset).value.next;
      var f := FieldAt(value, offset);
      FirstChild(value, offset);
      var rest := ChildrenCover(value, next);
      FirstField(f, rest);
      fields := [f] + rest;
      Rejoin(value, offset, next);
    }
  }

  lemma FirstChild(value: bytes, offset: nat)
    requires offset < |value| && Children(value, offset).Ok?
    ensures ReadTlv(value, offset).Ok?
    ensures var t := ReadTlv(value, offset).value;
            && Children(value, t.next).Ok?
            && Children(value, offset).value == [Child(t.tag, t.value)] + Children(value, t.next).value
  {
  }

  lemma Rejoin(value: bytes, i: nat, j: nat)
    requires i <= j <= |value|
    ensures value[i..] == value[i..j] + value[j..]
  {
  }

  lemma FieldAt(value: bytes, offset: nat) returns (f: Field)
    requires ReadTlv(value, offset).Ok?
    ensures var t := ReadTlv(value, offset).value;
            && f.tag == t.tag && f.value == t.value && FormFits(|f.value|, f.form)
            && value[offset..t.next] == EncodeTlv(f.tag, f.value, f.form)
  {
    var t := ReadTlv(value, offset).value;
    var form := EncodeInvertsRead(value, offset);
    f := Field(t.tag, t.value, form);
  }

  /** The children read are exactly those of some encoding that makes up every byte. */
  lemma ChildrenExact(value: bytes, children: seq<Child>)
    ensures Children(value, 0) == Ok(children)
       <==> exists fields :: FieldsFit(fields) && EncodeAll(fields) == value && Bare(fields) == children
  {
    if Children(value, 0) == Ok(children) {
      var fields := ChildrenCover(value, 0);
      assert value[0..] == value;
    }
    if exists fields :: FieldsFit(fields) && EncodeAll(fields) == value && Bare(fields) == children {
      var fields :| FieldsFit(fields) && EncodeAll(fields) == value && Bare(fields) == children;
      ChildrenAt(value, 0, fields);
    }
  }

  /** Base-256 digits of a number without leading zeros; zero has none. */
  function MinBytes(x: nat): (b: bytes)
    ensures ToInt(b) == x
    ensures |b| > 0 ==> b[0] > 0
  {
    if x == 0 then []
    else
      var front := MinBytes(x / 256);
      assert (front + [x % 256])[..|front|] == front;
      front + [x % 256]
  }

  /** INTEGER contents of a natural number: a zero byte keeps the sign bit clear (section 8.3). */
  function EncodeNat(x: nat): bytes
  {
    var b := MinBytes(x);
    if |b| == 0 || b[0] >= 0x80 then [0] + b else b
  }

  lemma {:induction false} LeadingZero(b: bytes)
    ensures ToInt([0] + b) == ToInt(b)
  {
    ToIntConcat([0], b);
    assert ToInt([0]) == 0 by {
      assert [0][..0] == [];
    }
  }

  lemma IntegerRoundTrip(x: nat)
    ensures DerInteger(EncodeNat(x)) == Ok(x)
  {
    LeadingZero(MinBytes(x));
  }

  /** A sequence of fields, as a complete document. */
  ghost function Document(fields: seq<Field>, form: nat): bytes
    requires FieldsFit(fields) && FormFits(|EncodeAll(fields)|, form)
  {
    EncodeTlv(SEQUENCE, EncodeAll(fields), form)
  }

  lemma DocumentFields(fields: seq<Field>, form: nat)
    requires FieldsFit(fields) && FormFits(|EncodeAll(fields)|, form)
    ensures var doc := Document(fields, form);
            ReadTlv(doc, 0) == Ok(Tlv(SEQUENCE, EncodeAll(fields), |doc|))
    ensures Children(EncodeAll(fields), 0) == Ok(Bare(fields))
  {
    var body := EncodeAll(fields);
    assert body[0..] == body;
    ChildrenAt(body, 0, fields);
    WholeDocument(body, form);
  }

  lemma WholeDocument(body: bytes, form: nat)
    requires FormFits(|body|, form)
    ensures var doc := EncodeTlv(SEQUENCE, body, form);
            ReadTlv(doc, 0) == Ok(Tlv(SEQUENCE, body, |doc|))
  {
    var doc := EncodeTlv(SEQUENCE, body, form);
    assert doc[0..0 + |doc|] == doc;
    ReadInvertsEncode(doc, 0, SEQUENCE, body, form);
  }

  /** A PKCS#1 key: version, n, e, d and at least five more fields (RFC 8017 appendix A.1.2). */
  lemma Pkcs1RoundTrip(fields: seq<Field>, form: nat, n: nat, d: nat)
    requires FieldsFit(fields) && FormFits(|EncodeAll(fields)|, form)
    requires |fields| >= 9 && fields[0].tag == INTEGER && fields[1].tag == INTEGER
    requires fields[1].value == EncodeNat(n) && fields[3].value == EncodeNat(d)
    ensures RsaPrivateNumbers(Document(fields, form)) == Ok(RsaKey(n, d))
  {
    DocumentFields(fields, form);
    IntegerRoundTrip(n);
    IntegerRoundTrip(d);
  }

  /** A PKCS#8 wrapping, with any trailing fields, reads as what it wraps (RFC 5208 section 5). */
  lemma Pkcs8IsTransparent(inner: bytes, fields: seq<Field>, form: nat)
    requires FieldsFit(fields) && FormFits(|EncodeAll(fields)|, form)
    requires |fields| >= 3 && fields[0].tag == INTEGER && fields[1].tag == SEQUENCE
    requires fields[2].tag == OCTETS && fields[2].value == inner
    ensures RsaPrivateNumbers(Document(fields, form)) == RsaPrivateNumbers(inner)
  {
    DocumentFields(fields, form);
  }
}
