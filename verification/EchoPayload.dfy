/** The padded echo request of peermtu.go and the request id read back by udpecho.go. */
module EchoPayload {
  import opened Wrappers
  import opened Json
  import opened PathMTU
  import TunnelMTU
  import Pinger

  datatype Request = Request(hash: string, id: string, timeout: nat, pad: string)

  const HASH_FIELD := "session_secret_hash"
  const ID_FIELD := "req_id"
  const TIMEOUT_FIELD := "timeout"
  const PAD_FIELD := "pad"

  function Required(r: Request): Fields {
    [(HASH_FIELD, Text(r.hash)), (ID_FIELD, Text(r.id)), (TIMEOUT_FIELD, Number(Decimal(r.timeout)))]
  }

  /** The members of a request. An empty padding is left out altogether. */
  function Members(r: Request): Fields {
    if r.pad == "" then Required(r) else Required(r) + [(PAD_FIELD, Text(r.pad))]
  }

  function Encode(r: Request): string { WriteObject(Members(r)) }

  function As(n: nat): string { seq(n, _ => 'A') }

  function PayloadSize(targetPacketSize: int, ipHeaderLen: int): nat {
    var n := targetPacketSize - ipHeaderLen - 8;
    if n < 64 then 64 else n
  }

  function Unpadded(hash: string, id: string, timeout: nat): string {
    Encode(Request(hash, id, timeout, ""))
  }

  /** The size asked for is met exactly when at least one character of padding, and the ten that
      introduce it, fit; otherwise the request goes out as it is. */
  ghost predicate Sized(payload: string, hash: string, id: string, timeout: nat, size: nat) {
    var base := Unpadded(hash, id, timeout);
    if |base| + 10 <= size
    then |payload| == size && payload == Encode(Request(hash, id, timeout, As(size - |base| - 9)))
    else payload == base
  }

  /** Characters the encoder writes as they are. */
  predicate IsPlain(c: char) {
    'a' <= c <= 'z' || 'A' <= c <= 'Z' || '/' <= c <= '9' || c == '+' || c == '=' || c == '_'
  }

  predicate Plain(s: string) {
    forall i | 0 <= i < |s| :: IsPlain(s[i])
  }

  lemma {:induction false} PlainText(s: string)
    requires Plain(s)
    ensures EscapeAll(s) == s && Bytes(s) && |Quote(s)| == |s| + 2
  {
    if s != "" {
      PlainText(s[1..]);
      PlainChar(s[0]);
      assert [s[0]] + s[1..] == s;
    }
  }

  lemma PlainChar(c: char)
    requires IsPlain(c)
    ensures Escape(c) == [c] && c as int < 256
  {
  }

  /** A member name that is written as it is. */
  ghost predicate NameOf(name: string, n: nat) {
    Bytes(name) && |name| == n && |Quote(name)| == n + 2
  }

  lemma PlainName(name: string, n: nat)
    requires Plain(name) && |name| == n
    ensures NameOf(name, n)
  {
    PlainText(name);
  }

  lemma HashName() ensures NameOf(HASH_FIELD, 19) { PlainName(HASH_FIELD, 19); }

  lemma IdName() ensures NameOf(ID_FIELD, 6) { PlainName(ID_FIELD, 6); }

  lemma TimeoutName() ensures NameOf(TIMEOUT_FIELD, 7) { PlainName(TIMEOUT_FIELD, 7); }

  lemma PadName() ensures NameOf(PAD_FIELD, 3) { PlainName(PAD_FIELD, 3); }

  /** Padding of any length but zero costs nine characters besides its own. */
  lemma PaddedLength(hash: string, id: string, timeout: nat, n: nat)
    ensures |Encode(Request(hash, id, timeout, As(n)))|
         == |Unpadded(hash, id, timeout)| + if n == 0 then 0 else n + 9
  {
    if n > 0 {
      PadName();
      PlainText(As(n));
      AppendedLength(Required(Request(hash, id, timeout, As(n))), (PAD_FIELD, Text(As(n))));
      assert |Member((PAD_FIELD, Text(As(n))))| == n + 8;
      assert Required(Request(hash, id, timeout, As(n))) == Required(Request(hash, id, timeout, ""));
    } else {
      assert As(0) == "";
    }
  }

  method BuildPaddedEchoPayload(hash: string, id: string, timeout: nat, targetPacketSize: int, ipHeaderLen: int)
    returns (payload: string)
    ensures Sized(payload, hash, id, timeout, PayloadSize(targetPacketSize, ipHeaderLen))
  {
    var size := targetPacketSize - ipHeaderLen - 8;
    if size < 64 {
      size := 64;
    }
    var base := Marshal(Request(hash, id, timeout, As(0)), hash, id, timeout, 0);
    IsUnpadded(base, hash, id, timeout, size);
    if |base| >= size {
      return base;
    }
    var needed := size - |base| - 9;
    if needed < 0 {
      return base;
    }
    payload := FillPacket(hash, id, timeout, |base|, needed);
  }

  lemma IsUnpadded(payload: string, hash: string, id: string, timeout: nat, size: nat)
    requires WithPadding(payload, Request(hash, id, timeout, As(0)), hash, id, timeout, 0)
    ensures |payload| == |Unpadded(hash, id, timeout)|
    ensures |payload| + 10 > size ==> Sized(payload, hash, id, timeout, size)
  {
    assert As(0) == "";
  }

  /** Pads with `needed` characters, then grows or trims the padding until the size is met. */
  method FillPacket(hash: string, id: string, timeout: nat, baseLength: nat, needed: nat) returns (payload: string)
    requires baseLength == |Unpadded(hash, id, timeout)|
    ensures Sized(payload, hash, id, timeout, baseLength + 9 + needed)
  {
    var size := baseLength + 9 + needed;
    var req := Request(hash, id, timeout, As(needed));
    payload := Marshal(req, hash, id, timeout, needed);
    ghost var n: nat := needed;
    while |payload| < size
      invariant WithPadding(payload, req, hash, id, timeout, n)
      invariant |req.pad| == n && |payload| == baseLength + Cost(n)
      invariant n == needed || (needed == 0 && n == 1)
      decreases size - |payload|
    {
      MorePadding(n);
      req := req.(pad := req.pad + ['A']);
      n := n + 1;
      payload := Marshal(req, hash, id, timeout, n);
    }
    while |payload| > size && |req.pad| > 0
      invariant WithPadding(payload, req, hash, id, timeout, n)
      invariant |req.pad| == n && |payload| == baseLength + Cost(n)
      invariant n == needed || (needed == 0 && n == 1)
      invariant n == needed == 0 || |payload| >= size
      decreases n
    {
      MorePadding(n - 1);
      req := req.(pad := req.pad[..|req.pad| - 1]);
      n := n - 1;
      payload := Marshal(req, hash, id, timeout, n);
    }
    IsSized(payload, req, hash, id, timeout, n, needed);
  }

  method Marshal(req: Request, ghost hash: string, ghost id: string, ghost timeout: nat, ghost n: nat) returns (payload: string)
    requires req == Request(hash, id, timeout, As(n))
    ensures WithPadding(payload, req, hash, id, timeout, n)
    ensures |req.pad| == n && |payload| == |Unpadded(hash, id, timeout)| + Cost(n)
  {
    PaddedLength(hash, id, timeout, n);
    payload := Encode(req);
  }

  /** What `n` characters of padding add to the length. */
  function Cost(n: nat): nat { if n == 0 then 0 else n + 9 }

  lemma IsSized(payload: string, req: Request, hash: string, id: string, timeout: nat, n: nat, needed: nat)
    requires WithPadding(payload, req, hash, id, timeout, n)
    requires |payload| == |Unpadded(hash, id, timeout)| + Cost(n)
    requires n == needed
    ensures Sized(payload, hash, id, timeout, |Unpadded(hash, id, timeout)| + 9 + needed)
  {
    assert n == 0 ==> As(n) == "";
  }

  ghost predicate WithPadding(payload: string, req: Request, hash: string, id: string, timeout: nat, n: nat) {
    req == Request(hash, id, timeout, As(n)) && payload == Encode(req)
  }

  lemma MorePadding(n: nat)
    ensures As(n) + ['A'] == As(n + 1) && As(n + 1)[..n] == As(n) && As(0) == ""
  {
  }

  // ---------------------------------------------------------------- every probe fills its packet

  /** A SHA-256 digest in base64: 44 characters, none of which is escaped. */
  predicate IsDigest(hash: string) {
    |hash| == 44 && Plain(hash)
  }

  function Pow10(k: nat): nat { if k == 0 then 1 else 10 * Pow10(k - 1) }

  lemma {:induction false} DecimalWidth(n: nat, k: nat)
    requires n < Pow10(k) && k > 0
    ensures |Decimal(n)| <= k
  {
    if n >= 10 {
      DecimalWidth(n / 10, k - 1);
    }
  }

  lemma ThreeMembersLength(a: (string, Value), b: (string, Value), c: (string, Value))
    ensures |WriteObject([a, b, c])| == |Member(a)| + |Member(b)| + |Member(c)| + 4
  {
    assert [a, b, c] == [a] + [b] + [c];
    AppendedLength([a], b);
    AppendedLength([a] + [b], c);
  }

  lemma MemberLengths(hash: string, n: nat, timeout: nat)
    requires IsDigest(hash) && n < 0x8000_0000_0000_0000 && timeout < 10_000
    ensures |Member((HASH_FIELD, Text(hash)))| == 68
    ensures |Member((ID_FIELD, Text(Decimal(n))))| <= 30
    ensures |Member((TIMEOUT_FIELD, Number(Decimal(timeout))))| <= 14
  {
    HashName();
    IdName();
    TimeoutName();
    PlainText(hash);
    DecimalDigits(n);
    PlainText(Decimal(n));
    CounterWidth(n, timeout);
  }

  lemma UnpaddedIsShort(hash: string, n: nat, timeout: nat)
    requires IsDigest(hash) && n < 0x8000_0000_0000_0000 && timeout < 10_000
    ensures |Unpadded(hash, Decimal(n), timeout)| <= 116
  {
    MemberLengths(hash, n, timeout);
    ThreeMembersLength((HASH_FIELD, Text(hash)), (ID_FIELD, Text(Decimal(n))), (TIMEOUT_FIELD, Number(Decimal(timeout))));
  }

  lemma CounterWidth(n: nat, timeout: nat)
    requires n < 0x8000_0000_0000_0000 && timeout < 10_000
    ensures |Decimal(n)| <= 19 && |Decimal(timeout)| <= 4
  {
    assert Pow10(4) == 10_000;
    DecimalWidth(timeout, 4);
    assert Pow10(19) == 10_000_000_000_000_000_000 by {
      assert Pow10(8) == 100_000_000;
      assert Pow10(12) == 1_000_000_000_000;
      assert Pow10(16) == 10_000_000_000_000_000;
    }
    DecimalWidth(n, 19);
  }

  /** Every request padded to a tunnel MTU makes an IP packet of exactly that size, for both IP
      versions and every request id a 64-bit counter reaches. */
  lemma ProbeFillsPacket(payload: string, hash: string, n: nat, timeout: nat, target: int, ipHeaderLen: int)
    requires IsDigest(hash) && n < 0x8000_0000_0000_0000 && timeout < 10_000
    requires target >= BASE_MTU && (ipHeaderLen == 20 || ipHeaderLen == 40)
    requires Sized(payload, hash, Decimal(n), timeout, PayloadSize(target, ipHeaderLen))
    ensures |payload| + ipHeaderLen + 8 == target
  {
    UnpaddedIsShort(hash, n, timeout);
    SizedLength(payload, hash, Decimal(n), timeout, PayloadSize(target, ipHeaderLen));
  }

  /** And every probe the pinger hands out, in any run, is for such an MTU: built with whatever request
      id, it fills its target packet. */
  lemma EveryProbeFillsItsPacket(manualMTU: nat, d: TunnelMTU.Discovery, outer: TunnelMTU.Outer, os: seq<Pinger.Outcomes>,
                                 p: Pinger.Probe, payload: string, hash: string, n: nat, ipHeaderLen: int)
    requires p in Pinger.AfterRounds(Pinger.Start(manualMTU, d, outer), os).probes
    requires IsDigest(hash) && n < 0x8000_0000_0000_0000 && (ipHeaderLen == 20 || ipHeaderLen == 40)
    requires Sized(payload, hash, Decimal(n), 3000, PayloadSize(p.target, ipHeaderLen))
    ensures |payload| + ipHeaderLen + 8 == p.target
  {
    ProbeTargets(manualMTU, d, outer, os, p);
    ProbeFillsPacket(payload, hash, n, 3000, p.target, ipHeaderLen);
  }

  lemma ProbeTargets(manualMTU: nat, d: TunnelMTU.Discovery, outer: TunnelMTU.Outer, os: seq<Pinger.Outcomes>, p: Pinger.Probe)
    requires p in Pinger.AfterRounds(Pinger.Start(manualMTU, d, outer), os).probes
    ensures p.target >= BASE_MTU
  {
    var s0 := Pinger.Start(manualMTU, d, outer);
    Pinger.StartInv(manualMTU, d, outer);
    Pinger.RoundsKeepInv(s0, os);
    var s := Pinger.AfterRounds(s0, os);
    assert p.target in s.prober.milestones;
    var i :| 0 <= i < |s.prober.milestones| && s.prober.milestones[i] == p.target;
    assert s.prober.milestones[i] == DEFAULT_MILESTONES[i];
    Rising(i);
  }

  lemma SizedLength(payload: string, hash: string, id: string, timeout: nat, size: nat)
    requires Sized(payload, hash, id, timeout, size)
    ensures |Unpadded(hash, id, timeout)| + 10 <= size ==> |payload| == size
  {
  }

  // ---------------------------------------------------------------- the id comes back

  /** The request id a response names, as a string or as a number. */
  function ParseEchoResponse(data: string): Option<string> {
    match ReadObject(data)
    case None => None
    case Some(fields) =>
      match Field(fields, ID_FIELD)
      case Some(Text(text)) => Some(text)
      case Some(Number(digits)) => Some(digits)
      case _ => None
  }

  /** An echo of the request, a reply naming the id as a string and a reply naming it as a number
      all give back the id that was sent. */
  lemma RequestIdRoundTrip(r: Request, n: nat)
    requires Bytes(r.hash) && Bytes(r.id) && Bytes(r.pad)
    ensures ParseEchoResponse(Encode(r)) == Some(r.id)
    ensures ParseEchoResponse(WriteObject([(ID_FIELD, Text(r.id))])) == Some(r.id)
    ensures ParseEchoResponse(WriteObject([(ID_FIELD, Number(Decimal(n)))])) == Some(Decimal(n))
  {
    DecimalDigits(n);
    EncodedIdRoundTrip(r);
    SingleIdRoundTrip(Text(r.id));
    SingleIdRoundTrip(Number(Decimal(n)));
  }

  lemma EncodedIdRoundTrip(r: Request)
    requires Bytes(r.hash) && Bytes(r.id) && Bytes(r.pad)
    ensures ParseEchoResponse(Encode(r)) == Some(r.id)
  {
    RequestRoundTrip(r);
    IdIsFound(Text(r.hash), Text(r.id), Number(Decimal(r.timeout)), Text(r.pad));
    ParsesTo(Encode(r), Members(r), Text(r.id));
  }

  lemma SingleIdRoundTrip(v: Value)
    requires WritableValue(v) && !v.Null?
    ensures ParseEchoResponse(WriteObject([(ID_FIELD, v)])) == Some(if v.Text? then v.text else v.digits)
  {
    SingleField(v);
    ParsesTo(WriteObject([(ID_FIELD, v)]), [(ID_FIELD, v)], v);
  }

  lemma ParsesTo(data: string, fields: Fields, v: Value)
    requires ReadObject(data) == Some(fields) && Field(fields, ID_FIELD) == Some(v) && !v.Null?
    ensures ParseEchoResponse(data) == Some(if v.Text? then v.text else v.digits)
  {
  }

  /** Reading an encoded request gives its members back, whatever characters they hold. */
  lemma RequestRoundTrip(r: Request)
    requires Bytes(r.hash) && Bytes(r.id) && Bytes(r.pad)
    ensures ReadObject(Encode(r)) == Some(Members(r))
  {
    HashName();
    IdName();
    TimeoutName();
    PadName();
    DecimalDigits(r.timeout);
    var a, b, c := (HASH_FIELD, Text(r.hash)), (ID_FIELD, Text(r.id)), (TIMEOUT_FIELD, Number(Decimal(r.timeout)));
    MembersWritable(a, b, c, (PAD_FIELD, Text(r.pad)));
    ObjectRoundTrip(if r.pad == "" then [a, b, c] else [a, b, c] + [(PAD_FIELD, Text(r.pad))]);
  }

  /** What an encoded request says: its four members, the padding only if there is some. */
  lemma RequestMembers(r: Request)
    requires Bytes(r.hash) && Bytes(r.id) && Bytes(r.pad)
    ensures var fields := ReadObject(Encode(r));
      && fields.Some?
      && Field(fields.value, HASH_FIELD) == Some(Text(r.hash)) && Field(fields.value, ID_FIELD) == Some(Text(r.id))
      && Field(fields.value, TIMEOUT_FIELD) == Some(Number(Decimal(r.timeout)))
      && Field(fields.value, PAD_FIELD) == if r.pad == "" then None else Some(Text(r.pad))
  {
    RequestRoundTrip(r);
    MembersAreFound(Text(r.hash), Text(r.id), Number(Decimal(r.timeout)), Text(r.pad));
  }

  lemma MembersAreFound(a: Value, b: Value, c: Value, d: Value)
    ensures var three := [(HASH_FIELD, a), (ID_FIELD, b), (TIMEOUT_FIELD, c)];
      && Field(three, HASH_FIELD) == Some(a) && Field(three, TIMEOUT_FIELD) == Some(c) && Field(three, PAD_FIELD) == None
      && Field(three + [(PAD_FIELD, d)], HASH_FIELD) == Some(a) && Field(three + [(PAD_FIELD, d)], TIMEOUT_FIELD) == Some(c)
      && Field(three + [(PAD_FIELD, d)], PAD_FIELD) == Some(d)
      && Field(three, ID_FIELD) == Some(b) && Field(three + [(PAD_FIELD, d)], ID_FIELD) == Some(b)
  {
    var three := [(HASH_FIELD, a), (ID_FIELD, b), (TIMEOUT_FIELD, c)];
    IdIsFound(a, b, c, d);
    assert |HASH_FIELD| == 19 && |ID_FIELD| == 6 && |TIMEOUT_FIELD| == 7 && |PAD_FIELD| == 3;
    var two, one := three[..2], three[..2][..1];
    assert two[1] == (ID_FIELD, b) && one[0] == (HASH_FIELD, a) && one[..0] == [];
    assert Field(one, HASH_FIELD) == Some(a) && Field(one, PAD_FIELD) == None;
    assert Field(two, HASH_FIELD) == Some(a) && Field(two, PAD_FIELD) == None;
    assert (three + [(PAD_FIELD, d)])[..3] == three;
  }

  /** A reply without an id, or with null for it, names none. */
  lemma NoIdIsNoAnswer(data: string)
    ensures ParseEchoResponse(data) == None <==>
      match ReadObject(data)
      case None => true
      case Some(fields) => Field(fields, ID_FIELD) == None || Field(fields, ID_FIELD) == Some(Null)
  {
  }

  predicate WritableMember(m: (string, Value)) { Bytes(m.0) && WritableValue(m.1) }

  lemma MembersWritable(a: (string, Value), b: (string, Value), c: (string, Value), d: (string, Value))
    requires WritableMember(a) && WritableMember(b) && WritableMember(c)
    ensures Writable([a, b, c])
    ensures WritableMember(d) ==> Writable([a, b, c] + [d])
  {
  }

  lemma SingleField(v: Value)
    requires WritableValue(v)
    ensures ReadObject(WriteObject([(ID_FIELD, v)])) == Some([(ID_FIELD, v)])
    ensures Field([(ID_FIELD, v)], ID_FIELD) == Some(v)
  {
    IdName();
    ObjectRoundTrip([(ID_FIELD, v)]);
  }

  lemma IdIsFound(a: Value, b: Value, c: Value, d: Value)
    ensures Field([(HASH_FIELD, a), (ID_FIELD, b), (TIMEOUT_FIELD, c)], ID_FIELD) == Some(b)
    ensures Field([(HASH_FIELD, a), (ID_FIELD, b), (TIMEOUT_FIELD, c)] + [(PAD_FIELD, d)], ID_FIELD) == Some(b)
  {
    var three := [(HASH_FIELD, a), (ID_FIELD, b), (TIMEOUT_FIELD, c)];
    assert |ID_FIELD| == 6 && |TIMEOUT_FIELD| == 7 && |PAD_FIELD| == 3;
    assert three[..2][1] == (ID_FIELD, b);
    assert (three + [(PAD_FIELD, d)])[..3] == three;
  }

  /** So a reply to one numbered request is never taken for the reply to another. */
  lemma StaleReplyIsNotMatched(r: Request, sent: nat, wanted: nat)
    requires Bytes(r.hash) && Bytes(r.pad) && r.id == Decimal(sent)
    ensures ParseEchoResponse(Encode(r)) == Some(Decimal(wanted)) <==> sent == wanted
  {
    DecimalDigits(sent);
    RequestIdRoundTrip(r, 0);
    if Decimal(sent) == Decimal(wanted) {
      DecimalInjective(sent, wanted);
    }
  }
}
