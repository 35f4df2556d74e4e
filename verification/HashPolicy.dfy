/** HashPolicy of envoy/type: a oneof whose only arm is a message that may itself be nil. */
module HashPolicy {
  import opened Wire
  import opened Buffer
  import opened Message

  datatype SourceIp = SourceIp(unknown: bytes)

  datatype Specifier = Unset | SourceIpArm(sourceIp: Ptr<SourceIp>)

  datatype HashPolicy = HashPolicy(policySpecifier: Specifier, unknown: bytes)

  const HASH_POLICY_SCHEMA: seq<Key> := [Key(1, 2)]

  function EncodeSourceIp(m: SourceIp): bytes { m.unknown }

  /** A set arm is always written; a nil message inside it is written like an empty one. */
  function ArmPayload(s: Specifier): Ptr<bytes> {
    if s.Unset? then Nil else Ref(EncodePtr(EncodeSourceIp, s.sourceIp))
  }

  function HashPolicySegs(m: HashPolicy): seq<Segment> {
    [ChildSeg(1, ArmPayload(m.policySpecifier))]
  }

  function EncodeHashPolicy(m: HashPolicy): bytes {
    Body(HashPolicySegs(m), 0, m.unknown)
  }

  method MarshalSourceIp(p: Ptr<SourceIp>, buf: array<byte>, end: nat) returns (n: nat)
    requires |EncodePtr(EncodeSourceIp, p)| <= end <= buf.Length
    modifies buf
    ensures n == |EncodePtr(EncodeSourceIp, p)|
    ensures Filled(buf[..], old(buf[..]), end - n, EncodePtr(EncodeSourceIp, p))
  {
    FillNothing(buf[..], end);
    if p.Nil? { return 0; }
    var i := PutRaw(buf, end, p.value.unknown, buf[..], []);
    assert p.value.unknown + [] == p.value.unknown;
    n := end - i;
  }

  method PutArm(buf: array<byte>, i: nat, arm: Specifier, ghost t: Task) returns (at: nat)
    requires Reached(buf[..], t, i, 1) && |t.segs| == 1 && t.segs[0] == ChildSeg(1, ArmPayload(arm))
    modifies buf
    ensures Reached(buf[..], t, at, 0)
  {
    hide Splice, Filled, SegBytes;
    BodyStep(t.segs, 0, t.unknown);
    ChildBytes(1, ArmPayload(arm));
    ghost var start, done := buf[..], Body(t.segs, 1, t.unknown);
    at := i;
    NothingFirst(done);
    if arm.SourceIpArm? {
      if arm.sourceIp.Ref? {
        FilledBounds(start, t.orig, at, done);
        var size := MarshalSourceIp(arm.sourceIp, buf, at);
        Fill(start, t.orig, at, done, EncodeSourceIp(arm.sourceIp.value), buf[..]);
        at := PutLength(buf, at - size, [0x0a], size, 1, EncodeSourceIp(arm.sourceIp.value), t.orig, done);
      } else {
        at := PutLength(buf, at, [0x0a], 0, 1, [], t.orig, done);
      }
    }
  }

  method MarshalHashPolicy(p: Ptr<HashPolicy>, buf: array<byte>, end: nat) returns (n: nat)
    requires |EncodePtr(EncodeHashPolicy, p)| <= end <= buf.Length
    modifies buf
    ensures n == |EncodePtr(EncodeHashPolicy, p)|
    ensures Filled(buf[..], old(buf[..]), end - n, EncodePtr(EncodeHashPolicy, p))
  {
    hide Reached, Body;
    if p.Nil? {
      FillNothing(buf[..], end);
      return 0;
    }
    var m := p.value;
    ghost var t := Task(buf[..], end, HashPolicySegs(m), m.unknown);
    var i := PutUnknown(buf, m.unknown, end, t);
    i := PutArm(buf, i, m.policySpecifier, t);
    Finished(buf[..], t, i);
    n := end - i;
  }

  method SizeHashPolicy(p: Ptr<HashPolicy>) returns (n: nat)
    ensures n == |EncodePtr(EncodeHashPolicy, p)|
  {
    if p.Nil? { return 0; }
    var m := p.value;
    ghost var segs := HashPolicySegs(m);
    BodyStep(segs, 0, m.unknown);
    BodyEnd(segs, m.unknown);
    ChildBytes(1, ArmPayload(m.policySpecifier));
    n := 0;
    if m.policySpecifier.SourceIpArm? {
      if m.policySpecifier.sourceIp.Ref? {
        var l := |m.policySpecifier.sourceIp.value.unknown|;
        var v := SizeOfVarint(l);
        n := 1 + l + v;
      } else {
        n := 2;
      }
    }
    n := n + |m.unknown|;
  }

  function DecodeSourceIp(s: bytes): Option<SourceIp> {
    var fs :- Parse(s);
    Some(SourceIp(Unrecognised(fs, [])))
  }

  function DecodeHashPolicy(s: bytes): Option<HashPolicy> {
    var fs :- Parse(s);
    var ip :- DecodeChild(DecodeSourceIp, Merged(Payloads(fs, Key(1, 2))));
    Some(HashPolicy(if ip.Nil? then Unset else SourceIpArm(ip), Unrecognised(fs, HASH_POLICY_SCHEMA)))
  }

  /** The nil message inside a set arm becomes an empty message. */
  function NormalSpecifier(s: Specifier): Specifier {
    if s == SourceIpArm(Nil) then SourceIpArm(Ref(SourceIp([]))) else s
  }

  function NormalHashPolicy(m: HashPolicy): HashPolicy {
    m.(policySpecifier := NormalSpecifier(m.policySpecifier))
  }

  lemma HashPolicyShape(m: HashPolicy)
    ensures Shaped(HashPolicySegs(m), HASH_POLICY_SCHEMA) && Ascending(HASH_POLICY_SCHEMA)
  {
  }

  /** The bytes of a policy hold one record for a set arm, empty for a nil message, and its unknown bytes. */
  lemma HashPolicyLayout(m: HashPolicy)
    requires WellFormedUnknown(m.unknown, HASH_POLICY_SCHEMA) && |EncodeHashPolicy(m)| < TWO_63
    ensures Parse(EncodeHashPolicy(m)).Some?
    ensures var fs := Parse(EncodeHashPolicy(m)).value;
            && Merged(Payloads(fs, Key(1, 2))) == ArmPayload(m.policySpecifier)
            && Payloads(fs, Key(1, 2)) == (match m.policySpecifier
                                           case Unset => []
                                           case SourceIpArm(Nil) => [Bytes([])]
                                           case SourceIpArm(Ref(ip)) => [Bytes(ip.unknown)])
            && Unrecognised(fs, HASH_POLICY_SCHEMA) == m.unknown
  {
    hide Parse, Body, Payloads, Unrecognised, Merged, WellFormedUnknown;
    var segs := HashPolicySegs(m);
    HashPolicyShape(m);
    ReadMessage(segs, HASH_POLICY_SCHEMA, m.unknown);
    var fs := Parse(EncodeHashPolicy(m)).value;
    assert Payloads(fs, HASH_POLICY_SCHEMA[0]) == segs[0].payloads;
    MergedChild(1, ArmPayload(m.policySpecifier));
  }

  /** SourceIp has no fields: its bytes come back exactly when they parse. */
  lemma SourceIpExactly(u: bytes)
    ensures DecodeSourceIp(u) == Some(SourceIp(u)) <==> Parse(u).Some?
  {
    if Parse(u).Some? { UnrecognisedOfUnknown(u, []); }
  }

  /** The policy comes back, a nil message inside the arm being turned into an empty one, if and only if
      the bytes inside SourceIp parse. */
  lemma HashPolicyRoundTrip(m: HashPolicy)
    requires WellFormedUnknown(m.unknown, HASH_POLICY_SCHEMA) && |EncodeHashPolicy(m)| < TWO_63
    ensures DecodeHashPolicy(EncodeHashPolicy(m)) == Some(NormalHashPolicy(m))
       <==> (ArmPayload(m.policySpecifier).Ref? ==> Parse(ArmPayload(m.policySpecifier).value).Some?)
  {
    hide Parse, Payloads, Unrecognised, Merged, WellFormedUnknown, EncodeHashPolicy, DecodeSourceIp;
    HashPolicyLayout(m);
    var arm := ArmPayload(m.policySpecifier);
    if arm.Ref? {
      SourceIpExactly(arm.value);
      assert NormalSpecifier(m.policySpecifier) == SourceIpArm(Ref(SourceIp(arm.value)));
    }
  }

  /** Two policies have the same bytes exactly when they differ at most in nil against empty SourceIp. */
  lemma HashPolicyCollisions(a: HashPolicy, b: HashPolicy)
    requires WellFormedUnknown(a.unknown, HASH_POLICY_SCHEMA) && |EncodeHashPolicy(a)| < TWO_63
    requires WellFormedUnknown(b.unknown, HASH_POLICY_SCHEMA) && |EncodeHashPolicy(b)| < TWO_63
    ensures EncodeHashPolicy(a) == EncodeHashPolicy(b) <==>
            || a == b
            || (a.unknown == b.unknown && NilAgainstEmpty(a.policySpecifier, b.policySpecifier))
            || (a.unknown == b.unknown && NilAgainstEmpty(b.policySpecifier, a.policySpecifier))
  {
    hide EncodeHashPolicy, ArmPayload, Parse, Payloads, Unrecognised, Merged, WellFormedUnknown, NilAgainstEmpty;
    HashPolicyLayout(a);
    HashPolicyLayout(b);
    SameArm(a.policySpecifier, b.policySpecifier);
    if a.unknown == b.unknown { SameParts(a, b); }
  }

  predicate NilAgainstEmpty(a: Specifier, b: Specifier) {
    a == SourceIpArm(Nil) && b == SourceIpArm(Ref(SourceIp([])))
  }

  lemma SameArm(a: Specifier, b: Specifier)
    ensures ArmPayload(a) == ArmPayload(b) <==> a == b || NilAgainstEmpty(a, b) || NilAgainstEmpty(b, a)
  {
  }

  lemma SameParts(a: HashPolicy, b: HashPolicy)
    requires a.unknown == b.unknown
    ensures ArmPayload(a.policySpecifier) == ArmPayload(b.policySpecifier)
        ==> EncodeHashPolicy(a) == EncodeHashPolicy(b)
  {
  }
}
