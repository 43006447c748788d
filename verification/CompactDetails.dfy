/** The details reference of a compact run bundle: a domain- and length-framed encoding of each partition of
    facts, its digest, and the verification of hydrated facts against it. SHA-256 is a free constructor, so
    equal digests mean equal preimages; canonical JSON is an injective function given as a parameter. */
module CompactDetails {
  import opened Wrappers

  const MAX_DETAILS_BYTES: nat := 64 * 1024 * 1024

  // ----- Big-endian lengths ---------------------------------------------------------------------

  function Power256(w: nat): (r: nat)
    ensures r > 0
  { if w == 0 then 1 else 256 * Power256(w - 1) }

  /** `n.to_bytes(w, "big")`. */
  function BigEndian(n: nat, w: nat): (r: Bytes)
    requires n < Power256(w)
    ensures |r| == w
  {
    if w == 0 then [] else
      assert n / 256 < Power256(w - 1);
      BigEndian(n / 256, w - 1) + [n % 256]
  }

  lemma {:induction false} BigEndianInjective(m: nat, n: nat, w: nat)
    requires m < Power256(w) && n < Power256(w) && BigEndian(m, w) == BigEndian(n, w)
    ensures m == n
  {
    if w > 0 {
      var (a, b) := (BigEndian(m / 256, w - 1), BigEndian(n / 256, w - 1));
      assert a + [m % 256] == b + [n % 256];
      assert a == (a + [m % 256])[..w - 1] && b == (b + [n % 256])[..w - 1];
      assert (a + [m % 256])[w - 1] == m % 256 && (b + [n % 256])[w - 1] == n % 256;
      BigEndianInjective(m / 256, n / 256, w - 1);
    }
  }

  /** The number a big-endian byte string stands for. */
  function Value(bytes: Bytes): nat {
    if bytes == [] then 0 else 256 * Value(bytes[..|bytes| - 1]) + bytes[|bytes| - 1]
  }

  lemma {:induction false} BigEndianValue(n: nat, w: nat)
    requires n < Power256(w)
    ensures Value(BigEndian(n, w)) == n
  {
    if w > 0 {
      BigEndianValue(n / 256, w - 1);
      assert BigEndian(n, w)[..w - 1] == BigEndian(n / 256, w - 1);
    }
  }

  // ----- Framing --------------------------------------------------------------------------------

  predicate Framable(items: seq<Bytes>) { forall i :: 0 <= i < |items| ==> |items[i]| < Power256(8) }

  function Frame(item: Bytes): Bytes
    requires |item| < Power256(8)
  { BigEndian(|item|, 8) + item }

  function Frames(items: seq<Bytes>): Bytes
    requires Framable(items)
  {
    if items == [] then [] else Frame(items[0]) + Frames(items[1..])
  }

  function Payload(domain: Bytes, items: seq<Bytes>): Bytes
    requires |domain| < Power256(4) && Framable(items)
  { BigEndian(|domain|, 4) + domain + Frames(items) }

  lemma {:induction false} FramesAppend(items: seq<Bytes>, last: Bytes)
    requires Framable(items) && |last| < Power256(8)
    ensures Framable(items + [last]) && Frames(items + [last]) == Frames(items) + Frame(last)
  {
    var all := items + [last];
    if items == [] {
      assert all[1..] == [] && all[0] == last;
    } else {
      FramesAppend(items[1..], last);
      assert all[1..] == items[1..] + [last] && all[0] == items[0];
      Associate(Frame(items[0]), Frames(items[1..]), Frame(last));
    }
  }

  lemma Associate(a: Bytes, b: Bytes, c: Bytes)
    ensures a + b + c == a + (b + c)
  {}

  /** Where the `k`th frame begins: each frame is eight bytes longer than its item. */
  function FrameOffset(items: seq<Bytes>, k: nat): nat
    requires k <= |items|
  { if k == 0 then 0 else FrameOffset(items, k - 1) + 8 + |items[k - 1]| }

  lemma {:induction false} OffsetShifts(items: seq<Bytes>, k: nat)
    requires 0 < k <= |items|
    ensures FrameOffset(items, k) == 8 + |items[0]| + FrameOffset(items[1..], k - 1)
  {
    if k > 1 { OffsetShifts(items, k - 1); }
  }

  lemma {:induction false} FramesLength(items: seq<Bytes>)
    requires Framable(items)
    ensures |Frames(items)| == FrameOffset(items, |items|)
  {
    if items != [] {
      FramesLength(items[1..]);
      OffsetShifts(items, |items|);
    }
  }

  /** `bytes` has at `o` the length of `item` in eight bytes, and then the item. */
  ghost predicate FramedAt(bytes: Bytes, o: nat, item: Bytes) {
    o + 8 + |item| <= |bytes| && Value(bytes[o..o + 8]) == |item| && bytes[o + 8..o + 8 + |item|] == item
  }

  lemma FirstFrame(item: Bytes, rest: Bytes)
    requires |item| < Power256(8)
    ensures FramedAt(Frame(item) + rest, 0, item)
  {
    var all := Frame(item) + rest;
    BigEndianValue(|item|, 8);
    assert all[0..8] == BigEndian(|item|, 8);
    assert all[8..8 + |item|] == item;
  }

  lemma LaterFrame(first: Bytes, rest: Bytes, o: nat, item: Bytes)
    requires FramedAt(rest, o, item)
    ensures FramedAt(first + rest, |first| + o, item)
  {
    Shifted(first, rest, o, o + 8);
    Shifted(first, rest, o + 8, o + 8 + |item|);
  }

  /** Every item is framed at its place. */
  lemma {:induction false} FrameAt(items: seq<Bytes>, k: nat)
    requires Framable(items) && k < |items|
    ensures FramedAt(Frames(items), FrameOffset(items, k), items[k])
  {
    if k == 0 {
      FirstFrame(items[0], Frames(items[1..]));
    } else {
      FrameAt(items[1..], k - 1);
      OffsetShifts(items, k);
      LaterFrame(Frame(items[0]), Frames(items[1..]), FrameOffset(items[1..], k - 1), items[k]);
    }
  }

  lemma Shifted(a: Bytes, b: Bytes, i: nat, j: nat)
    requires i <= j <= |b|
    ensures (a + b)[|a| + i..|a| + j] == b[i..j]
  {}

  lemma SplitEqual(w: nat, m: nat, n: nat, a: Bytes, b: Bytes, restA: Bytes, restB: Bytes)
    requires m < Power256(w) && n < Power256(w) && |a| == m && |b| == n
    requires BigEndian(m, w) + a + restA == BigEndian(n, w) + b + restB
    ensures a == b && restA == restB
  {
    var (x, y) := (BigEndian(m, w) + a + restA, BigEndian(n, w) + b + restB);
    assert x[..w] == BigEndian(m, w) && y[..w] == BigEndian(n, w);
    BigEndianInjective(m, n, w);
    assert x[w..w + m] == a && y[w..w + n] == b;
    assert x[w + m..] == restA && y[w + n..] == restB;
  }

  /** A length-framed sequence can be read back in only one way. */
  lemma {:induction false} FramesInjective(a: seq<Bytes>, b: seq<Bytes>)
    requires Framable(a) && Framable(b) && Frames(a) == Frames(b)
    ensures a == b
  {
    if a != [] && b != [] {
      SplitEqual(8, |a[0]|, |b[0]|, a[0], b[0], Frames(a[1..]), Frames(b[1..]));
      FramesInjective(a[1..], b[1..]);
      assert a == [a[0]] + a[1..] && b == [b[0]] + b[1..];
    }
  }

  /** Domain and items are both determined by the payload. */
  lemma PayloadInjective(d: Bytes, a: seq<Bytes>, e: Bytes, b: seq<Bytes>)
    requires |d| < Power256(4) && |e| < Power256(4) && Framable(a) && Framable(b)
    requires Payload(d, a) == Payload(e, b)
    ensures d == e && a == b
  {
    SplitEqual(4, |d|, |e|, d, e, Frames(a), Frames(b));
    FramesInjective(a, b);
  }

  // ----- Digests --------------------------------------------------------------------------------

  datatype Sha = Sha(preimage: Bytes)
  datatype Part = Part(name: Bytes, itemCount: nat, canonicalBytes: nat, root: Sha)

  /** The digest of the facts body: header (identity, lifecycle, descriptor, revision) and parts. */
  datatype FactsDigest<H> = FactsDigest(header: H, parts: seq<Part>)
  datatype DetailsRef<H> = DetailsRef(detailsId: FactsDigest<H>, factsDigest: FactsDigest<H>, totalBytes: nat, parts: seq<Part>)

  ghost predicate Injective<R(!new)>(canon: R -> Bytes) {
    forall x, y :: canon(x) == canon(y) ==> x == y
  }

  function Canonical<R>(canon: R -> Bytes, items: seq<R>): seq<Bytes> {
    seq(|items|, i requires 0 <= i < |items| => canon(items[i]))
  }

  lemma CanonicalInjective<R(!new)>(canon: R -> Bytes, a: seq<R>, b: seq<R>)
    requires Injective(canon) && Canonical(canon, a) == Canonical(canon, b)
    ensures a == b
  {
    assert |a| == |Canonical(canon, a)| == |b|;
    forall i | 0 <= i < |a| ensures a[i] == b[i] {
      assert Canonical(canon, a)[i] == canon(a[i]) && Canonical(canon, b)[i] == canon(b[i]);
    }
  }

  function Digest<R>(canon: R -> Bytes, name: Bytes, items: seq<R>): Result<Part>
    requires |name| < Power256(4)
  {
    var encoded := Canonical(canon, items);
    if !Framable(encoded) then Rejected
    else
      var raw := Payload(name, encoded);
      if |raw| > MAX_DETAILS_BYTES then Rejected else Ok(Part(name, |encoded|, |raw|, Sha(raw)))
  }

  /** `_digest_partition`: the payload is grown item by item. */
  method DigestPartition<R>(canon: R -> Bytes, name: Bytes, items: seq<R>) returns (r: Result<Part>)
    requires |name| < Power256(4)
    ensures r == Digest(canon, name, items)
  {
    var encoded := Canonical(canon, items);
    var payload: Bytes := BigEndian(|name|, 4) + name;
    for i := 0 to |encoded|
      invariant Framable(encoded[..i])
      invariant payload == Payload(name, encoded[..i])
    {
      if |encoded[i]| >= Power256(8) { return Rejected; }  // to_bytes overflows
      assert encoded[..i + 1] == encoded[..i] + [encoded[i]];
      FramesAppend(encoded[..i], encoded[i]);
      Associate(BigEndian(|name|, 4) + name, Frames(encoded[..i]), Frame(encoded[i]));
      Associate(payload, BigEndian(|encoded[i]|, 8), encoded[i]);
      payload := payload + BigEndian(|encoded[i]|, 8);
      payload := payload + encoded[i];
    }
    assert encoded[..|encoded|] == encoded;
    if |payload| > MAX_DETAILS_BYTES { return Rejected; }
    r := Ok(Part(name, |encoded|, |payload|, Sha(payload)));
  }

  /** The name behind its length in four bytes, then every item framed at its place, and nothing else. */
  ghost predicate Lays(raw: Bytes, name: Bytes, encoded: seq<Bytes>) {
    && |raw| == 4 + |name| + FrameOffset(encoded, |encoded|) >= 4 + |name|
    && Value(raw[..4]) == |name| && raw[4..4 + |name|] == name
    && (forall k: nat :: k < |encoded| ==> FramedAt(raw, 4 + |name| + FrameOffset(encoded, k), encoded[k]))
  }

  lemma PayloadLays(name: Bytes, encoded: seq<Bytes>)
    requires |name| < Power256(4) && Framable(encoded)
    ensures Lays(Payload(name, encoded), name, encoded)
  {
    var (begin, rest) := (BigEndian(|name|, 4) + name, Frames(encoded));
    FramesLength(encoded);
    BigEndianValue(|name|, 4);
    assert (begin + rest)[..4] == BigEndian(|name|, 4) && (begin + rest)[4..4 + |name|] == name;
    forall k: nat | k < |encoded| ensures FramedAt(begin + rest, 4 + |name| + FrameOffset(encoded, k), encoded[k]) {
      FrameAt(encoded, k);
      LaterFrame(begin, rest, FrameOffset(encoded, k), encoded[k]);
    }
  }

  lemma UnframableIsTooLarge(encoded: seq<Bytes>)
    requires !Framable(encoded)
    ensures FrameOffset(encoded, |encoded|) > MAX_DETAILS_BYTES
  {
    var i :| 0 <= i < |encoded| && |encoded[i]| >= Power256(8);
    OffsetCovers(encoded, i, |encoded|);
    PowerExceedsLimit();
  }

  /** What a partition's digest says: how many facts it holds, how many bytes their framing takes, and under which name; it is
      refused exactly when the framing passes the limit. */
  lemma DigestDescribes<R>(canon: R -> Bytes, name: Bytes, items: seq<R>)
    requires |name| < Power256(4)
    ensures var (encoded, r) := (Canonical(canon, items), Digest(canon, name, items));
            && |encoded| == |items| && (forall k :: 0 <= k < |items| ==> encoded[k] == canon(items[k]))
            && (r.Ok? <==> 4 + |name| + FrameOffset(encoded, |encoded|) <= MAX_DETAILS_BYTES)
            && (r.Ok? ==> r.value.name == name && r.value.itemCount == |items| && r.value.canonicalBytes == |r.value.root.preimage|)
            && (r.Ok? ==> Lays(r.value.root.preimage, name, encoded))
  {
    var encoded := Canonical(canon, items);
    if Framable(encoded) { PayloadLays(name, encoded); } else { UnframableIsTooLarge(encoded); }
  }

  lemma {:induction false} OffsetCovers(items: seq<Bytes>, i: nat, k: nat)
    requires i < k <= |items|
    ensures |items[i]| <= FrameOffset(items, k)
  {
    if i < k - 1 { OffsetCovers(items, i, k - 1); }
  }

  lemma PowerExceedsLimit()
    ensures Power256(8) > MAX_DETAILS_BYTES
  {
    assert Power256(4) == 4_294_967_296 by { assert Power256(2) == 65536; }
    assert Power256(8) >= Power256(4) by { assert Power256(7) >= Power256(5) >= Power256(4); }
  }

  // ----- Sealing and verifying -------------------------------------------------------------------

  const PROVIDER_CALLS: Bytes := [112, 114, 111, 118, 105, 100, 101, 114, 95, 99, 97, 108, 108, 115]
  const METRIC_EVENTS: Bytes := [109, 101, 116, 114, 105, 99, 95, 101, 118, 101, 110, 116, 115]
  const CHILDREN: Bytes := [99, 104, 105, 108, 100, 114, 101, 110]

  /** Partitions by name, as hydrated from the ledger. */
  type Details<R> = map<Bytes, seq<R>>

  predicate WellShaped<R>(d: Details<R>) { d.Keys == {PROVIDER_CALLS, METRIC_EVENTS, CHILDREN} }

  function Parts<R>(canon: R -> Bytes, d: Details<R>): Result<seq<Part>>
    requires WellShaped(d)
  {
    assert |PROVIDER_CALLS| == 14 && |METRIC_EVENTS| == 13 && |CHILDREN| == 8;
    assert Power256(4) > 14;
    var a := Digest(canon, PROVIDER_CALLS, d[PROVIDER_CALLS]);
    var b := Digest(canon, METRIC_EVENTS, d[METRIC_EVENTS]);
    var c := Digest(canon, CHILDREN, d[CHILDREN]);
    if a.Ok? && b.Ok? && c.Ok? then Ok([a.value, b.value, c.value]) else Rejected
  }

  function TotalBytes(parts: seq<Part>): nat {
    if parts == [] then 0 else TotalBytes(parts[..|parts| - 1]) + parts[|parts| - 1].canonicalBytes
  }

  /** The reference `from_facts` stores for its facts. */
  function Seal<H, R>(canon: R -> Bytes, header: H, d: Details<R>): Result<DetailsRef<H>>
    requires WellShaped(d)
  {
    var parts := Parts(canon, d);
    if parts.Rejected? || TotalBytes(parts.value) > MAX_DETAILS_BYTES then Rejected
    else
      var digest := FactsDigest(header, parts.value);
      Ok(DetailsRef(digest, digest, TotalBytes(parts.value), parts.value))
  }

  /** `verify_details`: recompute every partition digest and the facts digest. */
  function Verify<H(==), R>(canon: R -> Bytes, header: H, ref: DetailsRef<H>, d: Details<R>): Result<Details<R>> {
    if !WellShaped(d) then Rejected
    else
      var parts := Parts(canon, d);
      if parts.Rejected? || parts.value != ref.parts then Rejected
      else if TotalBytes(parts.value) != ref.totalBytes then Rejected
      else if FactsDigest(header, parts.value) != ref.factsDigest || ref.detailsId != FactsDigest(header, parts.value) then Rejected
      else Ok(d)
  }

  lemma DigestBinds<R(!new)>(canon: R -> Bytes, name: Bytes, a: seq<R>, b: seq<R>)
    requires Injective(canon) && |name| < Power256(4)
    requires Digest(canon, name, a).Ok? && Digest(canon, name, a) == Digest(canon, name, b)
    ensures a == b
  {
    PayloadInjective(name, Canonical(canon, a), name, Canonical(canon, b));
    CanonicalInjective(canon, a, b);
  }

  /** Whatever the reference, details verify against it exactly when it is the one sealed for them, and come back as they are. */
  lemma VerifyExactly<H(!new), R(!new)>(canon: R -> Bytes, header: H, ref: DetailsRef<H>, d: Details<R>)
    requires ref.totalBytes <= MAX_DETAILS_BYTES
    ensures Verify(canon, header, ref, d).Ok? <==> WellShaped(d) && Seal(canon, header, d) == Ok(ref)
    ensures Verify(canon, header, ref, d).Ok? ==> Verify(canon, header, ref, d).value == d
  {}

  /** Verification accepts the sealed facts and nothing else; and it rejects them under any other header. */
  lemma VerifyAcceptsExactlySealed<H(!new), R(!new)>(canon: R -> Bytes, header: H, sealedFacts: Details<R>, other: H, d: Details<R>)
    requires Injective(canon) && WellShaped(sealedFacts) && Seal(canon, header, sealedFacts).Ok?
    ensures Verify(canon, other, Seal(canon, header, sealedFacts).value, d).Ok? <==> d == sealedFacts && other == header
  {
    var ref := Seal(canon, header, sealedFacts).value;
    if Verify(canon, other, ref, d).Ok? {
      assert Parts(canon, d) == Parts(canon, sealedFacts);
      var (p, q) := (Parts(canon, d).value, Parts(canon, sealedFacts).value);
      assert p[0] == q[0] && p[1] == q[1] && p[2] == q[2];
      assert Power256(4) > 14 by { assert Power256(4) == 256 * Power256(3); assert Power256(3) > 0; }
      DigestBinds(canon, PROVIDER_CALLS, d[PROVIDER_CALLS], sealedFacts[PROVIDER_CALLS]);
      DigestBinds(canon, METRIC_EVENTS, d[METRIC_EVENTS], sealedFacts[METRIC_EVENTS]);
      DigestBinds(canon, CHILDREN, d[CHILDREN], sealedFacts[CHILDREN]);
      assert d == sealedFacts;
    }
  }

  /** A sealed reference lists the three partitions in their order, with the bytes of all of them, under one digest of header and
      parts; it is refused exactly when a partition or the total passes the limit. */
  lemma SealDescribes<H, R>(canon: R -> Bytes, header: H, d: Details<R>)
    requires WellShaped(d)
    ensures var names := [PROVIDER_CALLS, METRIC_EVENTS, CHILDREN];
            forall k :: 0 <= k < 3 ==> names[k] in d && |names[k]| < Power256(4)
    ensures var (a, b, c) := (FramedBytes(canon, PROVIDER_CALLS, d), FramedBytes(canon, METRIC_EVENTS, d), FramedBytes(canon, CHILDREN, d));
            var r := Seal(canon, header, d);
            && (r.Ok? <==> a + b + c <= MAX_DETAILS_BYTES)
            && (r.Ok? ==> r.value.totalBytes == a + b + c && |r.value.parts| == 3)
            && (r.Ok? ==> Describes(canon, PROVIDER_CALLS, d, r.value.parts[0]))
            && (r.Ok? ==> Describes(canon, METRIC_EVENTS, d, r.value.parts[1]) && Describes(canon, CHILDREN, d, r.value.parts[2]))
            && (r.Ok? ==> r.value.factsDigest == FactsDigest(header, r.value.parts) == r.value.detailsId)
  {
    NamesAreShort();
    PartDescribes(canon, PROVIDER_CALLS, d);
    PartDescribes(canon, METRIC_EVENTS, d);
    PartDescribes(canon, CHILDREN, d);
    if Parts(canon, d).Ok? {
      var parts := Parts(canon, d).value;
      TotalOfThree(parts);
    }
  }

  lemma TotalOfThree(parts: seq<Part>)
    requires |parts| == 3
    ensures TotalBytes(parts) == parts[0].canonicalBytes + parts[1].canonicalBytes + parts[2].canonicalBytes
  {
    var (two, one) := (parts[..2], parts[..1]);
    assert two[..1] == one && one[..0] == [];
    assert TotalBytes(one) == TotalBytes([]) + parts[0].canonicalBytes;
    assert TotalBytes(two) == TotalBytes(one) + parts[1].canonicalBytes;
  }

  lemma PartDescribes<R>(canon: R -> Bytes, name: Bytes, d: Details<R>)
    requires name in d && |name| < Power256(4)
    ensures var r := Digest(canon, name, d[name]);
            (r.Ok? <==> FramedBytes(canon, name, d) <= MAX_DETAILS_BYTES) && (r.Ok? ==> Describes(canon, name, d, r.value))
  {
    DigestDescribes(canon, name, d[name]);
  }

  lemma NamesAreShort()
    ensures |PROVIDER_CALLS| < Power256(4) && |METRIC_EVENTS| < Power256(4) && |CHILDREN| < Power256(4)
  {
    assert Power256(4) > 14 by { assert Power256(4) == 256 * Power256(3); assert Power256(3) > 0; }
  }

  /** The bytes a partition takes: its name behind four bytes, and every fact behind eight. */
  function FramedBytes<R>(canon: R -> Bytes, name: Bytes, d: Details<R>): nat
    requires name in d
  { 4 + |name| + FrameOffset(Canonical(canon, d[name]), |d[name]|) }

  ghost predicate Describes<R>(canon: R -> Bytes, name: Bytes, d: Details<R>, part: Part)
    requires name in d
  { part.name == name && part.itemCount == |d[name]| && part.canonicalBytes == FramedBytes(canon, name, d) == |part.root.preimage| }
}
