/** The paging protocol for model-visible context bytes: rendering a source page into a bounded wire page, the
    wire validator, and reassembly by following `next_offset`. Text codecs, the locator check and the size of
    the canonical JSON are parameters; the size need not be monotone in the number of bytes. */
module ContentPaging {
  import opened Wrappers

  const MAX_PAGE_READ_BYTES: nat := 8 * 1024
  const MAX_SERIALIZED_BYTES: nat := 12 * 1024

  datatype Content = Utf8(text: string) | Base64(data: string)
  datatype ReadRequest = ReadRequest(locator: string, offset: nat, limit: nat)

  datatype Page = Page(
    locator: string, mediaType: string, total: nat, sha: string, offset: nat, pageBytes: nat,
    nextOffset: Option<nat>, eof: bool, content: Content, nextRead: Option<ReadRequest>)

  /** What a capability returned for one read. */
  datatype SourcePage = SourcePage(locator: string, mediaType: string, data: Bytes, offset: nat, total: nat, sha: string)

  datatype Codec = Codec(
    decodeUtf8: Bytes -> Option<string>, encodeUtf8: string -> Bytes,
    encodeBase64: Bytes -> string, decodeBase64: string -> Option<Bytes>,
    locatorOk: string -> bool, shaOk: string -> bool, jsonSize: Page -> nat)

  /** Decoding inverts encoding; nothing else is assumed. */
  ghost predicate Lawful(c: Codec) {
    && (forall d: Bytes :: c.decodeUtf8(d).Some? ==> c.encodeUtf8(c.decodeUtf8(d).value) == d)
    && (forall d: Bytes :: c.decodeBase64(c.encodeBase64(d)) == Some(d))
  }

  function Encode(c: Codec, data: Bytes): Content {
    match c.decodeUtf8(data)
    case Some(text) => Utf8(text)
    case None => Base64(c.encodeBase64(data))
  }

  function Decode(c: Codec, content: Content): Option<Bytes> {
    match content
    case Utf8(text) => Some(c.encodeUtf8(text))
    case Base64(data) => c.decodeBase64(data)
  }

  // ----- Pages ----------------------------------------------------------------------------------

  function RenderPage(c: Codec, s: SourcePage, data: Bytes): Page {
    var next := s.offset + |data|;
    var eof := next >= s.total;
    Page(s.locator, s.mediaType, s.total, s.sha, s.offset, |data|,
         if eof then None else Some(next), eof, Encode(c, data),
         if eof then None else Some(ReadRequest(s.locator, next, 8192)))
  }

  /** `_page_fields`: the page lies inside the source. */
  predicate FieldsOk(c: Codec, s: SourcePage) {
    s.offset + |s.data| <= s.total && c.shaOk(s.sha)
  }

  /** `validate_capability_content_page`. */
  predicate CapabilityOk(c: Codec, s: SourcePage, locator: string, offset: nat, limit: nat) {
    && FieldsOk(c, s)
    && s.locator == locator && s.offset == offset && |s.data| <= limit && |s.data| <= MAX_PAGE_READ_BYTES
    && (|s.data| > 0 || s.offset >= s.total)
  }

  /** `validate_context_content_page`. */
  predicate Accepts(c: Codec, p: Page) {
    && c.locatorOk(p.locator) && '/' in p.mediaType && c.shaOk(p.sha)
    && Decode(c, p.content).Some? && |Decode(c, p.content).value| == p.pageBytes <= MAX_PAGE_READ_BYTES
    && p.offset + p.pageBytes <= p.total
    && (if p.eof then p.offset + p.pageBytes == p.total && p.nextOffset.None? && p.nextRead.None?
        else p.pageBytes > 0 && p.nextOffset == Some(p.offset + p.pageBytes) && p.nextOffset.value < p.total
             && p.nextRead == Some(ReadRequest(p.locator, p.nextOffset.value, 8192)))
    && c.jsonSize(p) <= MAX_SERIALIZED_BYTES
  }

  predicate Fits(c: Codec, s: SourcePage, n: nat)
    requires n <= |s.data|
  { c.jsonSize(RenderPage(c, s, s.data[..n])) <= MAX_SERIALIZED_BYTES }

  /** A page of the first `n` bytes of `s`: the source's own metadata, text exactly when the bytes are UTF-8, and a continuation
      behind the page unless it ends the source. */
  ghost predicate Shows(c: Codec, s: SourcePage, n: nat, p: Page)
    requires n <= |s.data|
  {
    && p.locator == s.locator && p.mediaType == s.mediaType && p.total == s.total && p.sha == s.sha && p.offset == s.offset && p.pageBytes == n
    && (p.content.Utf8? <==> c.decodeUtf8(s.data[..n]).Some?)
    && (p.content.Utf8? ==> c.decodeUtf8(s.data[..n]) == Some(p.content.text))
    && (p.content.Base64? ==> p.content.data == c.encodeBase64(s.data[..n]))
    && (p.eof <==> s.offset + n >= s.total)
    && (p.eof ==> p.nextOffset.None? && p.nextRead.None?)
    && (!p.eof ==> p.nextOffset == Some(s.offset + n) && p.nextRead == Some(ReadRequest(s.locator, s.offset + n, MAX_PAGE_READ_BYTES)))
  }

  /** The validator accepts exactly the pages that say of some bytes what a rendering of them says, in either encoding. */
  lemma AcceptsExactly(c: Codec, p: Page)
    ensures Accepts(c, p) <==>
              exists s :: Vouches(c, s, p)
  {
    if Accepts(c, p) {
      var data := Decode(c, p.content).value;
      var s := SourcePage(p.locator, p.mediaType, data, p.offset, p.total, p.sha);
      assert Vouches(c, s, p);
    }
  }

  /** `p` is a page of all of `s`, whose bytes its content stands for. */
  ghost predicate Vouches(c: Codec, s: SourcePage, p: Page) {
    && MetadataOk(c, s) && (s.data != [] || s.offset == s.total)
    && p == RenderPage(c, s, s.data).(content := p.content) && c.jsonSize(p) <= MAX_SERIALIZED_BYTES
    && (match p.content case Utf8(text) => c.encodeUtf8(text) == s.data case Base64(data) => c.decodeBase64(data) == Some(s.data))
  }

  /** What the page metadata must satisfy, whatever is on the page. */
  predicate MetadataOk(c: Codec, s: SourcePage) {
    FieldsOk(c, s) && |s.data| <= MAX_PAGE_READ_BYTES && c.locatorOk(s.locator) && '/' in s.mediaType
  }

  /** A rendered prefix passes the wire validator exactly when the metadata is sound, it fits, and it either
      ends the source or makes progress. */
  lemma RenderedAccepted(c: Codec, s: SourcePage, n: nat)
    requires Lawful(c) && n <= |s.data| && FieldsOk(c, s) && |s.data| <= MAX_PAGE_READ_BYTES
    ensures Accepts(c, RenderPage(c, s, s.data[..n])) <==>
              MetadataOk(c, s) && Fits(c, s, n) && (s.offset + n == s.total || n > 0)
    ensures Decode(c, RenderPage(c, s, s.data[..n]).content) == Some(s.data[..n])
  {
    var d := s.data[..n];
    assert |d| == n;
    assert Decode(c, Encode(c, d)) == Some(d);
  }

  /** The search meets no prefix that fits between 0 and `upper`. */
  predicate NoProbeFits(c: Codec, s: SourcePage, upper: nat)
    requires upper <= |s.data|
  {
    upper == 0 || (!Fits(c, s, (upper + 1) / 2) && NoProbeFits(c, s, (upper + 1) / 2 - 1))
  }

  /** The last probe of a search that finds nothing is one byte. */
  lemma {:induction false} LastProbeIsOneByte(c: Codec, s: SourcePage, upper: nat)
    requires 0 < upper <= |s.data| && NoProbeFits(c, s, upper)
    ensures !Fits(c, s, 1)
  {
    if upper > 2 { LastProbeIsOneByte(c, s, (upper + 1) / 2 - 1); }
  }

  /** `render_context_content_page`. The page holds everything when that fits; otherwise the search ends on a
      prefix that fits while one more byte does not. It is refused exactly when the metadata is unsound, when
      not even an empty page fits, or when no byte can be carried before the end of the source. */
  method RenderContentPage(c: Codec, s: SourcePage) returns (r: Result<Page>)
    requires Lawful(c)
    ensures r.Ok? ==> var n := r.value.pageBytes;
              && n <= |s.data| && r.value == RenderPage(c, s, s.data[..n]) && Accepts(c, r.value)
              && Decode(c, r.value.content) == Some(s.data[..n]) && Shows(c, s, n, r.value)
              && (!r.value.eof ==> n > 0)
              && (if Fits(c, s, |s.data|) then n == |s.data| else n < |s.data| && Fits(c, s, n) && !Fits(c, s, n + 1))
    ensures r.Rejected? <==>
              || !MetadataOk(c, s)
              || (Fits(c, s, |s.data|) && s.data == [] && s.offset < s.total)
              || (!Fits(c, s, |s.data|) && (!Fits(c, s, 0) || NoProbeFits(c, s, |s.data|)))
    // a page on which the empty content and one byte fit is never refused for lack of room or progress
    ensures MetadataOk(c, s) && s.data != [] && Fits(c, s, 0) && Fits(c, s, 1) ==> r.Ok?
  {
    if s.data != [] && NoProbeFits(c, s, |s.data|) { LastProbeIsOneByte(c, s, |s.data|); }
    if !FieldsOk(c, s) || |s.data| > MAX_PAGE_READ_BYTES { return Rejected; }
    assert s.data[..|s.data|] == s.data;
    var full := RenderPage(c, s, s.data);
    if c.jsonSize(full) <= MAX_SERIALIZED_BYTES {
      RenderedAccepted(c, s, |s.data|);
      return if Accepts(c, full) then Ok(full) else Rejected;
    }
    var empty := RenderPage(c, s, []);
    assert s.data[..0] == [];
    if c.jsonSize(empty) > MAX_SERIALIZED_BYTES { return Rejected; }
    var lower := SearchPrefix(c, s);
    RenderedAccepted(c, s, lower);
    var page := RenderPage(c, s, s.data[..lower]);
    r := if Accepts(c, page) then Ok(page) else Rejected;
  }

  /** The binary search; `Fits` need not be monotone. */
  method SearchPrefix(c: Codec, s: SourcePage) returns (lower: nat)
    requires Fits(c, s, 0) && !Fits(c, s, |s.data|)
    ensures lower < |s.data| && Fits(c, s, lower) && !Fits(c, s, lower + 1)
    ensures lower == 0 <==> NoProbeFits(c, s, |s.data|)
  {
    lower := 0;
    var upper := |s.data|;
    while lower < upper
      invariant 0 <= lower <= upper <= |s.data|
      invariant Fits(c, s, lower)
      invariant if upper == |s.data| then !Fits(c, s, upper) else !Fits(c, s, upper + 1)
      invariant if lower == 0 then NoProbeFits(c, s, |s.data|) <==> NoProbeFits(c, s, upper) else !NoProbeFits(c, s, |s.data|)
    {
      var candidate := (lower + upper + 1) / 2;
      var rendered := RenderPage(c, s, s.data[..candidate]);
      if c.jsonSize(rendered) <= MAX_SERIALIZED_BYTES { lower := candidate; } else { upper := candidate - 1; }
    }
  }

  // ----- Reassembly -----------------------------------------------------------------------------

  /** A page rendered from bytes that really are the source's bytes at its offset. */
  ghost predicate HonestPage(c: Codec, source: Bytes, s: SourcePage, n: nat, p: Page) {
    && s.total == |source| && s.offset + |s.data| <= |source|
    && s.data == source[s.offset..s.offset + |s.data|] && n <= |s.data|
    && p == RenderPage(c, s, s.data[..n]) && Accepts(c, p)
  }

  /** Pages read by following `next_offset` from 0, each an honest rendering. */
  ghost predicate Chain(c: Codec, source: Bytes, inputs: seq<SourcePage>, sizes: seq<nat>, pages: seq<Page>) {
    && |inputs| == |sizes| == |pages| > 0 && pages[0].offset == 0
    && (forall i :: 0 <= i < |pages| ==> HonestPage(c, source, inputs[i], sizes[i], pages[i]))
    && (forall i :: 1 <= i < |pages| ==> pages[i - 1].nextOffset == Some(pages[i].offset))
  }

  function Assemble(c: Codec, pages: seq<Page>): Bytes {
    if pages == [] then []
    else Assemble(c, pages[..|pages| - 1]) +
         (match Decode(c, pages[|pages| - 1].content) case Some(d) => d case None => [])
  }

  /** What an honest page says about the source. */
  ghost predicate TrueOf(c: Codec, source: Bytes, p: Page) {
    && p.offset + p.pageBytes <= |source|
    && Decode(c, p.content) == Some(source[p.offset..p.offset + p.pageBytes])
    && (p.nextOffset.Some? ==> p.nextOffset.value == p.offset + p.pageBytes && p.pageBytes > 0)
  }

  ghost predicate Linked(c: Codec, source: Bytes, pages: seq<Page>) {
    && pages != [] && pages[0].offset == 0
    && (forall i :: 0 <= i < |pages| ==> TrueOf(c, source, pages[i]))
    && (forall i :: 1 <= i < |pages| ==> pages[i - 1].nextOffset == Some(pages[i].offset))
  }

  lemma ChainIsLinked(c: Codec, source: Bytes, inputs: seq<SourcePage>, sizes: seq<nat>, pages: seq<Page>)
    requires Lawful(c) && Chain(c, source, inputs, sizes, pages)
    ensures Linked(c, source, pages)
  {
    forall i | 0 <= i < |pages| ensures TrueOf(c, source, pages[i]) { PageHolds(c, source, inputs[i], sizes[i], pages[i]); }
  }

  lemma PageHolds(c: Codec, source: Bytes, s: SourcePage, n: nat, p: Page)
    requires Lawful(c) && HonestPage(c, source, s, n, p)
    ensures TrueOf(c, source, p)
  {
    assert Decode(c, Encode(c, s.data[..n])) == Some(s.data[..n]);
    SliceOf(source, s.offset, |s.data|, n);
  }

  lemma SliceOf(source: Bytes, at: nat, len: nat, n: nat)
    requires n <= len && at + len <= |source|
    ensures source[at..at + len][..n] == source[at..at + n]
  {}

  ghost predicate HoldsPrefix(c: Codec, source: Bytes, pages: seq<Page>)
    requires pages != []
  {
    var last := pages[|pages| - 1];
    last.offset + last.pageBytes <= |source| && Assemble(c, pages) == source[..last.offset + last.pageBytes]
  }

  lemma {:induction false} LinkedHoldsPrefix(c: Codec, source: Bytes, pages: seq<Page>)
    requires Linked(c, source, pages)
    ensures HoldsPrefix(c, source, pages) && |pages| <= pages[|pages| - 1].offset + 1
    decreases |pages|
  {
    var (k, front) := (|pages| - 1, pages[..|pages| - 1]);
    assert TrueOf(c, source, pages[k]);
    if k > 0 {
      assert TrueOf(c, source, pages[k - 1]) && pages[k - 1].nextOffset == Some(pages[k].offset);
      LinkedHoldsPrefix(c, source, front);
    }
    HoldsNext(c, source, pages);
  }

  lemma HoldsNext(c: Codec, source: Bytes, pages: seq<Page>)
    requires pages != [] && TrueOf(c, source, pages[|pages| - 1])
    requires var (k, front) := (|pages| - 1, pages[..|pages| - 1]);
             if k == 0 then pages[0].offset == 0
             else HoldsPrefix(c, source, front) && pages[k].offset == pages[k - 1].offset + pages[k - 1].pageBytes
    ensures HoldsPrefix(c, source, pages)
  {
    var p := pages[|pages| - 1];
    assert source[..p.offset] + source[p.offset..p.offset + p.pageBytes] == source[..p.offset + p.pageBytes];
  }

  /** Any chain holds exactly the source up to where its last page ends, and it is no longer than the source:
      every page but a final empty one makes progress. */
  lemma ChainHoldsPrefix(c: Codec, source: Bytes, inputs: seq<SourcePage>, sizes: seq<nat>, pages: seq<Page>)
    requires Lawful(c) && Chain(c, source, inputs, sizes, pages)
    ensures HoldsPrefix(c, source, pages) && |pages| <= pages[|pages| - 1].offset + 1
  {
    ChainIsLinked(c, source, inputs, sizes, pages);
    LinkedHoldsPrefix(c, source, pages);
  }

  /** Reading until eof reassembles the source byte for byte; every chain is at most as long as the source
      has bytes, plus one, so following `next_offset` always ends. */
  lemma ChainReassembles(c: Codec, source: Bytes, inputs: seq<SourcePage>, sizes: seq<nat>, pages: seq<Page>)
    requires Lawful(c) && Chain(c, source, inputs, sizes, pages)
    ensures |pages| <= |source| + 1
    ensures pages[|pages| - 1].eof <==> Assemble(c, pages) == source
    ensures !pages[|pages| - 1].eof ==> |pages| <= |source|
  {
    ChainHoldsPrefix(c, source, inputs, sizes, pages);
    var k := |pages| - 1;
    assert HonestPage(c, source, inputs[k], sizes[k], pages[k]);
    var last := pages[k];
    assert source[..|source|] == source;
    assert |source[..last.offset + last.pageBytes]| == last.offset + last.pageBytes;
  }

  /** Answering a page's own continuation with a validated page of the same source continues the chain, and always
      further into the source. */
  lemma ContinuationExtends(c: Codec, source: Bytes, inputs: seq<SourcePage>, sizes: seq<nat>, pages: seq<Page>, s: SourcePage, n: nat)
    requires Lawful(c) && Chain(c, source, inputs, sizes, pages) && pages[|pages| - 1].nextRead.Some?
    requires var read := pages[|pages| - 1].nextRead.value; CapabilityOk(c, s, read.locator, read.offset, read.limit)
    requires s.total == |source| && s.data == source[s.offset..s.offset + |s.data|]
    requires n <= |s.data| && Accepts(c, RenderPage(c, s, s.data[..n]))
    ensures var p := RenderPage(c, s, s.data[..n]);
            Chain(c, source, inputs + [s], sizes + [n], pages + [p]) && p.offset + p.pageBytes > pages[|pages| - 1].offset + pages[|pages| - 1].pageBytes
  {
    var k := |pages| - 1;
    assert HonestPage(c, source, inputs[k], sizes[k], pages[k]);
    var p := RenderPage(c, s, s.data[..n]);
    assert HonestPage(c, source, s, n, p);
    RenderedAccepted(c, s, n);
    forall i | 0 <= i < k + 2 ensures HonestPage(c, source, (inputs + [s])[i], (sizes + [n])[i], (pages + [p])[i]) {
      assert i <= k ==> HonestPage(c, source, inputs[i], sizes[i], pages[i]);
    }
  }
}
