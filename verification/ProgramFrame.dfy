/** Which bytes are accepted as the frame of the program output: a small, complete PNG of a fixed size. */
module ProgramFrames {
  import opened Wrappers

  type Byte = b: int | 0 <= b < 256

  /** A chunk of a PNG datastream, as section 3.2 of RFC 2083 lays it out. */
  datatype Chunk = Chunk(kind: seq<Byte>, data: seq<Byte>)

  /** The checksum over the type and the data of a chunk. */
  type Checksum = seq<Byte> -> nat

  const WORD: nat := 0x1_0000_0000
  const SIGNATURE: seq<Byte> := [137, 80, 78, 71, 13, 10, 26, 10]
  const IHDR: seq<Byte> := [73, 72, 68, 82]
  const IDAT: seq<Byte> := [73, 68, 65, 84]
  const IEND: seq<Byte> := [73, 69, 78, 68]
  const WIDTH: nat := 320
  const HEIGHT: nat := 180
  const MAX_BYTES: nat := 400_000
  const MAX_CHUNKS: nat := 128

  /** Four bytes, the most significant one first. */
  function Number(b: seq<Byte>): (n: nat)
    requires |b| == 4
    ensures n < WORD
  {
    ((b[0] as int * 256 + b[1] as int) * 256 + b[2] as int) * 256 + b[3] as int
  }

  function Word(n: nat): (b: seq<Byte>)
    requires n < WORD
    ensures |b| == 4
  {
    [n / 256 / 256 / 256, n / 256 / 256 % 256, n / 256 % 256, n % 256]
  }

  lemma NumberOfWord(n: nat)
    requires n < WORD
    ensures Number(Word(n)) == n
  {
    var high := n / 256;
    assert n == high * 256 + n % 256;
    assert high == high / 256 * 256 + high % 256;
  }

  lemma Digit(q: int, r: int, n: int)
    requires 0 <= r < 256 && n == q * 256 + r
    ensures n / 256 == q && n % 256 == r
  {}

  lemma WordOfNumber(b: seq<Byte>)
    requires |b| == 4
    ensures Word(Number(b)) == b
  {
    var b0: int, b1: int, b2: int, b3: int := b[0], b[1], b[2], b[3];
    Digit((b0 * 256 + b1) * 256 + b2, b3, Number(b));
    Digit(b0 * 256 + b1, b2, (b0 * 256 + b1) * 256 + b2);
    Digit(b0, b1, b0 * 256 + b1);
  }

  ghost predicate Shaped(c: Chunk) {
    |c.kind| == 4 && |c.data| < WORD
  }

  function Sum(crc: Checksum, c: Chunk): (n: nat)
    ensures n < WORD
  {
    crc(c.kind + c.data) % WORD
  }

  function EncodeChunk(crc: Checksum, c: Chunk): (b: seq<Byte>)
    requires Shaped(c)
    ensures |b| == |c.data| + 12
  {
    Word(|c.data|) + c.kind + c.data + Word(Sum(crc, c))
  }

  ghost predicate AllShaped(cs: seq<Chunk>) {
    forall i | 0 <= i < |cs| :: Shaped(cs[i])
  }

  function Encode(crc: Checksum, cs: seq<Chunk>): seq<Byte>
    requires AllShaped(cs)
  {
    if cs == [] then [] else EncodeChunk(crc, cs[0]) + Encode(crc, cs[1..])
  }

  /** A header for 320x180 first, image data, and one empty end chunk, which is last. */
  ghost predicate Complete(cs: seq<Chunk>) {
    && 1 <= |cs| <= MAX_CHUNKS && AllShaped(cs)
    && cs[0].kind == IHDR && |cs[0].data| == 13
    && Number(cs[0].data[..4]) == WIDTH && Number(cs[0].data[4..8]) == HEIGHT
    && (exists i :: 0 <= i < |cs| && cs[i].kind == IDAT)
    && (forall i | 0 <= i < |cs| :: cs[i].kind == IEND <==> i == |cs| - 1)
    && cs[|cs| - 1].data == []
  }

  /** What a program frame is, without reference to how it is read. */
  ghost predicate IsProgramFrame(crc: Checksum, image: seq<Byte>) {
    && 33 <= |image| <= MAX_BYTES
    && exists cs: seq<Chunk> :: Complete(cs) && image == SIGNATURE + Encode(crc, cs)
  }

  /** The chunk that starts a sequence of bytes, if there is one. */
  function First(crc: Checksum, b: seq<Byte>): (c: Option<Chunk>)
    ensures c.Some? ==> Shaped(c.value) && |c.value.data| + 12 <= |b|
  {
    if |b| < 12 then None
    else
      var n := Number(b[..4]);
      if 12 + n > |b| then None
      else
        var c := Chunk(b[4..8], b[8..8 + n]);
        if Sum(crc, c) != Number(b[8 + n..12 + n]) then None else Some(c)
  }

  function Parse(crc: Checksum, b: seq<Byte>): (cs: Option<seq<Chunk>>)
    ensures cs.Some? ==> AllShaped(cs.value)
    decreases |b|
  {
    if b == [] then Some([])
    else
      var c := First(crc, b);
      if c.None? then None
      else
        var rest := Parse(crc, b[|c.value.data| + 12..]);
        if rest.None? then None else Some([c.value] + rest.value)
  }

  lemma FirstOfEncoded(crc: Checksum, c: Chunk, rest: seq<Byte>)
    requires Shaped(c)
    ensures First(crc, EncodeChunk(crc, c) + rest) == Some(c)
  {
    var b := EncodeChunk(crc, c) + rest;
    var n := |c.data|;
    assert b[..4] == Word(n) && b[4..8] == c.kind && b[8..8 + n] == c.data && b[8 + n..12 + n] == Word(Sum(crc, c));
    NumberOfWord(n);
    NumberOfWord(Sum(crc, c));
  }

  lemma EncodedFirst(crc: Checksum, b: seq<Byte>)
    requires First(crc, b).Some?
    ensures var c := First(crc, b).value; b == EncodeChunk(crc, c) + b[|c.data| + 12..]
  {
    var c := First(crc, b).value;
    var n := |c.data|;
    WordOfNumber(b[..4]);
    WordOfNumber(b[8 + n..12 + n]);
    assert b == b[..4] + b[4..8] + b[8..8 + n] + b[8 + n..12 + n] + b[12 + n..];
  }

  lemma ParseStep(crc: Checksum, b: seq<Byte>)
    requires b != [] && First(crc, b).Some?
    ensures var c := First(crc, b).value;
            Parse(crc, b) == Prepend([c], Parse(crc, b[|c.data| + 12..]))
  {}

  function Prepend(cs: seq<Chunk>, rest: Option<seq<Chunk>>): Option<seq<Chunk>> {
    if rest.None? then None else Some(cs + rest.value)
  }

  lemma EncodeStep(crc: Checksum, cs: seq<Chunk>)
    requires AllShaped(cs) && cs != []
    ensures AllShaped(cs[1..]) && Encode(crc, cs) == EncodeChunk(crc, cs[0]) + Encode(crc, cs[1..])
  {}

  /** Reading what was written gives it back. */
  lemma {:induction false} ParseOfEncoded(crc: Checksum, cs: seq<Chunk>)
    requires AllShaped(cs)
    ensures Parse(crc, Encode(crc, cs)) == Some(cs)
  {
    if cs != [] {
      hide EncodeChunk, Encode, Parse, First;
      EncodeStep(crc, cs);
      var rest := Encode(crc, cs[1..]);
      FirstOfEncoded(crc, cs[0], rest);
      ParseStep(crc, EncodeChunk(crc, cs[0]) + rest);
      assert (EncodeChunk(crc, cs[0]) + rest)[|cs[0].data| + 12..] == rest;
      ParseOfEncoded(crc, cs[1..]);
      assert [cs[0]] + cs[1..] == cs;
    }
  }

  /** Writing what was read gives it back. */
  lemma {:induction false} EncodedParse(crc: Checksum, b: seq<Byte>)
    requires Parse(crc, b).Some?
    ensures Encode(crc, Parse(crc, b).value) == b
    decreases |b|
  {
    if b != [] {
      var c := First(crc, b).value;
      EncodedFirst(crc, b);
      EncodedParse(crc, b[|c.data| + 12..]);
      var cs := Parse(crc, b).value;
      assert cs[1..] == Parse(crc, b[|c.data| + 12..]).value;
    }
  }

  /** Bytes can be read as chunks in one way only. */
  lemma FrameIsParsed(crc: Checksum, image: seq<Byte>)
    requires |image| >= 8
    ensures IsProgramFrame(crc, image) <==>
            && 33 <= |image| <= MAX_BYTES && image[..8] == SIGNATURE
            && Parse(crc, image[8..]).Some? && Complete(Parse(crc, image[8..]).value)
  {
    if IsProgramFrame(crc, image) {
      var cs: seq<Chunk> :| Complete(cs) && image == SIGNATURE + Encode(crc, cs);
      assert image[8..] == Encode(crc, cs);
      ParseOfEncoded(crc, cs);
    }
    if image[..8] == SIGNATURE && Parse(crc, image[8..]).Some? {
      EncodedParse(crc, image[8..]);
      assert image == SIGNATURE + image[8..];
    }
  }

  lemma {:induction false} EncodeConcat(crc: Checksum, a: seq<Chunk>, b: seq<Chunk>)
    requires AllShaped(a) && AllShaped(b)
    ensures AllShaped(a + b) && Encode(crc, a + b) == Encode(crc, a) + Encode(crc, b)
  {
    hide EncodeChunk;
    if a == [] {
      assert a + b == b;
    } else {
      hide Encode;
      assert (a + b)[0] == a[0] && (a + b)[1..] == a[1..] + b;
      EncodeConcat(crc, a[1..], b);
      EncodeStep(crc, a);
      EncodeStep(crc, a + b);
    }
  }

  /** A first and a last chunk, at the two ends of the bytes. */
  lemma Ends(crc: Checksum, cs: seq<Chunk>)
    requires AllShaped(cs) && cs != []
    ensures EncodeChunk(crc, cs[0]) <= Encode(crc, cs)
    ensures var b, last := Encode(crc, cs), EncodeChunk(crc, cs[|cs| - 1]);
            |last| <= |b| && b[|b| - |last|..] == last
  {
    hide EncodeChunk;
    var n := |cs| - 1;
    assert cs == cs[..n] + [cs[n]];
    EncodeConcat(crc, cs[..n], [cs[n]]);
    assert Encode(crc, [cs[n]]) == EncodeChunk(crc, cs[n]);
  }

  lemma FieldsOfChunk(crc: Checksum, c: Chunk)
    requires Shaped(c)
    ensures var b := EncodeChunk(crc, c);
            && b[4..8] == c.kind
            && (|c.data| >= 8 ==> b[8..12] == c.data[..4] && b[12..16] == c.data[4..8])
  {}

  /** The places at which the fields of a frame must be. */
  lemma FieldsOfFrame(crc: Checksum, image: seq<Byte>)
    requires IsProgramFrame(crc, image)
    ensures image[..8] == SIGNATURE && image[12..16] == IHDR
    ensures Number(image[16..20]) == WIDTH && Number(image[20..24]) == HEIGHT
    ensures image[|image| - 8..|image| - 4] == IEND
  {
    hide EncodeChunk, Encode, Number;
    var cs: seq<Chunk> :| Complete(cs) && image == SIGNATURE + Encode(crc, cs);
    var first, last := EncodeChunk(crc, cs[0]), EncodeChunk(crc, cs[|cs| - 1]);
    Ends(crc, cs);
    FieldsOfChunk(crc, cs[0]);
    FieldsOfChunk(crc, cs[|cs| - 1]);
    assert image[8..8 + |first|] == first;
    assert image[12..16] == first[4..8] && image[16..20] == first[8..12] && image[20..24] == first[12..16];
    assert image[|image| - 12..] == last && image[|image| - 8..|image| - 4] == last[4..8];
  }

  /** Reads the chunk at an offset; fails if it does not fit or its checksum is wrong. */
  method ReadChunk(crc: Checksum, image: seq<Byte>, offset: nat) returns (c: Option<Chunk>)
    requires offset < |image|
    ensures c == First(crc, image[offset..])
  {
    ghost var b := image[offset..];
    if offset + 12 > |image| {
      return None;
    }
    assert b[..4] == image[offset..offset + 4];
    var length := Number(image[offset..offset + 4]);
    var end := offset + 12 + length;
    if end > |image| {
      return None;
    }
    var chunk := Chunk(image[offset + 4..offset + 8], image[offset + 8..offset + 8 + length]);
    assert chunk == Chunk(b[4..8], b[8..8 + length]);
    assert b[8 + length..12 + length] == image[offset + 8 + length..end];
    if Sum(crc, chunk) != Number(image[offset + 8 + length..end]) {
      return None;
    }
    c := Some(chunk);
  }

  /** What the walk knows of the chunks behind it. */
  ghost predicate Walked(cs: seq<Chunk>, sawData: bool, sawEnd: bool, left: nat) {
    && |cs| <= MAX_CHUNKS && AllShaped(cs)
    && (cs != [] ==> cs[0].kind == IHDR && |cs[0].data| == 13)
    && (sawData <==> exists i :: 0 <= i < |cs| && cs[i].kind == IDAT)
    && (sawEnd ==> left == 0 && cs != [] && cs[|cs| - 1].kind == IEND && cs[|cs| - 1].data == [])
    && (forall i | 0 <= i < |cs| :: cs[i].kind == IEND <==> sawEnd && i == |cs| - 1)
  }

  lemma WalkOn(cs: seq<Chunk>, sawData: bool, sawEnd: bool, c: Chunk, left: nat)
    requires Walked(cs, sawData, sawEnd, |c.data| + 12 + left) && |cs| < MAX_CHUNKS && Shaped(c)
    requires cs == [] ==> c.kind == IHDR && |c.data| == 13
    requires c.kind == IEND ==> c.data == [] && left == 0
    ensures !sawEnd && Walked(cs + [c], sawData || c.kind == IDAT, c.kind == IEND, left)
  {
    var all := cs + [c];
    assert all[|cs|] == c;
    if sawData {
      var i :| 0 <= i < |cs| && cs[i].kind == IDAT;
      assert all[i].kind == IDAT;
    }
  }

  /** Why the walk may give up: no continuation makes the chunks complete. */
  lemma Hopeless(cs: seq<Chunk>, c: Chunk, rest: seq<Chunk>)
    requires AllShaped(cs) && Shaped(c) && AllShaped(rest)
    requires || |cs| >= MAX_CHUNKS
             || (cs == [] && (c.kind != IHDR || |c.data| != 13))
             || (c.kind == IEND && (c.data != [] || rest != []))
    ensures !Complete(cs + ([c] + rest))
  {
    var all := cs + ([c] + rest);
    assert all[|cs|] == c;
  }

  /** At the end of the walk nothing is missing but what was not seen. */
  lemma WalkEnds(cs: seq<Chunk>, sawData: bool, sawEnd: bool)
    requires Walked(cs, sawData, sawEnd, 0)
    requires cs != [] ==> Number(cs[0].data[..4]) == WIDTH && Number(cs[0].data[4..8]) == HEIGHT
    ensures Complete(cs) <==> sawData && sawEnd
  {
    hide Number;
    if Complete(cs) {
      assert cs[|cs| - 1].kind == IEND;
    }
  }

  /** No bytes are the encoding of two lists of chunks. */
  lemma OneReading(crc: Checksum, a: seq<Chunk>, b: seq<Chunk>)
    requires AllShaped(a) && AllShaped(b) && Encode(crc, a) == Encode(crc, b)
    ensures a == b
  {
    ParseOfEncoded(crc, a);
    ParseOfEncoded(crc, b);
  }

  /** Complete chunks are accepted once encoded, unless they are too many bytes; the lower bound never matters. */
  lemma EncodedIsAccepted(crc: Checksum, cs: seq<Chunk>)
    requires Complete(cs)
    ensures var image := SIGNATURE + Encode(crc, cs);
            |image| >= 57 && (IsProgramFrame(crc, image) <==> |image| <= MAX_BYTES)
  {
    hide EncodeChunk, Number;
    var i :| 0 <= i < |cs| && cs[i].kind == IDAT;
    EncodeStep(crc, cs);
    EncodeStep(crc, cs[1..]);
    assert cs[1..][1..] == cs[2..];
    Ends(crc, cs[2..]);
  }

  lemma FrameIsLong(crc: Checksum, image: seq<Byte>)
    requires IsProgramFrame(crc, image)
    ensures 33 <= |image| <= MAX_BYTES
  {}

  lemma NothingWalked(left: nat, rest: Option<seq<Chunk>>)
    ensures Walked([], false, false, left) && Prepend([], rest) == rest
  {
    if rest.Some? {
      assert [] + rest.value == rest.value;
    }
  }

  lemma NoChunk(crc: Checksum, b: seq<Byte>)
    requires b != [] && First(crc, b).None?
    ensures Parse(crc, b) == None
  {}

  lemma NothingParsed(crc: Checksum)
    ensures Parse(crc, []) == Some([])
  {}

  /** The first chunk of an image carries its size where the header has it. */
  lemma HeaderData(crc: Checksum, image: seq<Byte>)
    requires |image| > 8 && First(crc, image[8..]).Some? && |First(crc, image[8..]).value.data| == 13
    ensures var c := First(crc, image[8..]).value; c.data[..4] == image[16..20] && c.data[4..8] == image[20..24]
  {
    hide Number, Sum;
    var b := image[8..];
    assert First(crc, b).value.data == b[8..21];
    SliceOfSlice(b, 8, 21, 0, 4);
    SliceOfSlice(b, 8, 21, 4, 8);
    SliceOfSlice(image, 8, |image|, 8, 12);
    SliceOfSlice(image, 8, |image|, 12, 16);
  }

  lemma SliceOfSlice(s: seq<Byte>, from: nat, to: nat, low: nat, high: nat)
    requires low <= high <= to - from && to <= |s|
    ensures s[from..to][low..high] == s[from + low..from + high]
  {
    var a, b := s[from..to][low..high], s[from + low..from + high];
    forall i | 0 <= i < high - low
      ensures a[i] == b[i]
    {
      assert a[i] == s[from..to][low + i];
    }
  }

  lemma GivingUp(crc: Checksum, cs: seq<Chunk>, b: seq<Byte>, sawData: bool, sawEnd: bool)
    requires b != [] && First(crc, b).Some? && Walked(cs, sawData, sawEnd, |b|)
    requires var c := First(crc, b).value;
             || |cs| >= MAX_CHUNKS
             || (cs == [] && (c.kind != IHDR || |c.data| != 13))
             || (c.kind == IEND && (c.data != [] || |c.data| + 12 != |b|))
    ensures var all := Prepend(cs, Parse(crc, b)); all.Some? ==> !Complete(all.value)
  {
    hide First, Complete;
    var c := First(crc, b).value;
    var left := b[|c.data| + 12..];
    ParseStep(crc, b);
    if Parse(crc, left).Some? {
      if |c.data| + 12 != |b| {
        SomethingParsed(crc, left);
      }
      Hopeless(cs, c, Parse(crc, left).value);
    }
  }

  lemma PrependFurther(cs: seq<Chunk>, c: Chunk, rest: Option<seq<Chunk>>)
    ensures Prepend(cs, Prepend([c], rest)) == Prepend(cs + [c], rest)
  {
    if rest.Some? {
      assert cs + ([c] + rest.value) == (cs + [c]) + rest.value;
    }
  }

  lemma NothingLeft(cs: seq<Chunk>)
    ensures Prepend(cs, Some([])) == Some(cs) && Prepend(cs, None) == None
  {
    assert cs + [] == cs;
  }

  lemma SomethingParsed(crc: Checksum, b: seq<Byte>)
    requires b != [] && Parse(crc, b).Some?
    ensures Parse(crc, b).value != []
  {}

  /** Walks over the chunks: accepts the image if and only if it is a program frame. */
  method Decode(crc: Checksum, image: seq<Byte>) returns (ok: bool)
    ensures ok <==> IsProgramFrame(crc, image)
  {
    hide Number, First, Parse, Complete, Walked, IsProgramFrame, AllShaped, Prepend;
    if IsProgramFrame(crc, image) {
      FrameIsLong(crc, image);
      FieldsOfFrame(crc, image);
    }
    if !(33 <= |image| <= MAX_BYTES) || image[..8] != SIGNATURE || image[12..16] != IHDR
       || Number(image[16..20]) != WIDTH || Number(image[20..24]) != HEIGHT
       || image[|image| - 8..|image| - 4] != IEND {
      return false;
    }
    FrameIsParsed(crc, image);
    ghost var cs: seq<Chunk> := [];
    ghost var all := Parse(crc, image[8..]);
    var offset, count, sawData, sawEnd := 8, 0, false, false;
    NothingWalked(|image| - 8, all);
    while offset < |image|
      invariant 8 <= offset <= |image| && count == |cs| <= MAX_CHUNKS
      invariant all == Prepend(cs, Parse(crc, image[offset..]))
      invariant Walked(cs, sawData, sawEnd, |image| - offset)
      invariant if cs == [] then offset == 8
                else |cs[0].data| == 13 && cs[0].data[..4] == image[16..20] && cs[0].data[4..8] == image[20..24]
      decreases |image| - offset
    {
      count := count + 1;
      var c := ReadChunk(crc, image, offset);
      if c.None? {
        NoChunk(crc, image[offset..]);
        NothingLeft(cs);
        return false;
      }
      var chunk := c.value;
      var end := offset + 12 + |chunk.data|;
      if count > MAX_CHUNKS
         || (count == 1 && (chunk.kind != IHDR || |chunk.data| != 13))
         || (chunk.kind == IEND && (|chunk.data| != 0 || end != |image|)) {
        GivingUp(crc, cs, image[offset..], sawData, sawEnd);
        return false;
      }
      ParseStep(crc, image[offset..]);
      assert image[offset..][|chunk.data| + 12..] == image[end..];
      ghost var rest := Parse(crc, image[end..]);
      PrependFurther(cs, chunk, rest);
      WalkOn(cs, sawData, sawEnd, chunk, |image| - end);
      if count == 1 {
        HeaderData(crc, image);
      }
      if chunk.kind == IDAT {
        sawData := true;
      }
      if chunk.kind == IEND {
        sawEnd := true;
      }
      cs := cs + [chunk];
      offset := end;
    }
    assert image[offset..] == [];
    NothingParsed(crc);
    NothingLeft(cs);
    WalkEnds(cs, sawData, sawEnd);
    ok := sawData && sawEnd;
  }

  /** The value of four bytes, of which the first counts most. */
  function Value(b: seq<Byte>): nat
    requires |b| == 4
  {
    b[0] as nat * 0x100_0000 + b[1] as nat * 0x1_0000 + b[2] as nat * 0x100 + b[3] as nat
  }

  /**
    The bytes between two cuts, as they lie in the image: four of length, four of type, as many of
    data as the length says, and four of checksum over type and data.
   */
  ghost predicate IsChunk(crc: Checksum, image: seq<Byte>, from: nat, to: nat) {
    && from + 12 <= to <= |image|
    && Value(image[from..from + 4]) == to - from - 12
    && Value(image[to - 4..to]) == crc(image[from + 4..to - 4]) % WORD
  }

  function TypeAt(image: seq<Byte>, from: nat): seq<Byte> {
    if from + 8 <= |image| then image[from + 4..from + 8] else []
  }

  ghost predicate IsCut(crc: Checksum, image: seq<Byte>, cuts: seq<nat>) {
    && cuts != [] && cuts[|cuts| - 1] == |image|
    && forall i | 0 <= i < |cuts| - 1 :: IsChunk(crc, image, cuts[i], cuts[i + 1])
  }

  /** A program frame in terms of its bytes: behind the signature, cuts that leave nothing over. */
  ghost predicate IsFrameOfBytes(crc: Checksum, image: seq<Byte>, cuts: seq<nat>) {
    && 33 <= |image| <= MAX_BYTES && image[..8] == SIGNATURE
    && 2 <= |cuts| <= MAX_CHUNKS + 1 && cuts[0] == 8 && IsCut(crc, image, cuts)
    && TypeAt(image, cuts[0]) == IHDR && cuts[1] == 33
    && Value(image[16..20]) == WIDTH && Value(image[20..24]) == HEIGHT
    && (exists i :: 0 <= i < |cuts| - 1 && TypeAt(image, cuts[i]) == IDAT)
    && (forall i | 0 <= i < |cuts| - 1 :: TypeAt(image, cuts[i]) == IEND <==> i == |cuts| - 2)
    && cuts[|cuts| - 2] == |image| - 12
  }

  ghost predicate LiesBetween(image: seq<Byte>, from: nat, to: nat, c: Chunk) {
    from + 12 <= to <= |image| && c == Chunk(TypeAt(image, from), image[from + 8..to - 4])
  }

  /** These chunks lie between these cuts. */
  ghost predicate AllBetween(image: seq<Byte>, cuts: seq<nat>, cs: seq<Chunk>) {
    |cuts| == |cs| + 1 && forall i | 0 <= i < |cs| :: LiesBetween(image, cuts[i], cuts[i + 1], cs[i])
  }

  lemma NumberIsValue(b: seq<Byte>)
    requires |b| == 4
    ensures Number(b) == Value(b)
  {}

  /** The parts of a chunk are the same parts of the image. */
  lemma PartsOfChunk(image: seq<Byte>, from: nat, n: nat)
    requires from + 12 + n <= |image|
    ensures var b, to := image[from..], from + n + 12;
            && b[..4] == image[from..from + 4] && b[4..8] == TypeAt(image, from)
            && b[8..8 + n] == image[from + 8..to - 4] && b[8 + n..12 + n] == image[to - 4..to]
            && b[4..8] + b[8..8 + n] == image[from + 4..to - 4]
  {}

  lemma FirstIsChunk(crc: Checksum, image: seq<Byte>, from: nat)
    requires from <= |image| && First(crc, image[from..]).Some?
    ensures var c := First(crc, image[from..]).value;
            var to := from + |c.data| + 12;
            IsChunk(crc, image, from, to) && LiesBetween(image, from, to, c) && to <= |image|
  {
    hide Number, Value, TypeAt;
    var c := First(crc, image[from..]).value;
    var to := from + |c.data| + 12;
    PartsOfChunk(image, from, |c.data|);
    NumberIsValue(image[from..from + 4]);
    NumberIsValue(image[to - 4..to]);
  }

  lemma ChunkIsFirst(crc: Checksum, image: seq<Byte>, from: nat, to: nat)
    requires IsChunk(crc, image, from, to)
    ensures from + 12 <= to <= |image| && First(crc, image[from..]).Some?
    ensures var c := First(crc, image[from..]).value; |c.data| + 12 == to - from && LiesBetween(image, from, to, c)
  {
    hide Number, Value, TypeAt;
    PartsOfChunk(image, from, to - from - 12);
    NumberIsValue(image[from..from + 4]);
    NumberIsValue(image[to - 4..to]);
  }

  lemma CutBefore(crc: Checksum, image: seq<Byte>, from: nat, cuts: seq<nat>, c: Chunk, cs: seq<Chunk>)
    requires IsCut(crc, image, cuts) && AllBetween(image, cuts, cs)
    requires IsChunk(crc, image, from, cuts[0]) && LiesBetween(image, from, cuts[0], c)
    ensures IsCut(crc, image, [from] + cuts) && AllBetween(image, [from] + cuts, [c] + cs)
  {
    hide IsChunk, LiesBetween;
    var all := [from] + cuts;
    forall i | 0 <= i < |all| - 1
      ensures IsChunk(crc, image, all[i], all[i + 1])
    {
      assert i > 0 ==> IsChunk(crc, image, cuts[i - 1], cuts[i]);
    }
    forall i | 0 <= i < |cs| + 1
      ensures LiesBetween(image, all[i], all[i + 1], ([c] + cs)[i])
    {
      assert i > 0 ==> LiesBetween(image, cuts[i - 1], cuts[i], cs[i - 1]);
    }
  }

  lemma LaterCuts(crc: Checksum, image: seq<Byte>, cuts: seq<nat>)
    requires IsCut(crc, image, cuts) && |cuts| > 1
    ensures IsChunk(crc, image, cuts[0], cuts[1]) && IsCut(crc, image, cuts[1..])
  {
    hide IsChunk;
    forall i | 0 <= i < |cuts[1..]| - 1
      ensures IsChunk(crc, image, cuts[1..][i], cuts[1..][i + 1])
    {
      assert IsChunk(crc, image, cuts[i + 1], cuts[i + 2]);
    }
  }

  lemma NothingCut(crc: Checksum, image: seq<Byte>)
    ensures IsCut(crc, image, [|image|]) && AllBetween(image, [|image|], [])
  {}

  /** Where the chunks that are read begin and end. */
  lemma {:induction false} ParsedIsCut(crc: Checksum, image: seq<Byte>, from: nat) returns (cuts: seq<nat>)
    requires from <= |image| && Parse(crc, image[from..]).Some?
    ensures IsCut(crc, image, cuts) && cuts != [] && cuts[0] == from
    ensures AllBetween(image, cuts, Parse(crc, image[from..]).value)
    decreases |image| - from
  {
    hide First, IsChunk, IsCut, LiesBetween, AllBetween, Parse;
    if from == |image| {
      assert image[from..] == [];
      NothingParsed(crc);
      NothingCut(crc, image);
      cuts := [from];
    } else {
      if First(crc, image[from..]).None? {
        NoChunk(crc, image[from..]);
      }
      var c := First(crc, image[from..]).value;
      var to := from + |c.data| + 12;
      FirstIsChunk(crc, image, from);
      ParseStep(crc, image[from..]);
      assert image[from..][|c.data| + 12..] == image[to..];
      var rest := ParsedIsCut(crc, image, to);
      CutBefore(crc, image, from, rest, c, Parse(crc, image[to..]).value);
      cuts := [from] + rest;
    }
  }

  /** What lies between cuts is read. */
  lemma {:induction false} CutIsParsed(crc: Checksum, image: seq<Byte>, cuts: seq<nat>)
    requires IsCut(crc, image, cuts) && cuts[0] <= |image|
    ensures Parse(crc, image[cuts[0]..]).Some? && AllBetween(image, cuts, Parse(crc, image[cuts[0]..]).value)
    decreases |cuts|
  {
    hide First, IsChunk, LiesBetween, Parse;
    if |cuts| == 1 {
      assert cuts == [|image|] && image[|image|..] == [];
      NothingParsed(crc);
      NothingCut(crc, image);
    } else {
      LaterCuts(crc, image, cuts);
      ChunkIsFirst(crc, image, cuts[0], cuts[1]);
      ParseStep(crc, image[cuts[0]..]);
      assert image[cuts[0]..][cuts[1] - cuts[0]..] == image[cuts[1]..];
      CutIsParsed(crc, image, cuts[1..]);
      CutBefore(crc, image, cuts[0], cuts[1..], First(crc, image[cuts[0]..]).value, Parse(crc, image[cuts[1]..]).value);
      assert [cuts[0]] + cuts[1..] == cuts;
    }
  }

  lemma OneBetween(image: seq<Byte>, from: nat, to: nat, c: Chunk)
    requires LiesBetween(image, from, to, c)
    ensures from + 12 <= to <= |image| && c.kind == TypeAt(image, from) && |c.data| == to - from - 12
  {}

  lemma SizeBetween(image: seq<Byte>, c: Chunk)
    requires LiesBetween(image, 8, 33, c)
    ensures |image| >= 33 && |c.data| == 21 - 8
    ensures Number(c.data[..4]) == Value(image[16..20]) && Number(c.data[4..8]) == Value(image[20..24])
  {
    hide Number, Value;
    SliceOfSlice(image, 16, 29, 0, 4);
    SliceOfSlice(image, 16, 29, 4, 8);
    NumberIsValue(image[16..20]);
    NumberIsValue(image[20..24]);
  }

  /** Complete chunks, and the same of the bytes between the cuts. */
  lemma CompleteBetween(crc: Checksum, image: seq<Byte>, cuts: seq<nat>, cs: seq<Chunk>)
    requires IsCut(crc, image, cuts) && cuts[0] == 8 && AllBetween(image, cuts, cs) && AllShaped(cs)
    requires 33 <= |image| <= MAX_BYTES && image[..8] == SIGNATURE
    ensures Complete(cs) <==> IsFrameOfBytes(crc, image, cuts)
  {
    hide IsChunk, Number, Value, LiesBetween, TypeAt, Shaped;
    forall i | 0 <= i < |cs|
      ensures cs[i].kind == TypeAt(image, cuts[i]) && cuts[i] + 12 + |cs[i].data| == cuts[i + 1]
    {
      OneBetween(image, cuts[i], cuts[i + 1], cs[i]);
    }
    if cs != [] && cuts[1] == 33 {
      SizeBetween(image, cs[0]);
    }
  }

  /** What a program frame is, said of its bytes: the same as said of its chunks. */
  lemma FrameOfBytes(crc: Checksum, image: seq<Byte>)
    ensures IsProgramFrame(crc, image) <==> exists cuts :: IsFrameOfBytes(crc, image, cuts)
  {
    hide Complete, IsCut, AllBetween, Parse;
    if IsProgramFrame(crc, image) {
      FrameIsLong(crc, image);
      FrameIsParsed(crc, image);
      var cuts := ParsedIsCut(crc, image, 8);
      CompleteBetween(crc, image, cuts, Parse(crc, image[8..]).value);
    }
    if cuts :| IsFrameOfBytes(crc, image, cuts) {
      CutIsParsed(crc, image, cuts);
      CompleteBetween(crc, image, cuts, Parse(crc, image[8..]).value);
      FrameIsParsed(crc, image);
    }
  }
}
