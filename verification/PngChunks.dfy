/**
  Chunk parsing of the PNG decoder, against the chunk layout of sections 3.2 and
  4.1.3 of RFC 2083, and the whole decoder with `inflate` as a parameter.
 */
module PngChunks {
  import opened Wrappers
  import F = PngFilters

  type Byte = F.Byte

  const MAGIC: seq<Byte> := [0x89, 0x50, 0x4e, 0x47, 0x0d, 0x0a, 0x1a, 0x0a]
  const IHDR: seq<Byte> := [0x49, 0x48, 0x44, 0x52]
  const IDAT: seq<Byte> := [0x49, 0x44, 0x41, 0x54]
  const IEND: seq<Byte> := [0x49, 0x45, 0x4e, 0x44]

  datatype Error = BadMagic | OutOfRange | BadDepth | BadColorType | Interlaced | Inflate | Filter(row: nat)

  /** What the chunk loop collects. */
  datatype Parsed = Parsed(width: nat, height: nat, colorType: nat, idat: seq<Byte>)

  const NOTHING := Parsed(0, 0, 0, [])

  // ---------------------------------------------------------------------
  // Bytes
  // ---------------------------------------------------------------------

  function BigEndian(b0: nat, b1: nat, b2: nat, b3: nat): nat {
    ((b0 * 256 + b1) * 256 + b2) * 256 + b3
  }

  function ReadU32(b: seq<Byte>, at: nat): nat
    requires at + 4 <= |b|
  {
    BigEndian(b[at], b[at + 1], b[at + 2], b[at + 3])
  }

  lemma MostSignificantFirst(b: seq<Byte>, at: nat)
    requires at + 4 <= |b|
    ensures ReadU32(b, at)
         == b[at] as int * 0x100_0000 + b[at + 1] as int * 0x1_0000 + b[at + 2] as int * 0x100 + b[at + 3] as int
  {
  }

  function WriteU32(n: nat): (b: seq<Byte>)
    requires n < 0x1_0000_0000
    ensures |b| == 4
  {
    [n / 256 / 256 / 256, n / 256 / 256 % 256, n / 256 % 256, n % 256]
  }

  /** A slice that stops at the end of the buffer. */
  function Slice(b: seq<Byte>, from: nat, to: nat): seq<Byte>
    requires from <= to
  {
    if from >= |b| then [] else if to >= |b| then b[from..] else b[from..to]
  }

  /** Decoding bytes as ASCII drops their high bit. */
  function Ascii(b: seq<Byte>): seq<Byte> {
    seq(|b|, i requires 0 <= i < |b| => b[i] % 128)
  }

  // ---------------------------------------------------------------------
  // The chunk loop
  // ---------------------------------------------------------------------

  /** What one chunk does to the collected state. All header fields are read before any is checked. */
  function ApplyChunk(acc: Parsed, kind: seq<Byte>, data: seq<Byte>): Result<Parsed, Error> {
    if kind == IHDR then
      if |data| < 13 then Err(OutOfRange)
      else if data[8] != 8 then Err(BadDepth)
      else if data[9] != 2 && data[9] != 6 then Err(BadColorType)
      else if data[12] != 0 then Err(Interlaced)
      else Ok(Parsed(ReadU32(data, 0), ReadU32(data, 4), data[9], acc.idat))
    else if kind == IDAT then Ok(acc.(idat := acc.idat + data))
    else Ok(acc)
  }

  /** The loop from a cursor on. */
  function Walk(buf: seq<Byte>, cursor: nat, acc: Parsed): Result<Parsed, Error>
    decreases |buf| - cursor
  {
    if cursor >= |buf| then Ok(acc)
    else if cursor + 4 > |buf| then Err(OutOfRange)
    else
      var length := ReadU32(buf, cursor);
      var kind := Ascii(Slice(buf, cursor + 4, cursor + 8));
      var data := Slice(buf, cursor + 8, cursor + 8 + length);
      match ApplyChunk(acc, kind, data)
      case Err(e) => Err(e)
      case Ok(acc') => if kind == IEND then Ok(acc') else Walk(buf, cursor + 12 + length, acc')
  }

  method CheckMagic(buf: seq<Byte>) returns (ok: bool)
    ensures ok <==> MAGIC <= buf
  {
    for i := 0 to 8
      invariant i <= |buf| && buf[..i] == MAGIC[..i]
    {
      if i >= |buf| || buf[i] != MAGIC[i] {
        return false;
      }
    }
    ok := true;
  }

  method ParseChunks(buf: seq<Byte>) returns (r: Result<Parsed, Error>)
    ensures r == if MAGIC <= buf then Walk(buf, 8, NOTHING) else Err(BadMagic)
  {
    hide Walk;
    var ok := CheckMagic(buf);
    if !ok {
      return Err(BadMagic);
    }
    var cursor, acc := 8, NOTHING;
    while cursor < |buf|
      invariant 8 <= cursor && Walk(buf, cursor, acc) == Walk(buf, 8, NOTHING)
      decreases |buf| - cursor
    {
      WalkStep(buf, cursor, acc);
      if cursor + 4 > |buf| {
        return Err(OutOfRange);
      }
      var length := ReadU32(buf, cursor);
      var kind := Ascii(Slice(buf, cursor + 4, cursor + 8));
      var data := Slice(buf, cursor + 8, cursor + 8 + length);
      var applied := ApplyChunk(acc, kind, data);
      if applied.Err? || kind == IEND {
        return applied;
      }
      acc := applied.value;
      cursor := cursor + 12 + length;
    }
    WalkDone(buf, cursor, acc);
    r := Ok(acc);
  }

  lemma {:induction false} WalkStep(buf: seq<Byte>, cursor: nat, acc: Parsed)
    requires cursor < |buf|
    ensures Walk(buf, cursor, acc)
         == if cursor + 4 > |buf| then Err(OutOfRange)
            else
              var length := ReadU32(buf, cursor);
              var kind := Ascii(Slice(buf, cursor + 4, cursor + 8));
              var applied := ApplyChunk(acc, kind, Slice(buf, cursor + 8, cursor + 8 + length));
              if applied.Err? || kind == IEND then applied else Walk(buf, cursor + 12 + length, applied.value)
  {
  }

  lemma {:induction false} WalkDone(buf: seq<Byte>, cursor: nat, acc: Parsed)
    requires cursor >= |buf|
    ensures Walk(buf, cursor, acc) == Ok(acc)
  {
  }

  // ---------------------------------------------------------------------
  // Well-formed files
  // ---------------------------------------------------------------------

  datatype Chunk = Chunk(kind: seq<Byte>, data: seq<Byte>, crc: seq<Byte>)

  /** Four type bytes, a length that fits its field, four CRC bytes. */
  ghost predicate Formed(c: Chunk) {
    |c.kind| == 4 && |c.crc| == 4 && |c.data| < 0x1_0000_0000
  }

  function SerializeChunk(c: Chunk): seq<Byte>
    requires Formed(c)
  {
    WriteU32(|c.data|) + c.kind + c.data + c.crc
  }

  function Serialize(cs: seq<Chunk>): seq<Byte>
    requires forall i :: 0 <= i < |cs| ==> Formed(cs[i])
  {
    if cs == [] then [] else SerializeChunk(cs[0]) + Serialize(cs[1..])
  }

  /** The loop's meaning on a chunk sequence rather than on bytes. */
  function Fold(cs: seq<Chunk>, acc: Parsed): Result<Parsed, Error>
    decreases |cs|
  {
    if cs == [] then Ok(acc)
    else
      match ApplyChunk(acc, Ascii(cs[0].kind), cs[0].data)
      case Err(e) => Err(e)
      case Ok(acc') => if Ascii(cs[0].kind) == IEND then Ok(acc') else Fold(cs[1..], acc')
  }

  predicate HasEnd(cs: seq<Chunk>) {
    exists i | 0 <= i < |cs| :: Ascii(cs[i].kind) == IEND
  }

  lemma ReadWriteU32(n: nat, before: seq<Byte>, after: seq<Byte>)
    requires n < 0x1_0000_0000
    ensures ReadU32(before + WriteU32(n) + after, |before|) == n
  {
  }

  lemma FieldsOfChunk(before: seq<Byte>, c: Chunk, after: seq<Byte>)
    requires Formed(c)
    ensures var buf := before + SerializeChunk(c) + after; var at := |before|; var n := |c.data|;
            && |SerializeChunk(c)| == 12 + n && at + 4 <= |buf|
            && ReadU32(buf, at) == n
            && Slice(buf, at + 4, at + 8) == c.kind
            && Slice(buf, at + 8, at + 8 + n) == c.data
  {
  }

  /** One turn of the loop, given the fields it reads. */
  lemma {:induction false} WalkTurn(buf: seq<Byte>, at: nat, acc: Parsed, c: Chunk)
    requires at + 4 <= |buf| && ReadU32(buf, at) == |c.data|
    requires Slice(buf, at + 4, at + 8) == c.kind && Slice(buf, at + 8, at + 8 + |c.data|) == c.data
    ensures Walk(buf, at, acc)
         == match ApplyChunk(acc, Ascii(c.kind), c.data)
            case Err(e) => Err(e)
            case Ok(acc') => if Ascii(c.kind) == IEND then Ok(acc') else Walk(buf, at + 12 + |c.data|, acc')
  {
    hide Walk;
    WalkStep(buf, at, acc);
  }

  lemma {:induction false} WalkOneChunk(before: seq<Byte>, c: Chunk, after: seq<Byte>, acc: Parsed)
    requires Formed(c)
    ensures var buf := before + SerializeChunk(c) + after;
            Walk(buf, |before|, acc)
            == match ApplyChunk(acc, Ascii(c.kind), c.data)
               case Err(e) => Err(e)
               case Ok(acc') =>
                 if Ascii(c.kind) == IEND then Ok(acc') else Walk(buf, |before + SerializeChunk(c)|, acc')
  {
    hide Walk;
    FieldsOfChunk(before, c, after);
    WalkTurn(before + SerializeChunk(c) + after, |before|, acc, c);
  }

  lemma {:induction false} SplitHead(before: seq<Byte>, cs: seq<Chunk>, after: seq<Byte>)
    requires cs != [] && forall i :: 0 <= i < |cs| ==> Formed(cs[i])
    ensures var head, tail := SerializeChunk(cs[0]), Serialize(cs[1..]);
            before + Serialize(cs) + after == before + head + (tail + after) == (before + head) + tail + after
  {
  }

  /**
    On a serialised chunk sequence the byte loop does exactly what the sequence
    says, up to the first IEND; what follows an IEND is not looked at.
   */
  lemma {:induction false} WalkIsFold(before: seq<Byte>, cs: seq<Chunk>, after: seq<Byte>, acc: Parsed)
    requires forall i :: 0 <= i < |cs| ==> Formed(cs[i])
    requires after == [] || HasEnd(cs)
    ensures Walk(before + Serialize(cs) + after, |before|, acc) == Fold(cs, acc)
    decreases |cs|
  {
    if cs != [] {
      var head, tail := SerializeChunk(cs[0]), Serialize(cs[1..]);
      SplitHead(before, cs, after);
      WalkOneChunk(before, cs[0], tail + after, acc);
      var applied := ApplyChunk(acc, Ascii(cs[0].kind), cs[0].data);
      if applied.Ok? && Ascii(cs[0].kind) != IEND {
        WalkIsFold(before + head, cs[1..], after, applied.value);
      }
    }
  }

  // ---------------------------------------------------------------------
  // What is refused
  // ---------------------------------------------------------------------

  /** The bytes of an ASCII name. */
  function Bytes(name: string): seq<Byte>
    requires forall i :: 0 <= i < |name| ==> name[i] as int < 128
  {
    seq(|name|, i requires 0 <= i < |name| => name[i] as int)
  }

  lemma KindNames()
    ensures IHDR == Bytes("IHDR") && IDAT == Bytes("IDAT") && IEND == Bytes("IEND")
  {
  }

  /**
    Exactly when a leading header is refused, by the bytes of the file: less than 13 bytes
    of it are there, depth other than 8, colour type other than 2 and 6, interlacing, in
    this order. Otherwise the loop goes on with the dimensions it names.
   */
  lemma {:induction false} HeaderRefused(buf: seq<Byte>)
    requires |buf| >= 16 && buf[12..16] == Bytes("IHDR")
    ensures var n := ReadU32(buf, 8); var there := if 16 + n <= |buf| then n else |buf| - 16;
            var r := Walk(buf, 8, NOTHING);
            if there < 13 then r == Err(OutOfRange)
            else if buf[24] != 8 then r == Err(BadDepth)
            else if buf[25] != 2 && buf[25] != 6 then r == Err(BadColorType)
            else if buf[28] != 0 then r == Err(Interlaced)
            else r == Walk(buf, 20 + n, Parsed(ReadU32(buf, 16), ReadU32(buf, 20), buf[25], []))
  {
    KindNames();
    WalkStep(buf, 8, NOTHING);
    hide Walk;
    var n := ReadU32(buf, 8);
    var data := Slice(buf, 16, 16 + n);
    assert Slice(buf, 12, 16) == buf[12..16];
    assert Ascii(IHDR) == IHDR && IHDR != IEND;
    assert |data| == if 16 + n <= |buf| then n else |buf| - 16;
    assert forall i :: 0 <= i < |data| ==> data[i] == buf[16 + i];
  }

  /** One to three bytes where a chunk should start are refused. */
  lemma {:induction false} StrayBytesRefused(before: seq<Byte>, stray: seq<Byte>, acc: Parsed)
    requires 1 <= |stray| <= 3
    ensures Walk(before + stray, |before|, acc) == Err(OutOfRange)
  {
  }

  /** Image data cut short by the end of the file is accepted as far as it goes. */
  lemma {:induction false} TruncatedDataAccepted(before: seq<Byte>, n: nat, data: seq<Byte>, acc: Parsed)
    requires |data| < n < 0x1_0000_0000
    ensures Walk(before + WriteU32(n) + Bytes("IDAT") + data, |before|, acc) == Ok(acc.(idat := acc.idat + data))
  {
    hide Walk;
    KindNames();
    var at := |before|;
    var buf := before + WriteU32(n) + IDAT + data;
    assert buf == before + WriteU32(n) + (IDAT + data);
    ReadWriteU32(n, before, IDAT + data);
    hide ReadU32;
    hide WriteU32;
    assert Slice(buf, at + 4, at + 8) == IDAT && Slice(buf, at + 8, at + 8 + n) == data;
    assert Ascii(IDAT) == IDAT && IDAT != IEND && IDAT != IHDR;
    WalkStep(buf, at, acc);
    WalkDone(buf, at + 12 + n, acc.(idat := acc.idat + data));
  }

  // ---------------------------------------------------------------------
  // What the result depends on
  // ---------------------------------------------------------------------

  /** The chunks before the first IEND. */
  function BeforeEnd(cs: seq<Chunk>): seq<Chunk> {
    if cs == [] || Ascii(cs[0].kind) == IEND then [] else [cs[0]] + BeforeEnd(cs[1..])
  }

  function IdatData(cs: seq<Chunk>): seq<Byte> {
    if cs == [] then [] else (if Ascii(cs[0].kind) == IDAT then cs[0].data else []) + IdatData(cs[1..])
  }

  function HeaderData(cs: seq<Chunk>): seq<seq<Byte>> {
    if cs == [] then [] else (if Ascii(cs[0].kind) == IHDR then [cs[0].data] else []) + HeaderData(cs[1..])
  }

  function FoldHeaders(hs: seq<seq<Byte>>, acc: Parsed): Result<Parsed, Error> {
    if hs == [] then Ok(acc)
    else match ApplyChunk(acc, IHDR, hs[0]) case Err(e) => Err(e) case Ok(acc') => FoldHeaders(hs[1..], acc')
  }

  ghost function WithIdat(r: Result<Parsed, Error>, idat: seq<Byte>): Result<Parsed, Error> {
    match r case Err(e) => Err(e) case Ok(p) => Ok(p.(idat := idat))
  }

  lemma {:induction false} HeadersIgnoreIdat(hs: seq<seq<Byte>>, acc: Parsed, idat: seq<Byte>, other: seq<Byte>)
    ensures WithIdat(FoldHeaders(hs, acc.(idat := idat)), other) == WithIdat(FoldHeaders(hs, acc), other)
    decreases |hs|
  {
    if hs != [] {
      var a := ApplyChunk(acc, IHDR, hs[0]);
      if a.Ok? {
        HeadersIgnoreIdat(hs[1..], a.value, idat, other);
      }
    }
  }

  /** What the first chunk adds to the headers and to the image data. */
  lemma {:induction false} FirstChunk(cs: seq<Chunk>)
    requires cs != [] && Ascii(cs[0].kind) != IEND
    ensures var kind, data, kept, tail := Ascii(cs[0].kind), cs[0].data, BeforeEnd(cs), BeforeEnd(cs[1..]);
            && HeaderData(kept) == (if kind == IHDR then [data] else []) + HeaderData(tail)
            && IdatData(kept) == (if kind == IDAT then data else []) + IdatData(tail)
  {
    var kept := BeforeEnd(cs);
    assert kept[0] == cs[0] && kept[1..] == BeforeEnd(cs[1..]);
  }

  lemma {:induction false} HeadersCons(data: seq<Byte>, hs: seq<seq<Byte>>, acc: Parsed)
    ensures FoldHeaders([data] + hs, acc)
         == match ApplyChunk(acc, IHDR, data) case Err(e) => Err(e) case Ok(acc') => FoldHeaders(hs, acc')
  {
    assert ([data] + hs)[1..] == hs;
  }

  lemma {:induction false} FoldCons(cs: seq<Chunk>, acc: Parsed)
    requires cs != [] && Ascii(cs[0].kind) != IEND
    ensures var applied := ApplyChunk(acc, Ascii(cs[0].kind), cs[0].data);
            Fold(cs, acc) == if applied.Err? then applied else Fold(cs[1..], applied.value)
  {
    hide ApplyChunk;
  }

  /** Only a header can fail, and it leaves the image data alone; image data is appended; the rest is ignored. */
  lemma ChunkEffect(acc: Parsed, kind: seq<Byte>, data: seq<Byte>)
    ensures var applied := ApplyChunk(acc, kind, data);
            if kind == IHDR then applied.Ok? ==> applied.value.idat == acc.idat
            else applied == Ok(if kind == IDAT then acc.(idat := acc.idat + data) else acc)
  {
  }

  /** One chunk in front of the rest, in terms of what the rest contributes. */
  lemma {:induction false} SummaryStep(acc: Parsed, kind: seq<Byte>, data: seq<Byte>,
                                       hs: seq<seq<Byte>>, idat: seq<Byte>, rest: Result<Parsed, Error>)
    requires var applied := ApplyChunk(acc, kind, data);
             applied.Ok? ==> rest == WithIdat(FoldHeaders(hs, applied.value), applied.value.idat + idat)
    ensures var applied := ApplyChunk(acc, kind, data);
            var hs', idat' := (if kind == IHDR then [data] else []) + hs, (if kind == IDAT then data else []) + idat;
            (if applied.Err? then applied else rest) == WithIdat(FoldHeaders(hs', acc), acc.idat + idat')
  {
    hide FoldHeaders;
    ChunkEffect(acc, kind, data);
    hide ApplyChunk;
    assert [] + hs == hs && [] + idat == idat;
    if kind == IHDR {
      assert kind != IDAT;
      HeadersCons(data, hs, acc);
    } else if kind == IDAT {
      HeadersIgnoreIdat(hs, acc, acc.idat + data, acc.idat + data + idat);
      assert (acc.idat + data) + idat == acc.idat + (data + idat);
    }
  }

  /** The headers before IEND and the joined IDAT bytes determine everything. */
  lemma {:induction false} FoldSummary(cs: seq<Chunk>, acc: Parsed)
    ensures Fold(cs, acc)
         == WithIdat(FoldHeaders(HeaderData(BeforeEnd(cs)), acc), acc.idat + IdatData(BeforeEnd(cs)))
    decreases |cs|
  {
    if cs == [] || Ascii(cs[0].kind) == IEND {
      assert acc.idat + [] == acc.idat;
    } else {
      hide Fold;
      hide ApplyChunk;
      hide Ascii;
      hide HeaderData;
      hide IdatData;
      hide BeforeEnd;
      hide FoldHeaders;
      hide WithIdat;
      var kind, data, tail := Ascii(cs[0].kind), cs[0].data, BeforeEnd(cs[1..]);
      FirstChunk(cs);
      FoldCons(cs, acc);
      var applied := ApplyChunk(acc, kind, data);
      if applied.Ok? {
        FoldSummary(cs[1..], applied.value);
        SummaryStep(acc, kind, data, HeaderData(tail), IdatData(tail), Fold(cs[1..], applied.value));
      } else {
        SummaryStep(acc, kind, data, HeaderData(tail), IdatData(tail), applied);
      }
    }
  }

  /**
    Two well-formed files with the same headers and the same joined image data
    parse alike, however the data is split over IDAT chunks and whatever ancillary
    chunks stand in between.
   */
  lemma SplitDoesNotMatter(a: seq<Chunk>, b: seq<Chunk>, endA: seq<Byte>, endB: seq<Byte>)
    requires forall i :: 0 <= i < |a| ==> Formed(a[i])
    requires forall i :: 0 <= i < |b| ==> Formed(b[i])
    requires (endA == [] || HasEnd(a)) && (endB == [] || HasEnd(b))
    requires HeaderData(BeforeEnd(a)) == HeaderData(BeforeEnd(b))
    requires IdatData(BeforeEnd(a)) == IdatData(BeforeEnd(b))
    ensures Walk(MAGIC + Serialize(a) + endA, 8, NOTHING) == Walk(MAGIC + Serialize(b) + endB, 8, NOTHING)
  {
    WalkIsFold(MAGIC, a, endA, NOTHING);
    WalkIsFold(MAGIC, b, endB, NOTHING);
    FoldSummary(a, NOTHING);
    FoldSummary(b, NOTHING);
  }

  // ---------------------------------------------------------------------
  // The whole decoder
  // ---------------------------------------------------------------------

  datatype Image = Image(width: nat, height: nat, rgba: seq<Byte>)

  type Inflater = seq<Byte> -> Option<seq<Byte>>

  function DecodePng(inflate: Inflater, buf: seq<Byte>): Result<Image, Error> {
    if !(MAGIC <= buf) then Err(BadMagic)
    else match Walk(buf, 8, NOTHING)
      case Err(e) => Err(e)
      case Ok(p) =>
        match inflate(p.idat)
        case None => Err(Inflate)
        case Some(inflated) =>
          match F.DecodePixels(inflated, p.width, p.height, if p.colorType == 6 then 4 else 3)
          case Err(e) => Err(Filter(e.row))
          case Ok(rgba) => Ok(Image(p.width, p.height, rgba))
  }

  method Decode(inflate: Inflater, buf: seq<Byte>) returns (r: Result<Image, Error>)
    ensures r == DecodePng(inflate, buf)
  {
    var parsed := ParseChunks(buf);
    if parsed.Err? {
      return Err(parsed.error);
    }
    var p := parsed.value;
    var inflated := inflate(p.idat);
    if inflated.None? {
      return Err(Inflate);
    }
    var pixels := F.Decode(inflated.value, p.width, p.height, if p.colorType == 6 then 4 else 3);
    match pixels {
      case Err(e) => r := Err(Filter(e.row));
      case Ok(rgba) => r := Ok(Image(p.width, p.height, rgba));
    }
  }

  function HeaderBytes(width: nat, height: nat, channels: nat): (b: seq<Byte>)
    requires width < 0x1_0000_0000 && height < 0x1_0000_0000 && 3 <= channels <= 4
    ensures |b| == 13
  {
    WriteU32(width) + WriteU32(height) + [8, if channels == 4 then 6 else 2, 0, 0, 0]
  }

  /** The chunk loop of a conforming file ends with its dimensions and its joined image data. */
  lemma {:induction false} ParsesConformingFile(width: nat, height: nat, channels: nat, cs: seq<Chunk>,
                                                after: seq<Byte>)
    requires width < 0x1_0000_0000 && height < 0x1_0000_0000 && 3 <= channels <= 4
    requires forall i :: 0 <= i < |cs| ==> Formed(cs[i])
    requires after == [] || HasEnd(cs)
    requires HeaderData(BeforeEnd(cs)) == [HeaderBytes(width, height, channels)]
    ensures Walk(MAGIC + Serialize(cs) + after, 8, NOTHING)
         == Ok(Parsed(width, height, if channels == 4 then 6 else 2, IdatData(BeforeEnd(cs))))
  {
    WalkIsFold(MAGIC, cs, after, NOTHING);
    FoldSummary(cs, NOTHING);
    HeaderParses(width, height, channels);
    assert NOTHING.idat + IdatData(BeforeEnd(cs)) == IdatData(BeforeEnd(cs));
  }

  /**
    Any conforming encoding of an image decodes to that image: any filter per row,
    any split of the compressed data, any ancillary chunks, any bytes after IEND.
   */
  lemma {:induction false} DecodesConformingFile(inflate: Inflater, rows: seq<seq<Byte>>, width: nat, channels: nat,
                                                 filters: seq<Byte>, cs: seq<Chunk>, after: seq<Byte>)
    requires width < 0x1_0000_0000 && |rows| < 0x1_0000_0000 && 3 <= channels <= 4
    requires F.AllOfLength(rows, width * channels) && |filters| == |rows| && F.KnownFilters(filters)
    requires forall i :: 0 <= i < |cs| ==> Formed(cs[i])
    requires after == [] || HasEnd(cs)
    requires HeaderData(BeforeEnd(cs)) == [HeaderBytes(width, |rows|, channels)]
    requires inflate(IdatData(BeforeEnd(cs)))
          == Some(F.EncodeRows(filters, channels, F.Zeros(width * channels), rows))
    ensures DecodePng(inflate, MAGIC + Serialize(cs) + after)
         == Ok(Image(width, |rows|, F.ExpandRows(rows, channels, width)))
  {
    hide Walk;
    hide Serialize;
    hide F.DecodePixels;
    ParsesConformingFile(width, |rows|, channels, cs, after);
    F.PixelsAfterEncode(filters, rows, width, channels);
  }

  /** Decoded if every row has a known filter byte or there is nothing to reconstruct; else the first bad row. */
  ghost predicate DecodedOrFirstBad(r: Result<Image, Error>, data: seq<Byte>, stride: nat, height: nat) {
    && (r.Err? ==> r.error.Filter?)
    && F.FirstBad(if r.Ok? then None else Some(r.error.row), data, stride, 0, height)
  }

  lemma {:induction false} DecodeGiven(inflate: Inflater, buf: seq<Byte>, p: Parsed)
    requires MAGIC <= buf && Walk(buf, 8, NOTHING) == Ok(p)
    ensures var r := DecodePng(inflate, buf); var data := inflate(p.idat);
            var stride := p.width * if p.colorType == 6 then 4 else 3;
            if data.None? then r == Err(Inflate) else DecodedOrFirstBad(r, data.value, stride, p.height)
  {
    var channels := if p.colorType == 6 then 4 else 3;
    var data := inflate(p.idat);
    hide Walk;
    hide F.FirstBad;
    hide F.DecodeRows;
    hide F.ExpandRows;
    if data.Some? {
      F.DecodesIff(data.value, channels, F.Zeros(p.width * channels), 0, p.height);
    }
  }

  /** A file whose data does not inflate, or has a bad filter byte, fails as such, naming the first bad row. */
  lemma {:induction false} ConformingHeaderFails(inflate: Inflater, width: nat, height: nat, channels: nat, stride: nat,
                                                 cs: seq<Chunk>, after: seq<Byte>)
    requires stride == width * channels && width < 0x1_0000_0000 && height < 0x1_0000_0000 && 3 <= channels <= 4
    requires forall i :: 0 <= i < |cs| ==> Formed(cs[i])
    requires after == [] || HasEnd(cs)
    requires HeaderData(BeforeEnd(cs)) == [HeaderBytes(width, height, channels)]
    ensures var r := DecodePng(inflate, MAGIC + Serialize(cs) + after);
            var data := inflate(IdatData(BeforeEnd(cs)));
            if data.None? then r == Err(Inflate) else DecodedOrFirstBad(r, data.value, stride, height)
  {
    hide Walk;
    hide Serialize;
    hide HeaderData;
    hide HeaderBytes;
    hide IdatData;
    hide BeforeEnd;
    hide DecodePng;
    hide DecodedOrFirstBad;
    ParsesConformingFile(width, height, channels, cs, after);
    assert MAGIC <= MAGIC + (Serialize(cs) + after) == MAGIC + Serialize(cs) + after;
    var p := Parsed(width, height, if channels == 4 then 6 else 2, IdatData(BeforeEnd(cs)));
    DecodeGiven(inflate, MAGIC + Serialize(cs) + after, p);
  }

  lemma HeaderParses(width: nat, height: nat, channels: nat)
    requires width < 0x1_0000_0000 && height < 0x1_0000_0000 && 3 <= channels <= 4
    ensures ApplyChunk(NOTHING, IHDR, HeaderBytes(width, height, channels))
         == Ok(Parsed(width, height, if channels == 4 then 6 else 2, []))
  {
    hide ReadU32;
    hide WriteU32;
    var tail := [8, if channels == 4 then 6 else 2, 0, 0, 0];
    var header := HeaderBytes(width, height, channels);
    assert header == [] + WriteU32(width) + (WriteU32(height) + tail) == WriteU32(width) + WriteU32(height) + tail;
    ReadWriteU32(width, [], WriteU32(height) + tail);
    ReadWriteU32(height, WriteU32(width), tail);
  }
}
