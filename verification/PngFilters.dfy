/**
  Scanline reconstruction and RGBA expansion of the PNG decoder, against the
  filters of section 6 of RFC 2083.
 */
module PngFilters {
  import opened Wrappers

  type Byte = x: int | 0 <= x < 256

  // ---------------------------------------------------------------------
  // The standard's filters
  // ---------------------------------------------------------------------

  function Abs(x: int): nat {
    if x < 0 then -x else x
  }

  /** Section 6.6 of RFC 2083, as the decoder computes it. */
  function Paeth(left: Byte, up: Byte, upLeft: Byte): Byte {
    var p := left + up - upLeft;
    var pa, pb, pc := Abs(p - left), Abs(p - up), Abs(p - upLeft);
    if pa <= pb && pa <= pc then left else if pb <= pc then up else upLeft
  }

  /** The predictor is the neighbour nearest to the gradient estimate; ties go to left, then up. */
  lemma PaethIsNearest(left: Byte, up: Byte, upLeft: Byte)
    ensures var p := left + up - upLeft; var r := Paeth(left, up, upLeft);
            && r in {left, up, upLeft}
            && Abs(p - r) <= Abs(p - left) && Abs(p - r) <= Abs(p - up) && Abs(p - r) <= Abs(p - upLeft)
            && (Abs(p - left) == Abs(p - r) ==> r == left)
            && (Abs(p - left) != Abs(p - r) && Abs(p - up) == Abs(p - r) ==> r == up)
  {
  }

  /** What a filter predicts a byte to be from its reconstructed neighbours. */
  function Predictor(filter: Byte, left: Byte, up: Byte, upLeft: Byte): Byte
    requires filter <= 4
  {
    if filter == 0 then 0
    else if filter == 1 then left
    else if filter == 2 then up
    else if filter == 3 then (left + up) / 2
    else Paeth(left, up, upLeft)
  }

  /** The predictor at position x of a row, given the row above. Bytes off the left edge count as 0. */
  function PredictAt(filter: Byte, bpp: nat, above: seq<Byte>, row: seq<Byte>, x: nat): Byte
    requires filter <= 4 && 1 <= bpp && x < |above| && x < |row| + bpp
  {
    Predictor(filter, if x >= bpp then row[x - bpp] else 0, above[x], if x >= bpp then above[x - bpp] else 0)
  }

  /** The standard's encoder for one scanline. */
  function FilterRow(filter: Byte, bpp: nat, above: seq<Byte>, row: seq<Byte>): (line: seq<Byte>)
    requires filter <= 4 && 1 <= bpp && |above| == |row|
    ensures |line| == |row|
  {
    seq(|row|, x requires 0 <= x < |row| => (row[x] - PredictAt(filter, bpp, above, row, x)) % 256)
  }

  // ---------------------------------------------------------------------
  // Reconstruction of one scanline
  // ---------------------------------------------------------------------

  /** One reconstructed byte; a byte missing from the inflated data reads as 0. */
  function Reconstructed(filter: Byte, bpp: nat, above: seq<Byte>, line: seq<Byte>, row: seq<Byte>, x: nat): Byte
    requires filter <= 4 && 1 <= bpp && x < |above| && x < |row| + bpp
  {
    if x < |line| then (line[x] + PredictAt(filter, bpp, above, row, x)) % 256 else 0
  }

  /** The first n reconstructed bytes of a row. */
  function UnfilterUpTo(filter: Byte, bpp: nat, above: seq<Byte>, line: seq<Byte>, n: nat): (row: seq<Byte>)
    requires filter <= 4 && 1 <= bpp && n <= |above|
    ensures |row| == n
  {
    if n == 0 then []
    else
      var row := UnfilterUpTo(filter, bpp, above, line, n - 1);
      row + [Reconstructed(filter, bpp, above, line, row, n - 1)]
  }

  function UnfilterRow(filter: Byte, bpp: nat, above: seq<Byte>, line: seq<Byte>): (row: seq<Byte>)
    requires filter <= 4 && 1 <= bpp
    ensures |row| == |above|
  {
    UnfilterUpTo(filter, bpp, above, line, |above|)
  }

  lemma {:induction false} UnfilterAt(filter: Byte, bpp: nat, above: seq<Byte>, line: seq<Byte>, n: nat, x: nat)
    requires filter <= 4 && 1 <= bpp && x < n <= |above|
    ensures var row := UnfilterUpTo(filter, bpp, above, line, n);
            row[x] == Reconstructed(filter, bpp, above, line, row, x)
  {
    if x < n - 1 {
      UnfilterAt(filter, bpp, above, line, n - 1, x);
    }
  }

  /**
    What each filter reconstructs, as section 6 of RFC 2083 defines it: with `left`, `up`
    and `upLeft` the neighbours (0 off the left edge), add nothing, left, up, the average
    of left and up rounded down, or the Paeth neighbour, modulo 256.
   */
  ghost predicate ByStandard(filter: int, raw: int, left: int, up: int, upLeft: int, value: int) {
    && (filter == 0 ==> value == raw)
    && (filter == 1 ==> value == (raw + left) % 256)
    && (filter == 2 ==> value == (raw + up) % 256)
    && (filter == 3 ==> value == (raw + (left + up) / 2) % 256)
    && (filter == 4 ==> IsPaeth((value - raw) % 256, left, up, upLeft))
  }

  lemma PredictsByStandard(filter: Byte, raw: Byte, left: Byte, up: Byte, upLeft: Byte)
    requires filter <= 4
    ensures ByStandard(filter, raw, left, up, upLeft, (raw + Predictor(filter, left, up, upLeft)) % 256)
  {
    PaethIsNearest(left, up, upLeft);
    AddThenSubtract(raw, Paeth(left, up, upLeft));
  }

  lemma AddThenSubtract(b: int, p: int)
    requires 0 <= b < 256 && 0 <= p < 256
    ensures ((b + p) % 256 - b) % 256 == p
  {
  }

  /** Every reconstructed byte is the standard's; one that is missing from the inflated data reads as 0. */
  lemma {:induction false} ReconstructsByStandard(filter: Byte, bpp: nat, above: seq<Byte>, line: seq<Byte>, x: nat)
    requires filter <= 4 && 1 <= bpp && x < |above|
    ensures var row := UnfilterRow(filter, bpp, above, line);
            var left := if x >= bpp then row[x - bpp] else 0;
            var upLeft := if x >= bpp then above[x - bpp] else 0;
            if x < |line| then ByStandard(filter, line[x], left, above[x], upLeft, row[x]) else row[x] == 0
  {
    UnfilterAt(filter, bpp, above, line, |above|, x);
    if x < |line| {
      var row := UnfilterRow(filter, bpp, above, line);
      var left: Byte := if x >= bpp then row[x - bpp] else 0;
      var upLeft: Byte := if x >= bpp then above[x - bpp] else 0;
      hide ByStandard;
      hide UnfilterRow;
      hide Predictor;
      PredictsByStandard(filter, line[x], left, above[x], upLeft);
    }
  }

  /** r is the neighbour nearest to left + up - upLeft; ties go to left, then up. */
  ghost predicate IsPaeth(r: int, left: int, up: int, upLeft: int) {
    var p := left + up - upLeft;
    var d := Abs(p - r);
    && d <= Abs(p - left) && d <= Abs(p - up) && d <= Abs(p - upLeft)
    && (r == left || (Abs(p - left) > d && (r == up || (Abs(p - up) > d && r == upLeft))))
  }

  /** Filtering what was reconstructed gives the encoded line back. */
  lemma FilterAfterUnfilter(filter: Byte, bpp: nat, above: seq<Byte>, line: seq<Byte>)
    requires filter <= 4 && 1 <= bpp && |line| == |above|
    ensures FilterRow(filter, bpp, above, UnfilterRow(filter, bpp, above, line)) == line
  {
    var row := UnfilterRow(filter, bpp, above, line);
    forall x | 0 <= x < |line| ensures FilterRow(filter, bpp, above, row)[x] == line[x] {
      UnfilterAt(filter, bpp, above, line, |above|, x);
    }
  }

  /** Reconstructing a filtered row gives the row back. */
  lemma {:induction false} UnfilterAfterFilter(filter: Byte, bpp: nat, above: seq<Byte>, row: seq<Byte>, n: nat)
    requires filter <= 4 && 1 <= bpp && |row| == |above| && n <= |row|
    ensures UnfilterUpTo(filter, bpp, above, FilterRow(filter, bpp, above, row), n) == row[..n]
  {
    if n > 0 {
      var x := n - 1;
      UnfilterAfterFilter(filter, bpp, above, row, x);
      assert PredictAt(filter, bpp, above, row[..x], x) == PredictAt(filter, bpp, above, row, x);
      var p: int, b: int := PredictAt(filter, bpp, above, row, x), row[x];
      assert ((b - p) % 256 + p) % 256 == b;
    }
  }

  // ---------------------------------------------------------------------
  // Whole images
  // ---------------------------------------------------------------------

  function Zeros(n: nat): (s: seq<Byte>)
    ensures |s| == n && forall i :: 0 <= i < n ==> s[i] == 0
  {
    seq(n, _ => 0)
  }

  function Drop<T>(s: seq<T>, n: nat): seq<T> {
    if n <= |s| then s[n..] else []
  }

  function Take<T>(s: seq<T>, n: nat): seq<T> {
    if n <= |s| then s[..n] else s
  }

  ghost predicate KnownFilters(filters: seq<Byte>) {
    forall i :: 0 <= i < |filters| ==> filters[i] <= 4
  }

  ghost predicate AllOfLength(rows: seq<seq<Byte>>, n: nat) {
    forall i :: 0 <= i < |rows| ==> |rows[i]| == n
  }

  datatype Error = UnknownFilter(row: nat)

  /** An unknown filter byte is an error as soon as the row has a byte to reconstruct. */
  predicate BadFilter(inflated: seq<Byte>, stride: nat) {
    stride > 0 && (inflated == [] || inflated[0] > 4)
  }

  /** One scanline off the front of the inflated data. */
  function NextRow(inflated: seq<Byte>, bpp: nat, above: seq<Byte>): (row: seq<Byte>)
    requires 1 <= bpp && !BadFilter(inflated, |above|)
    ensures |row| == |above|
  {
    if |above| == 0 then [] else UnfilterRow(inflated[0], bpp, above, Take(inflated[1..], |above|))
  }

  /** The decoder's rows: `y` is the number of the next row, `height` how many are left. */
  function DecodeRows(inflated: seq<Byte>, bpp: nat, above: seq<Byte>, y: nat, height: nat)
    : (r: Result<seq<seq<Byte>>, Error>)
    requires 1 <= bpp
    ensures r.Ok? ==> |r.value| == height && AllOfLength(r.value, |above|)
    decreases height
  {
    if height == 0 then Ok([])
    else if BadFilter(inflated, |above|) then Err(UnknownFilter(y))
    else
      var row := NextRow(inflated, bpp, above);
      match DecodeRows(Drop(inflated, 1 + |above|), bpp, row, y + 1, height - 1)
      case Err(e) => Err(e)
      case Ok(rows) => Ok([row] + rows)
  }

  /** The filter byte of row r is there and known. */
  predicate FilterOk(inflated: seq<Byte>, stride: nat, r: nat) {
    r * (1 + stride) < |inflated| && inflated[r * (1 + stride)] <= 4
  }

  lemma NextFilter(inflated: seq<Byte>, stride: nat, r: nat)
    ensures FilterOk(Drop(inflated, 1 + stride), stride, r) <==> FilterOk(inflated, stride, r + 1)
  {
    assert (r + 1) * (1 + stride) == r * (1 + stride) + (1 + stride);
  }

  /** Of the rows from y on, `bad` is the first whose filter byte is missing or unknown, if there is one. */
  ghost predicate FirstBad(bad: Option<nat>, inflated: seq<Byte>, stride: nat, y: nat, height: nat) {
    && (bad.None? <==> stride == 0 || forall k: nat :: k < height ==> FilterOk(inflated, stride, k))
    && (bad.Some? ==>
          && y <= bad.value < y + height && !FilterOk(inflated, stride, bad.value - y)
          && forall k: nat :: k < bad.value - y ==> FilterOk(inflated, stride, k))
  }

  lemma FirstBadLater(bad: Option<nat>, inflated: seq<Byte>, stride: nat, y: nat, height: nat)
    requires height > 0 && (stride == 0 || FilterOk(inflated, stride, 0))
    requires FirstBad(bad, Drop(inflated, 1 + stride), stride, y + 1, height - 1)
    ensures FirstBad(bad, inflated, stride, y, height)
  {
    var rest := Drop(inflated, 1 + stride);
    forall k: nat | k > 0 ensures FilterOk(inflated, stride, k) <==> FilterOk(rest, stride, k - 1) {
      NextFilter(inflated, stride, k - 1);
    }
    forall k: nat ensures FilterOk(rest, stride, k) <==> FilterOk(inflated, stride, k + 1) {
      NextFilter(inflated, stride, k);
    }
    hide FilterOk;
    hide Drop;
  }

  /**
    Decoding fails at the first row whose filter byte is missing or unknown, and only
    there; the other bytes may be missing. Rows without pixels are never looked at.
   */
  lemma {:induction false} DecodesIff(inflated: seq<Byte>, bpp: nat, above: seq<Byte>, y: nat, height: nat)
    requires 1 <= bpp
    ensures var r := DecodeRows(inflated, bpp, above, y, height);
            FirstBad(if r.Ok? then None else Some(r.error.row), inflated, |above|, y, height)
    decreases height
  {
    var stride := |above|;
    assert FilterOk(inflated, stride, 0) <==> inflated != [] && inflated[0] <= 4;
    if height > 0 && !BadFilter(inflated, stride) {
      var rest := Drop(inflated, 1 + stride);
      var r := DecodeRows(rest, bpp, NextRow(inflated, bpp, above), y + 1, height - 1);
      DecodesIff(rest, bpp, NextRow(inflated, bpp, above), y + 1, height - 1);
      FirstBadLater(if r.Ok? then None else Some(r.error.row), inflated, stride, y, height);
    }
  }

  /** The standard's encoder for an image, with a free choice of filter per row. */
  function EncodeRows(filters: seq<Byte>, bpp: nat, above: seq<Byte>, rows: seq<seq<Byte>>): seq<Byte>
    requires 1 <= bpp && |filters| == |rows| && KnownFilters(filters)
    requires AllOfLength(rows, |above|)
  {
    if rows == [] then []
    else [filters[0]] + FilterRow(filters[0], bpp, above, rows[0]) + EncodeRows(filters[1..], bpp, rows[0], rows[1..])
  }

  /** The decoder splits a filtered scanline off the front of a stream and reconstructs it. */
  lemma NextRowAfterFilter(filter: Byte, bpp: nat, above: seq<Byte>, row: seq<Byte>, later: seq<Byte>)
    requires filter <= 4 && 1 <= bpp && |row| == |above|
    ensures var all := [filter] + FilterRow(filter, bpp, above, row) + later;
            !BadFilter(all, |above|) && NextRow(all, bpp, above) == row && Drop(all, 1 + |above|) == later
  {
    var line := FilterRow(filter, bpp, above, row);
    var all := [filter] + line + later;
    assert all[0] == filter && Take(all[1..], |above|) == line;
    UnfilterAfterFilter(filter, bpp, above, row, |above|);
  }

  /** Decoding undoes encoding, for every image and every choice of filters; what follows is not looked at. */
  lemma {:induction false} DecodeAfterEncode(filters: seq<Byte>, bpp: nat, above: seq<Byte>, rows: seq<seq<Byte>>,
                                             rest: seq<Byte>, y: nat)
    requires 1 <= bpp && |filters| == |rows| && KnownFilters(filters)
    requires AllOfLength(rows, |above|)
    ensures DecodeRows(EncodeRows(filters, bpp, above, rows) + rest, bpp, above, y, |rows|) == Ok(rows)
    decreases |rows|
  {
    if rows != [] {
      var tail := EncodeRows(filters[1..], bpp, rows[0], rows[1..]);
      var line := [filters[0]] + FilterRow(filters[0], bpp, above, rows[0]);
      assert (line + tail) + rest == line + (tail + rest);
      NextRowAfterFilter(filters[0], bpp, above, rows[0], tail + rest);
      DecodeAfterEncode(filters[1..], bpp, rows[0], rows[1..], rest, y + 1);
      assert [rows[0]] + rows[1..] == rows;
    }
  }

  /** The filter bytes of a complete inflated stream. */
  function FilterBytes(inflated: seq<Byte>, stride: nat, height: nat): (fs: seq<Byte>)
    requires |inflated| == height * (1 + stride)
    ensures |fs| == height
    decreases height
  {
    if height == 0 then []
    else
      assert height * (1 + stride) == (1 + stride) + (height - 1) * (1 + stride);
      [inflated[0]] + FilterBytes(inflated[1 + stride..], stride, height - 1)
  }

  /** Filtering the first decoded row gives the first line of the stream back. */
  lemma {:induction false} FirstLineBack(inflated: seq<Byte>, bpp: nat, above: seq<Byte>)
    requires 1 <= bpp && |inflated| >= 1 + |above| && inflated[0] <= 4
    ensures !BadFilter(inflated, |above|) && Drop(inflated, 1 + |above|) == inflated[1 + |above|..]
    ensures [inflated[0]] + FilterRow(inflated[0], bpp, above, NextRow(inflated, bpp, above)) + inflated[1 + |above|..]
         == inflated
  {
    var line := inflated[1..1 + |above|];
    assert Take(inflated[1..], |above|) == line;
    FilterAfterUnfilter(inflated[0], bpp, above, line);
    hide FilterRow;
    hide UnfilterRow;
    assert inflated == [inflated[0]] + line + inflated[1 + |above|..];
    if |above| == 0 {
      assert NextRow(inflated, bpp, above) == UnfilterRow(inflated[0], bpp, above, line);
    }
  }

  lemma {:induction false} FilterBytesCons(inflated: seq<Byte>, stride: nat, height: nat)
    requires height >= 1 && |inflated| == height * (1 + stride)
    ensures |inflated| >= 1 + stride && |inflated[1 + stride..]| == (height - 1) * (1 + stride)
    ensures FilterBytes(inflated, stride, height)
         == [inflated[0]] + FilterBytes(inflated[1 + stride..], stride, height - 1)
  {
    assert height * (1 + stride) == (1 + stride) + (height - 1) * (1 + stride);
    assert (height - 1) * (1 + stride) >= 0;
  }

  /** Encoding the decoded rows with the stream's own filters gives the stream back, byte for byte. */
  lemma {:induction false} EncodeAfterDecode(inflated: seq<Byte>, bpp: nat, above: seq<Byte>, y: nat, height: nat)
    requires 1 <= bpp && |inflated| == height * (1 + |above|)
    requires KnownFilters(FilterBytes(inflated, |above|, height))
    ensures var r := DecodeRows(inflated, bpp, above, y, height);
            && r.Ok?
            && EncodeRows(FilterBytes(inflated, |above|, height), bpp, above, r.value) == inflated
    decreases height
  {
    if height > 0 {
      var stride := |above|;
      FilterBytesCons(inflated, stride, height);
      var fs, rest := FilterBytes(inflated, stride, height), inflated[1 + stride..];
      assert fs[0] == inflated[0] && fs[1..] == FilterBytes(rest, stride, height - 1);
      FirstLineBack(inflated, bpp, above);
      hide FilterBytes;
      hide FilterRow;
      hide NextRow;
      EncodeAfterDecode(rest, bpp, NextRow(inflated, bpp, above), y + 1, height - 1);
    }
  }

  // ---------------------------------------------------------------------
  // RGBA expansion
  // ---------------------------------------------------------------------

  /** Channel c of pixel x of a row; RGB rows get an opaque alpha. */
  function Channel(row: seq<Byte>, channels: nat, x: nat, c: nat): Byte
    requires 3 <= channels <= 4 && c < 4 && (x + 1) * channels <= |row|
  {
    assert x * channels + channels == (x + 1) * channels;
    if c < channels then row[x * channels + c] else 255
  }

  function PixelOf(row: seq<Byte>, channels: nat, x: nat): (px: seq<Byte>)
    requires 3 <= channels <= 4 && (x + 1) * channels <= |row|
    ensures |px| == 4
  {
    [Channel(row, channels, x, 0), Channel(row, channels, x, 1),
     Channel(row, channels, x, 2), Channel(row, channels, x, 3)]
  }

  lemma RowFits(width: nat, channels: nat, x: nat)
    requires x < width
    ensures (x + 1) * channels <= width * channels
  {
  }

  /** The RGBA bytes of the first n pixels of a row. */
  function ExpandRow(row: seq<Byte>, channels: nat, width: nat, n: nat): (out: seq<Byte>)
    requires 3 <= channels <= 4 && n <= width && |row| == width * channels
    ensures |out| == 4 * n
  {
    if n == 0 then []
    else
      RowFits(width, channels, n - 1);
      ExpandRow(row, channels, width, n - 1) + PixelOf(row, channels, n - 1)
  }

  /** Where row y starts in the flat RGBA buffer. */
  function RowBase(width: nat, y: nat): nat {
    y * (4 * width)
  }

  function ExpandRows(rows: seq<seq<Byte>>, channels: nat, width: nat): (out: seq<Byte>)
    requires 3 <= channels <= 4 && AllOfLength(rows, width * channels)
    ensures |out| == RowBase(width, |rows|)
  {
    if rows == [] then []
    else
      var n := |rows| - 1;
      assert RowBase(width, |rows|) == RowBase(width, n) + 4 * width;
      ExpandRows(rows[..n], channels, width) + ExpandRow(rows[n], channels, width, width)
  }

  lemma {:induction false} ExpandRowAt(row: seq<Byte>, channels: nat, width: nat, n: nat, x: nat, c: nat)
    requires 3 <= channels <= 4 && x < n <= width && |row| == width * channels && c < 4
    ensures (x + 1) * channels <= |row|
    ensures ExpandRow(row, channels, width, n)[4 * x + c] == Channel(row, channels, x, c)
  {
    if x < n - 1 {
      ExpandRowAt(row, channels, width, n - 1, x, c);
    }
  }

  /** Where the decoder writes channel c of pixel x of row y. */
  function Position(width: nat, y: nat, x: nat, c: nat): nat {
    RowBase(width, y) + 4 * x + c
  }

  lemma MulMonotone(a: nat, b: nat, w: nat)
    requires a <= b
    ensures a * w <= b * w
  {
  }

  lemma RowsBelow(width: nat, y: nat, height: nat)
    requires y < height
    ensures RowBase(width, y) + 4 * width <= RowBase(width, height)
  {
    var w := 4 * width;
    MulMonotone(y + 1, height, w);
  }

  /** Channel c of the pixel at (x, y) is found at its position, with alpha 255 for RGB. */
  lemma {:induction false} ExpandedAt(rows: seq<seq<Byte>>, channels: nat, width: nat, y: nat, x: nat, c: nat)
    requires 3 <= channels <= 4 && AllOfLength(rows, width * channels) && y < |rows| && x < width && c < 4
    ensures (x + 1) * channels <= |rows[y]| && Position(width, y, x, c) < |ExpandRows(rows, channels, width)|
    ensures ExpandRows(rows, channels, width)[Position(width, y, x, c)] == Channel(rows[y], channels, x, c)
  {
    var n := |rows| - 1;
    ExpandRowAt(rows[y], channels, width, width, x, c);
    if y < n {
      ExpandedAt(rows[..n], channels, width, y, x, c);
    }
  }

  /** The same by coordinates: byte c of pixel (x, y) is byte c of its source pixel, and 255 for a missing alpha. */
  lemma PixelAt(rows: seq<seq<Byte>>, channels: nat, width: nat, y: nat, x: nat, c: nat)
    requires 3 <= channels <= 4 && AllOfLength(rows, width * channels) && y < |rows| && x < width && c < 4
    ensures var out := ExpandRows(rows, channels, width); var at := 4 * (y * width + x) + c;
            && 0 <= at < |out| == 4 * (|rows| * width)
            && (if c < channels then
                  0 <= x * channels + c < |rows[y]| && out[at] == rows[y][x * channels + c]
                else out[at] == 255)
  {
    ExpandedAt(rows, channels, width, y, x, c);
    FlatBase(width, y);
    FlatBase(width, |rows|);
    ChannelSource(rows[y], channels, x, c);
    hide ExpandRows;
    hide RowBase;
    hide Channel;
  }

  lemma FlatBase(width: nat, y: nat)
    ensures RowBase(width, y) == 4 * (y * width)
  {
  }

  lemma ChannelSource(row: seq<Byte>, channels: nat, x: nat, c: nat)
    requires 3 <= channels <= 4 && c < 4 && (x + 1) * channels <= |row|
    ensures if c < channels then
              0 <= x * channels + c < |row| && Channel(row, channels, x, c) == row[x * channels + c]
            else Channel(row, channels, x, c) == 255
  {
    assert x * channels + channels == (x + 1) * channels;
  }

  /** Every byte of the output is some channel of some pixel of some row. */
  lemma {:induction false} EveryByteWritten(width: nat, height: nat, k: nat) returns (y: nat, x: nat, c: nat)
    requires k < RowBase(width, height)
    ensures y < height && x < width && c < 4 && Position(width, y, x, c) == k
    decreases height
  {
    if height > 0 {
      if k < RowBase(width, height - 1) {
        y, x, c := EveryByteWritten(width, height - 1, k);
      } else {
        var r := k - RowBase(width, height - 1);
        y, x, c := height - 1, r / 4, r % 4;
      }
    }
  }

  /** No byte is written for two different channels, pixels or rows. */
  lemma WrittenOnce(width: nat, y: nat, x: nat, c: nat, y': nat, x': nat, c': nat)
    requires x < width && c < 4 && x' < width && c' < 4
    requires Position(width, y, x, c) == Position(width, y', x', c')
    ensures (y, x, c) == (y', x', c')
  {
    if y < y' {
      RowsBelow(width, y, y');
    } else if y' < y {
      RowsBelow(width, y', y);
    }
  }

  // ---------------------------------------------------------------------
  // The decoder's loops
  // ---------------------------------------------------------------------

  /** The inner loop: reconstruct one scanline in place. */
  method Unfilter(filter: Byte, channels: nat, above: seq<Byte>, inflated: seq<Byte>, srcOffset: nat)
    returns (row: array<Byte>)
    requires filter <= 4 && 1 <= channels
    ensures fresh(row)
    ensures row[..] == UnfilterRow(filter, channels, above, Take(Drop(inflated, srcOffset), |above|))
  {
    var stride := |above|;
    ghost var line := Take(Drop(inflated, srcOffset), stride);
    row := new Byte[stride](_ => 0);
    for x := 0 to stride
      invariant row[..x] == UnfilterUpTo(filter, channels, above, line, x)
    {
      var left := if x >= channels then row[x - channels] else 0;
      var up := above[x];
      var upLeft := if x >= channels then above[x - channels] else 0;
      ghost var sofar := row[..x];
      assert x >= channels ==> left == sofar[x - channels];
      if srcOffset + x < |inflated| {
        var raw := inflated[srcOffset + x];
        assert line[x] == raw;
        row[x] := (raw + Predictor(filter, left, up, upLeft)) % 256;
      } else {
        row[x] := 0;
      }
      assert row[..x] == sofar;
      assert row[..x + 1] == row[..x] + [row[x]];
    }
    assert row[..stride] == row[..];
  }

  /** The expansion loop: one row of pixels written at `dstBase`, nothing before it touched. */
  method Expand(out: array<Byte>, dstBase: nat, row: seq<Byte>, channels: nat, width: nat)
    requires 3 <= channels <= 4 && |row| == width * channels && dstBase + 4 * width <= out.Length
    modifies out
    ensures out[..dstBase + 4 * width] == old(out[..dstBase]) + ExpandRow(row, channels, width, width)
  {
    ghost var want := ExpandRow(row, channels, width, width);
    for x := 0 to width
      invariant forall k :: 0 <= k < 4 * x ==> out[dstBase + k] == want[k]
      invariant forall k :: 0 <= k < dstBase ==> out[k] == old(out[k])
    {
      hide ExpandRow;
      forall c: nat | c < 4
        ensures (x + 1) * channels <= |row| && want[4 * x + c] == Channel(row, channels, x, c)
      {
        ExpandRowAt(row, channels, width, width, x, c);
      }
      assert x * channels + channels == (x + 1) * channels;
      var srcPx, dstPx := x * channels, dstBase + x * 4;
      out[dstPx] := row[srcPx];
      out[dstPx + 1] := row[srcPx + 1];
      out[dstPx + 2] := row[srcPx + 2];
      out[dstPx + 3] := if channels == 4 then row[srcPx + 3] else 255;
      assert want[4 * x] == Channel(row, channels, x, 0) && want[4 * x + 1] == Channel(row, channels, x, 1);
      assert want[4 * x + 2] == Channel(row, channels, x, 2) && want[4 * x + 3] == Channel(row, channels, x, 3);
    }
    assert out[..dstBase] == old(out[..dstBase]);
    assert out[dstBase..dstBase + 4 * width] == want;
    assert out[..dstBase + 4 * width] == out[..dstBase] + out[dstBase..dstBase + 4 * width];
  }

  /** What the row loop makes of the inflated data: RGBA bytes, or the first bad filter. */
  function DecodePixels(inflated: seq<Byte>, width: nat, height: nat, channels: nat): (r: Result<seq<Byte>, Error>)
    requires 3 <= channels <= 4
    ensures r.Ok? ==> |r.value| == RowBase(width, height)
  {
    match DecodeRows(inflated, channels, Zeros(width * channels), 0, height)
    case Err(e) => Err(e)
    case Ok(rows) => Ok(ExpandRows(rows, channels, width))
  }

  lemma PixelsAfterEncode(filters: seq<Byte>, rows: seq<seq<Byte>>, width: nat, channels: nat)
    requires 3 <= channels <= 4 && |filters| == |rows| && KnownFilters(filters)
    requires AllOfLength(rows, width * channels)
    ensures DecodePixels(EncodeRows(filters, channels, Zeros(width * channels), rows), width, |rows|, channels)
         == Ok(ExpandRows(rows, channels, width))
  {
    var encoded := EncodeRows(filters, channels, Zeros(width * channels), rows);
    DecodeAfterEncode(filters, channels, Zeros(width * channels), rows, [], 0);
    assert encoded + [] == encoded;
  }

  /** Rows already decoded, followed by what is left to decode. */
  ghost function Onward(done: seq<seq<Byte>>, left: Result<seq<seq<Byte>>, Error>): Result<seq<seq<Byte>>, Error> {
    match left case Err(e) => Err(e) case Ok(rows) => Ok(done + rows)
  }

  lemma DropDrop(s: seq<Byte>, a: nat, b: nat)
    ensures Drop(Drop(s, a), b) == Drop(s, a + b)
  {
  }

  lemma OnwardOneMore(done: seq<seq<Byte>>, inflated: seq<Byte>, bpp: nat, above: seq<Byte>, y: nat, height: nat)
    requires 1 <= bpp && height > 0 && !BadFilter(inflated, |above|)
    ensures var row := NextRow(inflated, bpp, above);
            Onward(done, DecodeRows(inflated, bpp, above, y, height))
            == Onward(done + [row], DecodeRows(Drop(inflated, 1 + |above|), bpp, row, y + 1, height - 1))
  {
    var row := NextRow(inflated, bpp, above);
    var rest := DecodeRows(Drop(inflated, 1 + |above|), bpp, row, y + 1, height - 1);
    if rest.Ok? {
      assert done + ([row] + rest.value) == (done + [row]) + rest.value;
    }
  }

  /** One turn of the row loop up to the expansion: the next scanline, reconstructed. */
  method ReadRow(inflated: seq<Byte>, srcOffset: nat, channels: nat, prevRow: seq<Byte>) returns (row: seq<Byte>)
    requires 1 <= channels && !BadFilter(Drop(inflated, srcOffset), |prevRow|)
    ensures row == NextRow(Drop(inflated, srcOffset), channels, prevRow)
  {
    row := [];
    if |prevRow| > 0 {
      var a := Unfilter(inflated[srcOffset], channels, prevRow, inflated, srcOffset + 1);
      row := a[..];
    }
  }

  /** One turn of the row loop: reconstruct a scanline and expand it into row y of the buffer. */
  method DecodeRow(out: array<Byte>, y: nat, height: nat, inflated: seq<Byte>, srcOffset: nat, channels: nat,
                   width: nat, prevRow: seq<Byte>, ghost rows: seq<seq<Byte>>) returns (row: seq<Byte>)
    requires 3 <= channels <= 4 && |prevRow| == width * channels && y < height && out.Length == RowBase(width, height)
    requires !BadFilter(Drop(inflated, srcOffset), |prevRow|)
    requires |rows| == y && AllOfLength(rows, width * channels)
    requires ExpandRows(rows, channels, width) <= out[..]
    modifies out
    ensures row == NextRow(Drop(inflated, srcOffset), channels, prevRow) && AllOfLength(rows + [row], width * channels)
    ensures ExpandRows(rows + [row], channels, width) <= out[..]
  {
    hide ExpandRow;
    row := ReadRow(inflated, srcOffset, channels, prevRow);
    RowsBelow(width, y, height);
    ExpandSnoc(rows, row, channels, width);
    var dstBase := RowBase(width, y);
    Expand(out, dstBase, row, channels, width);
  }

  /** The row loop of the decoder, writing into one flat RGBA buffer. */
  method Decode(inflated: seq<Byte>, width: nat, height: nat, channels: nat) returns (r: Result<seq<Byte>, Error>)
    requires 3 <= channels <= 4
    ensures r == DecodePixels(inflated, width, height, channels)
  {
    hide DecodeRows;
    hide NextRow;
    hide ExpandRow;
    hide RowBase;
    hide ExpandRows;
    hide Drop;
    hide Onward;
    hide BadFilter;
    var stride := width * channels;
    var out := new Byte[RowBase(width, height)](_ => 0);
    var prevRow := Zeros(stride);
    var srcOffset: nat := 0;
    ghost var all := DecodeRows(inflated, channels, prevRow, 0, height);
    ghost var rows: seq<seq<Byte>> := [];
    StartOnward(inflated, all, channels, width);
    for y := 0 to height
      invariant |prevRow| == stride && |rows| == y && AllOfLength(rows, stride)
      invariant all == Onward(rows, DecodeRows(Drop(inflated, srcOffset), channels, prevRow, y, height - y))
      invariant ExpandRows(rows, channels, width) <= out[..]
    {
      var line := Drop(inflated, srcOffset);
      if BadFilter(line, stride) {
        BadRow(rows, line, channels, prevRow, y, height - y);
        return Err(UnknownFilter(y));
      }
      OnwardOneMore(rows, line, channels, prevRow, y, height - y);
      DropDrop(inflated, srcOffset, 1 + stride);
      prevRow := DecodeRow(out, y, height, inflated, srcOffset, channels, width, prevRow, rows);
      rows := rows + [prevRow];
      srcOffset := srcOffset + 1 + stride;
    }
    NoRowsLeft(rows, Drop(inflated, srcOffset), channels, prevRow, height);
    r := Ok(out[..]);
    assert r.value == ExpandRows(rows, channels, width);
  }

  lemma StartOnward(inflated: seq<Byte>, all: Result<seq<seq<Byte>>, Error>, channels: nat, width: nat)
    requires 3 <= channels <= 4
    ensures Drop(inflated, 0) == inflated && Onward([], all) == all && ExpandRows([], channels, width) == []
  {
    assert all.Ok? ==> [] + all.value == all.value;
  }

  lemma NoRowsLeft(done: seq<seq<Byte>>, inflated: seq<Byte>, bpp: nat, above: seq<Byte>, y: nat)
    requires 1 <= bpp
    ensures Onward(done, DecodeRows(inflated, bpp, above, y, 0)) == Ok(done)
  {
    assert done + [] == done;
  }

  lemma BadRow(done: seq<seq<Byte>>, inflated: seq<Byte>, bpp: nat, above: seq<Byte>, y: nat, height: nat)
    requires 1 <= bpp && height > 0 && BadFilter(inflated, |above|)
    ensures Onward(done, DecodeRows(inflated, bpp, above, y, height)) == Err(UnknownFilter(y))
  {
  }

  lemma ExpandSnoc(rows: seq<seq<Byte>>, row: seq<Byte>, channels: nat, width: nat)
    requires 3 <= channels <= 4 && AllOfLength(rows, width * channels) && |row| == width * channels
    ensures AllOfLength(rows + [row], width * channels)
    ensures ExpandRows(rows + [row], channels, width)
         == ExpandRows(rows, channels, width) + ExpandRow(row, channels, width, width)
  {
  }
}
