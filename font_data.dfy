/**
 * The in-memory form of a bitmap font: the header, the 256-entry index keyed by the high
 * byte of a character, and the flat table of glyph metrics (the Header, Metric and Data
 * records of BitmapFont).
 */
module FontData {

  /** The integer widths of the record fields: sbyte, short and byte. */
  type Int8 = x: int | -128 <= x < 128
  type Int16 = x: int | -32768 <= x < 32768
  type Byte = x: int | 0 <= x < 256

  /** One UTF-16 code unit: the text is walked one code unit at a time. */
  type CodeUnit = x: int | 0 <= x < 0x1_0000

  datatype Header = Header(
    fontSize: Int16,
    fontAscent: Int16,
    metricCount: Int16,
    sheetWidth: Int16,
    sheetHeight: Int16)

  /** One glyph: atlas origin, bearing, box size, advance, its character as a
      (high byte, low byte) pair and the size of its same-high-byte run around it. */
  datatype Metric = Metric(
    u: Int16,
    v: Int16,
    bearingX: Int8,
    bearingY: Int8,
    width: Byte,
    height: Byte,
    advance: Byte,
    first: Byte,
    second: Byte,
    prevNum: Byte,
    nextNum: Byte)

  datatype Data = Data(
    header: Header,
    indecies: seq<Int16>,
    metrics: seq<Metric>,
    textureName: string)

  /** The two bytes of a code unit in UTF-16 little-endian order: low byte first. */
  function Utf16LeBytes(c: CodeUnit): (b: seq<Byte>)
    ensures |b| == 2
    ensures (b[1] as int) * 256 + b[0] == c
  {
    [c % 256, c / 256]
  }

  /** The table is well formed when every probe the lookup can make stays inside it:
      a full index, a metric count matching the array, index entries that do not
      point past the end, and runs that stay inside the array. */
  predicate WellFormed(d: Data) {
    |d.indecies| == 256 &&
    |d.metrics| == d.header.metricCount &&
    0 < d.header.metricCount &&
    (forall f :: 0 <= f < 256 ==> d.indecies[f] <= d.header.metricCount) &&
    (forall i :: 0 <= i < |d.metrics| ==>
       0 <= i - d.metrics[i].prevNum && i + d.metrics[i].nextNum < |d.metrics|)
  }

  /** Ordering of the table: by high byte, then by low byte. */
  predicate CodeLess(a: Metric, b: Metric) {
    a.first < b.first || (a.first == b.first && a.second < b.second)
  }

  /** Strictly increasing by (first, second): no character appears twice. */
  predicate StrictlySorted(ms: seq<Metric>) {
    forall j, k :: 0 <= j < k < |ms| ==> CodeLess(ms[j], ms[k])
  }

  /** Every entry's prevNum/nextNum span only entries with its own high byte. */
  predicate RunsConsistent(ms: seq<Metric>) {
    forall i, k :: 0 <= i < |ms| && 0 <= k < |ms| && i - ms[i].prevNum <= k <= i + ms[i].nextNum ==>
      ms[k].first == ms[i].first
  }

  /** Every entry's prevNum/nextNum span exactly the entries with its own high byte. */
  predicate RunsExact(ms: seq<Metric>) {
    forall i, k :: 0 <= i < |ms| && 0 <= k < |ms| ==>
      (ms[k].first == ms[i].first <==> i - ms[i].prevNum <= k <= i + ms[i].nextNum)
  }

  /** The coarse index brackets every entry: entry p lies between indecies[first] and
      indecies[first] + second, for its own first and second. The lookup assumes this of
      the font data without checking it; it holds, for instance, when indecies[F] is the
      start of F's run minus the low byte of that run's first entry. */
  predicate IndexCovers(d: Data)
    requires |d.indecies| == 256
  {
    forall p :: 0 <= p < |d.metrics| ==>
      d.indecies[d.metrics[p].first] <= p <= d.indecies[d.metrics[p].first] + d.metrics[p].second
  }

  /** A well-formed table, strictly sorted, whose runs are exactly the high-byte groups and
      whose index brackets every entry. */
  predicate Indexed(d: Data) {
    WellFormed(d) && StrictlySorted(d.metrics) && RunsExact(d.metrics) && IndexCovers(d)
  }
}
