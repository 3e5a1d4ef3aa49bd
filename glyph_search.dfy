/**
 * Glyph lookup (Renderer.SearchMetric): a probe through the coarse index, then up to two
 * binary searches over the flat metric table, one by high byte and one by low byte.
 */
module GlyphSearch {
  import opened FontData

  /** The exceptions .NET raises on the paths the lookup can take. */
  datatype Fault = IndexOutOfRange | ArgumentOutOfRange | Argument

  datatype Outcome<T> = Ok(value: T) | Throw(fault: Fault)

  /** What SearchMetric produces: a metric, null, or an exception. */
  datatype SearchResult = Found(metric: Metric) | NotFound | Threw(fault: Fault)

  /** The comparers compFirst and compSecond: each compares one byte of a metric. */
  datatype Comparer = CompFirst | CompSecond

  function Key(m: Metric, cmp: Comparer): Byte {
    match cmp
    case CompFirst => m.first
    case CompSecond => m.second
  }

  /** ms[lo..hi] (both ends included) is in ascending order of the comparer's key. */
  predicate SortedBy(ms: seq<Metric>, lo: int, hi: int, cmp: Comparer)
    requires 0 <= lo && hi < |ms|
  {
    forall j, k :: lo <= j <= k <= hi ==> Key(ms[j], cmp) <= Key(ms[k], cmp)
  }

  /**
   * The search loop of Array.BinarySearch over ms[lo..hi]: probe the middle, return it on a
   * match, otherwise continue in the half that can hold the target. A miss returns the
   * bitwise complement (-p - 1) of the insertion point p: on a sorted range the keys
   * before p are below the target and the keys from p on are above it.
   */
  function BinarySearch(ms: seq<Metric>, lo: int, hi: int, cmp: Comparer, target: int): (r: int)
    requires 0 <= lo <= hi + 1 <= |ms|
    decreases hi - lo + 1
    ensures 0 <= r ==> lo <= r <= hi && Key(ms[r], cmp) == target
    ensures r < 0 ==> lo <= -r - 1 <= hi + 1
    ensures r < 0 && SortedBy(ms, lo, hi, cmp) ==>
              (forall k :: lo <= k < -r - 1 ==> Key(ms[k], cmp) < target) &&
              (forall k :: -r - 1 <= k <= hi ==> Key(ms[k], cmp) > target)
    ensures r < 0 && SortedBy(ms, lo, hi, cmp) ==>
              forall k :: lo <= k <= hi ==> Key(ms[k], cmp) != target
  {
    if lo > hi then -lo - 1
    else
      var mid := lo + (hi - lo) / 2;
      var key := Key(ms[mid], cmp);
      if key == target then mid
      else if key < target then BinarySearch(ms, mid + 1, hi, cmp, target)
      else BinarySearch(ms, lo, mid - 1, cmp, target)
  }

  /**
   * Array.BinarySearch(array, index, length, value, comparer): the argument checks, then
   * the search over [index, index + length). On a sorted range a negative result means
   * the target is absent.
   */
  function ArrayBinarySearch(ms: seq<Metric>, index: int, length: int, cmp: Comparer, target: int)
    : (r: Outcome<int>)
    ensures r.Throw? <==> index < 0 || length < 0 || |ms| - index < length
    ensures r.Ok? && 0 <= r.value ==>
              index <= r.value < index + length && Key(ms[r.value], cmp) == target
    ensures r.Ok? && r.value < 0 && SortedBy(ms, index, index + length - 1, cmp) ==>
              forall k :: index <= k < index + length ==> Key(ms[k], cmp) != target
  {
    if index < 0 || length < 0 then Throw(ArgumentOutOfRange)
    else if |ms| - index < length then Throw(Argument)
    else Ok(BinarySearch(ms, index, index + length - 1, cmp, target))
  }

  /**
   * Renderer.SearchMetric on the code unit c: the first stage finds an entry with c's high
   * byte, the second stage finds c's low byte within that entry's run.
   */
  function SearchMetric(d: Data, c: CodeUnit): (r: SearchResult)
    ensures r.Found? ==> r.metric in d.metrics
    ensures r.Found? ==> r.metric.second == c % 256
    ensures |d.indecies| == 256 && d.indecies[c / 256] + c % 256 < 0 ==> r == NotFound
  {
    var b := Utf16LeBytes(c);
    var first, second := b[1], b[0];
    match LocateFirst(d, first, second)
    case Throw(f) => Threw(f)
    case Ok(o) => if o < 0 then NotFound else SearchGroup(d.metrics, o, second)
  }

  /**
   * The first stage of SearchMetric: probe indecies[first] + second, clamp the probe to the
   * last entry, and when the entry there has another high byte, binary-search by high byte
   * from the index entry (raised to 0) to the probe. Answers an entry whose high byte is
   * first, or -1 for null.
   */
  function LocateFirst(d: Data, first: Byte, second: Byte): (r: Outcome<int>)
    ensures r.Ok? ==> -1 <= r.value < |d.metrics|
    ensures r.Ok? && 0 <= r.value ==> d.metrics[r.value].first == first
    ensures first < |d.indecies| && d.indecies[first] + second < 0 ==> r == Ok(-1)
  {
    if first >= |d.indecies| then Throw(IndexOutOfRange)
    else
      var index := d.indecies[first];
      var offset := index + second;
      if offset < 0 then Ok(-1)
      else
        var offset := if offset >= d.header.metricCount then d.header.metricCount - 1 else offset;
        if offset < 0 || |d.metrics| <= offset then Throw(IndexOutOfRange)
        else if first != d.metrics[offset].first then
          SearchFirst(d.metrics, if index < 0 then 0 else index, offset, first)
        else Ok(offset)
  }

  /** The binary search by high byte of the first stage, from index to offset (both
      included); a hit whose high byte differs is null as well. */
  function SearchFirst(ms: seq<Metric>, index: int, offset: int, first: Byte): (r: Outcome<int>)
    ensures r.Ok? ==> -1 <= r.value < |ms|
    ensures r.Ok? && 0 <= r.value ==> ms[r.value].first == first
  {
    match ArrayBinarySearch(ms, index, offset - index + 1, CompFirst, first)
    case Throw(f) => Throw(f)
    case Ok(o) => if o < 0 || first != ms[o].first then Ok(-1) else Ok(o)
  }

  /** The second stage of SearchMetric, from an entry whose high byte matched. */
  function SearchGroup(ms: seq<Metric>, offset: int, second: Byte): (r: SearchResult)
    requires 0 <= offset < |ms|
    ensures r.Found? ==> r.metric in ms && r.metric.second == second
  {
    if second != ms[offset].second then
      var left := offset - ms[offset].prevNum;
      var right := offset + ms[offset].nextNum;
      match ArrayBinarySearch(ms, left, right - left + 1, CompSecond, second)
      case Throw(f) => Threw(f)
      case Ok(o) =>
        if o < 0 || ms[o].second != second then NotFound
        else Found(ms[o])
    else Found(ms[offset])
  }
}

/** What SearchMetric guarantees about the table it searches. */
module GlyphSearchProperties {
  import opened FontData
  import opened GlyphSearch

  /** On a well-formed table no index or argument the first stage computes is out of range. */
  lemma LocateNeverThrows(d: Data, first: Byte, second: Byte)
    requires WellFormed(d)
    ensures LocateFirst(d, first, second).Ok?
  {
    var index := d.indecies[first];
    if index + second >= 0 {
      var offset := if index + second >= d.header.metricCount then d.header.metricCount - 1 else index + second;
      var lo := if index < 0 then 0 else index;
      assert 0 <= lo && 0 <= offset - lo + 1 && lo + (offset - lo + 1) <= |d.metrics|;
    }
  }

  /** Safety needs the bound on the index entries: an entry past metricCount makes the
      clamped probe fall below it, and the first binary search gets a negative length. */
  lemma OvershootingIndexThrows(d: Data, first: Byte, second: Byte)
    requires |d.indecies| == 256 && |d.metrics| == d.header.metricCount && 0 < d.header.metricCount
    requires d.indecies[first] > d.header.metricCount
    requires d.metrics[d.header.metricCount - 1].first != first
    ensures LocateFirst(d, first, second) == Throw(ArgumentOutOfRange)
  {
    var offset := d.header.metricCount - 1;
    assert offset - d.indecies[first] + 1 < 0;
  }

  /** On a well-formed table the second stage searches inside the table. */
  lemma GroupNeverThrows(d: Data, offset: int, second: Byte)
    requires WellFormed(d) && 0 <= offset < |d.metrics|
    ensures !SearchGroup(d.metrics, offset, second).Threw?
  {
    var m := d.metrics[offset];
    assert 0 <= offset - m.prevNum && offset + m.nextNum < |d.metrics|;
  }

  /** Index safety: on a well-formed table the lookup raises no exception. */
  lemma SearchNeverThrows(d: Data, c: CodeUnit)
    requires WellFormed(d)
    ensures !SearchMetric(d, c).Threw?
  {
    LocateNeverThrows(d, c / 256, c % 256);
    var o := LocateFirst(d, c / 256, c % 256).value;
    if 0 <= o {
      GroupNeverThrows(d, o, c % 256);
    }
  }

  /** No code unit makes the lookup throw on a well-formed font. */
  lemma WellFormedLookupsTotal(d: Data)
    requires WellFormed(d)
    ensures forall c: CodeUnit :: !SearchMetric(d, c).Threw?
  {
    forall c: CodeUnit ensures !SearchMetric(d, c).Threw? {
      SearchNeverThrows(d, c);
    }
  }

  /** A probe below the start of the table answers null whatever the metrics hold. */
  lemma NegativeProbeIgnoresMetrics(d: Data, ms: seq<Metric>, h: Header, c: CodeUnit)
    requires |d.indecies| == 256 && d.indecies[c / 256] + c % 256 < 0
    ensures SearchMetric(d, c) == SearchMetric(d.(metrics := ms, header := h), c) == NotFound
  {
  }

  /** The second stage stays inside the run of the entry it starts from. */
  lemma GroupKeepsFirst(ms: seq<Metric>, offset: int, second: Byte)
    requires RunsConsistent(ms) && 0 <= offset < |ms|
    ensures SearchGroup(ms, offset, second).Found? ==>
              SearchGroup(ms, offset, second).metric.first == ms[offset].first
  {
    var m := ms[offset];
    if second != m.second {
      var left, right := offset - m.prevNum, offset + m.nextNum;
      var r := ArrayBinarySearch(ms, left, right - left + 1, CompSecond, second);
      if r.Ok? && 0 <= r.value {
        assert left <= r.value <= right;
      }
    }
  }

  /** Soundness: given consistent runs, a metric found for c carries both bytes of c. */
  lemma SearchSound(d: Data, c: CodeUnit)
    requires RunsConsistent(d.metrics)
    ensures SearchMetric(d, c).Found? ==>
              SearchMetric(d, c).metric.first == c / 256 && SearchMetric(d, c).metric.second == c % 256
  {
    var r := LocateFirst(d, c / 256, c % 256);
    if r.Ok? && 0 <= r.value {
      GroupKeepsFirst(d.metrics, r.value, c % 256);
    }
  }

  /** In a strictly sorted table a character has at most one entry. */
  lemma CodesUnique(ms: seq<Metric>, p: int, q: int)
    requires StrictlySorted(ms) && 0 <= p < |ms| && 0 <= q < |ms|
    requires ms[p].first == ms[q].first && ms[p].second == ms[q].second
    ensures p == q
  {
  }

  /** Entries of one high byte are in ascending order of their low byte. */
  lemma RunSortedBySecond(ms: seq<Metric>, lo: int, hi: int, f: Byte)
    requires StrictlySorted(ms) && 0 <= lo && hi < |ms|
    requires forall k :: lo <= k <= hi ==> ms[k].first == f
    ensures SortedBy(ms, lo, hi, CompSecond)
  {
    forall j, k | lo <= j <= k <= hi
      ensures Key(ms[j], CompSecond) <= Key(ms[k], CompSecond)
    {
      if j < k { assert CodeLess(ms[j], ms[k]); }
    }
  }

  /** When the run of offset is sorted by low byte and holds the entry p, the second stage
      returns an entry of that run with p's low byte. */
  lemma GroupHits(ms: seq<Metric>, offset: int, p: int) returns (q: int)
    requires 0 <= offset < |ms| && 0 <= offset - ms[offset].prevNum && offset + ms[offset].nextNum < |ms|
    requires offset - ms[offset].prevNum <= p <= offset + ms[offset].nextNum
    requires SortedBy(ms, offset - ms[offset].prevNum, offset + ms[offset].nextNum, CompSecond)
    ensures offset - ms[offset].prevNum <= q <= offset + ms[offset].nextNum
    ensures ms[q].second == ms[p].second && SearchGroup(ms, offset, ms[p].second) == Found(ms[q])
  {
    var m := ms[offset];
    var second := ms[p].second;
    if second != m.second {
      var left, right := offset - m.prevNum, offset + m.nextNum;
      assert Key(ms[p], CompSecond) == second;
      var r := ArrayBinarySearch(ms, left, right - left + 1, CompSecond, second);
      assert r.Ok? && 0 <= r.value;
      q := r.value;
    } else {
      q := offset;
    }
  }

  /** Started from any entry of the right high byte, the second stage finds the entry p. */
  lemma GroupFinds(ms: seq<Metric>, offset: int, p: int)
    requires StrictlySorted(ms) && RunsExact(ms)
    requires 0 <= offset < |ms| && 0 <= p < |ms| && ms[offset].first == ms[p].first
    requires 0 <= offset - ms[offset].prevNum && offset + ms[offset].nextNum < |ms|
    ensures SearchGroup(ms, offset, ms[p].second) == Found(ms[p])
  {
    var m := ms[offset];
    var left, right := offset - m.prevNum, offset + m.nextNum;
    assert left <= p <= right;
    forall k | left <= k <= right ensures ms[k].first == m.first {
      assert 0 <= k < |ms|;
    }
    RunSortedBySecond(ms, left, right, m.first);
    var q := GroupHits(ms, offset, p);
    assert ms[q].first == m.first;
    CodesUnique(ms, q, p);
  }

  /** Strict (first, second) order gives the order by high byte that the first search needs. */
  lemma SortedByFirst(ms: seq<Metric>, lo: int, hi: int)
    requires StrictlySorted(ms) && 0 <= lo && hi < |ms|
    ensures SortedBy(ms, lo, hi, CompFirst)
  {
    forall j, k | lo <= j <= k <= hi
      ensures Key(ms[j], CompFirst) <= Key(ms[k], CompFirst)
    {
      if j < k { assert CodeLess(ms[j], ms[k]); }
    }
  }

  /** A binary search by high byte over a sorted range holding an entry with that byte
      finds one. */
  lemma RangeSearchHits(ms: seq<Metric>, lo: int, hi: int, p: int)
    requires 0 <= lo <= p <= hi < |ms| && SortedBy(ms, lo, hi, CompFirst)
    ensures ArrayBinarySearch(ms, lo, hi - lo + 1, CompFirst, ms[p].first).Ok?
    ensures 0 <= ArrayBinarySearch(ms, lo, hi - lo + 1, CompFirst, ms[p].first).value
  {
    assert Key(ms[p], CompFirst) == ms[p].first;
  }

  /** When the clamped probe lands on an entry with the high byte, the first stage answers
      the probe. */
  lemma LocateByProbe(d: Data, first: Byte, second: Byte, offset: int)
    requires |d.indecies| == 256 && |d.metrics| == d.header.metricCount
    requires 0 <= d.indecies[first] + second
    requires offset == if d.indecies[first] + second >= d.header.metricCount
                       then d.header.metricCount - 1 else d.indecies[first] + second
    requires 0 <= offset < |d.metrics| && d.metrics[offset].first == first
    ensures LocateFirst(d, first, second) == Ok(offset)
  {
  }

  /** When the probe lands on another high byte, the first stage answers what its binary
      search by high byte answers. */
  lemma LocateBySearch(d: Data, first: Byte, second: Byte, lo: int, offset: int, o: int)
    requires |d.indecies| == 256 && |d.metrics| == d.header.metricCount
    requires 0 <= d.indecies[first] + second
    requires offset == if d.indecies[first] + second >= d.header.metricCount
                       then d.header.metricCount - 1 else d.indecies[first] + second
    requires lo == if d.indecies[first] < 0 then 0 else d.indecies[first]
    requires 0 <= lo <= offset < |d.metrics| && d.metrics[offset].first != first
    requires ArrayBinarySearch(d.metrics, lo, offset - lo + 1, CompFirst, first) == Ok(o) && 0 <= o
    ensures LocateFirst(d, first, second) == Ok(o)
  {
    SearchFirstHits(d.metrics, lo, offset, first, o);
  }

  /** A hit of the search by high byte is what the first stage's search answers. */
  lemma SearchFirstHits(ms: seq<Metric>, index: int, offset: int, first: Byte, o: int)
    requires ArrayBinarySearch(ms, index, offset - index + 1, CompFirst, first) == Ok(o) && 0 <= o
    ensures SearchFirst(ms, index, offset, first) == Ok(o)
  {
    assert Key(ms[o], CompFirst) == ms[o].first == first;
  }

  /** The first stage reaches an entry with the high byte of p when the index entry does
      not overshoot p and the table is sorted. */
  lemma LocateReachesCore(d: Data, p: int)
    requires WellFormed(d) && StrictlySorted(d.metrics) && 0 <= p < |d.metrics|
    requires d.indecies[d.metrics[p].first] <= p <= d.indecies[d.metrics[p].first] + d.metrics[p].second
    ensures LocateFirst(d, d.metrics[p].first, d.metrics[p].second).Ok?
    ensures 0 <= LocateFirst(d, d.metrics[p].first, d.metrics[p].second).value
  {
    var ms := d.metrics;
    var first, second := ms[p].first, ms[p].second;
    var index := d.indecies[first];
    var offset := if index + second >= d.header.metricCount then d.header.metricCount - 1 else index + second;
    assert 0 <= p <= offset < |ms|;
    if first != ms[offset].first {
      var lo := if index < 0 then 0 else index;
      SortedByFirst(ms, lo, offset);
      RangeSearchHits(ms, lo, offset, p);
      var o := ArrayBinarySearch(ms, lo, offset - lo + 1, CompFirst, first).value;
      LocateBySearch(d, first, second, lo, offset, o);
    } else {
      LocateByProbe(d, first, second, offset);
    }
  }

  /** On an Indexed table the first stage reaches an entry with the high byte of p. */
  lemma LocateReaches(d: Data, p: int)
    requires Indexed(d) && 0 <= p < |d.metrics|
    ensures LocateFirst(d, d.metrics[p].first, d.metrics[p].second).Ok?
    ensures 0 <= LocateFirst(d, d.metrics[p].first, d.metrics[p].second).value
  {
    LocateReachesCore(d, p);
  }

  /** Completeness: on an Indexed table every entry is found by its
      own character. */
  lemma SearchComplete(d: Data, p: int)
    requires Indexed(d) && 0 <= p < |d.metrics|
    ensures SearchMetric(d, d.metrics[p].first * 256 + d.metrics[p].second) == Found(d.metrics[p])
  {
    var ms := d.metrics;
    var c: CodeUnit := ms[p].first * 256 + ms[p].second;
    assert c / 256 == ms[p].first && c % 256 == ms[p].second;
    LocateReaches(d, p);
    var o := LocateFirst(d, ms[p].first, ms[p].second).value;
    GroupFinds(ms, o, p);
  }

  /** The lookup is exact: it finds c's entry when the table has one and answers null,
      never an exception, when it does not. */
  lemma SearchExact(d: Data, c: CodeUnit)
    requires Indexed(d)
    ensures SearchMetric(d, c).Found? <==>
              exists p :: 0 <= p < |d.metrics| && d.metrics[p].first == c / 256 && d.metrics[p].second == c % 256
    ensures forall p :: 0 <= p < |d.metrics| && d.metrics[p].first == c / 256 && d.metrics[p].second == c % 256 ==>
              SearchMetric(d, c) == Found(d.metrics[p])
    ensures !SearchMetric(d, c).Found? ==> SearchMetric(d, c) == NotFound
  {
    SearchNeverThrows(d, c);
    SearchSound(d, c);
    forall p | 0 <= p < |d.metrics| && d.metrics[p].first == c / 256 && d.metrics[p].second == c % 256
      ensures SearchMetric(d, c) == Found(d.metrics[p])
    {
      assert d.metrics[p].first * 256 + d.metrics[p].second == c;
      SearchComplete(d, p);
    }
    if SearchMetric(d, c).Found? {
      var m := SearchMetric(d, c).metric;
      var p :| 0 <= p < |d.metrics| && d.metrics[p] == m;
      assert d.metrics[p].first == c / 256 && d.metrics[p].second == c % 256;
    }
  }
}
