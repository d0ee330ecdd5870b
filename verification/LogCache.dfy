/** The in-memory log cache (log/CFdbLogCache.cpp): a ring that evicts its
    oldest items, or a buffer that stops when full.  Sizes are unbounded
    integers here: 32-bit overflow of the byte counter is not modelled. */
module LogCache {

  datatype LogItem = LogItem(size: int, code: int, id: nat)

  /** Bytes charged for `items`: their payloads and `overhead` for each. */
  function Footprint(items: seq<LogItem>, overhead: nat): int {
    if items == [] then 0 else items[0].size + overhead + Footprint(items[1..], overhead)
  }

  predicate Positive(items: seq<LogItem>) {
    forall i | 0 <= i < |items| :: items[i].size > 0
  }

  ghost predicate Fits(items: seq<LogItem>, overhead: nat, max: int) {
    Footprint(items, overhead) <= max
  }

  /** The last `n` items. */
  function Last(items: seq<LogItem>, n: nat): seq<LogItem>
    requires n <= |items|
  {
    items[|items| - n..]
  }

  /** `kept` is the longest suffix of `items` that fits into `max` bytes. */
  ghost predicate LongestFit(items: seq<LogItem>, overhead: nat, max: int, kept: seq<LogItem>) {
    && |kept| <= |items| && kept == Last(items, |kept|)
    && Fits(kept, overhead, max)
    && forall n | |kept| < n <= |items| :: !Fits(Last(items, n), overhead, max)
  }

  /** `kept` is what a ring of `max` bytes holds after the pushes `history`: the
      longest suffix that fits, or the last item when that alone is too big. */
  ghost predicate IsWindow(history: seq<LogItem>, overhead: nat, max: int, kept: seq<LogItem>) {
    if history == [] then kept == []
    else if Fits(Last(history, 1), overhead, max) then LongestFit(history, overhead, max, kept)
    else kept == Last(history, 1)
  }

  lemma {:induction false} FootprintAppend(a: seq<LogItem>, b: seq<LogItem>, overhead: nat)
    ensures Footprint(a + b, overhead) == Footprint(a, overhead) + Footprint(b, overhead)
  {
    if a == [] {
      assert a + b == b;
    } else {
      assert (a + b)[1..] == a[1..] + b;
      FootprintAppend(a[1..], b, overhead);
    }
  }

  lemma {:induction false} FootprintPositive(items: seq<LogItem>, overhead: nat)
    requires Positive(items)
    ensures Footprint(items, overhead) >= 0
    ensures items != [] ==> Footprint(items, overhead) > 0
  {
    if items != [] {
      FootprintPositive(items[1..], overhead);
    }
  }

  /** A longer suffix is never cheaper. */
  lemma SuffixMonotone(h: seq<LogItem>, overhead: nat, m: nat, n: nat)
    requires Positive(h) && m <= n <= |h|
    ensures Footprint(Last(h, m), overhead) <= Footprint(Last(h, n), overhead)
  {
    var more := h[|h| - n..|h| - m];
    assert Last(h, n) == more + Last(h, m);
    FootprintAppend(more, Last(h, m), overhead);
    FootprintPositive(more, overhead);
  }

  /** To be the longest fit it is enough that one item more does not fit. */
  lemma LongestByOneMore(h: seq<LogItem>, overhead: nat, max: int, n: nat)
    requires Positive(h) && n <= |h| && Fits(Last(h, n), overhead, max)
    requires n < |h| ==> !Fits(Last(h, n + 1), overhead, max)
    ensures LongestFit(h, overhead, max, Last(h, n))
  {
    forall m | n < m <= |h| ensures !Fits(Last(h, m), overhead, max) {
      SuffixMonotone(h, overhead, n + 1, m);
    }
  }

  /** The window is determined by the history. */
  lemma WindowUnique(h: seq<LogItem>, overhead: nat, max: int, a: seq<LogItem>, b: seq<LogItem>)
    requires IsWindow(h, overhead, max, a) && IsWindow(h, overhead, max, b)
    ensures a == b
  {}

  /** `left` is what eviction leaves of `kept` to make room for `x`. */
  ghost predicate Evicted(kept: seq<LogItem>, overhead: nat, max: int, x: LogItem, left: seq<LogItem>) {
    && |left| <= |kept| && left == Last(kept, |left|)
    && (left == [] || Fits(left + [x], overhead, max))
    && (|left| < |kept| ==> !Fits(Last(kept, |left| + 1) + [x], overhead, max))
  }

  lemma WindowIsSuffix(h: seq<LogItem>, overhead: nat, max: int, kept: seq<LogItem>)
    requires IsWindow(h, overhead, max, kept)
    ensures |kept| <= |h| && kept == Last(h, |kept|)
  {}

  lemma LastOfLast(h: seq<LogItem>, m: nat, n: nat)
    requires m <= n <= |h|
    ensures Last(Last(h, n), m) == Last(h, m)
  {}

  lemma LastOfAppend(h: seq<LogItem>, x: LogItem, n: nat)
    requires n <= |h|
    ensures Last(h + [x], n + 1) == Last(h, n) + [x]
  {}

  lemma EvictedIsSuffix(h: seq<LogItem>, overhead: nat, max: int, kept: seq<LogItem>, x: LogItem, left: seq<LogItem>)
    requires IsWindow(h, overhead, max, kept) && Evicted(kept, overhead, max, x, left)
    ensures |left| <= |h| && Last(h + [x], |left| + 1) == left + [x]
  {
    WindowIsSuffix(h, overhead, max, kept);
    LastOfLast(h, |left|, |kept|);
    LastOfAppend(h, x, |left|);
  }

  /** When `x` fits alone, what is left of the window and `x` fit together. */
  lemma LeftAndNewFit(kept: seq<LogItem>, overhead: nat, max: int, x: LogItem, left: seq<LogItem>)
    requires Evicted(kept, overhead, max, x, left) && Positive(left)
    ensures Fits([x], overhead, max) <==> Fits(left + [x], overhead, max)
    ensures !Fits([x], overhead, max) ==> left == []
  {
    FootprintAppend(left, [x], overhead);
    FootprintPositive(left, overhead);
  }

  /** A suffix `next` of `g` that fits as soon as the last item does, and that one
      item more would not fit, is the window of `g`. */
  lemma NextWindow(g: seq<LogItem>, overhead: nat, max: int, x: LogItem, n: nat, next: seq<LogItem>)
    requires Positive(g) && 0 < n <= |g| && Last(g, 1) == [x] && Last(g, n) == next
    requires Fits([x], overhead, max) <==> Fits(next, overhead, max)
    requires !Fits([x], overhead, max) ==> next == [x]
    requires n < |g| ==> !Fits(Last(g, n + 1), overhead, max)
    ensures IsWindow(g, overhead, max, next)
  {
    if Fits([x], overhead, max) {
      LongestByOneMore(g, overhead, max, n);
    }
  }

  /** Evicting from a window and appending gives the next window. */
  lemma PushKeepsWindow(h: seq<LogItem>, overhead: nat, max: int, kept: seq<LogItem>, x: LogItem, left: seq<LogItem>)
    requires Positive(h) && Positive(left) && x.size > 0
    requires IsWindow(h, overhead, max, kept) && Evicted(kept, overhead, max, x, left)
    ensures IsWindow(h + [x], overhead, max, left + [x])
  {
    EvictedIsSuffix(h, overhead, max, kept, x, left);
    LeftAndNewFit(kept, overhead, max, x, left);
    if |left| < |h| {
      LastOfAppend(h, x, |left| + 1);
      OneMoreDoesNotFit(h, overhead, max, kept, x, left);
    }
    NextWindow(h + [x], overhead, max, x, |left| + 1, left + [x]);
  }

  lemma OneMoreDoesNotFit(h: seq<LogItem>, overhead: nat, max: int, kept: seq<LogItem>, x: LogItem, left: seq<LogItem>)
    requires Positive(h) && x.size > 0 && |left| < |h|
    requires IsWindow(h, overhead, max, kept) && Evicted(kept, overhead, max, x, left)
    ensures !Fits(Last(h, |left| + 1) + [x], overhead, max)
  {
    var m := |left| + 1;
    FootprintAppend(Last(h, m), [x], overhead);
    if |left| < |kept| {
      WindowIsSuffix(h, overhead, max, kept);
      LastOfLast(h, m, |kept|);
    } else if !Fits(Last(h, 1), overhead, max) {
      SuffixMonotone(h, overhead, 1, m);
    }
  }

  lemma LastLess(items: seq<LogItem>, n: nat)
    requires 0 < n <= |items|
    ensures Last(items, n)[1..] == Last(items, n - 1)
  {}

  /** After a resize the kept items are a history of their own. */
  lemma KeptIsWindow(items: seq<LogItem>, overhead: nat, max: int)
    requires Positive(items) && Fits(items, overhead, max)
    ensures IsWindow(items, overhead, max, items)
  {
    assert Last(items, |items|) == items;
    if items != [] { SuffixMonotone(items, overhead, 1, |items|); }
  }

  class Cache {
    const overhead: nat
    const stopIfFull: bool
    var items: seq<LogItem>
    var maxSize: int
    var cacheSize: int
    var dataId: nat
    var full: bool
    /** What was pushed since the cache was created or last resized. */
    ghost var history: seq<LogItem>

    ghost predicate Counted()
      reads this
    {
      Positive(items) && cacheSize == Footprint(items, overhead)
    }

    ghost predicate Valid()
      reads this
    {
      && maxSize >= 0 && Counted() && Positive(history)
      && (stopIfFull ==> cacheSize <= maxSize)
      && (!stopIfFull ==> IsWindow(history, overhead, maxSize, items))
    }

    constructor (maxSize: int, stopIfFull: bool, overhead: nat)
      ensures Valid() && items == [] && history == [] && !full
      ensures this.maxSize == if maxSize < 0 then 0 else maxSize
    {
      this.maxSize := if maxSize < 0 then 0 else maxSize;
      this.stopIfFull, this.overhead := stopIfFull, overhead;
      items, history, cacheSize, dataId, full := [], [], 0, 0, false;
    }

    method RemoveAll()
      modifies this`items, this`full, this`cacheSize
      ensures items == [] && !full && cacheSize == 0
    {
      while items != []
        decreases |items|
      {
        items := items[1..];
      }
      full, cacheSize := false, 0;
    }

    /** Drops the oldest item.  A counter that would go negative empties the
        cache, which a counter that is right never does. */
    method PopOne()
      modifies this`items, this`full, this`cacheSize
      ensures old(items) == [] ==> items == [] && cacheSize == old(cacheSize) && full == old(full)
      ensures old(items) != [] && old(cacheSize) < old(items)[0].size + overhead ==> items == [] && cacheSize == 0 && !full
      ensures old(items) != [] && old(cacheSize) >= old(items)[0].size + overhead ==>
                items == old(items)[1..] && cacheSize == old(cacheSize) - old(items)[0].size - overhead && full == old(full)
    {
      if items == [] { return; }
      cacheSize := cacheSize - (items[0].size + overhead);
      if cacheSize < 0 {
        RemoveAll();
      }
      if items == [] {
        cacheSize := 0;
      } else {
        items := items[1..];
      }
    }

    /** Stores one record: in ring mode always, after evicting what is needed. */
    method Push(size: int, code: int)
      requires Valid()
      modifies this
      ensures Valid() && maxSize == old(maxSize)
      ensures maxSize == 0 || size <= 0 ==> items == old(items) && history == old(history) && full == old(full)
      ensures maxSize > 0 && size > 0 && stopIfFull ==>
                var stop := old(cacheSize) + size + overhead > maxSize;
                && items == (if stop then old(items) else old(items) + [LogItem(size, code, old(dataId))])
                && full == (old(full) || stop)
      ensures maxSize > 0 && size > 0 && !stopIfFull ==>
                && history == old(history) + [LogItem(size, code, old(dataId))]
                && full == (old(full) || old(cacheSize) + size + overhead > maxSize)
    {
      if maxSize == 0 || size <= 0 { return; }
      if stopIfFull {
        if cacheSize + size + overhead > maxSize {
          full := true;
          return;
        }
        Append(LogItem(size, code, dataId));
      } else {
        PushToRing(LogItem(size, code, dataId));
      }
    }

    method PushToRing(x: LogItem)
      requires Counted() && Positive(history) && IsWindow(history, overhead, maxSize, items) && x.size > 0
      modifies this`items, this`full, this`cacheSize, this`dataId, this`history
      ensures Counted() && Positive(history) && IsWindow(history, overhead, maxSize, items)
      ensures history == old(history) + [x]
      ensures full == (old(full) || old(cacheSize) + x.size + overhead > maxSize)
    {
      ghost var before := items;
      MakeRoom(x);
      ghost var next := items + [x];
      PushKeepsWindow(history, overhead, maxSize, before, x, items);
      history := history + [x];
      Append(x);
      assert items == next;
    }

    method Append(x: LogItem)
      requires Counted() && x.size > 0
      modifies this`items, this`cacheSize, this`dataId
      ensures Counted()
      ensures items == old(items) + [x] && cacheSize == old(cacheSize) + x.size + overhead
    {
      FootprintAppend(items, [x], overhead);
      cacheSize := cacheSize + x.size + overhead;
      items := items + [x];
      dataId := (dataId + 1) % 0x1_0000_0000;
    }

    /** One step of an eviction from `all`: the item it drops was too much for `x`. */
    method PopFor(x: LogItem, ghost all: seq<LogItem>)
      requires Counted() && |items| <= |all| && items == Last(all, |items|)
      requires cacheSize + x.size + overhead > maxSize && full
      modifies this`items, this`full, this`cacheSize
      ensures Counted() && full && |items| <= |all| && items == Last(all, |items|)
      ensures old(items) == [] ==> items == [] && cacheSize == old(cacheSize)
      ensures old(items) != [] ==> |items| == |old(items)| - 1 && !Fits(Last(all, |old(items)|) + [x], overhead, maxSize)
    {
      if items != [] {
        FootprintPositive(items[1..], overhead);
        LastLess(all, |items|);
      }
      FootprintAppend(items, [x], overhead);
      PopOne();
    }

    /** Evicts the oldest items until `x` fits or nothing is left. */
    method MakeRoom(x: LogItem)
      requires Counted()
      modifies this`items, this`full, this`cacheSize
      ensures Counted()
      ensures Evicted(old(items), overhead, maxSize, x, items)
      ensures full == (old(full) || old(cacheSize) + x.size + overhead > maxSize)
    {
      while cacheSize + x.size + overhead > maxSize
        invariant Counted()
        invariant |items| <= |old(items)| && items == Last(old(items), |items|)
        invariant |items| < |old(items)| ==> !Fits(Last(old(items), |items| + 1) + [x], overhead, maxSize)
        invariant |items| < |old(items)| ==> full && old(cacheSize) + x.size + overhead > maxSize
        invariant |items| == |old(items)| ==> full == old(full) && cacheSize == old(cacheSize)
        decreases |items|
      {
        full := true;
        PopFor(x, old(items));
        if items == [] { break; }
      }
      FootprintAppend(items, [x], overhead);
    }

    /** Changes the limit, keeping the longest suffix that fits the new one. */
    method Resize(max: int)
      requires Valid()
      modifies this
      ensures Valid()
      ensures max < 0 || max == old(maxSize) ==> items == old(items) && maxSize == old(maxSize)
      ensures max >= 0 && max != old(maxSize) ==>
                maxSize == max && LongestFit(old(items), overhead, max, items)
    {
      if max < 0 || max == maxSize { return; }
      Shrink(max);
      KeptIsWindow(items, overhead, max);
      history := items;
      maxSize := max;
    }

    method Shrink(max: int)
      requires Counted() && max >= 0
      modifies this`items, this`full, this`cacheSize
      ensures Counted()
      ensures LongestFit(old(items), overhead, max, items)
    {
      while cacheSize > max
        invariant Counted()
        invariant |items| <= |old(items)| && items == Last(old(items), |items|)
        invariant |items| < |old(items)| ==> !Fits(Last(old(items), |items| + 1), overhead, max)
        decreases |items|
      {
        FootprintPositive(items[1..], overhead);
        LastLess(old(items), |items|);
        PopOne();
        if items == [] { break; }
      }
      LongestByOneMore(old(items), overhead, max, |items|);
    }
  }
}
