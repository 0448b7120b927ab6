/** The client's response cache: a window of heights, evicted by parsing the printed keys. */
module RpcCache {
  import opened Encoding
  import opened Tables

  // ================================================================ reading a height off a key

  /** The number after the last colon among the first n characters, zero without one. */
  function NumberAfterColon(key: string, n: nat): nat
    requires n <= |key|
  {
    if n == 0 then 0
    else if key[n - 1] == ':' then ScanFrom(key[n..], 0)
    else NumberAfterColon(key, n - 1)
  }

  lemma {:induction false} DigitsHideNoColon(path: string, height: nat, n: nat)
    requires |path| < n <= |CacheKey(path, height)|
    ensures NumberAfterColon(CacheKey(path, height), n) == height
  {
    var key := CacheKey(path, height);
    if n == |path| + 1 {
      assert key[n..] == Decimal(height);
      ScanDecimal(height);
    } else {
      assert key[n - 1] == Decimal(height)[n - 2 - |path|];
      assert key[n - 1] in Decimal(height);
      DigitsHideNoColon(path, height, n - 1);
    }
  }

  /** Parsing a key gives back the height it was printed from, whatever the path looks like. */
  lemma ParsePrinted(path: string, height: nat)
    ensures NumberAfterColon(CacheKey(path, height), |CacheKey(path, height)|) == height
  {
    DigitsHideNoColon(path, height, |CacheKey(path, height)|);
  }

  method ParseHeight(key: string) returns (h: nat)
    ensures h == NumberAfterColon(key, |key|)
  {
    var i := |key| - 1;
    while i >= 0
      invariant -1 <= i < |key|
      invariant NumberAfterColon(key, |key|) == NumberAfterColon(key, i + 1)
    {
      if key[i] == ':' {
        return ScanFrom(key[i + 1..], 0);
      }
      i := i - 1;
    }
    h := 0;
  }

  // ================================================================ what was written

  datatype Write<V> = Write(path: string, height: nat, value: V)

  /** Per path and height, the value written last. */
  function LastWritten<V>(writes: seq<Write<V>>): map<(string, nat), V> {
    if writes == [] then map[]
    else
      var w := writes[|writes| - 1];
      LastWritten(writes[..|writes| - 1])[(w.path, w.height) := w.value]
  }

  function Highest<V>(writes: seq<Write<V>>): nat {
    if writes == [] then 0
    else
      var before, h := Highest(writes[..|writes| - 1]), writes[|writes| - 1].height;
      if h > before then h else before
  }

  lemma {:induction false} HighestBounds<V>(writes: seq<Write<V>>, bound: nat)
    ensures Highest(writes) <= bound <==> forall w :: w in writes ==> w.height <= bound
  {
    if writes != [] {
      var n := |writes| - 1;
      HighestBounds(writes[..n], bound);
      assert forall w :: w in writes <==> w in writes[..n] || w == writes[n];
    }
  }

  /** The i-th write is the last for that path and height. */
  ghost predicate IsLastWrite<V>(writes: seq<Write<V>>, path: string, height: nat, i: nat) {
    && i < |writes| && writes[i].path == path && writes[i].height == height
    && forall j :: i < j < |writes| ==> writes[j].path != path || writes[j].height != height
  }

  lemma {:induction false} LastWriteIs<V>(writes: seq<Write<V>>, path: string, height: nat)
    ensures (path, height) in LastWritten(writes) <==> exists w :: w in writes && w.path == path && w.height == height
  {
    if writes != [] {
      var n := |writes| - 1;
      LastWriteIs(writes[..n], path, height);
      assert forall w :: w in writes <==> w in writes[..n] || w == writes[n];
    }
  }

  lemma {:induction false} LastWriteStands<V>(writes: seq<Write<V>>, path: string, height: nat, i: nat)
    requires IsLastWrite(writes, path, height, i)
    ensures (path, height) in LastWritten(writes) && LastWritten(writes)[(path, height)] == writes[i].value
  {
    var n := |writes| - 1;
    if i < n {
      LastWriteStands(writes[..n], path, height, i);
    }
  }

  lemma LastWriteRead<V>(writes: seq<Write<V>>, path: string, height: nat)
    ensures (path, height) in LastWritten(writes) ==>
              forall i: nat :: IsLastWrite(writes, path, height, i) ==> LastWritten(writes)[(path, height)] == writes[i].value
  {
    forall i: nat | IsLastWrite(writes, path, height, i)
      ensures (path, height) in LastWritten(writes) && LastWritten(writes)[(path, height)] == writes[i].value
    {
      LastWriteStands(writes, path, height, i);
    }
  }

  /** The lowest height that survives: ten below the highest. */
  function Floor(highest: nat): nat {
    if highest > 10 then highest - 10 else 0
  }

  /** What the cache keeps of all that was written: height zero, the window, and the entry written last. */
  predicate Kept<V>(writes: seq<Write<V>>, path: string, height: nat) {
    && (path, height) in LastWritten(writes)
    && (height == 0 || height >= Floor(Highest(writes)) ||
        (writes[|writes| - 1].path == path && writes[|writes| - 1].height == height))
  }

  /** What is kept: something written for the path and height, for height 0, for one not more than ten below any written, or written last. */
  lemma KeptMeans<V>(writes: seq<Write<V>>, path: string, height: nat)
    ensures Kept(writes, path, height) <==>
            && (exists w :: w in writes && w.path == path && w.height == height)
            && (height == 0 || (forall w :: w in writes ==> w.height <= height + 10) ||
                (writes[|writes| - 1].path == path && writes[|writes| - 1].height == height))
  {
    LastWriteIs(writes, path, height);
    HighestBounds(writes, height + 10);
  }

  ghost predicate Refines<V>(cache: map<string, V>, writes: seq<Write<V>>) {
    && (forall key :: key in cache ==> exists path, height :: key == CacheKey(path, height))
    && (forall path, height :: CacheKey(path, height) in cache <==> Kept(writes, path, height))
    && (forall path, height :: Kept(writes, path, height) ==> cache[CacheKey(path, height)] == LastWritten(writes)[(path, height)])
  }

  /** Old entries: those that parse to a height above zero and below the window. */
  predicate Old(key: string, floor: nat) {
    0 < NumberAfterColon(key, |key|) < floor
  }

  lemma WriteStep<V>(writes: seq<Write<V>>, w: Write<V>, path: string, height: nat)
    ensures var more := writes + [w];
            && LastWritten(more) == LastWritten(writes)[(w.path, w.height) := w.value]
            && Highest(more) == (if w.height > Highest(writes) then w.height else Highest(writes))
            && (Kept(more, path, height) <==>
                (path == w.path && height == w.height) ||
                (Kept(writes, path, height) && !(0 < height < Floor(Highest(more)))))
  {
    assert (writes + [w])[..|writes|] == writes;
  }

  lemma SetCacheRefines<V>(cache: map<string, V>, writes: seq<Write<V>>, w: Write<V>, kept: map<string, V>)
    requires Refines(cache, writes)
    requires forall key :: key in kept <==> key in cache && !Old(key, Floor(Highest(writes + [w])))
    requires forall key :: key in kept ==> kept[key] == cache[key]
    ensures Refines(kept[CacheKey(w.path, w.height) := w.value], writes + [w])
  {
    var more, after := writes + [w], kept[CacheKey(w.path, w.height) := w.value];
    forall path, height
      ensures CacheKey(path, height) in after <==> Kept(more, path, height)
      ensures Kept(more, path, height) ==> after[CacheKey(path, height)] == LastWritten(more)[(path, height)]
    {
      WriteStep(writes, w, path, height);
      CacheKeyInjective(path, height, w.path, w.height);
      ParsePrinted(path, height);
    }
  }

  class Cache<V> {
    var cache: map<string, V>
    var cacheHeight: nat
    ghost var writes: seq<Write<V>>

    /** After any sequence of calls: exactly the last written values, restricted to what is kept. */
    ghost predicate Valid()
      reads this
    {
      cacheHeight == Highest(writes) && Refines(cache, writes)
    }

    constructor ()
      ensures Valid() && writes == []
    {
      cache, cacheHeight, writes := map[], 0, [];
    }

    method GetCache(path: string, height: nat) returns (r: Option<V>)
      requires Valid()
      ensures r.Some? <==> Kept(writes, path, height)
      ensures r.Some? ==> r.value == LastWritten(writes)[(path, height)]
      ensures r.Some? <==>
              && (exists w :: w in writes && w.path == path && w.height == height)
              && (height == 0 || (forall w :: w in writes ==> w.height <= height + 10) ||
                  (writes[|writes| - 1].path == path && writes[|writes| - 1].height == height))
      ensures forall i: nat :: r.Some? && IsLastWrite(writes, path, height, i) ==> r.value == writes[i].value
    {
      KeptMeans(writes, path, height);
      LastWriteRead(writes, path, height);
      var key := CacheKey(path, height);
      r := if key in cache then Some(cache[key]) else None;
    }

    /** Removes the old entries, in any order of the map's keys. */
    method Evict(minHeight: nat)
      modifies this`cache
      ensures forall key :: key in cache <==> key in old(cache) && !Old(key, minHeight)
      ensures forall key :: key in cache ==> cache[key] == old(cache)[key]
    {
      var keys := cache.Keys;
      while keys != {}
        invariant keys <= cache.Keys <= old(cache).Keys
        invariant forall key :: key in cache ==> cache[key] == old(cache)[key]
        invariant forall key :: key in old(cache) && key !in keys ==> (key in cache <==> !Old(key, minHeight))
        decreases |keys|
      {
        var k :| k in keys;
        var h := ParseHeight(k);
        if h > 0 && h < minHeight {
          cache := map x | x in cache && x != k :: cache[x];
        }
        keys := keys - {k};
      }
    }

    /** Stores an entry, even one that is old itself. */
    method SetCache(path: string, height: nat, value: V)
      requires Valid()
      modifies this
      ensures Valid() && writes == old(writes) + [Write(path, height, value)]
    {
      ghost var w := Write(path, height, value);
      WriteStep(writes, w, path, height);
      if height > cacheHeight {
        cacheHeight := height;
      }
      var minHeight := 0;
      if cacheHeight > 10 {
        minHeight := cacheHeight - 10;
      }
      ghost var before := cache;
      Evict(minHeight);
      SetCacheRefines(before, writes, w, cache);
      cache := cache[CacheKey(path, height) := value];
      writes := writes + [w];
    }

    /** Every value in the cache is what the node answers. */
    ghost predicate Truthful(node: (string, nat) -> V)
      reads this
    {
      forall w :: w in writes ==> w.value == node(w.path, w.height)
    }

    /**
     With a node that always gives the same answer when it gives one, a fetch through the cache is a fetch
     that also answers from the cache. A call that errs, or brings a block of another height, is refused
     and leaves the cache alone.
     */
    method Fetch(path: string, height: nat, node: (string, nat) -> V, answers: bool) returns (r: Option<V>)
      requires Valid() && Truthful(node)
      modifies this
      ensures Valid() && Truthful(node)
      ensures r == if old(Kept(writes, path, height)) || answers then Some(node(path, height)) else None
      ensures writes == if !old(Kept(writes, path, height)) && answers then old(writes) + [Write(path, height, node(path, height))]
                        else old(writes)
    {
      var hit := GetCache(path, height);
      if hit.Some? {
        LastWrittenTrue(writes, node, path, height);
        return hit;
      }
      if !answers {
        return None;
      }
      SetCache(path, height, node(path, height));
      r := Some(node(path, height));
    }
  }

  lemma {:induction false} LastWrittenTrue<V>(writes: seq<Write<V>>, node: (string, nat) -> V, path: string, height: nat)
    requires forall w :: w in writes ==> w.value == node(w.path, w.height)
    requires (path, height) in LastWritten(writes)
    ensures LastWritten(writes)[(path, height)] == node(path, height)
  {
    var n := |writes| - 1;
    assert writes[n] in writes;
    if writes[n].path != path || writes[n].height != height {
      assert forall w :: w in writes[..n] ==> w in writes;
      LastWrittenTrue(writes[..n], node, path, height);
    }
  }
}
