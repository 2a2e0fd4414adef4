/** Environment and template helpers: the cache chosen for a size, the mapping
    from generated-code lines back to template lines, and the buffered template
    stream. */
module Environment {
  import opened Wrappers
  import LruCache
  import opened Seqs

  /** What `create_cache(size)` returns: no cache, an unbounded dict, or an LRU cache. */
  datatype Cache<K(==), V> = NoCache | Dict(entries: map<K, V>) | Lru(lru: LruCache.LRUCache<K, V>)

  /** `create_cache(size)`: size 0 disables caching, a negative size caches without
      bound, a positive size bounds an LRU cache by it. */
  method CreateCache<K(==), V>(size: int) returns (c: Cache<K, V>)
    ensures size == 0 <==> c.NoCache?
    ensures size < 0 <==> c.Dict?
    ensures c.Dict? ==> c.entries == map[]
    ensures c.Lru? ==> fresh(c.lru) && c.lru.Valid() && c.lru.Model() == LruCache.CacheState(size, map[], [])
  {
    if size == 0 {
      return NoCache;
    }
    if size < 0 {
      return Dict(map[]);
    }
    var lru := new LruCache.LRUCache<K, V>(size);
    c := Lru(lru);
  }

  /** `get_corresponding_lineno(lineno)`: scanning the `(template_line, code_line)`
      pairs from the last, the template line of the first pair whose code line is
      not past `lineno`, or line 1 when there is none. */
  method GetCorrespondingLineno(debugInfo: seq<(int, int)>, lineno: int) returns (r: int)
    ensures (forall i :: 0 <= i < |debugInfo| ==> debugInfo[i].1 > lineno) ==> r == 1
    ensures (exists i :: 0 <= i < |debugInfo| && debugInfo[i].1 <= lineno) ==>
      exists i :: 0 <= i < |debugInfo| && debugInfo[i].1 <= lineno && r == debugInfo[i].0 &&
        forall j :: i < j < |debugInfo| ==> debugInfo[j].1 > lineno
  {
    var k := |debugInfo|;
    while k > 0
      invariant 0 <= k <= |debugInfo|
      invariant forall j :: k <= j < |debugInfo| ==> debugInfo[j].1 > lineno
    {
      k := k - 1;
      var (templateLine, codeLine) := debugInfo[k];
      if codeLine <= lineno {
        return templateLine;
      }
    }
    return 1;
  }

  /** How many of the items are non-empty. */
  function NonEmptyCount(items: seq<string>): (n: nat)
    ensures n <= |items|
  {
    if items == [] then 0 else NonEmptyCount(items[..|items| - 1]) + (if items[|items| - 1] != "" then 1 else 0)
  }

  /** How many items the buffered generator takes for its next chunk: up to and
      including the `need`-th non-empty item, or all of them if there are fewer. */
  function ChunkLen(items: seq<string>, need: nat): (k: nat)
    requires need >= 1
    ensures k <= |items| && (items != [] ==> k >= 1)
  {
    if items == [] then 0
    else if items[0] != "" then (if need == 1 then 1 else 1 + ChunkLen(items[1..], need - 1))
    else 1 + ChunkLen(items[1..], need)
  }

  /** What `_buffered_generator(size)` yields for the template's output `items`:
      chunks of `size` non-empty items (empty items ride along and do not count),
      the last chunk possibly shorter, trailing empty items dropped. */
  function Buffered(items: seq<string>, size: nat): seq<string>
    requires size >= 1
    decreases |items|
  {
    if NonEmptyCount(items) == 0 then []
    else
      var k := ChunkLen(items, size);
      [Concat(items[..k])] + Buffered(items[k..], size)
  }

  lemma {:induction false} NonEmptyCountAppend(a: seq<string>, b: seq<string>)
    ensures NonEmptyCount(a + b) == NonEmptyCount(a) + NonEmptyCount(b)
  {
    if b != [] {
      assert (a + b)[..|a + b| - 1] == a + b[..|b| - 1];
      NonEmptyCountAppend(a, b[..|b| - 1]);
    } else {
      assert a + b == a;
    }
  }

  lemma {:induction false} NoNonEmptyConcat(items: seq<string>)
    requires NonEmptyCount(items) == 0
    ensures Concat(items) == ""
  {
    if items != [] {
      NoNonEmptyConcat(items[..|items| - 1]);
    }
  }

  lemma NonEmptyCountFront(items: seq<string>)
    requires items != []
    ensures NonEmptyCount(items) == (if items[0] != "" then 1 else 0) + NonEmptyCount(items[1..])
  {
    assert items == [items[0]] + items[1..];
    NonEmptyCountAppend([items[0]], items[1..]);
    assert [items[0]][..0] == [];
  }

  /** The first chunk holds `need` non-empty items when there are that many, all
      of them otherwise, and its last item is non-empty when it is full. */
  lemma {:induction false} ChunkLenCount(items: seq<string>, need: nat)
    requires need >= 1
    ensures var k := ChunkLen(items, need);
      && NonEmptyCount(items[..k]) == (if NonEmptyCount(items) < need then NonEmptyCount(items) else need)
      && (NonEmptyCount(items) < need ==> k == |items|)
  {
    if items != [] {
      NonEmptyCountFront(items);
      var k := ChunkLen(items, need);
      assert items[..k][0] == items[0];
      if items[0] != "" && need == 1 {
        assert items[..k][1..] == [];
        NonEmptyCountFront(items[..k]);
      } else {
        var need' := if items[0] != "" then need - 1 else need;
        ChunkLenCount(items[1..], need');
        assert items[..k][1..] == items[1..][..k - 1];
        NonEmptyCountFront(items[..k]);
      }
    }
  }

  /** Buffering changes how the output is split, never what it says. */
  lemma {:induction false} BufferedConcat(items: seq<string>, size: nat)
    requires size >= 1
    ensures Concat(Buffered(items, size)) == Concat(items)
    decreases |items|
  {
    if NonEmptyCount(items) == 0 {
      NoNonEmptyConcat(items);
    } else {
      var k := ChunkLen(items, size);
      var rest := Buffered(items[k..], size);
      BufferedConcat(items[k..], size);
      ConcatAppend([Concat(items[..k])], rest);
      assert Concat([Concat(items[..k])]) == Concat(items[..k]) by {
        assert [Concat(items[..k])][..0] == [];
      }
      ConcatAppend(items[..k], items[k..]);
      assert items[..k] + items[k..] == items;
    }
  }

  /** Every yielded chunk is non-empty. */
  lemma {:induction false} BufferedNonEmpty(items: seq<string>, size: nat)
    requires size >= 1
    ensures forall i :: 0 <= i < |Buffered(items, size)| ==> Buffered(items, size)[i] != ""
    decreases |items|
  {
    if NonEmptyCount(items) > 0 {
      var k := ChunkLen(items, size);
      var first, later := Concat(items[..k]), Buffered(items[k..], size);
      BufferedStep(items, size);
      BufferedNonEmpty(items[k..], size);
      ChunkLenCount(items, size);
      ConcatNonEmpty(items[..k]);
      AllNonEmptyCons(first, later);
    }
  }

  lemma AllNonEmptyCons(first: string, later: seq<string>)
    requires first != "" && forall i :: 0 <= i < |later| ==> later[i] != ""
    ensures forall i :: 0 <= i < |[first] + later| ==> ([first] + later)[i] != ""
  {
    assert forall i :: 1 <= i < |[first] + later| ==> ([first] + later)[i] == later[i - 1];
  }

  lemma {:induction false} ConcatNonEmpty(items: seq<string>)
    requires NonEmptyCount(items) > 0
    ensures Concat(items) != ""
  {
    if items[|items| - 1] == "" {
      ConcatNonEmpty(items[..|items| - 1]);
    }
  }

  /** The number of chunks: every chunk but the last holds `size` non-empty items,
      so there are `ceil(n / size)` of them for `n` non-empty items. */
  lemma {:induction false} BufferedCount(items: seq<string>, size: nat)
    requires size >= 1
    ensures var b := |Buffered(items, size)|; var n := NonEmptyCount(items);
      b * size >= n && (b == 0 || (b - 1) * size < n)
    decreases |items|
  {
    var n := NonEmptyCount(items);
    if n > 0 {
      var k := ChunkLen(items, size);
      ChunkLenCount(items, size);
      NonEmptyCountAppend(items[..k], items[k..]);
      assert items[..k] + items[k..] == items;
      BufferedCount(items[k..], size);
      var b' := |Buffered(items[k..], size)|;
      BufferedStep(items, size);
      assert |Buffered(items, size)| == b' + 1;
      CountStep(b', NonEmptyCount(items[k..]), n, size);
    }
  }

  lemma CountStep(b': nat, n': nat, n: nat, size: nat)
    requires size >= 1 && n > 0
    requires b' * size >= n' && (b' == 0 || (b' - 1) * size < n')
    requires n < size ==> n' == 0 && b' == 0
    requires n >= size ==> n == size + n'
    ensures (b' + 1) * size >= n && b' * size < n
  {
    MulSucc(b', size);
    if b' > 0 {
      MulSucc(b' - 1, size);
    }
  }

  /** The buffered generator has no state between two chunks beyond what the
      template has still to produce, so one chunk followed by the chunks of the
      rest is the whole buffered output. */
  lemma BufferedStep(items: seq<string>, size: nat)
    requires size >= 1 && NonEmptyCount(items) > 0
    ensures Buffered(items, size) == [Concat(items[..ChunkLen(items, size)])] + Buffered(items[ChunkLen(items, size)..], size)
  {
  }

  /** A template stream, over what the template's generator has still to produce. */
  class TemplateStream {
    var rest: seq<string>
    var buffered: bool
    var size: nat

    ghost predicate Valid()
      reads this
    {
      buffered ==> size >= 2
    }

    /** Everything the stream will still yield. */
    ghost function Output(): seq<string>
      reads this
      requires Valid()
    {
      if buffered then Buffered(rest, size) else rest
    }

    /** `TemplateStream(gen)`: unbuffered. */
    constructor (gen: seq<string>)
      ensures Valid() && rest == gen && !buffered && Output() == gen
    {
      rest := gen;
      buffered := false;
      size := 0;
    }

    /** `disable_buffering()`: the stream yields the generator's items one by one. */
    method DisableBuffering()
      modifies this
      ensures Valid() && !buffered && rest == old(rest) && Output() == rest
    {
      buffered := false;
    }

    /** `enable_buffering(size)`: a size of 1 or less raises ValueError and changes
        nothing; otherwise the stream yields chunks of `size` non-empty items. */
    method EnableBuffering(size: int := 5) returns (r: Outcome)
      requires Valid()
      modifies this
      ensures Valid()
      ensures size <= 1 ==> r == Failed(ValueError) && buffered == old(buffered) && this.size == old(this.size)
      ensures size > 1 ==> r == Done && buffered && this.size == size
      ensures rest == old(rest)
      ensures size > 1 ==> Output() == Buffered(rest, size)
    {
      if size <= 1 {
        return Failed(ValueError);
      }
      buffered := true;
      this.size := size;
      r := Done;
    }

    /** `next(stream)`: the next item or chunk, or None (StopIteration) at the end.
        In buffered mode this is one round of the generator's loop: read items
        until `size` non-empty ones are in the buffer or the template is done. */
    method Next() returns (r: Option<string>)
      requires Valid()
      modifies this
      ensures Valid() && buffered == old(buffered) && size == old(size)
      ensures r.None? ==> old(Output()) == [] && Output() == []
      ensures r.Some? ==> old(Output()) == [r.value] + Output()
    {
      if !buffered {
        if rest == [] {
          return None;
        }
        r := Some(rest[0]);
        rest := rest[1..];
        return;
      }
      ghost var items := rest;
      var buf, count := FillBuffer();
      if count == 0 {
        return None;
      }
      NonEmptyCountAppend(buf, rest);
      BufferedStep(items, size);
      r := Some(Concat(buf));
    }

    /** The inner loop of `_buffered_generator`: read items until `size` non-empty
        ones are in the buffer or the template is done. */
    method FillBuffer() returns (buf: seq<string>, count: nat)
      requires buffered && size >= 2
      modifies this
      ensures buffered && size == old(size)
      ensures buf + rest == old(rest) && |buf| == ChunkLen(old(rest), size)
      ensures count == NonEmptyCount(buf) && count <= size
      ensures count < size ==> rest == []
      ensures count == 0 <==> NonEmptyCount(old(rest)) == 0
    {
      buf, count := ReadChunk(rest, size);
      rest := rest[|buf|..];
    }
  }

  /** Read items from the front of `items` until `need` non-empty ones are read or
      the items run out; `buf` is what was read and `count` how many are non-empty. */
  method ReadChunk(items: seq<string>, need: nat) returns (buf: seq<string>, count: nat)
    requires need >= 1
    ensures |buf| == ChunkLen(items, need) && buf == items[..|buf|]
    ensures count == NonEmptyCount(buf) && count <= need
    ensures count < need ==> buf == items
    ensures count == 0 <==> NonEmptyCount(items) == 0
  {
    var left := items;
    buf := [];
    count := 0;
    var stopped := false;
    ghost var total := ChunkLen(items, need);
    while count < need && !stopped
      invariant |buf| <= |items| && buf == items[..|buf|] && left == items[|buf|..]
      invariant count == NonEmptyCount(buf) && count <= need
      invariant stopped ==> left == [] && count < need
      invariant count < need ==> total == |buf| + ChunkLen(left, need - count)
      invariant count == need ==> total == |buf|
      decreases |left|, if stopped then 0 else 1
    {
      if left == [] {
        stopped := true;
      } else {
        var c := left[0];
        ReadOne(items, buf, need - count);
        buf := buf + [c];
        left := left[1..];
        if c != "" {
          count := count + 1;
        }
      }
    }
    assert buf + left == items;
    NonEmptyCountAppend(buf, left);
  }

  /** Reading one more item keeps the loop's account of the chunk. */
  lemma ReadOne(items: seq<string>, buf: seq<string>, need: nat)
    requires need >= 1 && |buf| < |items| && buf == items[..|buf|]
    ensures var c := items[|buf|];
      && items[..|buf| + 1] == buf + [c]
      && items[|buf|..][1..] == items[|buf| + 1..]
      && NonEmptyCount(buf + [c]) == NonEmptyCount(buf) + (if c != "" then 1 else 0)
      && (c != "" && need == 1 ==> ChunkLen(items[|buf|..], need) == 1)
      && (c != "" && need > 1 ==> ChunkLen(items[|buf|..], need) == 1 + ChunkLen(items[|buf| + 1..], need - 1))
      && (c == "" ==> ChunkLen(items[|buf|..], need) == 1 + ChunkLen(items[|buf| + 1..], need))
  {
    var c := items[|buf|];
    ChunkLenFront(items[|buf|..], need);
    NonEmptyCountAppend(buf, [c]);
    assert [c][..0] == [];
    assert items[..|buf| + 1] == buf + [c];
    assert items[|buf|..][1..] == items[|buf| + 1..];
  }

  lemma ChunkLenFront(items: seq<string>, need: nat)
    requires need >= 1 && items != []
    ensures items[0] != "" && need == 1 ==> ChunkLen(items, need) == 1
    ensures items[0] != "" && need > 1 ==> ChunkLen(items, need) == 1 + ChunkLen(items[1..], need - 1)
    ensures items[0] == "" ==> ChunkLen(items, need) == 1 + ChunkLen(items[1..], need)
  {
  }
}
