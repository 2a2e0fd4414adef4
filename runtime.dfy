/** The template helpers `cycler(...)` and `joiner(sep)`. */
module Runtime {
  import opened Wrappers

  /** One step of a cycler over `n` items. */
  function Advance(pos: nat, n: nat): (r: nat)
    requires n > 0
    ensures r < n
  {
    (pos + 1) % n
  }

  /** The position after `k` calls of `next()` since the last reset. */
  function PosAfter(n: nat, k: nat): (r: nat)
    requires n > 0
    ensures r < n
  {
    if k == 0 then 0 else Advance(PosAfter(n, k - 1), n)
  }

  lemma MulAtLeast(a: int, n: nat)
    ensures a >= 1 ==> a * n >= n
  {
    if a >= 1 {
      var b := a - 1;
      assert a * n == b * n + n;
      assert b * n >= 0;
    }
  }

  /** The remainder is the only `r` in `[0, n)` with `x == q * n + r`. */
  lemma ModUnique(x: int, n: nat, q: int, r: int)
    requires n > 0 && 0 <= r < n && x == q * n + r
    ensures x % n == r
  {
    var q2, r2 := x / n, x % n;
    assert x == q2 * n + r2;
    assert (q - q2) * n == r2 - r;
    assert (q2 - q) * n == r - r2;
    MulAtLeast(q - q2, n);
    MulAtLeast(q2 - q, n);
  }

  lemma ModStep(k: nat, n: nat)
    requires n > 0 && k > 0
    ensures ((k - 1) % n + 1) % n == k % n
  {
    var q, r := (k - 1) / n, (k - 1) % n;
    assert k == q * n + (r + 1);
    if r + 1 < n {
      ModUnique(k, n, q, r + 1);
    } else {
      assert k == (q + 1) * n + 0;
      ModUnique(k, n, q + 1, 0);
      ModUnique(r + 1, n, 1, 0);
    }
  }

  /** Stepping modulo `n` from 0, the position after `k` calls is `k % n`. */
  lemma {:induction false} PosAfterIsMod(n: nat, k: nat)
    requires n > 0
    ensures PosAfter(n, k) == k % n
  {
    if k > 0 {
      PosAfterIsMod(n, k - 1);
      assert PosAfter(n, k) == Advance((k - 1) % n, n);
      ModStep(k, n);
    }
  }

  class Cycler<T> {
    const items: seq<T>
    var pos: nat
    /** The calls of `next()` since the last reset. */
    ghost var calls: nat

    ghost predicate Valid()
      reads this
    {
      |items| > 0 && pos == PosAfter(|items|, calls)
    }

    constructor (items: seq<T>)
      requires |items| > 0
      ensures Valid() && this.items == items && pos == 0 && calls == 0
    {
      this.items := items;
      pos := 0;
      calls := 0;
    }

    /** `reset()`. */
    method Reset()
      requires Valid()
      modifies this
      ensures Valid() && pos == 0 && calls == 0
    {
      pos := 0;
      calls := 0;
    }

    /** `current`: the item the next call returns. */
    function Current(): (r: T)
      reads this
      requires Valid()
      ensures r == items[calls % |items|]
    {
      PosAfterIsMod(|items|, calls);
      items[pos]
    }

    /** `next()`: the `k`-th call after a reset returns item `k mod n`. */
    method Next() returns (r: T)
      requires Valid()
      modifies this
      ensures Valid() && calls == old(calls) + 1 && pos < |items|
      ensures r == items[old(calls) % |items|]
    {
      r := Current();
      pos := (pos + 1) % |items|;
      calls := calls + 1;
    }
  }

  /** `Cycler(*items)`: RuntimeError without items. */
  method NewCycler<T>(items: seq<T>) returns (r: Result<Cycler<T>>)
    ensures r.Raised? <==> items == []
    ensures r.Raised? ==> r.error == RuntimeError
    ensures r.Ok? ==> fresh(r.value) && r.value.Valid() && r.value.items == items && r.value.pos == 0
  {
    if items == [] {
      return Raised(RuntimeError);
    }
    var c := new Cycler(items);
    return Ok(c);
  }

  /** What a joiner returns after `calls` earlier calls. */
  function JoinerOutput(sep: string, calls: nat): string {
    if calls == 0 then "" else sep
  }

  /** Each item preceded by the joiner's output at that call. */
  function Interleaved(sep: string, items: seq<string>): string {
    if items == [] then ""
    else Interleaved(sep, items[..|items| - 1]) + JoinerOutput(sep, |items| - 1) + items[|items| - 1]
  }

  /** `sep.join(items)`. */
  function Join(sep: string, items: seq<string>): string {
    if |items| == 0 then ""
    else if |items| == 1 then items[0]
    else Join(sep, items[..|items| - 1]) + sep + items[|items| - 1]
  }

  /** Calling a fresh joiner before each item builds `sep.join(items)`. */
  lemma {:induction false} JoinerJoins(sep: string, items: seq<string>)
    ensures Interleaved(sep, items) == Join(sep, items)
  {
    if |items| == 1 {
      assert items[..0] == [];
    } else if |items| > 1 {
      JoinerJoins(sep, items[..|items| - 1]);
    }
  }

  class Joiner {
    const sep: string
    var used: bool
    /** The calls made so far. */
    ghost var calls: nat

    ghost predicate Valid()
      reads this
    {
      used <==> calls > 0
    }

    constructor (sep: string := ", ")
      ensures Valid() && this.sep == sep && !used && calls == 0
    {
      this.sep := sep;
      used := false;
      calls := 0;
    }

    /** `__call__`: the empty string the first time, the separator after. */
    method Call() returns (r: string)
      requires Valid()
      modifies this
      ensures Valid() && used && calls == old(calls) + 1
      ensures r == JoinerOutput(sep, old(calls))
    {
      if !used {
        used := true;
        calls := calls + 1;
        return "";
      }
      calls := calls + 1;
      return sep;
    }
  }
}
