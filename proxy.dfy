// The proxy rotator: a list of proxy endpoints handed out round-robin, the
// cursor of `itertools.cycle` becoming an explicit index.

module Proxy {
  import opened Data

  /** The parsed proxy file: `proxies` and `mode` as found (None when a key is
      missing or holds null). */
  datatype ProxyFile = ProxyFile(proxies: Option<seq<string>>, mode: Option<string>)

  const DefaultMode := "round_robin"

  /** The proxy handed out by the `k`-th call (0-based) of `next_proxy`. */
  function RoundRobin(proxies: seq<string>, k: nat): (p: Option<string>)
    ensures proxies == [] <==> p == None
    ensures p.Some? ==> p.value in proxies
  {
    if proxies == [] then None else Some(proxies[k % |proxies|])
  }

  /** The rotation repeats with period `|proxies|`. */
  lemma RoundRobinPeriodic(proxies: seq<string>, k: nat)
    ensures RoundRobin(proxies, k + |proxies|) == RoundRobin(proxies, k)
  {
    if proxies != [] {
      var n := |proxies|;
      var q := k / n;
      assert (q + 1) * n == q * n + n;
      ModUnique(k + n, n, q + 1, k % n);
    }
  }

  /** `n` consecutive calls starting at a multiple of `n` return the list itself, in order. */
  lemma RoundRobinFullCycle(proxies: seq<string>, start: nat)
    requires proxies != [] && start % |proxies| == 0
    ensures seq(|proxies|, i requires 0 <= i < |proxies| => RoundRobin(proxies, start + i).value) == proxies
  {
    var n := |proxies|;
    var q := start / n;
    assert start == q * n;
    var got := seq(n, i requires 0 <= i < n => RoundRobin(proxies, start + i).value);
    forall i | 0 <= i < n
      ensures got[i] == proxies[i]
    {
      ModUnique(start + i, n, q, i);
      assert RoundRobin(proxies, start + i) == Some(proxies[i]);
    }
  }

  /** Any `n` consecutive calls return each list element exactly once: they
      return the list rotated to begin at the current cursor. */
  lemma RoundRobinRotation(proxies: seq<string>, start: nat)
    requires proxies != []
    ensures var c := start % |proxies|;
      seq(|proxies|, i requires 0 <= i < |proxies| => RoundRobin(proxies, start + i).value)
        == proxies[c..] + proxies[..c]
  {
    var n := |proxies|;
    var c := start % n;
    var q := start / n;
    var rotated := proxies[c..] + proxies[..c];
    forall i | 0 <= i < n
      ensures RoundRobin(proxies, start + i).value == rotated[i]
    {
      if c + i < n {
        ModUnique(start + i, n, q, c + i);
      } else {
        assert (q + 1) * n == q * n + n;
        ModUnique(start + i, n, q + 1, c + i - n);
      }
    }
  }

  /** Euclidean division has a unique quotient and remainder. */
  lemma ModUnique(a: int, n: int, q: int, r: int)
    requires n > 0 && 0 <= r < n && a == q * n + r
    ensures a % n == r && a / n == q
  {
    var q0, r0 := a / n, a % n;
    assert (q - q0) * n == r0 - r;
    if q > q0 {
      var d := q - q0 - 1;
      MulNonneg(d, n);
    }
    if q < q0 {
      var d := q0 - q - 1;
      MulNonneg(d, n);
    }
  }

  lemma MulNonneg(a: int, b: int)
    requires a >= 0 && b >= 0
    ensures a * b >= 0
  {
  }

  class ProxyManager {
    var mode: string
    var proxies: seq<string>
    /** Index of the next proxy in the cycle. */
    var cursor: nat
    /** Number of `next_proxy` calls made so far. */
    ghost var calls: nat

    ghost predicate Valid()
      reads this
    {
      if proxies == [] then cursor == 0 else cursor == calls % |proxies|
    }

    /** `_load`: a failed read or parse (`cfg == None`) leaves no proxies and the
        round-robin mode; otherwise missing entries take those same defaults. */
    constructor Load(cfg: Option<ProxyFile>)
      ensures Valid() && calls == 0
      ensures cfg.None? ==> proxies == [] && mode == DefaultMode
      ensures cfg.Some? ==>
        proxies == cfg.value.proxies.GetOr([]) && mode == cfg.value.mode.GetOr(DefaultMode)
    {
      var ps: seq<string> := [];
      var m := DefaultMode;
      match cfg {
        case Some(f) =>
          ps := f.proxies.GetOr([]);
          m := f.mode.GetOr(DefaultMode);
        case None =>
      }
      mode := m;
      proxies := ps;
      cursor := 0;
      calls := 0;
    }

    /** `next_proxy`: the proxies in round-robin order, or None when there are
        none. Only the cursor moves; the mode plays no part. */
    method NextProxy() returns (p: Option<string>)
      requires Valid()
      modifies this
      ensures Valid()
      ensures p == RoundRobin(proxies, old(calls))
      ensures calls == old(calls) + 1
      ensures proxies == old(proxies) && mode == old(mode)
    {
      calls := calls + 1;
      if proxies == [] {
        return None;
      }
      var n := |proxies|;
      p := Some(proxies[cursor]);
      cursor := if cursor + 1 == n then 0 else cursor + 1;
      NextCursor(calls - 1, n);
    }
  }

  lemma NextCursor(k: nat, n: nat)
    requires n > 0
    ensures (k + 1) % n == if k % n + 1 == n then 0 else k % n + 1
  {
    var q := k / n;
    if k % n + 1 == n {
      assert (q + 1) * n == q * n + n;
      ModUnique(k + 1, n, q + 1, 0);
    } else {
      ModUnique(k + 1, n, q, k % n + 1);
    }
  }
}
