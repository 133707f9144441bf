/**
 * Proxy rotation with eviction in `ScrapeThread.run` (main.py): the thread
 * keeps a list of proxy addresses and a cursor into it. Each scrape probes the
 * proxy at the cursor; a live proxy is used and the cursor moves one step
 * round the list, a dead one is removed for good and the next one is tried,
 * and once the list is empty the scrape fails with "All proxies failed".
 */
module ProxyRotation {
  import opened Wrappers
  import opened Egress

  /** What one rotation decided. */
  datatype Selection =
    | Selected(proxy: string)  // the probe of `proxy` succeeded
    | AllProxiesFailed         // every probe failed and the list is now empty
    | CursorOutOfRange         // the cursor did not index the list: `IndexError`

  /** The outcome of one rotation and the pool it leaves behind. */
  datatype Rotation = Rotation(selection: Selection, proxies: seq<string>, cursor: nat, probes: nat)

  /** `list.pop(i)`: the list without its `i`-th entry. */
  function RemoveAt(s: seq<string>, i: nat): (r: seq<string>)
    requires i < |s|
    ensures |r| == |s| - 1
    ensures forall k :: 0 <= k < i ==> r[k] == s[k]
    ensures forall k :: i <= k < |r| ==> r[k] == s[k + 1]
  {
    s[..i] + s[i + 1..]
  }

  /** Where the cursor goes after a pop that left `len` entries: back to the
      start when it has run past the end. */
  function WrapCursor(cursor: nat, len: nat): (c: nat)
    requires len > 0
    ensures c < len
    ensures cursor >= len ==> c == 0
    ensures cursor < len ==> c == cursor
  {
    if cursor >= len then 0 else cursor
  }

  /** The entries in the order the rotation visits them from `cursor`. */
  function CyclicOrder(s: seq<string>, cursor: nat): seq<string>
    requires cursor <= |s|
  {
    s[cursor..] + s[..cursor]
  }

  /** The index of the first live entry of `s`, or `|s|` when all are dead. */
  function FirstAlive(s: seq<string>, alive: string -> bool): (k: nat)
    ensures k <= |s|
    ensures forall j :: 0 <= j < k ==> !alive(s[j])
    ensures k < |s| ==> alive(s[k])
  {
    if s == [] then 0 else if alive(s[0]) then 0 else 1 + FirstAlive(s[1..], alive)
  }

  /**
   * The reference for one rotation from a valid cursor: the proxy chosen is the
   * first live entry in cyclic order from the cursor; the dead entries visited
   * before it, and only those, are gone; the cursor ends one step past the
   * chosen proxy; one probe was made per entry visited.
   */
  function Expected(proxies: seq<string>, cursor: nat, alive: string -> bool): Rotation
    requires cursor < |proxies|
  {
    var n := |proxies|;
    var k := FirstAlive(CyclicOrder(proxies, cursor), alive);
    if k == n then Rotation(AllProxiesFailed, [], 0, n)
    else if cursor + k < n then
      var rest := proxies[..cursor] + proxies[cursor + k..];
      Rotation(Selected(proxies[cursor + k]), rest, (cursor + 1) % |rest|, k + 1)
    else
      var j := cursor + k - n;
      Rotation(Selected(proxies[j]), proxies[j..cursor], 1 % (cursor - j), k + 1)
  }

  /** The first live entry comes before the end of the list: it is chosen and
      the dead entries between the cursor and it are gone. */
  lemma ExpectedNoWrap(proxies: seq<string>, cursor: nat, alive: string -> bool, k: nat)
    requires cursor < |proxies| && k == FirstAlive(CyclicOrder(proxies, cursor), alive)
    requires cursor + k < |proxies|
    ensures var rest := proxies[..cursor] + proxies[cursor + k..];
      Expected(proxies, cursor, alive) == Rotation(Selected(proxies[cursor + k]), rest, (cursor + 1) % |rest|, k + 1)
  {
  }

  /** The first live entry lies past the end, at `j` from the start: it is
      chosen and only the entries from it up to the cursor remain. */
  lemma ExpectedWrap(proxies: seq<string>, cursor: nat, alive: string -> bool, k: nat)
    requires cursor < |proxies| && k == FirstAlive(CyclicOrder(proxies, cursor), alive)
    requires k < |proxies| && cursor + k >= |proxies|
    ensures var j := cursor + k - |proxies|;
      Expected(proxies, cursor, alive) == Rotation(Selected(proxies[j]), proxies[j..cursor], 1 % (cursor - j), k + 1)
  {
  }

  /** The same rotation with `extra` more probes counted. */
  function AddProbes(r: Rotation, extra: nat): Rotation
  {
    r.(probes := r.probes + extra)
  }

  /** A live proxy at the cursor is used at once and leaves the list as it was. */
  lemma ExpectedWhenAlive(proxies: seq<string>, cursor: nat, alive: string -> bool)
    requires cursor < |proxies| && alive(proxies[cursor])
    ensures Expected(proxies, cursor, alive)
         == Rotation(Selected(proxies[cursor]), proxies, (cursor + 1) % |proxies|, 1)
  {
    assert CyclicOrder(proxies, cursor)[0] == proxies[cursor];
    assert proxies[..cursor] + proxies[cursor..] == proxies;
  }

  /** Popping the dead entry at the cursor: the cyclic order from the wrapped
      cursor is the old cyclic order without its head. */
  lemma CyclicOrderAfterPop(proxies: seq<string>, cursor: nat)
    requires cursor < |proxies| && |proxies| > 1
    ensures var rest := RemoveAt(proxies, cursor);
      CyclicOrder(proxies, cursor) == [proxies[cursor]] + CyclicOrder(rest, WrapCursor(cursor, |rest|))
  {
    var rest := RemoveAt(proxies, cursor);
    if cursor < |proxies| - 1 {
      assert rest[cursor..] == proxies[cursor + 1..];
      assert rest[..cursor] == proxies[..cursor];
    } else {
      assert rest == proxies[..cursor];
    }
  }

  lemma FirstAliveAfterDeadHead(s: seq<string>, alive: string -> bool)
    requires s != [] && !alive(s[0])
    ensures FirstAlive(s, alive) == 1 + FirstAlive(s[1..], alive)
  {
  }

  /** A dead proxy at the cursor: the rotation is that of the popped list from
      the wrapped cursor, with one probe more. This is one failed pass of the loop. */
  lemma ExpectedWhenDead(proxies: seq<string>, cursor: nat, alive: string -> bool)
    requires cursor < |proxies| && !alive(proxies[cursor]) && |proxies| > 1
    ensures var rest := RemoveAt(proxies, cursor);
      Expected(proxies, cursor, alive)
        == AddProbes(Expected(rest, WrapCursor(cursor, |rest|), alive), 1)
  {
    var n := |proxies|;
    var rest := RemoveAt(proxies, cursor);
    var c' := WrapCursor(cursor, |rest|);
    var order := CyclicOrder(proxies, cursor);
    CyclicOrderAfterPop(proxies, cursor);
    assert order[1..] == CyclicOrder(rest, c');
    FirstAliveAfterDeadHead(order, alive);
    var k' := FirstAlive(CyclicOrder(rest, c'), alive);
    assert FirstAlive(order, alive) == k' + 1;
    if k' == |rest| {
    } else if cursor == n - 1 {
      DeadLastEntry(proxies, alive, k');
    } else if cursor + k' + 1 < n {
      assert c' == cursor;
      DeadNoWrap(proxies, cursor, alive, k');
    } else {
      assert c' == cursor;
      DeadWrap(proxies, cursor, alive, k');
    }
  }

  lemma DeadLastEntry(proxies: seq<string>, alive: string -> bool, k': nat)
    requires |proxies| > 1
    requires var rest := RemoveAt(proxies, |proxies| - 1);
      && k' < |rest|
      && FirstAlive(CyclicOrder(proxies, |proxies| - 1), alive) == k' + 1
      && FirstAlive(CyclicOrder(rest, WrapCursor(|proxies| - 1, |rest|)), alive) == k'
    ensures var rest := RemoveAt(proxies, |proxies| - 1);
      Expected(proxies, |proxies| - 1, alive)
        == AddProbes(Expected(rest, WrapCursor(|proxies| - 1, |rest|), alive), 1)
  {
    var n := |proxies|;
    var rest := RemoveAt(proxies, n - 1);
    assert WrapCursor(n - 1, |rest|) == 0;
    var rest' := rest[..0] + rest[k'..];
    assert rest' == proxies[k'..n - 1];
    assert Expected(rest, 0, alive) == Rotation(Selected(rest[k']), rest', 1 % |rest'|, k' + 1);
    assert Expected(proxies, n - 1, alive) == Rotation(Selected(proxies[k']), proxies[k'..n - 1], 1 % (n - 1 - k'), k' + 2);
  }

  lemma DeadNoWrap(proxies: seq<string>, cursor: nat, alive: string -> bool, k': nat)
    requires cursor + k' + 1 < |proxies|
    requires var rest := RemoveAt(proxies, cursor);
      && FirstAlive(CyclicOrder(proxies, cursor), alive) == k' + 1
      && FirstAlive(CyclicOrder(rest, cursor), alive) == k'
    ensures var rest := RemoveAt(proxies, cursor);
      Expected(proxies, cursor, alive) == AddProbes(Expected(rest, cursor, alive), 1)
  {
    var rest := RemoveAt(proxies, cursor);
    PopKeepsWindow(proxies, cursor, k');
    ExpectedNoWrap(rest, cursor, alive, k');
    ExpectedNoWrap(proxies, cursor, alive, k' + 1);
  }

  lemma DeadWrap(proxies: seq<string>, cursor: nat, alive: string -> bool, k': nat)
    requires cursor < |proxies| - 1 && cursor + k' + 1 >= |proxies|
    requires var rest := RemoveAt(proxies, cursor);
      && k' < |rest|
      && FirstAlive(CyclicOrder(proxies, cursor), alive) == k' + 1
      && FirstAlive(CyclicOrder(rest, cursor), alive) == k'
    ensures var rest := RemoveAt(proxies, cursor);
      Expected(proxies, cursor, alive) == AddProbes(Expected(rest, cursor, alive), 1)
  {
    var n := |proxies|;
    var rest := RemoveAt(proxies, cursor);
    var j := cursor + k' + 1 - n;
    assert rest[j..cursor] == proxies[j..cursor];
    assert rest[j] == proxies[j];
    ExpectedWrap(rest, cursor, alive, k');
    ExpectedWrap(proxies, cursor, alive, k' + 1);
  }

  lemma PopKeepsWindow(proxies: seq<string>, cursor: nat, k': nat)
    requires cursor + k' + 1 < |proxies|
    ensures var rest := RemoveAt(proxies, cursor);
      && rest[cursor + k'] == proxies[cursor + k' + 1]
      && rest[..cursor] + rest[cursor + k'..] == proxies[..cursor] + proxies[cursor + k' + 1..]
  {
    var rest := RemoveAt(proxies, cursor);
    assert rest[..cursor] == proxies[..cursor];
    assert rest[cursor + k'..] == proxies[cursor + k' + 1..];
  }

  /** A rotation probes at most every entry once, and an empty list means exhaustion. */
  lemma ExpectedShape(proxies: seq<string>, cursor: nat, alive: string -> bool)
    requires cursor < |proxies|
    ensures var r := Expected(proxies, cursor, alive);
      && 1 <= r.probes <= |proxies|
      && (r.selection.AllProxiesFailed? <==> r.proxies == [])
      && (r.selection.AllProxiesFailed? ==> r.probes == |proxies| && r.cursor == 0)
      && (r.selection.Selected? ==> r.cursor < |r.proxies| && |r.proxies| == |proxies| - (r.probes - 1))
      && !r.selection.CursorOutOfRange?
  {
  }

  /** Exhaustion happens exactly when every proxy in the list is dead. */
  lemma {:induction false} ExhaustedIffAllDead(proxies: seq<string>, cursor: nat, alive: string -> bool)
    requires cursor < |proxies|
    ensures Expected(proxies, cursor, alive).selection == AllProxiesFailed
        <==> forall i :: 0 <= i < |proxies| ==> !alive(proxies[i])
  {
    var n := |proxies|;
    var order := CyclicOrder(proxies, cursor);
    var k := FirstAlive(order, alive);
    forall i | 0 <= i < n
      ensures proxies[i] == order[if i >= cursor then i - cursor else i + n - cursor]
    {
    }
    if k < n {
      var i := if cursor + k < n then cursor + k else cursor + k - n;
      assert order[k] == proxies[i];
    }
  }

  /** The entries a rotation skips over before its choice are all dead. */
  lemma SkippedAreDead(proxies: seq<string>, cursor: nat, alive: string -> bool)
    requires cursor < |proxies|
    ensures var k := FirstAlive(CyclicOrder(proxies, cursor), alive);
      && (forall i :: cursor <= i < |proxies| && i < cursor + k ==> !alive(proxies[i]))
      && (forall i :: 0 <= i < cursor && i + |proxies| < cursor + k ==> !alive(proxies[i]))
  {
    var n := |proxies|;
    var order := CyclicOrder(proxies, cursor);
    var k := FirstAlive(order, alive);
    forall i | cursor <= i < n && i < cursor + k
      ensures !alive(proxies[i])
    {
      assert order[i - cursor] == proxies[i];
    }
    forall i | 0 <= i < cursor && i + n < cursor + k
      ensures !alive(proxies[i])
    {
      assert order[i + n - cursor] == proxies[i];
    }
  }

  /** The chosen proxy is live, was in the list and is still in it; every live
      proxy survives; the survivors keep their order. */
  lemma SelectedIsLiveSurvivor(proxies: seq<string>, cursor: nat, alive: string -> bool)
    requires cursor < |proxies|
    requires Expected(proxies, cursor, alive).selection.Selected?
    ensures var r := Expected(proxies, cursor, alive);
      && alive(r.selection.proxy)
      && r.selection.proxy in proxies
      && r.selection.proxy in r.proxies
      && IsSubsequence(r.proxies, proxies)
      && (forall i :: 0 <= i < |proxies| && alive(proxies[i]) ==> proxies[i] in r.proxies)
  {
    var k := FirstAlive(CyclicOrder(proxies, cursor), alive);
    SkippedAreDead(proxies, cursor, alive);
    if cursor + k < |proxies| {
      SelectedNoWrap(proxies, cursor, alive, k);
    } else {
      SelectedWrap(proxies, cursor, alive, k);
    }
  }

  lemma SelectedNoWrap(proxies: seq<string>, cursor: nat, alive: string -> bool, k: nat)
    requires cursor + k < |proxies| && k == FirstAlive(CyclicOrder(proxies, cursor), alive)
    requires forall i :: cursor <= i < |proxies| && i < cursor + k ==> !alive(proxies[i])
    ensures var kept := proxies[..cursor] + proxies[cursor + k..];
      && alive(proxies[cursor + k])
      && proxies[cursor + k] in kept
      && IsSubsequence(kept, proxies)
      && (forall i :: 0 <= i < |proxies| && alive(proxies[i]) ==> proxies[i] in kept)
  {
    var kept := proxies[..cursor] + proxies[cursor + k..];
    assert CyclicOrder(proxies, cursor)[k] == proxies[cursor + k];
    assert kept[cursor] == proxies[cursor + k];
    SliceSubsequence(proxies, cursor, cursor + k);
    forall i | 0 <= i < |proxies| && alive(proxies[i])
      ensures proxies[i] in kept
    {
      if i < cursor {
        assert kept[i] == proxies[i];
      } else {
        assert kept[i - k] == proxies[i];
      }
    }
  }

  lemma SelectedWrap(proxies: seq<string>, cursor: nat, alive: string -> bool, k: nat)
    requires cursor < |proxies| && cursor + k >= |proxies|
    requires k < |proxies| && k == FirstAlive(CyclicOrder(proxies, cursor), alive)
    requires forall i :: cursor <= i < |proxies| ==> !alive(proxies[i])
    requires forall i :: 0 <= i < cursor && i + |proxies| < cursor + k ==> !alive(proxies[i])
    ensures var j := cursor + k - |proxies|;
      && alive(proxies[j])
      && proxies[j] in proxies[j..cursor]
      && IsSubsequence(proxies[j..cursor], proxies)
      && (forall i :: 0 <= i < |proxies| && alive(proxies[i]) ==> proxies[i] in proxies[j..cursor])
  {
    var j := cursor + k - |proxies|;
    assert CyclicOrder(proxies, cursor)[k] == proxies[j];
    assert proxies[j..cursor][0] == proxies[j];
    DropBothEndsSubsequence(proxies, j, cursor);
    forall i | 0 <= i < |proxies| && alive(proxies[i])
      ensures proxies[i] in proxies[j..cursor]
    {
      assert proxies[j..cursor][i - j] == proxies[i];
    }
  }

  /** `a` is `b` with some entries dropped and the rest in their order. */
  ghost predicate IsSubsequence(a: seq<string>, b: seq<string>)
  {
    exists idx: seq<nat> ::
      && |idx| == |a|
      && (forall k :: 0 <= k < |idx| ==> idx[k] < |b| && a[k] == b[idx[k]])
      && (forall k, l :: 0 <= k < l < |idx| ==> idx[k] < idx[l])
  }

  /** Cutting out `s[i..j]` leaves a subsequence. */
  lemma SliceSubsequence(s: seq<string>, i: nat, j: nat)
    requires i <= j <= |s|
    ensures IsSubsequence(s[..i] + s[j..], s)
  {
    var a := s[..i] + s[j..];
    var idx := seq(|a|, k requires 0 <= k < |a| => if k < i then k else k + (j - i));
    assert forall k :: 0 <= k < |idx| ==> idx[k] < |s| && a[k] == s[idx[k]];
  }

  /** Keeping only `s[i..j]` leaves a subsequence. */
  lemma DropBothEndsSubsequence(s: seq<string>, i: nat, j: nat)
    requires i <= j <= |s|
    ensures IsSubsequence(s[i..j], s)
  {
    var a := s[i..j];
    var idx := seq(|a|, k requires 0 <= k < |a| => k + i);
    assert forall k :: 0 <= k < |idx| ==> idx[k] < |s| && a[k] == s[idx[k]];
  }

  /** `max_retries` consecutive failed probes empty a list of that length: the
      reference rotation never ends with the retry bound reached while proxies remain. */
  lemma {:induction false} AllDeadProbesEveryEntry(proxies: seq<string>, cursor: nat, alive: string -> bool)
    requires cursor < |proxies|
    requires forall i :: 0 <= i < |proxies| ==> !alive(proxies[i])
    ensures Expected(proxies, cursor, alive) == Rotation(AllProxiesFailed, [], 0, |proxies|)
  {
    ExhaustedIffAllDead(proxies, cursor, alive);
  }

  /** The selections of `count` successive rotations from a given pool. */
  function Successive(proxies: seq<string>, cursor: nat, alive: string -> bool, count: nat): seq<Selection>
    requires cursor < |proxies|
    decreases count
  {
    if count == 0 then []
    else
      var r := Expected(proxies, cursor, alive);
      if r.proxies == [] || r.cursor >= |r.proxies| then [r.selection]
      else [r.selection] + Successive(r.proxies, r.cursor, alive, count - 1)
  }

  /** A scrape through a live proxy at the cursor, then the rest. */
  lemma SuccessiveWhenAlive(proxies: seq<string>, cursor: nat, alive: string -> bool, count: nat)
    requires cursor < |proxies| && alive(proxies[cursor]) && count > 0
    ensures Successive(proxies, cursor, alive, count)
         == [Selected(proxies[cursor])] + Successive(proxies, (cursor + 1) % |proxies|, alive, count - 1)
  {
    ExpectedWhenAlive(proxies, cursor, alive);
  }

  /** The proxies from `cursor` on, round the list, `count` of them. */
  function Cycle(proxies: seq<string>, cursor: nat, count: nat): seq<Selection>
    requires cursor < |proxies|
    decreases count
  {
    if count == 0 then [] else [Selected(proxies[cursor])] + Cycle(proxies, (cursor + 1) % |proxies|, count - 1)
  }

  /** With every probe succeeding, every rotation takes the proxy at the cursor. */
  lemma {:induction false} SuccessiveAllAlive(proxies: seq<string>, cursor: nat, alive: string -> bool, count: nat)
    requires cursor < |proxies|
    requires forall i :: 0 <= i < |proxies| ==> alive(proxies[i])
    ensures Successive(proxies, cursor, alive, count) == Cycle(proxies, cursor, count)
    decreases count
  {
    if count > 0 {
      var c' := (cursor + 1) % |proxies|;
      assert c' < |proxies|;
      assert Cycle(proxies, cursor, count) == [Selected(proxies[cursor])] + Cycle(proxies, c', count - 1);
      SuccessiveWhenAlive(proxies, cursor, alive, count);
      SuccessiveAllAlive(proxies, c', alive, count - 1);
    }
  }

  /** The `i`-th proxy of the cycle is entry `(cursor + i) mod n`. */
  lemma {:induction false} CycleAt(proxies: seq<string>, cursor: nat, count: nat)
    requires cursor < |proxies|
    ensures |Cycle(proxies, cursor, count)| == count
    ensures forall i :: 0 <= i < count ==> Cycle(proxies, cursor, count)[i] == Selected(proxies[(cursor + i) % |proxies|])
    decreases count
  {
    if count > 0 {
      var n := |proxies|;
      var c' := (cursor + 1) % n;
      CycleAt(proxies, c', count - 1);
      var tail := Cycle(proxies, c', count - 1);
      var all := [Selected(proxies[cursor])] + tail;
      assert Cycle(proxies, cursor, count) == all;
      DivModUnique(cursor, n, 0, cursor);
      assert all[0] == Selected(proxies[(cursor + 0) % n]);
      forall i | 0 < i < count
        ensures all[i] == Selected(proxies[(cursor + i) % n])
      {
        assert all[i] == tail[i - 1];
        ModStep(cursor, i, n);
      }
    }
  }

  /** With every probe succeeding, successive scrapes use the proxies in cyclic
      order from the cursor: the `i`-th uses entry `(cursor + i) mod n`, so `n`
      scrapes use every entry exactly once. */
  lemma AllAliveRoundRobin(proxies: seq<string>, cursor: nat, alive: string -> bool, count: nat)
    requires cursor < |proxies|
    requires forall i :: 0 <= i < |proxies| ==> alive(proxies[i])
    ensures |Successive(proxies, cursor, alive, count)| == count
    ensures forall i :: 0 <= i < count ==>
      Successive(proxies, cursor, alive, count)[i] == Selected(proxies[(cursor + i) % |proxies|])
  {
    SuccessiveAllAlive(proxies, cursor, alive, count);
    CycleAt(proxies, cursor, count);
  }

  lemma ModStep(c: nat, i: nat, n: nat)
    requires c < n && i > 0
    ensures ((c + 1) % n + (i - 1)) % n == (c + i) % n
  {
    if c + 1 == n {
      assert (c + 1) % n == 0;
      ModShift(i - 1, n);
    } else {
      assert (c + 1) % n == c + 1;
    }
  }

  /** Adding the modulus does not change the remainder. */
  lemma ModShift(x: nat, n: nat)
    requires n > 0
    ensures (x + n) % n == x % n
  {
    var q, r := x / n, x % n;
    assert x + n == (q + 1) * n + r by {
      assert (q + 1) * n == q * n + n;
    }
    DivModUnique(x + n, n, q + 1, r);
  }

  lemma DivModUnique(x: nat, n: nat, q: nat, r: nat)
    requires n > 0 && r < n && x == q * n + r
    ensures x % n == r
  {
    var q', r' := x / n, x % n;
    if q > q' {
      MulDistSub(q, q', n);
      assert false;
    } else if q < q' {
      MulDistSub(q', q, n);
      assert false;
    }
  }

  lemma MulDistSub(a: nat, b: nat, n: nat)
    requires a > b
    ensures a * n - b * n >= n
  {
    var d := a - b;
    assert a * n == (b + d) * n == b * n + d * n;
    assert d * n >= n by { MulAtLeast(d, n); }
  }

  lemma {:induction false} MulAtLeast(d: nat, n: nat)
    requires d >= 1
    ensures d * n >= n
  {
    if d > 1 {
      MulAtLeast(d - 1, n);
      assert d * n == (d - 1) * n + n;
    }
  }
  /**
   * The part of `ScrapeThread` that rotates proxies: `proxy_list` and
   * `current_proxy_index`. The source never initialises them; the model takes
   * them as given state.
   */
  class ScrapeThread {
    var proxyList: seq<string>
    var currentProxyIndex: nat

    /** The cursor indexes the list whenever the list is non-empty. */
    predicate CursorInBounds()
      reads this
    {
      proxyList != [] ==> currentProxyIndex < |proxyList|
    }

    constructor (proxies: seq<string>, cursor: nat)
      ensures proxyList == proxies && currentProxyIndex == cursor
    {
      proxyList := proxies;
      currentProxyIndex := cursor;
    }

    /**
     * The rotation loop of `run` (the branch taken when `proxy_list` is
     * non-empty), with `alive` standing for the outcome of the
     * `api.ipify.org` probe through each proxy. `probes` counts the probes made.
     */
    method RotateProxy(alive: string -> bool) returns (selection: Selection, probes: nat)
      requires proxyList != []
      modifies this
      ensures old(currentProxyIndex) >= |old(proxyList)| ==>
        selection == CursorOutOfRange && probes == 0
        && proxyList == old(proxyList) && currentProxyIndex == old(currentProxyIndex)
      ensures old(currentProxyIndex) < |old(proxyList)| ==>
        Rotation(selection, proxyList, currentProxyIndex, probes)
          == Expected(old(proxyList), old(currentProxyIndex), alive)
      ensures old(CursorInBounds()) ==> CursorInBounds()
    {
      if currentProxyIndex >= |proxyList| {
        // `self.proxy_list[i]` raises, and so does the `pop(i)` in its handler.
        return CursorOutOfRange, 0;
      }
      ghost var goal := Expected(proxyList, currentProxyIndex, alive);
      var maxRetries := |proxyList|;
      var retries := 0;
      var chosen: Option<string> := None;
      while retries < maxRetries
        invariant |proxyList| + retries == maxRetries
        invariant proxyList != [] && currentProxyIndex < |proxyList|
        invariant AddProbes(Expected(proxyList, currentProxyIndex, alive), retries) == goal
        invariant chosen == None
        decreases maxRetries - retries
      {
        var proxy := proxyList[currentProxyIndex];
        if alive(proxy) {
          ExpectedWhenAlive(proxyList, currentProxyIndex, alive);
          currentProxyIndex := (currentProxyIndex + 1) % |proxyList|;
          chosen := Some(proxy);
          break;
        }
        if |proxyList| > 1 {
          ExpectedWhenDead(proxyList, currentProxyIndex, alive);
        }
        proxyList := RemoveAt(proxyList, currentProxyIndex);
        if proxyList == [] {
          return AllProxiesFailed, retries + 1;
        }
        currentProxyIndex := WrapCursor(currentProxyIndex, |proxyList|);
        retries := retries + 1;
      }
      // The loop is left only by `break`: `retries < max_retries` cannot fail first.
      selection, probes := Selected(chosen.value), retries + 1;
    }

    /**
     * The `proxies` map `run` builds before fetching: rotation for an HTTP
     * proxy with a non-empty list, the single configured address for an HTTP
     * proxy without one, the settings' SOCKS endpoint for Tor, none otherwise.
     */
    method ResolveProxies(option: string, proxyAddress: string, settings: Settings, alive: string -> bool)
      returns (r: Result<ProxyMap>)
      modifies this
      ensures option != HttpProxyOption || old(proxyList) == [] ==>
        proxyList == old(proxyList) && currentProxyIndex == old(currentProxyIndex)
      ensures option == HttpProxyOption && old(proxyList) == [] ==> r == Ok(HttpProxyMap(proxyAddress))
      ensures option == TorOption ==> r == Ok(SettingsTorProxyMap(settings))
      ensures option != HttpProxyOption && option != TorOption ==> r == Ok(map[])
      ensures option == HttpProxyOption && old(proxyList) != [] && old(currentProxyIndex) < |old(proxyList)| ==>
        var e := Expected(old(proxyList), old(currentProxyIndex), alive);
        && proxyList == e.proxies && currentProxyIndex == e.cursor
        && (e.selection.Selected? ==> r == Ok(HttpProxyMap(e.selection.proxy)))
        && (e.selection.AllProxiesFailed? ==> r == Err("All proxies failed"))
      ensures option == HttpProxyOption && old(proxyList) != [] && old(currentProxyIndex) >= |old(proxyList)| ==>
        r == Err("pop index out of range") && proxyList == old(proxyList)
    {
      if option == HttpProxyOption {
        if proxyList != [] {
          var selection, _ := RotateProxy(alive);
          match selection
          case Selected(proxy) => r := Ok(HttpProxyMap(proxy));
          case AllProxiesFailed => r := Err("All proxies failed");
          case CursorOutOfRange => r := Err("pop index out of range");
        } else {
          r := Ok(HttpProxyMap(proxyAddress));
        }
      } else if option == TorOption {
        r := Ok(SettingsTorProxyMap(settings));
      } else {
        r := Ok(map[]);
      }
    }
  }
}
