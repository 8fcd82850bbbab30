/** HerdCache: a map of buffers and a recency list, against the ideal
    least-recently-used stack of its access history. */
module HerdCache {
  datatype Key = Key(layer: int, expert: int)

  datatype Buffer = Buffer(expertId: int, layerIdx: int, isReady: bool)

  datatype Access = Use(key: Key) | Forget(key: Key)

  /** The list without a key. */
  function Removed(s: seq<Key>, k: Key): (r: seq<Key>)
    ensures |r| <= |s|
  {
    if s == [] then [] else if s[0] == k then s[1..] else [s[0]] + Removed(s[1..], k)
  }

  /** The unbounded stack: every key in use, least recently used first. */
  function Recency(h: seq<Access>): seq<Key> {
    if h == [] then []
    else
      var before := Recency(h[..|h| - 1]);
      match h[|h| - 1]
      case Use(k) => Removed(before, k) + [k]
      case Forget(k) => Removed(before, k)
  }

  ghost predicate Distinct(s: seq<Key>) {
    forall i, j :: 0 <= i < j < |s| ==> s[i] != s[j]
  }

  lemma DistinctSplit(s: seq<Key>)
    requires s != [] && Distinct(s)
    ensures Distinct(s[1..]) && s[0] !in s[1..]
    ensures forall x :: x in s <==> x == s[0] || x in s[1..]
  {
    forall x | x in s ensures x == s[0] || x in s[1..] {
      var i :| 0 <= i < |s| && s[i] == x;
      assert i > 0 ==> s[1..][i - 1] == x;
    }
    forall i | 0 <= i < |s[1..]| ensures s[1..][i] != s[0] {
      assert s[1..][i] == s[i + 1];
    }
  }

  lemma {:induction false} RemovedElements(s: seq<Key>, k: Key)
    requires Distinct(s)
    ensures Distinct(Removed(s, k)) && k !in Removed(s, k)
    ensures forall x :: x in Removed(s, k) <==> x in s && x != k
  {
    if s == [] {
    } else {
      DistinctSplit(s);
      if s[0] != k {
        RemovedElements(s[1..], k);
        var r := Removed(s[1..], k);
        forall i, j | 0 <= i < j < |[s[0]] + r| ensures ([s[0]] + r)[i] != ([s[0]] + r)[j] {
          if i == 0 {
            assert r[j - 1] in r;
          }
        }
      }
    }
  }

  lemma {:induction false} RemovedAbsent(s: seq<Key>, k: Key)
    requires k !in s
    ensures Removed(s, k) == s
  {
    if s == [] {
    } else {
      RemovedAbsent(s[1..], k);
    }
  }

  /** Removing from a concatenation of distinct keys. */
  lemma {:induction false} RemovedConcat(a: seq<Key>, b: seq<Key>, k: Key)
    requires Distinct(a + b)
    ensures Removed(a + b, k) == Removed(a, k) + Removed(b, k)
  {
    if a == [] {
      assert a + b == b;
    } else {
      assert (a + b)[1..] == a[1..] + b;
      DistinctSplit(a + b);
      if a[0] == k {
        assert forall x :: x in b ==> x in a[1..] + b;
        RemovedAbsent(b, k);
      } else {
        RemovedConcat(a[1..], b, k);
        assert [a[0]] + (Removed(a[1..], k) + Removed(b, k)) == ([a[0]] + Removed(a[1..], k)) + Removed(b, k);
      }
    }
  }

  lemma {:induction false} RecencyDistinct(h: seq<Access>)
    ensures Distinct(Recency(h))
  {
    if h == [] {
    } else {
      RecencyDistinct(h[..|h| - 1]);
      RemovedElements(Recency(h[..|h| - 1]), h[|h| - 1].key);
    }
  }

  /** When a key was last used, 0 if never or forgotten since. */
  function LastUse(h: seq<Access>, k: Key): (t: nat)
    ensures t <= |h|
  {
    if h == [] then 0
    else if h[|h| - 1].key == k then (if h[|h| - 1].Use? then |h| else 0)
    else LastUse(h[..|h| - 1], k)
  }

  lemma {:induction false} RemovedOrdered(s: seq<Key>, k: Key, h: seq<Access>)
    requires forall i, j :: 0 <= i < j < |s| ==> LastUse(h, s[i]) < LastUse(h, s[j])
    requires Distinct(s)
    ensures var r := Removed(s, k); forall i, j :: 0 <= i < j < |r| ==> LastUse(h, r[i]) < LastUse(h, r[j])
  {
    if s == [] || s[0] == k {
    } else {
      RemovedOrdered(s[1..], k, h);
      RemovedElements(s[1..], k);
      var t := Removed(s[1..], k);
      forall j | 0 <= j < |t| ensures LastUse(h, s[0]) < LastUse(h, t[j]) {
        assert t[j] in s[1..];
      }
    }
  }

  /** The stack holds exactly the keys in use, ordered by their last use. */
  lemma {:induction false} RecencyIsOrdered(h: seq<Access>)
    ensures forall k :: k in Recency(h) <==> LastUse(h, k) > 0
    ensures forall i, j :: 0 <= i < j < |Recency(h)| ==> LastUse(h, Recency(h)[i]) < LastUse(h, Recency(h)[j])
  {
    if h == [] {
    } else {
      var g := h[..|h| - 1];
      var k := h[|h| - 1].key;
      RecencyIsOrdered(g);
      RecencyDistinct(g);
      RemovedElements(Recency(g), k);
      RemovedOrdered(Recency(g), k, g);
      var r := Removed(Recency(g), k);
      forall i | 0 <= i < |r| ensures LastUse(h, r[i]) == LastUse(g, r[i]) < |h| {
        assert r[i] in r;
      }
    }
  }

  /** l is the most recent part of the unbounded stack. */
  ghost predicate TopOf(l: seq<Key>, h: seq<Access>) {
    |l| <= |Recency(h)| && l == Recency(h)[|Recency(h)| - |l|..]
  }

  lemma TopPrefix(l: seq<Key>, h: seq<Access>, k: Key)
    requires TopOf(l, h)
    ensures exists p :: Removed(Recency(h), k) == p + Removed(l, k)
  {
    var R := Recency(h);
    var p := R[..|R| - |l|];
    assert R == p + l;
    RecencyDistinct(h);
    RemovedConcat(p, l, k);
  }

  /** A use moves the bounded list as it moves the stack. */
  lemma TopUse(l: seq<Key>, h: seq<Access>, k: Key)
    requires TopOf(l, h)
    ensures TopOf(Removed(l, k) + [k], h + [Use(k)])
  {
    TopPrefix(l, h, k);
    assert (h + [Use(k)])[..|h|] == h;
  }

  lemma TopForget(l: seq<Key>, h: seq<Access>, k: Key)
    requires TopOf(l, h)
    ensures TopOf(Removed(l, k), h + [Forget(k)])
  {
    TopPrefix(l, h, k);
    assert (h + [Forget(k)])[..|h|] == h;
  }

  /** Every buffer carries the key it is stored under. */
  ghost predicate Labelled(m: map<Key, Buffer>) {
    forall k :: k in m ==> m[k].layerIdx == k.layer && m[k].expertId == k.expert
  }

  lemma LabelOne(m: map<Key, Buffer>, k: Key, b: Buffer)
    requires Labelled(m) && b.layerIdx == k.layer && b.expertId == k.expert
    ensures Labelled(m[k := b]) && m[k := b].Keys == m.Keys + {k}
  {
  }

  function Room(max: nat): nat { if max > 1 then max else 1 }

  ghost predicate Holds(l: seq<Key>, h: seq<Access>, room: nat) {
    |l| == if |Recency(h)| < room then |Recency(h)| else room
  }

  lemma StartEmpty()
    ensures TopOf([], []) && Distinct([]) && forall max: nat :: Holds([], [], Room(max))
  {
  }

  function KeysOf(s: seq<Key>): (r: set<Key>)
    ensures forall k :: k in r <==> k in s
  {
    set k | k in s
  }

  lemma {:induction false} KeysSize(s: seq<Key>)
    requires Distinct(s)
    ensures |KeysOf(s)| == |s|
  {
    if s == [] {
      assert KeysOf(s) == {};
    } else {
      DistinctSplit(s);
      KeysSize(s[1..]);
      assert KeysOf(s) == KeysOf(s[1..]) + {s[0]};
    }
  }

  lemma MapSize(m: map<Key, Buffer>, s: seq<Key>)
    requires m.Keys == KeysOf(s) && Distinct(s)
    ensures |m| == |s|
  {
    KeysSize(s);
    assert |m| == |m.Keys|;
  }

  lemma {:induction false} RemovedSize(s: seq<Key>, k: Key)
    ensures |Removed(s, k)| == if k in s then |s| - 1 else |s|
  {
    if s == [] || s[0] == k {
    } else {
      RemovedSize(s[1..], k);
    }
  }

  /** The list after a use: distinct, with the key at the recent end. */
  lemma UseKeys(s: seq<Key>, k: Key)
    requires Distinct(s)
    ensures Distinct(Removed(s, k) + [k])
    ensures KeysOf(Removed(s, k) + [k]) == if k in s then KeysOf(s) else KeysOf(s) + {k}
    ensures |Removed(s, k)| + 1 == if k in s then |s| else |s| + 1
  {
    RemovedElements(s, k);
    RemovedSize(s, k);
    var r := Removed(s, k);
    forall i | 0 <= i < |r| ensures r[i] != k {
      assert r[i] in r;
    }
  }

  lemma ForgetKeys(s: seq<Key>, k: Key)
    requires Distinct(s)
    ensures Distinct(Removed(s, k)) && KeysOf(Removed(s, k)) == KeysOf(s) - {k}
  {
    RemovedElements(s, k);
  }

  /** What an ideal cache of that room holds: the last keys of the stack. */
  function Latest(h: seq<Access>, max: nat): seq<Key> {
    var R := Recency(h);
    if |R| < Room(max) then R else R[|R| - Room(max)..]
  }

  lemma HeldIsLatest(l: seq<Key>, h: seq<Access>, max: nat)
    requires TopOf(l, h) && Holds(l, h, Room(max))
    ensures l == Latest(h, max)
  {
    hide Recency;
    if |l| == |Recency(h)| {
      assert l == Recency(h);
    }
  }

  lemma {:induction false} UsedIsAccessed(h: seq<Access>, j: Key)
    requires LastUse(h, j) > 0
    ensures exists a :: a in h && a.key == j
  {
    if h[|h| - 1].key == j {
      assert h[|h| - 1] in h;
    } else {
      UsedIsAccessed(h[..|h| - 1], j);
      var a :| a in h[..|h| - 1] && a.key == j;
      assert a in h;
    }
  }

  /** The keys used after the last use of a key. */
  ghost function UsedAfter(h: seq<Access>, k: Key): (s: set<Key>)
    ensures forall j :: j in s <==> LastUse(h, j) > LastUse(h, k)
  {
    forall j | LastUse(h, j) > LastUse(h, k) ensures exists a :: a in h && a.key == j {
      UsedIsAccessed(h, j);
    }
    set a | a in h && LastUse(h, a.key) > LastUse(h, k) :: a.key
  }

  /** What comes after a place of the stack. */
  lemma LaterKeys(h: seq<Access>, i: nat)
    requires i < |Recency(h)|
    ensures |UsedAfter(h, Recency(h)[i])| == |Recency(h)| - 1 - i
  {
    hide Recency, LastUse;
    var R := Recency(h);
    RecencyIsOrdered(h);
    RecencyDistinct(h);
    var later := R[i + 1..];
    forall a, b | 0 <= a < b < |later| ensures later[a] != later[b] {
      assert later[a] == R[i + 1 + a] && later[b] == R[i + 1 + b];
    }
    KeysSize(later);
    forall j ensures j in UsedAfter(h, R[i]) <==> j in KeysOf(later) {
      if j in UsedAfter(h, R[i]) {
        assert LastUse(h, j) > LastUse(h, R[i]) && LastUse(h, j) > 0;
        var x :| 0 <= x < |R| && R[x] == j;
        assert later[x - i - 1] == j;
      }
      if j in KeysOf(later) {
        var y :| 0 <= y < |later| && later[y] == j;
        assert R[i + 1 + y] == j;
      }
    }
    assert UsedAfter(h, R[i]) == KeysOf(later);
  }

  lemma InTail(R: seq<Key>, p: nat, i: nat)
    requires Distinct(R) && p <= |R| && i < |R|
    ensures R[i] in R[p..] <==> i >= p
  {
    if i >= p {
      assert R[p..][i - p] == R[i];
    }
  }

  lemma LatestAt(h: seq<Access>, max: nat, i: nat)
    requires i < |Recency(h)|
    ensures Recency(h)[i] in Latest(h, max) <==> |Recency(h)| - 1 - i < (if max > 1 then max else 1)
    ensures forall k :: k in Latest(h, max) ==> k in Recency(h)
  {
    hide Recency, Distinct;
    var R := Recency(h);
    RecencyDistinct(h);
    InTail(R, if |R| < Room(max) then 0 else |R| - Room(max), i);
  }

  lemma NoneLatest(h: seq<Access>, max: nat, k: Key)
    requires k !in Recency(h)
    ensures k !in Latest(h, max)
  {
  }

  /** An ideal cache holds exactly the keys in use that fewer than max(1, max) others
      were used after. */
  lemma HeldExactly(h: seq<Access>, max: nat, k: Key)
    ensures k in Latest(h, max) <==> LastUse(h, k) > 0 && |UsedAfter(h, k)| < (if max > 1 then max else 1)
  {
    hide Recency, LastUse, UsedAfter, Room;
    var R := Recency(h);
    RecencyIsOrdered(h);
    if k in R {
      var i :| 0 <= i < |R| && R[i] == k;
      LaterKeys(h, i);
      LatestAt(h, max, i);
    } else {
      NoneLatest(h, max, k);
    }
  }

  datatype Request = Prefetch(layer: int, ids: seq<int>) | Get(layer: int, expert: int) | Pin(layer: int, expert: int)

  /** A router prefetch on the ideal cache: the experts it does not hold are used. */
  function Fetched(h: seq<Access>, max: nat, layer: int, ids: seq<int>): seq<Access> {
    if ids == [] then h
    else
      var before := Fetched(h, max, layer, ids[..|ids| - 1]);
      var k := Key(layer, ids[|ids| - 1]);
      if k in Latest(before, max) then before else before + [Use(k)]
  }

  lemma UseLasts(h: seq<Access>, j: Key, k: Key)
    ensures LastUse(h + [Use(j)], k) == if j == k then |h| + 1 else LastUse(h, k)
  {
    assert (h + [Use(j)])[..|h|] == h;
  }

  lemma SmallerSet(a: set<Key>, b: set<Key>)
    requires a <= b
    ensures |a| <= |b|
  {
    assert b == a + (b - a);
  }

  lemma UsedAfterUse(h: seq<Access>, j: Key, k: Key)
    requires j != k
    ensures UsedAfter(h + [Use(j)], k) == UsedAfter(h, k) + {j}
  {
    hide LastUse, UsedAfter;
    forall x ensures LastUse(h + [Use(j)], x) == if j == x then |h| + 1 else LastUse(h, x) {
      UseLasts(h, j, x);
    }
  }

  /** What was used after a held key is held. */
  lemma HeldBefore(h: seq<Access>, max: nat, j: Key, k: Key)
    requires k in Latest(h, max) && j in UsedAfter(h, k)
    ensures j in Latest(h, max)
  {
    hide Latest, LastUse, UsedAfter;
    HeldExactly(h, max, j);
    HeldExactly(h, max, k);
    SmallerSet(UsedAfter(h, j), UsedAfter(h, k));
  }

  /** A key that is used because it was not held takes a held one a place back. */
  lemma PushedBack(h: seq<Access>, max: nat, j: Key, k: Key)
    requires j !in Latest(h, max) && j != k && LastUse(h, k) > 0
    ensures var h' := h + [Use(j)];
      && LastUse(h', k) == LastUse(h, k)
      && |UsedAfter(h', k)| >= |UsedAfter(h, k)|
      && (k in Latest(h, max) ==> |UsedAfter(h', k)| == |UsedAfter(h, k)| + 1)
  {
    hide Latest, LastUse, UsedAfter;
    UseLasts(h, j, k);
    UsedAfterUse(h, j, k);
    SmallerSet(UsedAfter(h, k), UsedAfter(h, k) + {j});
    if k in Latest(h, max) && j in UsedAfter(h, k) {
      HeldBefore(h, max, j, k);
    }
  }

  lemma FetchedNext(h: seq<Access>, max: nat, layer: int, ids: seq<int>, n: nat)
    requires n < |ids|
    ensures var before := Fetched(h, max, layer, ids[..n]); var k := Key(layer, ids[n]);
      Fetched(h, max, layer, ids[..n + 1]) == if k in Latest(before, max) then before else before + [Use(k)]
  {
    assert ids[..n + 1][..n] == ids[..n];
  }

  /** At its turn a requested expert is held, if need be as the latest. */
  lemma FetchedHolds(h: seq<Access>, max: nat, layer: int, ids: seq<int>, n: nat)
    requires n < |ids|
    ensures var h' := Fetched(h, max, layer, ids[..n + 1]); var k := Key(layer, ids[n]);
      && k in Latest(h', max) && LastUse(h', k) > 0
      && (k !in Latest(Fetched(h, max, layer, ids[..n]), max) ==> UsedAfter(h', k) == {})
  {
    hide Latest;
    var before, k := Fetched(h, max, layer, ids[..n]), Key(layer, ids[n]);
    var h' := Fetched(h, max, layer, ids[..n + 1]);
    FetchedNext(h, max, layer, ids, n);
    if k !in Latest(before, max) {
      UseLasts(before, k, k);
      assert LastUse(h', k) == |h'|;
      assert UsedAfter(h', k) == {};
    }
    HeldExactly(h', max, k);
  }

  /** And from then on it stays held exactly as long as the experts used after it and
      the ones allocated since are fewer than max(1, max). */
  lemma {:induction false} RequestedHeld(h: seq<Access>, max: nat, layer: int, ids: seq<int>, i: nat, n: nat)
    requires i < n <= |ids| && forall j :: i < j < n ==> ids[j] != ids[i]
    ensures var h1 := Fetched(h, max, layer, ids[..i + 1]); var h2 := Fetched(h, max, layer, ids[..n]);
      var k := Key(layer, ids[i]);
      && |h1| <= |h2| <= |h1| + n - 1 - i && LastUse(h2, k) > 0
      && (k in Latest(h2, max) <==> |UsedAfter(h1, k)| + |h2| - |h1| < (if max > 1 then max else 1))
      && (k in Latest(h2, max) ==> |UsedAfter(h2, k)| == |UsedAfter(h1, k)| + |h2| - |h1|)
    decreases n
  {
    hide Latest, LastUse, Fetched;
    var h1 := Fetched(h, max, layer, ids[..i + 1]);
    var k := Key(layer, ids[i]);
    FetchedHolds(h, max, layer, ids, i);
    if n == i + 1 {
      HeldExactly(h1, max, k);
    } else {
      RequestedHeld(h, max, layer, ids, i, n - 1);
      FetchedNext(h, max, layer, ids, n - 1);
      var g := Fetched(h, max, layer, ids[..n - 1]);
      var j := Key(layer, ids[n - 1]);
      HeldExactly(g, max, k);
      if j !in Latest(g, max) {
        PushedBack(g, max, j, k);
        HeldExactly(g + [Use(j)], max, k);
      }
    }
  }

  /** So an expert the call allocates is still held at its end, if no more than
      max(1, max) requests come from its turn on. */
  lemma AllocatedHeld(h: seq<Access>, max: nat, layer: int, ids: seq<int>, i: nat)
    requires i < |ids| && (forall j :: i < j < |ids| ==> ids[j] != ids[i]) && |ids| - i <= (if max > 1 then max else 1)
    requires Key(layer, ids[i]) !in Latest(Fetched(h, max, layer, ids[..i]), max)
    ensures Key(layer, ids[i]) in Latest(Fetched(h, max, layer, ids), max)
  {
    hide Latest, LastUse, Fetched;
    FetchedHolds(h, max, layer, ids, i);
    RequestedHeld(h, max, layer, ids, i, |ids|);
    assert ids[..|ids|] == ids;
  }

  function Played(requests: seq<Request>, max: nat): seq<Access> {
    if requests == [] then []
    else
      var h := Played(requests[..|requests| - 1], max);
      match requests[|requests| - 1]
      case Prefetch(layer, ids) => Fetched(h, max, layer, ids)
      case Get(layer, expert) => if Key(layer, expert) in Latest(h, max) then h + [Use(Key(layer, expert))] else h
      case Pin(layer, expert) => h + [Use(Key(layer, expert))]
  }

  lemma UseGrows(h: seq<Access>, k: Key)
    ensures |Recency(h + [Use(k)])| == if k in Recency(h) then |Recency(h)| else |Recency(h)| + 1
  {
    assert (h + [Use(k)])[..|h|] == h;
    RemovedSize(Recency(h), k);
  }

  lemma TopIn(l: seq<Key>, h: seq<Access>, k: Key)
    requires TopOf(l, h)
    ensures k in l ==> k in Recency(h)
    ensures |l| == |Recency(h)| ==> (k in l <==> k in Recency(h))
    ensures |l| <= |Recency(h)|
  {
    hide Recency;
    if |l| == |Recency(h)| {
      assert l == Recency(h);
    }
  }

  /** What a full list keeps to have room for one more key. */
  function Trimmed(l: seq<Key>, max: nat): (r: seq<Key>) {
    if |l| < max then l else if max == 0 then [] else l[|l| - max + 1..]
  }

  /** The key that making room removes is the first; the others stay. */
  lemma TrimmedIn(l: seq<Key>, k: Key, max: nat)
    requires Distinct(l) && |l| == Room(max)
    ensures k in Trimmed(l, max) <==> k in l && l[0] != k
    ensures |Trimmed(l, max)| == |l| - 1
  {
    assert Trimmed(l, max) == l[1..];
    DistinctSplit(l);
  }

  /** Using a key that is held, or one that is not after making room for it, drops
      nothing without need. Allocating a held key of a full list does, unless that
      key is the one making room removes. */
  lemma UseHolds(l: seq<Key>, h: seq<Access>, k: Key, max: nat)
    requires TopOf(l, h) && Distinct(l) && Holds(l, h, Room(max))
    ensures k in l ==> Holds(Removed(l, k) + [k], h + [Use(k)], Room(max))
    ensures Holds(Removed(Trimmed(l, max), k) + [k], h + [Use(k)], Room(max)) <==> k !in l || |l| < max || l[0] == k
  {
    hide Recency, Removed, TopOf, Distinct;
    UseGrows(h, k);
    TopIn(l, h, k);
    RemovedSize(l, k);
    RemovedSize(Trimmed(l, max), k);
    if |l| >= max && l != [] {
      TrimmedIn(l, k, max);
    }
  }

  lemma TrimmedShort(l: seq<Key>, max: nat)
    ensures |Trimmed(l, max)| < Room(max) && (|l| < max ==> Trimmed(l, max) == l)
  {
  }

  /** The same buffers under some of the keys. */
  ghost predicate Within(m: map<Key, Buffer>, m': map<Key, Buffer>) {
    forall k :: k in m ==> k in m' && m[k] == m'[k]
  }

  method Find(s: seq<Key>, k: Key) returns (i: nat)
    ensures i <= |s| && (i < |s| ==> s[i] == k)
    ensures forall j :: 0 <= j < i ==> s[j] != k
    ensures i == |s| <==> k !in s
  {
    i := 0;
    while i < |s| && s[i] != k
      invariant i <= |s| && forall j :: 0 <= j < i ==> s[j] != k
    {
      i := i + 1;
    }
  }

  lemma {:induction false} RemovedAt(s: seq<Key>, i: nat)
    requires i < |s| && forall j :: 0 <= j < i ==> s[j] != s[i]
    ensures Removed(s, s[i]) == s[..i] + s[i + 1..]
  {
    if i == 0 {
    } else {
      RemovedAt(s[1..], i - 1);
      assert s[..i] == [s[0]] + s[1..][..i - 1];
      assert s[i + 1..] == s[1..][i..];
    }
  }

  /** Dropping the least recent key leaves the most recent ones. */
  lemma TopShrinks(l: seq<Key>, h: seq<Access>)
    requires TopOf(l, h) && l != []
    ensures TopOf(l[1..], h)
  {
    var R := Recency(h);
    assert l[1..] == R[|R| - |l| + 1..];
  }

  class Herd {
    var maxActive: nat
    var active: map<Key, Buffer>   // active_experts_
    var lru: seq<Key>              // lru_list_, least recent first
    ghost var history: seq<Access>

    ghost predicate Valid()
      reads this
    {
      && TopOf(lru, history)
      && Distinct(lru)
      && active.Keys == KeysOf(lru)
      && Labelled(active)
    }

    /** Nothing was dropped without need: the list is the last max(1, max_active)
        keys of the stack, or all of it. */
    ghost predicate Full()
      reads `lru, `history, `maxActive
    {
      Holds(lru, history, Room(maxActive))
    }

    constructor (maxActive: nat)
      ensures Full() && active == map[]
      ensures Valid() && lru == [] && history == [] && this.maxActive == maxActive
    {
      hide Recency, TopOf, Holds, Room;
      StartEmpty();
      this.maxActive, active, lru, history := maxActive, map[], [], [];
    }

    /** update_lru: move or append to the recent end. */
    method UpdateLru(key: Key)
      requires Distinct(lru)
      modifies `lru
      ensures lru == Removed(old(lru), key) + [key]
    {
      var i := Find(lru, key);
      if i < |lru| {
        RemovedAt(lru, i);
        lru := lru[..i] + lru[i + 1..];
      } else {
        RemovedAbsent(lru, key);
      }
      lru := lru + [key];
    }

    /** evict_lru: drop the least recently used key. */
    method EvictLru()
      requires Valid()
      modifies `lru, `active
      ensures Valid() && lru == (if old(lru) == [] then [] else old(lru)[1..]) && Within(active, old(active))
    {
      hide Recency, TopOf, Distinct;
      if lru == [] {
        return;
      }
      var key := lru[0];
      DistinctSplit(lru);
      TopShrinks(lru, history);
      assert KeysOf(lru[1..]) == KeysOf(lru) - {key};
      lru := lru[1..];
      if key in active {
        active := active - {key};
      }
    }

    /** evict_if_needed: it stops with room for one more, or empty. */
    method EvictIfNeeded()
      requires Valid()
      modifies `lru, `active
      ensures Valid() && lru == Trimmed(old(lru), maxActive) && Within(active, old(active))
    {
      hide TopOf, Distinct;
      ghost var n := 0;
      while |active| >= maxActive && lru != []
        invariant Valid() && 0 <= n <= |old(lru)| && lru == old(lru)[n..] && Within(active, old(active))
        invariant n > 0 && maxActive > 0 ==> |lru| + 1 >= maxActive
        decreases |lru|
      {
        MapSize(active, lru);
        EvictLru();
        n := n + 1;
      }
      MapSize(active, lru);
    }

    method Insert(key: Key, buf: Buffer)
      requires Valid() && buf.layerIdx == key.layer && buf.expertId == key.expert
      modifies `lru, `active, `history
      ensures Valid() && history == old(history) + [Use(key)] && active == old(active)[key := buf]
      ensures lru == Removed(old(lru), key) + [key] && |active| <= |old(lru)| + 1
    {
      hide TopOf, Distinct, Removed, KeysOf, Labelled;
      TopUse(lru, history, key);
      UseKeys(lru, key);
      LabelOne(active, key, buf);
      active := active[key := buf];
      UpdateLru(key);
      history := history + [Use(key)];
      MapSize(active, lru);
    }

    method AllocateSlot(layer: int, expert: int) returns (buf: Buffer)
      requires Valid()
      modifies `lru, `active, `history
      ensures Valid() && history == old(history) + [Use(Key(layer, expert))]
      ensures Key(layer, expert) in active && active[Key(layer, expert)] == buf && !buf.isReady
      ensures lru == Removed(Trimmed(old(lru), maxActive), Key(layer, expert)) + [Key(layer, expert)]
      ensures Within(active - {Key(layer, expert)}, old(active))
      ensures |active| <= Room(maxActive)
      ensures old(Full()) ==> (Full() <==>
        Key(layer, expert) !in old(active) || |old(lru)| < maxActive || old(lru)[0] == Key(layer, expert))
    {
      hide TopOf, Distinct, Removed, KeysOf, Labelled, Holds, Trimmed;
      var key := Key(layer, expert);
      ghost var l0, h0 := lru, history;
      if Full() {
        UseHolds(l0, h0, key, maxActive);
      }
      TrimmedShort(l0, maxActive);
      MapSize(active, lru);
      if |active| >= maxActive {
        EvictIfNeeded();
      }
      buf := Buffer(expert, layer, false);
      Insert(key, buf);
    }

    method Refresh(key: Key)
      requires Valid() && key in active
      modifies `lru, `history
      ensures Valid() && history == old(history) + [Use(key)] && lru == Removed(old(lru), key) + [key]
      ensures old(Full()) ==> Full()
    {
      hide TopOf, Distinct, Removed, KeysOf, Holds;
      if Full() {
        UseHolds(lru, history, key, maxActive);
      }
      TopUse(lru, history, key);
      UseKeys(lru, key);
      UpdateLru(key);
      history := history + [Use(key)];
    }

    method GetBuffer(layer: int, expert: int) returns (found: bool, buf: Buffer)
      requires Valid()
      modifies `lru, `history
      ensures Valid() && found == (Key(layer, expert) in active)
      ensures found ==> buf == active[Key(layer, expert)] && history == old(history) + [Use(Key(layer, expert))]
      ensures found ==> lru == Removed(old(lru), Key(layer, expert)) + [Key(layer, expert)]
      ensures old(Full()) ==> Full()
      ensures !found ==> lru == old(lru) && history == old(history)
    {
      var key := Key(layer, expert);
      found := key in active;
      buf := Buffer(-1, -1, false);
      if found {
        Refresh(key);
        buf := active[key];
      }
    }

    method PinExpert(layer: int, expert: int)
      requires Valid()
      modifies `lru, `active, `history
      ensures Valid() && history == old(history) + [Use(Key(layer, expert))] && Key(layer, expert) in active
      ensures var key := Key(layer, expert);
        if key in old(active) then active == old(active) && lru == Removed(old(lru), key) + [key]
        else lru == Removed(Trimmed(old(lru), maxActive), key) + [key] && Within(active - {key}, old(active))
      ensures old(Full()) ==> Full()
    {
      hide TopOf, Distinct, Removed, Holds, Trimmed;
      var key := Key(layer, expert);
      if key !in active {
        var _ := AllocateSlot(layer, expert);
      } else {
        Refresh(key);
      }
    }

    lemma KeysHeld()
      requires Valid()
      ensures forall k :: k in active <==> k in lru
    {
    }

    lemma ActiveIsLatest()
      requires Valid() && Full()
      ensures lru == Latest(history, maxActive)
      ensures forall k :: k in active <==> k in Latest(history, maxActive)
    {
      HeldIsLatest(lru, history, maxActive);
    }

    /** The router's prefetch: allocate the experts that are not held. */
    method PrefetchExperts(layer: int, ids: seq<int>)
      requires Valid() && Full()
      modifies `lru, `active, `history
      ensures Valid() && Full() && history == Fetched(old(history), maxActive, layer, ids)
      ensures ids != [] ==> Key(layer, ids[|ids| - 1]) in active
    {
      hide Valid, Full, Latest;
      assert ids[..0] == [];
      for i := 0 to |ids|
        invariant Valid() && Full() && history == Fetched(old(history), maxActive, layer, ids[..i])
        invariant i > 0 ==> Key(layer, ids[i - 1]) in active
      {
        ActiveIsLatest();
        assert ids[..i + 1][..i] == ids[..i];
        if Key(layer, ids[i]) !in active {
          var _ := AllocateSlot(layer, ids[i]);
        }
      }
      assert ids[..|ids|] == ids;
    }

    method UnpinExpert(layer: int, expert: int)
      requires Valid()
      modifies `lru, `active, `history
      ensures Valid() && lru == Removed(old(lru), Key(layer, expert)) && Key(layer, expert) !in active
      ensures active == old(active) - {Key(layer, expert)}
      ensures history == if Key(layer, expert) in old(active) then old(history) + [Forget(Key(layer, expert))] else old(history)
    {
      hide TopOf, Distinct, Removed, KeysOf;
      var key := Key(layer, expert);
      ForgetKeys(lru, key);
      if key in active {
        TopForget(lru, history, key);
        active := active - {key};
        var i := Find(lru, key);
        if i < |lru| {
          RemovedAt(lru, i);
          lru := lru[..i] + lru[i + 1..];
        }
        history := history + [Forget(key)];
      } else {
        RemovedAbsent(lru, key);
      }
    }
  }

  /** The look-ups an ideal cache answers with a buffer. */
  predicate Hit(requests: seq<Request>, i: nat, max: nat)
    requires i < |requests|
  {
    requests[i].Get? && Key(requests[i].layer, requests[i].expert) in Latest(Played(requests[..i], max), max)
  }

  /** Any sequence of prefetches, look-ups and pins: the look-ups that find a buffer
      are those the ideal cache would answer, and what is held in the end is exactly
      what that holds. */
  method Serve(maxActive: nat, requests: seq<Request>) returns (herd: Herd, hits: seq<bool>)
    ensures fresh(herd) && herd.Valid() && herd.maxActive == maxActive && herd.history == Played(requests, maxActive)
    ensures herd.lru == Latest(herd.history, maxActive) && herd.active.Keys == KeysOf(herd.lru)
    ensures |hits| == |requests| && forall i :: 0 <= i < |hits| ==> hits[i] == Hit(requests, i, maxActive)
  {
    hide Herd.Full, Latest, Recency, Distinct, Labelled, TopOf, Fetched;
    herd := new Herd(maxActive);
    hits := [];
    assert requests[..0] == [];
    for i := 0 to |requests|
      invariant fresh(herd) && herd.Valid() && herd.Full() && herd.maxActive == maxActive
      invariant herd.history == Played(requests[..i], maxActive)
      invariant |hits| == i && forall j :: 0 <= j < i ==> hits[j] == Hit(requests, j, maxActive)
    {
      herd.ActiveIsLatest();
      assert requests[..i + 1][..i] == requests[..i];
      var found := false;
      match requests[i] {
        case Prefetch(layer, ids) =>
          herd.PrefetchExperts(layer, ids);
        case Get(layer, expert) =>
          var hit, _ := herd.GetBuffer(layer, expert);
          found := hit;
        case Pin(layer, expert) =>
          herd.PinExpert(layer, expert);
      }
      hits := hits + [found];
    }
    assert requests[..|requests|] == requests;
    herd.ActiveIsLatest();
  }

  /** Allocating a key that is already held, with the cache full: the other key goes,
      and one slot stays empty. */
  method ResidentKeyEvictsOther() returns (herd: Herd)
    ensures fresh(herd) && herd.Valid() && herd.maxActive == 2
    ensures herd.history == [Use(Key(0, 1)), Use(Key(0, 2)), Use(Key(0, 2))] && herd.lru == [Key(0, 2)] && !herd.Full()
  {
    hide Herd.Valid, Herd.Full;
    herd := new Herd(2);
    var _ := herd.AllocateSlot(0, 1);
    assert herd.lru == [Key(0, 1)];
    herd.KeysHeld();
    var _ := herd.AllocateSlot(0, 2);
    assert herd.lru == [Key(0, 1), Key(0, 2)];
    herd.KeysHeld();
    var _ := herd.AllocateSlot(0, 2);
  }

  lemma NoAccess()
    ensures Recency([]) == []
  {
  }

  lemma FetchedNone(h: seq<Access>, max: nat, layer: int)
    ensures Fetched(h, max, layer, []) == h
  {
  }

  lemma FirstUse(h: seq<Access>, k: Key)
    requires k !in Recency(h)
    ensures Recency(h + [Use(k)]) == Recency(h) + [k]
  {
    assert (h + [Use(k)])[..|h|] == h;
    RemovedAbsent(Recency(h), k);
  }

  lemma FetchOneAndThree(h: seq<Access>)
    requires h == [Use(Key(0, 1)), Use(Key(0, 2))]
    ensures var h' := [Use(Key(0, 1)), Use(Key(0, 2)), Use(Key(0, 3))];
      Fetched(h, 2, 0, [1, 3]) == h' && Latest(h', 2) == [Key(0, 2), Key(0, 3)]
  {
    hide Recency, Removed, Fetched;
    var h' := h + [Use(Key(0, 3))];
    var h0: seq<Access> := [];
    var h1 := h0 + [Use(Key(0, 1))];
    assert h == h1 + [Use(Key(0, 2))];
    NoAccess();
    FirstUse(h0, Key(0, 1));
    FirstUse(h1, Key(0, 2));
    FirstUse(h, Key(0, 3));
    assert Recency(h) == [Key(0, 1), Key(0, 2)];
    assert Recency(h') == [Key(0, 1), Key(0, 2), Key(0, 3)];
    FetchedNext(h, 2, 0, [1, 3], 0);
    FetchedNext(h, 2, 0, [1, 3], 1);
    assert [1, 3][..0] == [] && [1, 3][..2] == [1, 3];
    FetchedNone(h, 2, 0);
  }

  /** A cache of two that holds experts 1 and 2, asked for 1 and 3: the first is held
      and not refreshed, and makes room for the other. */
  method PrefetchDropsRequested() returns (herd: Herd)
    ensures fresh(herd) && herd.Valid() && herd.maxActive == 2
    ensures herd.history == [Use(Key(0, 1)), Use(Key(0, 2)), Use(Key(0, 3))] && herd.lru == [Key(0, 2), Key(0, 3)]
    ensures Key(0, 1) !in herd.active
  {
    hide Herd.Valid, Herd.Full, Latest, Recency, Fetched, LastUse;
    herd := new Herd(2);
    var _ := herd.AllocateSlot(0, 1);
    assert herd.lru == [Key(0, 1)];
    herd.KeysHeld();
    var _ := herd.AllocateSlot(0, 2);
    assert herd.lru == [Key(0, 1), Key(0, 2)];
    herd.KeysHeld();
    herd.ActiveIsLatest();
    FetchOneAndThree(herd.history);
    herd.PrefetchExperts(0, [1, 3]);
    herd.KeysHeld();
    herd.ActiveIsLatest();
  }

  lemma HeldTop(l: seq<Key>, R: seq<Key>, i: nat)
    requires |l| <= |R| && l == R[|R| - |l|..] && i < |R|
    ensures i >= |R| - |l| ==> R[i] in l
  {
    if i >= |R| - |l| {
      assert l[i - (|R| - |l|)] == R[i];
    }
  }

  /** What the cache holds are the most recently used keys: any key it holds was
      used after any key in use that it has evicted. */
  lemma HoldsMostRecent(l: seq<Key>, h: seq<Access>, kept: Key, evicted: Key)
    requires TopOf(l, h) && kept in l && evicted !in l && LastUse(h, evicted) > 0
    ensures LastUse(h, evicted) < LastUse(h, kept)
  {
    hide Recency, LastUse;
    RecencyIsOrdered(h);
    var R := Recency(h);
    var i :| 0 <= i < |R| && R[i] == evicted;
    var j :| 0 <= j < |l| && l[j] == kept;
    assert R[|R| - |l| + j] == kept;
    HeldTop(l, R, i);
  }
}
