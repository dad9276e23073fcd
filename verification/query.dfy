/**
 * The three query steps the routes chain on a collection: `find` with a
 * filter (Where), `sort` on a numeric field (SortBy, ascending; a descending
 * sort is an ascending sort on the negated key) and `limit` (Limit), and
 * their composition Top. The database's order among records with equal keys
 * is not specified, so only sortedness and permutation are promised.
 */
module Query {

  /** `s` is in ascending order of `key`. */
  ghost predicate SortedBy<T>(s: seq<T>, key: T -> int) {
    forall i, j :: 0 <= i < j < |s| ==> key(s[i]) <= key(s[j])
  }

  /** The elements of `s` that satisfy `p`, in their original order. */
  function Where<T(!new)>(s: seq<T>, p: T -> bool): (r: seq<T>)
    ensures |r| <= |s|
    ensures forall x :: x in r <==> x in s && p(x)
    ensures multiset(r) <= multiset(s)
  {
    if s == [] then []
    else
      assert s == [s[0]] + s[1..];
      (if p(s[0]) then [s[0]] else []) + Where(s[1..], p)
  }

  /** Filtering distributes over concatenation. */
  lemma {:induction false} WhereAppend<T(!new)>(a: seq<T>, b: seq<T>, p: T -> bool)
    ensures Where(a + b, p) == Where(a, p) + Where(b, p)
    decreases |a|
  {
    if a == [] {
      assert a + b == b;
    } else {
      assert (a + b)[0] == a[0];
      assert (a + b)[1..] == a[1..] + b;
      WhereAppend(a[1..], b, p);
    }
  }

  /** The positions of `s` whose element satisfies `p`. */
  ghost function Positions<T>(s: seq<T>, p: T -> bool): set<int> {
    set i | 0 <= i < |s| && p(s[i])
  }

  /** The filtered sequence has one element per position of `s` that satisfies `p`. */
  lemma {:induction false} WhereCount<T(!new)>(s: seq<T>, p: T -> bool)
    ensures |Where(s, p)| == |Positions(s, p)|
    decreases |s|
  {
    if s != [] {
      var init := s[..|s| - 1];
      WhereSnoc(s, p);
      WhereCount(init, p);
      PositionsSnoc(s, p);
    }
  }

  lemma WhereSnoc<T(!new)>(s: seq<T>, p: T -> bool)
    requires s != []
    ensures |Where(s, p)| == |Where(s[..|s| - 1], p)| + (if p(s[|s| - 1]) then 1 else 0)
  {
    var init, last := s[..|s| - 1], s[|s| - 1];
    assert s == init + [last];
    WhereAppend(init, [last], p);
    assert [last][1..] == [];
  }

  lemma PositionsSnoc<T>(s: seq<T>, p: T -> bool)
    requires s != []
    ensures |Positions(s, p)| == |Positions(s[..|s| - 1], p)| + (if p(s[|s| - 1]) then 1 else 0)
  {
    var n := |s| - 1;
    var before := Positions(s[..n], p);
    var last: set<int> := if p(s[n]) then {n} else {};
    PositionsSplit(s, p);
    assert n !in before;
    assert |before + last| == |before| + |last|;
  }

  lemma PositionsSplit<T>(s: seq<T>, p: T -> bool)
    requires s != []
    ensures Positions(s, p) == Positions(s[..|s| - 1], p) + (if p(s[|s| - 1]) then {|s| - 1} else {})
  {
    var n := |s| - 1;
    var init := s[..n];
    forall i | 0 <= i < n ensures s[i] == init[i] {
    }
  }

  /** Inserts `x` into the sorted `s` before the first element whose key is not smaller. */
  function Insert<T>(x: T, s: seq<T>, key: T -> int): (r: seq<T>)
    requires SortedBy(s, key)
    ensures SortedBy(r, key)
    ensures multiset(r) == multiset(s) + multiset{x}
  {
    if s == [] then [x]
    else if key(x) <= key(s[0]) then
      ConsSorted(x, s, key);
      [x] + s
    else
      assert s == [s[0]] + s[1..];
      var rest := Insert(x, s[1..], key);
      InsertAboveHead(x, s, key, rest);
      ConsSorted(s[0], rest, key);
      [s[0]] + rest
  }

  /** Putting an element no larger than all of a sorted `rest` in front keeps it sorted. */
  lemma ConsSorted<T>(h: T, rest: seq<T>, key: T -> int)
    requires SortedBy(rest, key)
    requires forall j :: 0 <= j < |rest| ==> key(h) <= key(rest[j])
    ensures SortedBy([h] + rest, key)
  {
  }

  /** Every element of `s[1..]` with `x` inserted is at least the head of `s` when `x` is. */
  lemma InsertAboveHead<T>(x: T, s: seq<T>, key: T -> int, rest: seq<T>)
    requires SortedBy(s, key) && s != [] && key(s[0]) < key(x)
    requires multiset(rest) == multiset(s[1..]) + multiset{x}
    ensures forall j :: 0 <= j < |rest| ==> key(s[0]) <= key(rest[j])
  {
    forall j | 0 <= j < |rest| ensures key(s[0]) <= key(rest[j]) {
      assert rest[j] in multiset(rest);
      if rest[j] != x {
        assert rest[j] in multiset(s[1..]);
        var k :| 0 <= k < |s[1..]| && s[1..][k] == rest[j];
        assert s[k + 1] == rest[j];
      }
    }
  }

  /** `s` rearranged into ascending order of `key`. */
  function SortBy<T>(s: seq<T>, key: T -> int): (r: seq<T>)
    ensures SortedBy(r, key)
    ensures multiset(r) == multiset(s)
    ensures |r| == |s|
  {
    if s == [] then []
    else
      assert s == [s[0]] + s[1..];
      Insert(s[0], SortBy(s[1..], key), key)
  }

  /** The first `n` elements of `s` (all of them when there are fewer). */
  function Limit<T>(s: seq<T>, n: nat): (r: seq<T>)
    ensures |r| == if |s| < n then |s| else n
    ensures r == s[..|r|]
  {
    if |s| <= n then s else s[..n]
  }

  /** Within a sorted sequence, an element of the first `k` positions has a key no larger than any element outside them. */
  lemma SortedPrefixBelow<T>(t: seq<T>, key: T -> int, k: nat, x: T, y: T)
    requires SortedBy(t, key)
    requires k <= |t|
    requires x in t && x !in t[..k]
    requires y in t[..k]
    ensures key(y) <= key(x)
  {
    var i :| 0 <= i < |t| && t[i] == x;
    assert forall m :: 0 <= m < k ==> t[..k][m] == t[m];
    var j :| 0 <= j < k && t[..k][j] == y;
  }

  /** What Top promises, for a sorted rearrangement `t` of `s`. */
  lemma SortedLimit<T(!new)>(s: seq<T>, key: T -> int, n: nat, t: seq<T>)
    requires SortedBy(t, key) && multiset(t) == multiset(s)
    ensures multiset(Limit(t, n)) <= multiset(s)
    ensures forall x :: x in Limit(t, n) ==> x in s
    ensures forall x, y :: x in s && x !in Limit(t, n) && y in Limit(t, n) ==> key(y) <= key(x)
  {
    var r := Limit(t, n);
    assert t == r + t[|r|..];
    assert multiset(r) <= multiset(t);
    forall x | x in r ensures x in s {
      assert x in multiset(s);
    }
    forall x, y | x in s && x !in r && y in r ensures key(y) <= key(x) {
      assert x in multiset(t);
      SortedPrefixBelow(t, key, |r|, x, y);
    }
  }

  /**
   * `sort(key).limit(n)` over `s`: sorted, drawn from `s`, as long as the
   * limit allows, and holding the `n` smallest keys: whatever was cut off has
   * a key no smaller than everything kept.
   */
  function Top<T(!new)>(s: seq<T>, key: T -> int, n: nat): (r: seq<T>)
    ensures SortedBy(r, key)
    ensures multiset(r) <= multiset(s)
    ensures |r| == if |s| < n then |s| else n
    ensures forall x :: x in r ==> x in s
    ensures forall x, y :: x in s && x !in r && y in r ==> key(y) <= key(x)
  {
    var t := SortBy(s, key);
    SortedLimit(s, key, n, t);
    Limit(t, n)
  }
}
