/** Generic sequence operations behind Python idioms the pipeline relies on:
    `sorted(xs, key=k, reverse=True)` (a stable sort), `{key(x): x for x in xs}`
    (the last record with a key wins) and `list(set(xs))`. */
module Collections {

  ghost predicate SortedDesc<T>(s: seq<T>, key: T -> real) {
    forall i, j :: 0 <= i < j < |s| ==> key(s[i]) >= key(s[j])
  }

  /** The elements of `s` whose key is `v`, in their order in `s`. */
  function WithKey<T>(s: seq<T>, key: T -> real, v: real): (r: seq<T>)
    ensures |r| <= |s|
  {
    if s == [] then []
    else (if key(s[0]) == v then [s[0]] else []) + WithKey(s[1..], key, v)
  }

  /** Places `x` in front of the first element whose key does not exceed its own. */
  function Insert<T>(x: T, t: seq<T>, key: T -> real): (r: seq<T>)
    ensures |r| == |t| + 1
    ensures multiset(r) == multiset(t) + multiset{x}
    ensures r[0] == x || (|t| > 0 && r[0] == t[0])
  {
    if t == [] then [x]
    else if key(t[0]) <= key(x) then [x] + t
    else
      assert t == [t[0]] + t[1..];
      [t[0]] + Insert(x, t[1..], key)
  }

  lemma {:induction false} InsertSorted<T>(x: T, t: seq<T>, key: T -> real)
    requires SortedDesc(t, key)
    ensures SortedDesc(Insert(x, t, key), key)
  {
    if t != [] && key(t[0]) > key(x) {
      var rest := Insert(x, t[1..], key);
      InsertSorted(x, t[1..], key);
      assert key(rest[0]) <= key(t[0]);
      var r := [t[0]] + rest;
      forall i, j | 0 <= i < j < |r|
        ensures key(r[i]) >= key(r[j])
      {
        if i == 0 {
          assert key(r[j]) <= key(rest[0]);
        }
      }
    }
  }

  /** Stable sort by descending key: `sorted(s, key=key, reverse=True)`. */
  function SortDesc<T>(s: seq<T>, key: T -> real): (r: seq<T>)
    ensures |r| == |s|
    ensures multiset(r) == multiset(s)
    ensures SortedDesc(r, key)
  {
    if s == [] then []
    else
      assert s == [s[0]] + s[1..];
      var rest := SortDesc(s[1..], key);
      InsertSorted(s[0], rest, key);
      Insert(s[0], rest, key)
  }

  /** Inserting `x` puts it ahead of every element that shares its key. */
  lemma {:induction false} InsertKeepsTies<T>(x: T, t: seq<T>, key: T -> real, v: real)
    ensures WithKey(Insert(x, t, key), key, v) == (if key(x) == v then [x] else []) + WithKey(t, key, v)
  {
    if t == [] {
      assert WithKey([x], key, v) == (if key(x) == v then [x] else []) + WithKey([], key, v);
    } else if key(t[0]) <= key(x) {
      assert ([x] + t)[1..] == t;
    } else {
      var rest := Insert(x, t[1..], key);
      InsertKeepsTies(x, t[1..], key, v);
      assert ([t[0]] + rest)[1..] == rest;
    }
  }

  /** Stability: for every key value, the elements carrying it keep their input order. */
  lemma {:induction false} SortDescStable<T>(s: seq<T>, key: T -> real, v: real)
    ensures WithKey(SortDesc(s, key), key, v) == WithKey(s, key, v)
  {
    if s != [] {
      SortDescStable(s[1..], key, v);
      InsertKeepsTies(s[0], SortDesc(s[1..], key), key, v);
    }
  }

  /** `{key(x): x for x in xs}` */
  function IndexBy<T>(xs: seq<T>, key: T -> int): (m: map<int, T>)
    ensures forall i :: 0 <= i < |xs| ==> key(xs[i]) in m
    ensures forall k :: k in m ==> exists i :: 0 <= i < |xs| && key(xs[i]) == k
    ensures forall k :: k in m ==> key(m[k]) == k
  {
    if xs == [] then map[]
    else
      var init := xs[..|xs| - 1];
      assert forall i :: 0 <= i < |init| ==> init[i] == xs[i];
      IndexBy(init, key)[key(xs[|xs| - 1]) := xs[|xs| - 1]]
  }

  /** In `IndexBy`, a key maps to the LAST element carrying it. */
  lemma {:induction false} IndexByLastWins<T>(xs: seq<T>, key: T -> int, i: nat)
    requires i < |xs|
    requires forall j :: i < j < |xs| ==> key(xs[j]) != key(xs[i])
    ensures IndexBy(xs, key)[key(xs[i])] == xs[i]
  {
    if i < |xs| - 1 {
      var init := xs[..|xs| - 1];
      assert init[i] == xs[i];
      IndexByLastWins(init, key, i);
    }
  }

  predicate NoDuplicates<T(==)>(s: seq<T>) {
    forall i, j :: 0 <= i < j < |s| ==> s[i] != s[j]
  }

  /** `list(set(s))`, keeping first occurrences in order (the source's order is
      whatever the set yields). */
  function Dedupe<T(==,!new)>(s: seq<T>): (r: seq<T>)
    ensures NoDuplicates(r)
    ensures forall x :: x in r <==> x in s
  {
    if s == [] then []
    else
      var r := Dedupe(s[..|s| - 1]);
      var last := s[|s| - 1];
      assert s == s[..|s| - 1] + [last];
      if last in r then r else r + [last]
  }

  /** The concatenation of `f(x)` for each `x` of `xs`, in order: a loop that
      extends one output list per element. */
  function Flatten<T, U>(xs: seq<T>, f: T -> seq<U>): seq<U> {
    if xs == [] then [] else Flatten(xs[..|xs| - 1], f) + f(xs[|xs| - 1])
  }

  lemma {:induction false} FlattenAppend<T, U>(a: seq<T>, b: seq<T>, f: T -> seq<U>)
    ensures Flatten(a + b, f) == Flatten(a, f) + Flatten(b, f)
    decreases |b|
  {
    if b == [] {
      assert a + b == a;
    } else {
      var n := |b| - 1;
      FlattenAppend(a, b[..n], f);
      assert (a + b)[..|a + b| - 1] == a + b[..n];
      assert (a + b)[|a + b| - 1] == b[n];
    }
  }

  /** For each element of `Flatten(xs, f)`, the position in `xs` it came from. */
  function Origins<T, U>(xs: seq<T>, f: T -> seq<U>): seq<nat> {
    if xs == [] then [] else Origins(xs[..|xs| - 1], f) + seq(|f(xs[|xs| - 1])|, _ => |xs| - 1)
  }

  /** Each output element comes from the element its origin names, and
      origins never decrease: the output keeps the input's order. */
  lemma {:induction false} FlattenTraced<T, U>(xs: seq<T>, f: T -> seq<U>)
    ensures var ys := Flatten(xs, f); var o := Origins(xs, f);
      && |o| == |ys|
      && (forall k :: 0 <= k < |o| ==> o[k] < |xs| && ys[k] in f(xs[o[k]]))
      && (forall k, l :: 0 <= k < l < |o| ==> o[k] <= o[l])
  {
    if xs != [] {
      var n := |xs| - 1;
      var init := xs[..n];
      FlattenTraced(init, f);
      var ys0, o0, own := Flatten(init, f), Origins(init, f), f(xs[n]);
      var ys, o := ys0 + own, o0 + seq(|own|, _ => n);
      forall k | 0 <= k < |o| ensures o[k] < |xs| && ys[k] in f(xs[o[k]]) {
        if k < |o0| {
          assert o[k] == o0[k] && ys[k] == ys0[k] && xs[o0[k]] == init[o0[k]];
        } else {
          assert o[k] == n && ys[k] == own[k - |o0|];
        }
      }
    }
  }
}
