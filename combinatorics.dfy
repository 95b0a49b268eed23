/** Sequences without repeats, ordered sub-sequences, and the two enumerations
    `itertools` performs for the matchup generator: `combinations(k)` and, as
    a special case, all 2-element pairs. */
module Combinatorics {

  /** The elements of `s` are pairwise distinct. */
  predicate NoDup<T(==)>(s: seq<T>)
  {
    forall i, j :: 0 <= i < j < |s| ==> s[i] != s[j]
  }

  lemma NoDupPrefix<T>(a: seq<T>, b: seq<T>)
    requires NoDup(a + b)
    ensures NoDup(a) && NoDup(b)
  {
    forall i, j | 0 <= i < j < |a| ensures a[i] != a[j] {
      assert a[i] == (a + b)[i] && a[j] == (a + b)[j];
    }
    forall i, j | 0 <= i < j < |b| ensures b[i] != b[j] {
      assert b[i] == (a + b)[|a| + i] && b[j] == (a + b)[|a| + j];
    }
  }

  lemma DuplicateKept<T>(a: seq<T>, b: seq<T>)
    requires !NoDup(a)
    ensures !NoDup(a + b)
  {
    var i, j :| 0 <= i < j < |a| && a[i] == a[j];
    assert (a + b)[i] == (a + b)[j];
  }

  lemma DuplicateInside<T>(a: seq<T>, b: seq<T>, c: seq<T>)
    requires !NoDup(b)
    ensures !NoDup(a + b + c)
  {
    var i, j :| 0 <= i < j < |b| && b[i] == b[j];
    assert (a + b + c)[|a| + i] == (a + b + c)[|a| + j];
  }

  /** Pigeonhole: a duplicate-free sequence drawn from `pool` is no longer than it. */
  lemma {:induction false} DistinctBound<T>(s: seq<T>, pool: seq<T>)
    requires forall x :: x in s ==> x in pool
    ensures NoDup(s) ==> |s| <= |pool|
    decreases |s|
  {
    if s != [] && NoDup(s) {
      var init, x := s[..|s| - 1], s[|s| - 1];
      assert x in s;
      assert x in pool;
      var k :| 0 <= k < |pool| && pool[k] == x;
      var rest := pool[..k] + pool[k + 1..];
      forall y | y in init ensures y in rest {
        var i :| 0 <= i < |init| && init[i] == y;
        assert s[i] == y && y != x;
        assert y in s;
        assert y in pool;
        var m :| 0 <= m < |pool| && pool[m] == y;
        if m < k {
          assert rest[m] == y;
        } else {
          assert rest[m - 1] == y;
        }
      }
      NoDupPrefix(init, [x]);
      assert init + [x] == s;
      DistinctBound(init, rest);
    }
  }

  lemma NoDupConcat<T>(a: seq<T>, b: seq<T>)
    requires NoDup(a) && NoDup(b)
    requires forall x :: x in a ==> x !in b
    ensures NoDup(a + b)
  {
    forall i, j | 0 <= i < j < |a + b| ensures (a + b)[i] != (a + b)[j] {
      if j < |a| {
      } else if i >= |a| {
        assert (a + b)[i] == b[i - |a|] && (a + b)[j] == b[j - |a|];
      } else {
        assert (a + b)[i] in a && (a + b)[j] == b[j - |a|];
      }
    }
  }

  /** `c` is obtained from `s` by deleting elements, keeping the order. */
  predicate SubseqOf<T(==)>(c: seq<T>, s: seq<T>)
    decreases |s|
  {
    c == [] || (s != [] && ((c[0] == s[0] && SubseqOf(c[1..], s[1..])) || SubseqOf(c, s[1..])))
  }

  lemma {:induction false} SubseqMembers<T>(c: seq<T>, s: seq<T>)
    requires SubseqOf(c, s)
    ensures forall x :: x in c ==> x in s
    decreases |s|
  {
    if c != [] {
      if c[0] == s[0] && SubseqOf(c[1..], s[1..]) {
        SubseqMembers(c[1..], s[1..]);
        assert c == [c[0]] + c[1..];
      } else {
        SubseqMembers(c, s[1..]);
      }
    }
  }

  /** Puts `x` in front of every sequence in `cs`. */
  function Prepend<T>(x: T, cs: seq<seq<T>>): (r: seq<seq<T>>)
    ensures |r| == |cs| && forall i :: 0 <= i < |cs| ==> r[i] == [x] + cs[i]
  {
    seq(|cs|, i requires 0 <= i < |cs| => [x] + cs[i])
  }

  /** `s.iter().combinations(k)`: every choice of `k` elements of `s` in their
      original order, the choices listed in lexicographic order of their
      positions; `k == 0` yields the single empty choice. */
  function Combinations<T>(s: seq<T>, k: nat): seq<seq<T>>
    decreases |s|
  {
    if k == 0 then [[]]
    else if s == [] then []
    else Prepend(s[0], Combinations(s[1..], k - 1)) + Combinations(s[1..], k)
  }

  function Binomial(n: nat, k: nat): nat
  {
    if k == 0 then 1 else if n == 0 then 0 else Binomial(n - 1, k - 1) + Binomial(n - 1, k)
  }

  lemma {:induction false} CombinationsCount<T>(s: seq<T>, k: nat)
    ensures |Combinations(s, k)| == Binomial(|s|, k)
    decreases |s|
  {
    if k > 0 && s != [] {
      CombinationsCount(s[1..], k - 1);
      CombinationsCount(s[1..], k);
    }
  }

  /** Every combination has `k` elements and is an ordered sub-sequence of `s`. */
  lemma {:induction false} CombinationsSound<T>(s: seq<T>, k: nat, c: seq<T>)
    requires c in Combinations(s, k)
    ensures |c| == k && SubseqOf(c, s)
    decreases |s|
  {
    if k > 0 {
      assert s != [];
      var with, without := Prepend(s[0], Combinations(s[1..], k - 1)), Combinations(s[1..], k);
      assert Combinations(s, k) == with + without;
      if c in with {
        var i :| 0 <= i < |with| && with[i] == c;
        var c' := Combinations(s[1..], k - 1)[i];
        CombinationsSound(s[1..], k - 1, c');
        assert c == [s[0]] + c' && c[0] == s[0] && c[1..] == c';
      } else {
        assert c in without;
        CombinationsSound(s[1..], k, c);
      }
    }
  }

  /** Every ordered sub-sequence of `s` with `k` elements is a combination. */
  lemma {:induction false} CombinationsComplete<T>(s: seq<T>, k: nat, c: seq<T>)
    requires SubseqOf(c, s) && |c| == k
    ensures c in Combinations(s, k)
    decreases |s|
  {
    if k > 0 {
      assert c != [] && s != [];
      var with, without := Prepend(s[0], Combinations(s[1..], k - 1)), Combinations(s[1..], k);
      assert Combinations(s, k) == with + without;
      ConcatMember(with, without, c);
      if c[0] == s[0] && SubseqOf(c[1..], s[1..]) {
        CombinationsComplete(s[1..], k - 1, c[1..]);
        PrependMember(s[0], Combinations(s[1..], k - 1), c[1..]);
        assert [s[0]] + c[1..] == c;
      } else {
        CombinationsComplete(s[1..], k, c);
      }
    }
  }

  lemma ConcatMember<T>(a: seq<T>, b: seq<T>, x: T)
    ensures x in a + b <==> x in a || x in b
  {
  }

  lemma PrependMember<T>(x: T, cs: seq<seq<T>>, c: seq<T>)
    requires c in cs
    ensures [x] + c in Prepend(x, cs)
  {
    var i :| 0 <= i < |cs| && cs[i] == c;
    assert Prepend(x, cs)[i] == [x] + c;
  }

  lemma {:induction false} SubseqNoDup<T>(c: seq<T>, s: seq<T>)
    requires SubseqOf(c, s) && NoDup(s)
    ensures NoDup(c)
    decreases |s|
  {
    if c != [] {
      if c[0] == s[0] && SubseqOf(c[1..], s[1..]) {
        NoDupPrefix(s[..1], s[1..]);
        assert s == s[..1] + s[1..];
        SubseqNoDup(c[1..], s[1..]);
        SubseqMembers(c[1..], s[1..]);
        assert c == [c[0]] + c[1..];
        NoDupConcat([c[0]], c[1..]);
      } else {
        assert s == s[..1] + s[1..];
        NoDupPrefix(s[..1], s[1..]);
        SubseqNoDup(c, s[1..]);
      }
    }
  }

  /** Over distinct elements, no combination is listed twice. */
  lemma {:induction false} CombinationsNoDup<T>(s: seq<T>, k: nat)
    requires NoDup(s)
    ensures NoDup(Combinations(s, k))
    decreases |s|
  {
    if k > 0 && s != [] {
      assert s == s[..1] + s[1..];
      NoDupPrefix(s[..1], s[1..]);
      var inner := Combinations(s[1..], k - 1);
      var with := Prepend(s[0], inner);
      var without := Combinations(s[1..], k);
      CombinationsNoDup(s[1..], k - 1);
      CombinationsNoDup(s[1..], k);
      forall i, j | 0 <= i < j < |with| ensures with[i] != with[j] {
        assert with[i][1..] == inner[i] && with[j][1..] == inner[j];
      }
      forall c | c in without ensures |c| == k && c[0] != s[0] {
        CombinationsSound(s[1..], k, c);
        SubseqMembers(c, s[1..]);
        assert c[0] in s[1..];
      }
      forall c | c in with ensures |c| > 0 && c[0] == s[0] {
        var i :| 0 <= i < |with| && with[i] == c;
      }
      NoDupConcat(with, without);
    }
  }

  // ------------------------------------------------------------------ pairs

  /** All pairs `(s[i], s[j])` with `i < j`, in lexicographic order of `(i, j)`. */
  function PairsOf<T>(s: seq<T>): seq<(T, T)>
    decreases |s|
  {
    if s == [] then []
    else seq(|s| - 1, j requires 0 <= j < |s| - 1 => (s[0], s[j + 1])) + PairsOf(s[1..])
  }

  /** The position of `(s[i], s[j])` in `PairsOf(s)` when `|s| == k`. */
  function PairPos(k: nat, i: nat, j: nat): nat
    requires i < j < k
  {
    if i == 0 then j - 1 else (k - 1) + PairPos(k - 1, i - 1, j - 1)
  }

  lemma {:induction false} PairsCount<T>(s: seq<T>)
    ensures |PairsOf(s)| == Binomial(|s|, 2) == |s| * (|s| - 1) / 2
    decreases |s|
  {
    if s != [] {
      PairsCount(s[1..]);
      var n := |s|;
      assert Binomial(n - 1, 1) == n - 1 by { BinomialOne(n - 1); }
      assert n * (n - 1) == (n - 1) * (n - 2) + 2 * (n - 1);
    }
  }

  lemma {:induction false} BinomialOne(n: nat)
    ensures Binomial(n, 1) == n
  {
    if n > 0 { BinomialOne(n - 1); }
  }

  /** Pair `(i, j)` sits at `PairPos(|s|, i, j)`. */
  lemma {:induction false} PairsAt<T>(s: seq<T>, i: nat, j: nat)
    requires i < j < |s|
    ensures PairPos(|s|, i, j) < |PairsOf(s)| && PairsOf(s)[PairPos(|s|, i, j)] == (s[i], s[j])
    decreases |s|
  {
    PairsCount(s);
    if i > 0 {
      PairsAt(s[1..], i - 1, j - 1);
    }
  }

  /** Positions grow with `(i, j)` in lexicographic order, so each pair is listed once and in that order. */
  lemma {:induction false} PairPosLexOrder(k: nat, i: nat, j: nat, i': nat, j': nat)
    requires i < j < k && i' < j' < k
    requires i < i' || (i == i' && j < j')
    ensures PairPos(k, i, j) < PairPos(k, i', j')
    decreases k
  {
    if i > 0 {
      PairPosLexOrder(k - 1, i - 1, j - 1, i' - 1, j' - 1);
    } else if i' > 0 {
      PairPosAtLeast(k, i', j');
    }
  }

  lemma PairPosAtLeast(k: nat, i: nat, j: nat)
    requires 0 < i < j < k
    ensures PairPos(k, i, j) >= k - 1
  {
  }

  /** A pair is listed iff it is `(s[i], s[j])` for some `i < j`. */
  lemma {:induction false} PairsMember<T>(s: seq<T>, p: (T, T))
    ensures p in PairsOf(s) <==> exists i, j :: 0 <= i < j < |s| && p == (s[i], s[j])
    decreases |s|
  {
    if s != [] {
      var row := seq(|s| - 1, j requires 0 <= j < |s| - 1 => (s[0], s[j + 1]));
      PairsMember(s[1..], p);
      if p in PairsOf(s) {
        if p in row {
          var j :| 0 <= j < |row| && row[j] == p;
          assert p == (s[0], s[j + 1]);
        } else {
          assert p in PairsOf(s[1..]);
          var i, j :| 0 <= i < j < |s| - 1 && p == (s[1..][i], s[1..][j]);
          assert p == (s[i + 1], s[j + 1]);
        }
      }
      if exists i, j :: 0 <= i < j < |s| && p == (s[i], s[j]) {
        var i, j :| 0 <= i < j < |s| && p == (s[i], s[j]);
        if i == 0 {
          assert row[j - 1] == p;
        } else {
          assert p == (s[1..][i - 1], s[1..][j - 1]);
        }
      }
    }
  }

  lemma {:induction false} PairsNoDup<T>(s: seq<T>)
    requires NoDup(s)
    ensures NoDup(PairsOf(s))
    decreases |s|
  {
    if s != [] {
      assert s == s[..1] + s[1..];
      NoDupPrefix(s[..1], s[1..]);
      var row := seq(|s| - 1, j requires 0 <= j < |s| - 1 => (s[0], s[j + 1]));
      PairsNoDup(s[1..]);
      forall p | p in PairsOf(s[1..]) ensures p.0 != s[0] {
        PairsMember(s[1..], p);
        var i, j :| 0 <= i < j < |s| - 1 && p == (s[1..][i], s[1..][j]);
        assert p.0 in s[1..];
      }
      forall p | p in row ensures p.0 == s[0] {
        var j :| 0 <= j < |row| && row[j] == p;
      }
      forall a, b | 0 <= a < b < |row| ensures row[a] != row[b] {
        assert row[a].1 == s[a + 1] && row[b].1 == s[b + 1];
      }
      NoDupConcat(row, PairsOf(s[1..]));
    }
  }

  /** `combinations(2)` lists the same pairs, as 2-element sequences. */
  lemma {:induction false} CombinationsOfTwo<T>(s: seq<T>)
    ensures |Combinations(s, 2)| == |PairsOf(s)|
    ensures forall i :: 0 <= i < |PairsOf(s)| ==> Combinations(s, 2)[i] == [PairsOf(s)[i].0, PairsOf(s)[i].1]
    decreases |s|
  {
    if s != [] {
      CombinationsOfOne(s[1..]);
      CombinationsOfTwo(s[1..]);
    }
  }

  lemma {:induction false} CombinationsOfOne<T>(s: seq<T>)
    ensures |Combinations(s, 1)| == |s|
    ensures forall i :: 0 <= i < |s| ==> Combinations(s, 1)[i] == [s[i]]
    decreases |s|
  {
    if s != [] {
      CombinationsOfOne(s[1..]);
    }
  }
}
