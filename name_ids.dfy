/** The canonical team id shared by src/team.rs and src/team_ow2.rs: the
    players of a role sorted by name, every name followed by ",". */
module NameIds {
  import opened Strings
  import opened Players

  /** `vec![a, b].sort_by(|a, b| a.name.cmp(&b.name))`: the sort is stable,
      so the pair is swapped only when the second name is strictly smaller. */
  function ByName(a: Player, b: Player): (r: seq<Player>)
    ensures |r| == 2 && multiset(r) == multiset{a, b}
    ensures !Less(r[1].name, r[0].name)
  {
    LessAsymmetric(a.name, b.name);
    if Less(b.name, a.name) then [b, a] else [a, b]
  }

  /** The in-place sort of the two-element vector. */
  method SortByName(v: array<Player>)
    requires v.Length == 2
    modifies v
    ensures v[..] == ByName(old(v[0]), old(v[1]))
  {
    if Less(v[1].name, v[0].name) {
      v[0], v[1] := v[1], v[0];
    }
  }

  /** `let mut v = vec![a, b]; v.sort_by(...)`: a fresh two-element vector, sorted by name. */
  method SortedDuo(a: Player, b: Player) returns (v: array<Player>)
    ensures fresh(v) && v[..] == ByName(a, b)
  {
    v := new Player[2][a, b];
    SortByName(v);
  }

  function NamesOf(ps: seq<Player>): (ns: seq<string>)
    ensures |ns| == |ps| && forall i :: 0 <= i < |ps| ==> ns[i] == ps[i].name
  {
    seq(|ps|, i requires 0 <= i < |ps| => ps[i].name)
  }

  /** Every name followed by ",". */
  function Listed(ns: seq<string>): string
  {
    if ns == [] then "" else ns[0] + "," + Listed(ns[1..])
  }

  lemma {:induction false} ListedAppend(a: seq<string>, b: seq<string>)
    ensures Listed(a + b) == Listed(a) + Listed(b)
    decreases |a|
  {
    if a == [] {
      assert a + b == b;
    } else {
      assert (a + b)[0] == a[0] && (a + b)[1..] == a[1..] + b;
      ListedAppend(a[1..], b);
    }
  }

  /** `for p in v { s.push_str(&p.name); s.push_str(","); }` */
  method AppendNames(s: string, v: array<Player>) returns (r: string)
    ensures r == s + Listed(NamesOf(v[..]))
  {
    r := s;
    var i := 0;
    while i < v.Length
      invariant 0 <= i <= v.Length
      invariant r == s + Listed(NamesOf(v[..i]))
    {
      assert NamesOf(v[..i + 1]) == NamesOf(v[..i]) + [v[i].name];
      ListedAppend(NamesOf(v[..i]), [v[i].name]);
      r := r + v[i].name + ",";
      i := i + 1;
    }
    assert v[..i] == v[..];
  }

  /** A role duo's part of an id: its two names sorted, each followed by ",". */
  function DuoId(a: Player, b: Player): string
  {
    Listed(NamesOf(ByName(a, b)))
  }

  predicate CommaFree(n: string)
  {
    ',' !in n
  }

  function CommaIndex(s: string): nat
  {
    if s == [] || s[0] == ',' then 0 else 1 + CommaIndex(s[1..])
  }

  lemma {:induction false} CommaIndexAfter(x: string, rest: string)
    requires CommaFree(x)
    ensures CommaIndex(x + "," + rest) == |x|
    decreases |x|
  {
    if x != [] {
      assert (x + "," + rest)[1..] == x[1..] + "," + rest;
      CommaIndexAfter(x[1..], rest);
    }
  }

  /** A listing of comma-free names determines the names. */
  lemma {:induction false} ListedInjective(ns: seq<string>, ms: seq<string>)
    requires forall i :: 0 <= i < |ns| ==> CommaFree(ns[i])
    requires forall i :: 0 <= i < |ms| ==> CommaFree(ms[i])
    requires Listed(ns) == Listed(ms)
    ensures ns == ms
    decreases |ns|
  {
    assert ns != [] ==> |Listed(ns)| > 0;
    assert ms != [] ==> |Listed(ms)| > 0;
    if ns != [] && ms != [] {
      var s := Listed(ns);
      CommaIndexAfter(ns[0], Listed(ns[1..]));
      CommaIndexAfter(ms[0], Listed(ms[1..]));
      assert ns[0] == s[..|ns[0]|] == ms[0];
      assert Listed(ns[1..]) == s[|ns[0]| + 1..] == Listed(ms[1..]);
      ListedInjective(ns[1..], ms[1..]);
      assert ns == [ns[0]] + ns[1..] && ms == [ms[0]] + ms[1..];
    }
  }

  predicate SortedPair(ns: seq<string>)
  {
    |ns| == 2 && !Less(ns[1], ns[0])
  }

  /** Two names in sorted order are fixed by which names they are. */
  lemma SortedPairUnique(ns: seq<string>, ms: seq<string>)
    requires SortedPair(ns) && SortedPair(ms)
    requires multiset(ns) == multiset(ms)
    ensures ns == ms
  {
    assert ns == [ns[0], ns[1]] && ms == [ms[0], ms[1]];
    assert ms[0] in multiset(ns) && ms[1] in multiset(ns);
    LessTotal(ns[0], ns[1]);
    if ns[0] == ns[1] {
      assert multiset(ns)[ns[0]] == 2;
    } else {
      assert multiset(ns)[ns[0]] == 1 && multiset(ns)[ns[1]] == 1;
    }
  }

  lemma ByNameNames(a: Player, b: Player)
    ensures SortedPair(NamesOf(ByName(a, b)))
    ensures multiset(NamesOf(ByName(a, b))) == multiset{a.name, b.name}
  {
    LessAsymmetric(a.name, b.name);
    if Less(b.name, a.name) {
      PairNames(b, a);
    } else {
      PairNames(a, b);
    }
  }

  lemma PairNames(x: Player, y: Player)
    ensures NamesOf([x, y]) == [x.name, y.name]
    ensures multiset([x.name, y.name]) == multiset{x.name, y.name}
  {
  }

  /** The sorted listing of a role duo does not depend on the order of its two players. */
  lemma DuoListingSwap(a: Player, b: Player)
    ensures NamesOf(ByName(a, b)) == NamesOf(ByName(b, a))
  {
    ByNameNames(a, b);
    ByNameNames(b, a);
    SortedPairUnique(NamesOf(ByName(a, b)), NamesOf(ByName(b, a)));
  }

  /** Two role duos with the same names have the same sorted names. */
  lemma DuoListingSameNames(a: Player, b: Player, c: Player, d: Player)
    requires multiset{a.name, b.name} == multiset{c.name, d.name}
    ensures NamesOf(ByName(a, b)) == NamesOf(ByName(c, d))
  {
    ByNameNames(a, b);
    ByNameNames(c, d);
    SortedPairUnique(NamesOf(ByName(a, b)), NamesOf(ByName(c, d)));
  }

  lemma DuoCommaFree(a: Player, b: Player)
    requires CommaFree(a.name) && CommaFree(b.name)
    ensures forall i :: 0 <= i < 2 ==> CommaFree(NamesOf(ByName(a, b))[i])
  {
    var r := ByName(a, b);
    assert r == [a, b] || r == [b, a];
  }
}
