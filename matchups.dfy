/** The matchup generator of src/main.rs (`create_matchups`) and the team
    names of `create_scrims`. A matchup is a list of 3N role duos: N tank
    pairs, then N damage pairs, then N support pairs, no player name twice. */
module Matchups {
  import opened Strings
  import opened Combinatorics
  import opened Players
  import opened NameIds

  type Pair = (Player, Player)

  type Matchup = seq<Pair>

  /** A candidate matchup before the name check: a tank, a damage and a
      support combination of N pairs each. */
  type Triple = (seq<Pair>, seq<Pair>, seq<Pair>)

  /** `players.len() as i16 / 6`: the number of whole teams the roster fills. */
  function TeamCount(playerCount: nat): (n: nat)
    requires playerCount < 0x8000
    ensures 6 * n <= playerCount < 6 * n + 6
  {
    playerCount / 6
  }

  /** `players.iter().filter(|p| p.plays_position(pos)).collect()`. */
  function Eligible(players: seq<Player>, pos: Position): (r: seq<Player>)
    ensures SubseqOf(r, players)
    ensures forall p :: p in r <==> p in players && PlaysPosition(p, pos)
    ensures forall p :: PlaysPosition(p, pos) ==> multiset(r)[p] == multiset(players)[p]
    decreases |players|
  {
    if players == [] then []
    else
      var rest := Eligible(players[1..], pos);
      assert forall p :: p in players <==> p == players[0] || p in players[1..];
      assert players == [players[0]] + players[1..];
      if PlaysPosition(players[0], pos) then
        var r := [players[0]] + rest;
        assert r[1..] == rest;
        r
      else rest
  }

  /** A role's pair list: `list.iter().combinations(2)`, each
      two-element combination pushed as a tuple. */
  method RolePairs(list: seq<Player>) returns (tuples: seq<Pair>)
    ensures tuples == PairsOf(list)
  {
    var combinations := Combinations(list, 2);
    CombinationsOfTwo(list);
    tuples := [];
    var i := 0;
    while i < |combinations|
      invariant 0 <= i <= |combinations|
      invariant tuples == PairsOf(list)[..i]
    {
      tuples := tuples + [(combinations[i][0], combinations[i][1])];
      i := i + 1;
    }
  }

  /** The names of a combination's players, pair by pair. */
  function ComboNames(c: seq<Pair>): (names: seq<string>)
    ensures |names| == 2 * |c|
  {
    if c == [] then [] else ComboNames(c[..|c| - 1]) + [c[|c| - 1].0.name, c[|c| - 1].1.name]
  }

  lemma {:induction false} ComboNamesAppend(a: seq<Pair>, b: seq<Pair>)
    ensures ComboNames(a + b) == ComboNames(a) + ComboNames(b)
    decreases |b|
  {
    if b == [] {
      assert a + b == a;
    } else {
      assert (a + b)[..|a + b| - 1] == a + b[..|b| - 1];
      ComboNamesAppend(a, b[..|b| - 1]);
    }
  }

  /** The name check of the three labelled loops: no player name twice
      across the tank, damage and support combinations. */
  predicate Disjoint(x: Triple)
  {
    NoDup(ComboNames(x.0) + ComboNames(x.1) + ComboNames(x.2))
  }

  // ------------------------------------------------ the enumeration order

  /** `(t, d, s)` for every support combination `s`, in order. */
  function Cell(t: seq<Pair>, d: seq<Pair>, ss: seq<seq<Pair>>): seq<Triple>
    decreases |ss|
  {
    if ss == [] then [] else Cell(t, d, ss[..|ss| - 1]) + [(t, d, ss[|ss| - 1])]
  }

  /** Every `(t, d, s)` for a fixed tank combination, damage-major. */
  function Row(t: seq<Pair>, ds: seq<seq<Pair>>, ss: seq<seq<Pair>>): seq<Triple>
    decreases |ds|
  {
    if ds == [] then [] else Row(t, ds[..|ds| - 1], ss) + Cell(t, ds[|ds| - 1], ss)
  }

  /** Every triple, tank-major, then damage, then support. */
  function Triples(ts: seq<seq<Pair>>, ds: seq<seq<Pair>>, ss: seq<seq<Pair>>): seq<Triple>
    decreases |ts|
  {
    if ts == [] then [] else Triples(ts[..|ts| - 1], ds, ss) + Row(ts[|ts| - 1], ds, ss)
  }

  /** The triples that pass the name check, in order, each emitted as its
      tank pairs, then its damage pairs, then its support pairs. */
  function Keep(xs: seq<Triple>): seq<Matchup>
  {
    if xs == [] then []
    else
      var x := xs[|xs| - 1];
      Keep(xs[..|xs| - 1]) + (if Disjoint(x) then [x.0 + x.1 + x.2] else [])
  }

  /** The role combinations: every choice of `n` of the role's pairs. */
  function RoleCombinations(players: seq<Player>, pos: Position, n: nat): seq<seq<Pair>>
  {
    Combinations(PairsOf(Eligible(players, pos)), n)
  }

  /** What `create_matchups` returns. */
  function MatchupsOf(players: seq<Player>): seq<Matchup>
    requires |players| < 0x8000
  {
    var n := TeamCount(|players|);
    Keep(Triples(RoleCombinations(players, Tank, n),
                 RoleCombinations(players, Damage, n),
                 RoleCombinations(players, Support, n)))
  }

  // ---------------------------------------------------------- the method

  /** One `for pair in combination` name-check loop: each pair's two names
      are looked up with `contains` and pushed; a repeat abandons the
      combination (`continue 'label`). */
  method ExtendNames(names: seq<string>, combination: seq<Pair>) returns (ok: bool, extended: seq<string>)
    requires NoDup(names)
    ensures ok <==> NoDup(names + ComboNames(combination))
    ensures ok ==> extended == names + ComboNames(combination)
  {
    extended := names;
    var k := 0;
    while k < |combination|
      invariant 0 <= k <= |combination|
      invariant extended == names + ComboNames(combination[..k])
      invariant NoDup(extended)
    {
      var pair := combination[k];
      if pair.0.name in extended {
        FirstNameClash(names, combination, k);
        return false, extended;
      }
      extended := extended + [pair.0.name];
      if pair.1.name in extended {
        SecondNameClash(names, combination, k);
        return false, extended;
      }
      extended := extended + [pair.1.name];
      assert combination[..k + 1][..k] == combination[..k];
      k := k + 1;
    }
    assert combination[..k] == combination;
    ok := true;
  }

  lemma ComboNamesSplit(c: seq<Pair>, k: nat)
    requires k < |c|
    ensures ComboNames(c) == ComboNames(c[..k]) + [c[k].0.name, c[k].1.name] + ComboNames(c[k + 1..])
  {
    SplitAfter(c, k);
    ComboNamesAppend(c[..k + 1], c[k + 1..]);
  }

  lemma SplitAfter<T>(c: seq<T>, k: nat)
    requires k < |c|
    ensures c[..k + 1] + c[k + 1..] == c
    ensures c[..k + 1][..k] == c[..k] && c[..k + 1][k] == c[k]
  {
  }

  lemma FirstNameClash(names: seq<string>, c: seq<Pair>, k: nat)
    requires k < |c| && c[k].0.name in names + ComboNames(c[..k])
    ensures !NoDup(names + ComboNames(c))
  {
    ComboNamesSplit(c, k);
    RepeatAt(names + ComboNames(c[..k]), names, ComboNames(c[..k]),
             [c[k].0.name, c[k].1.name], ComboNames(c[k + 1..]), 0);
  }

  lemma SecondNameClash(names: seq<string>, c: seq<Pair>, k: nat)
    requires k < |c| && c[k].1.name in names + ComboNames(c[..k]) + [c[k].0.name]
    ensures !NoDup(names + ComboNames(c))
  {
    ComboNamesSplit(c, k);
    RepeatAt(names + ComboNames(c[..k]) + [c[k].0.name], names, ComboNames(c[..k]),
             [c[k].0.name, c[k].1.name], ComboNames(c[k + 1..]), 1);
  }

  /** An element of `p` already met before it is a repeat in `a + (b + p + r)`. */
  lemma RepeatAt<T>(seen: seq<T>, a: seq<T>, b: seq<T>, p: seq<T>, r: seq<T>, at: nat)
    requires at < |p| && seen == a + b + p[..at] && p[at] in seen
    ensures !NoDup(a + (b + p + r))
  {
    var whole := a + (b + p + r);
    var i :| 0 <= i < |seen| && seen[i] == p[at];
    var j := |a| + |b| + at;
    assert whole[j] == p[at];
    assert whole[i] == seen[i];
  }

  /** `matchup_vec`: the tank pairs, then the damage pairs, then the support pairs. */
  method Assemble(t: seq<Pair>, d: seq<Pair>, s: seq<Pair>) returns (matchup: Matchup)
    ensures matchup == t + d + s
  {
    matchup := [];
    for i := 0 to |t|
      invariant matchup == t[..i]
    {
      matchup := matchup + [t[i]];
    }
    for i := 0 to |d|
      invariant matchup == t + d[..i]
    {
      matchup := matchup + [d[i]];
    }
    for i := 0 to |s|
      invariant matchup == t + d + s[..i]
    {
      matchup := matchup + [s[i]];
    }
  }

  /** `create_matchups`: every tank, damage and support combination of N
      pairs, tank-major, kept when no player name repeats. The labelled
      damage and support loops are the methods `ScanDamage` and `ScanSupport`. */
  method CreateMatchups(players: seq<Player>) returns (matchups: seq<Matchup>)
    requires |players| < 0x8000
    ensures matchups == MatchupsOf(players)
  {
    var numberOfTeams := |players| / 6;
    var tankList := Eligible(players, Tank);
    var damageList := Eligible(players, Damage);
    var supportList := Eligible(players, Support);
    var tankPairs := RolePairs(tankList);
    var damagePairs := RolePairs(damageList);
    var supportPairs := RolePairs(supportList);
    var tankCombinations := Combinations(tankPairs, numberOfTeams);
    var damageCombinations := Combinations(damagePairs, numberOfTeams);
    var supportCombinations := Combinations(supportPairs, numberOfTeams);

    matchups := [];
    var i := 0;
    while i < |tankCombinations|
      invariant 0 <= i <= |tankCombinations|
      invariant matchups == Keep(Triples(tankCombinations[..i], damageCombinations, supportCombinations))
    {
      var t := tankCombinations[i];
      var tankOk, tankNames := ExtendNames([], t);
      PrependEmpty(ComboNames(t));
      KeepTriplesStep(tankCombinations, i, damageCombinations, supportCombinations);
      if tankOk {
        matchups := ScanDamage(matchups, t, tankNames, damageCombinations, supportCombinations);
      } else {
        RowRejected(t, damageCombinations, supportCombinations);
        AppendEmpty(matchups);
      }
      i := i + 1;
    }
    Whole(tankCombinations);
  }

  /** The `'damage_loop` of `create_matchups` for one accepted tank
      combination `t`, appending to `acc`. */
  method ScanDamage(acc: seq<Matchup>, t: seq<Pair>, tankNames: seq<string>,
                    ds: seq<seq<Pair>>, ss: seq<seq<Pair>>) returns (matchups: seq<Matchup>)
    requires tankNames == ComboNames(t) && NoDup(tankNames)
    ensures matchups == acc + Keep(Row(t, ds, ss))
  {
    matchups := acc;
    var j := 0;
    while j < |ds|
      invariant 0 <= j <= |ds|
      invariant matchups == acc + Keep(Row(t, ds[..j], ss))
    {
      var d := ds[j];
      var damageOk, tankAndDamageNames := ExtendNames(tankNames, d);
      KeepRowStep(t, ds, j, ss);
      ghost var done, cell := Keep(Row(t, ds[..j], ss)), Keep(Cell(t, d, ss));
      if damageOk {
        matchups := ScanSupport(matchups, t, d, tankAndDamageNames, ss);
      } else {
        CellRejected(t, d, ss);
        AppendEmpty(acc + done);
      }
      AppendAssoc(acc, done, cell);
      j := j + 1;
    }
    Whole(ds);
  }

  /** The `'support_loop` of `create_matchups` for accepted tank and damage
      combinations `t` and `d`, appending to `acc`. */
  method ScanSupport(acc: seq<Matchup>, t: seq<Pair>, d: seq<Pair>, tankAndDamageNames: seq<string>,
                     ss: seq<seq<Pair>>) returns (matchups: seq<Matchup>)
    requires tankAndDamageNames == ComboNames(t) + ComboNames(d)
    requires NoDup(tankAndDamageNames)
    ensures matchups == acc + Keep(Cell(t, d, ss))
  {
    matchups := acc;
    var k := 0;
    while k < |ss|
      invariant 0 <= k <= |ss|
      invariant matchups == acc + Keep(Cell(t, d, ss[..k]))
    {
      var s := ss[k];
      var supportOk, _ := ExtendNames(tankAndDamageNames, s);
      KeepCellStep(t, d, ss, k);
      if supportOk {
        var matchup := Assemble(t, d, s);
        AppendAssoc(acc, Keep(Cell(t, d, ss[..k])), [matchup]);
        matchups := matchups + [matchup];
      }
      k := k + 1;
    }
    Whole(ss);
  }

  lemma AppendAssoc<T>(a: seq<T>, b: seq<T>, c: seq<T>)
    ensures a + b + c == a + (b + c)
  {
  }

  lemma AppendEmpty<T>(a: seq<T>)
    ensures a + [] == a
  {
  }

  lemma PrependEmpty<T>(a: seq<T>)
    ensures [] + a == a
  {
  }

  lemma Snoc<T>(a: seq<T>)
    requires a != []
    ensures a == a[..|a| - 1] + [a[|a| - 1]]
  {
  }

  lemma Whole<T>(a: seq<T>)
    ensures a[..|a|] == a
  {
  }

  // ------------------------------------------------------- Keep and friends

  lemma KeepSnoc(xs: seq<Triple>, x: Triple)
    ensures Keep(xs + [x]) == Keep(xs) + (if Disjoint(x) then [x.0 + x.1 + x.2] else [])
  {
    assert (xs + [x])[..|xs|] == xs;
  }

  lemma {:induction false} KeepAppend(a: seq<Triple>, b: seq<Triple>)
    ensures Keep(a + b) == Keep(a) + Keep(b)
    decreases |b|
  {
    if b == [] {
      assert a + b == a;
    } else {
      var init := b[..|b| - 1];
      assert a + b == (a + init) + [b[|b| - 1]];
      KeepSnoc(a + init, b[|b| - 1]);
      KeepAppend(a, init);
    }
  }

  lemma KeepCellStep(t: seq<Pair>, d: seq<Pair>, ss: seq<seq<Pair>>, k: nat)
    requires k < |ss|
    ensures Keep(Cell(t, d, ss[..k + 1]))
         == Keep(Cell(t, d, ss[..k])) + (if Disjoint((t, d, ss[k])) then [t + d + ss[k]] else [])
  {
    SplitAfter(ss, k);
    KeepSnoc(Cell(t, d, ss[..k]), (t, d, ss[k]));
  }

  lemma KeepRowStep(t: seq<Pair>, ds: seq<seq<Pair>>, j: nat, ss: seq<seq<Pair>>)
    requires j < |ds|
    ensures Keep(Row(t, ds[..j + 1], ss)) == Keep(Row(t, ds[..j], ss)) + Keep(Cell(t, ds[j], ss))
  {
    SplitAfter(ds, j);
    KeepAppend(Row(t, ds[..j], ss), Cell(t, ds[j], ss));
  }

  lemma KeepTriplesStep(ts: seq<seq<Pair>>, i: nat, ds: seq<seq<Pair>>, ss: seq<seq<Pair>>)
    requires i < |ts|
    ensures Keep(Triples(ts[..i + 1], ds, ss)) == Keep(Triples(ts[..i], ds, ss)) + Keep(Row(ts[i], ds, ss))
  {
    SplitAfter(ts, i);
    KeepAppend(Triples(ts[..i], ds, ss), Row(ts[i], ds, ss));
  }

  lemma {:induction false} KeepNone(xs: seq<Triple>)
    requires forall i :: 0 <= i < |xs| ==> !Disjoint(xs[i])
    ensures Keep(xs) == []
    decreases |xs|
  {
    if xs != [] {
      KeepNone(xs[..|xs| - 1]);
    }
  }

  lemma {:induction false} CellMembers(t: seq<Pair>, d: seq<Pair>, ss: seq<seq<Pair>>)
    ensures |Cell(t, d, ss)| == |ss|
    ensures forall i :: 0 <= i < |ss| ==> Cell(t, d, ss)[i] == (t, d, ss[i])
    decreases |ss|
  {
    if ss != [] {
      CellMembers(t, d, ss[..|ss| - 1]);
    }
  }

  lemma {:induction false} RowMember(t: seq<Pair>, ds: seq<seq<Pair>>, ss: seq<seq<Pair>>, x: Triple)
    ensures x in Row(t, ds, ss) <==> x.0 == t && x.1 in ds && x.2 in ss
    decreases |ds|
  {
    if ds != [] {
      var init, last := ds[..|ds| - 1], ds[|ds| - 1];
      RowMember(t, init, ss, x);
      CellMembers(t, last, ss);
      Snoc(ds);
      if x.0 == t && x.1 == last && x.2 in ss {
        var k :| 0 <= k < |ss| && ss[k] == x.2;
        assert Cell(t, last, ss)[k] == x;
      }
    }
  }

  lemma {:induction false} TriplesMember(ts: seq<seq<Pair>>, ds: seq<seq<Pair>>, ss: seq<seq<Pair>>, x: Triple)
    ensures x in Triples(ts, ds, ss) <==> x.0 in ts && x.1 in ds && x.2 in ss
    decreases |ts|
  {
    if ts != [] {
      var init, last := ts[..|ts| - 1], ts[|ts| - 1];
      TriplesMember(init, ds, ss, x);
      RowMember(last, ds, ss, x);
      Snoc(ts);
    }
  }

  lemma {:induction false} KeepMember(xs: seq<Triple>, m: Matchup)
    ensures m in Keep(xs) <==> exists x :: x in xs && Disjoint(x) && m == x.0 + x.1 + x.2
    decreases |xs|
  {
    if xs != [] {
      var init, last := xs[..|xs| - 1], xs[|xs| - 1];
      KeepMember(init, m);
      Snoc(xs);
      if exists x :: x in xs && Disjoint(x) && m == x.0 + x.1 + x.2 {
        var x :| x in xs && Disjoint(x) && m == x.0 + x.1 + x.2;
        if x != last {
          assert x in init;
        }
      }
    }
  }

  lemma CellRejected(t: seq<Pair>, d: seq<Pair>, ss: seq<seq<Pair>>)
    requires !NoDup(ComboNames(t) + ComboNames(d))
    ensures Keep(Cell(t, d, ss)) == []
  {
    CellMembers(t, d, ss);
    forall i | 0 <= i < |ss| ensures !Disjoint(Cell(t, d, ss)[i]) {
      DuplicateKept(ComboNames(t) + ComboNames(d), ComboNames(ss[i]));
    }
    KeepNone(Cell(t, d, ss));
  }

  lemma {:induction false} RowRejected(t: seq<Pair>, ds: seq<seq<Pair>>, ss: seq<seq<Pair>>)
    requires !NoDup(ComboNames(t))
    ensures Keep(Row(t, ds, ss)) == []
    decreases |ds|
  {
    if ds != [] {
      var d := ds[|ds| - 1];
      RowRejected(t, ds[..|ds| - 1], ss);
      DuplicateKept(ComboNames(t), ComboNames(d));
      CellRejected(t, d, ss);
      KeepAppend(Row(t, ds[..|ds| - 1], ss), Cell(t, d, ss));
    }
  }

  // ------------------------------------------------------------ properties

  /** The role of the pair at position `b` of a matchup whose blocks hold `n` pairs. */
  function BlockRole(b: nat, n: nat): Position
  {
    if b < n then Tank else if b < 2 * n then Damage else Support
  }

  lemma RoleCombinationFacts(players: seq<Player>, pos: Position, n: nat, c: seq<Pair>)
    requires c in RoleCombinations(players, pos, n)
    ensures |c| == n
    ensures forall q :: q in c ==> q in PairsOf(Eligible(players, pos))
    ensures forall q :: q in c ==> q.0 in Eligible(players, pos) && q.1 in Eligible(players, pos)
  {
    var e := Eligible(players, pos);
    CombinationsSound(PairsOf(e), n, c);
    SubseqMembers(c, PairsOf(e));
    forall q | q in c ensures q.0 in e && q.1 in e {
      PairsMember(e, q);
      var i, j :| 0 <= i < j < |e| && q == (e[i], e[j]);
    }
  }

  /** The candidate an emitted matchup was assembled from. */
  lemma KeptFrom(players: seq<Player>, m: Matchup) returns (x: Triple)
    requires |players| < 0x8000 && m in MatchupsOf(players)
    ensures x.0 in RoleCombinations(players, Tank, TeamCount(|players|))
    ensures x.1 in RoleCombinations(players, Damage, TeamCount(|players|))
    ensures x.2 in RoleCombinations(players, Support, TeamCount(|players|))
    ensures Disjoint(x) && m == x.0 + x.1 + x.2
  {
    var n := TeamCount(|players|);
    var ts, ds, ss := RoleCombinations(players, Tank, n), RoleCombinations(players, Damage, n),
                      RoleCombinations(players, Support, n);
    KeepMember(Triples(ts, ds, ss), m);
    x :| x in Triples(ts, ds, ss) && Disjoint(x) && m == x.0 + x.1 + x.2;
    TriplesMember(ts, ds, ss, x);
  }

  lemma BlockPlayers(players: seq<Player>, n: nat, x: Triple)
    requires x.0 in RoleCombinations(players, Tank, n)
    requires x.1 in RoleCombinations(players, Damage, n)
    requires x.2 in RoleCombinations(players, Support, n)
    ensures |x.0 + x.1 + x.2| == 3 * n
    ensures var m := x.0 + x.1 + x.2;
      forall b :: 0 <= b < |m| ==>
        m[b].0 in Eligible(players, BlockRole(b, n)) && m[b].1 in Eligible(players, BlockRole(b, n))
  {
    RoleCombinationFacts(players, Tank, n, x.0);
    RoleCombinationFacts(players, Damage, n, x.1);
    RoleCombinationFacts(players, Support, n, x.2);
    var m := x.0 + x.1 + x.2;
    forall b | 0 <= b < |m|
      ensures m[b].0 in Eligible(players, BlockRole(b, n)) && m[b].1 in Eligible(players, BlockRole(b, n))
    {
      if b < n {
        assert m[b] == x.0[b] && x.0[b] in x.0;
      } else if b < 2 * n {
        assert m[b] == x.1[b - n] && x.1[b - n] in x.1;
      } else {
        assert m[b] == x.2[b - 2 * n] && x.2[b - 2 * n] in x.2;
      }
    }
  }

  /** Every emitted matchup is a tank, a damage and a support combination
      of N pairs each, in that order, with 6N distinct names, every pair
      drawn from two players of the roster who play its block's role. */
  lemma MatchupsSound(players: seq<Player>, m: Matchup)
    requires |players| < 0x8000 && m in MatchupsOf(players)
    ensures var n := TeamCount(|players|);
      |m| == 3 * n
      && m[..n] in RoleCombinations(players, Tank, n)
      && m[n..2 * n] in RoleCombinations(players, Damage, n)
      && m[2 * n..] in RoleCombinations(players, Support, n)
    ensures NoDup(ComboNames(m))
    ensures forall b :: 0 <= b < |m| ==>
      m[b].0 in players && m[b].1 in players
      && PlaysPosition(m[b].0, BlockRole(b, TeamCount(|players|)))
      && PlaysPosition(m[b].1, BlockRole(b, TeamCount(|players|)))
  {
    var n := TeamCount(|players|);
    var x := KeptFrom(players, m);
    BlockPlayers(players, n, x);
    RoleCombinationFacts(players, Tank, n, x.0);
    RoleCombinationFacts(players, Damage, n, x.1);
    ThreeParts(x.0, x.1, x.2);
    ComboNamesAppend(x.0, x.1);
    ComboNamesAppend(x.0 + x.1, x.2);
    EligiblePlayers(players, n, m);
  }

  lemma ThreeParts<T>(a: seq<T>, b: seq<T>, c: seq<T>)
    ensures (a + b + c)[..|a|] == a
    ensures (a + b + c)[|a|..|a| + |b|] == b
    ensures (a + b + c)[|a| + |b|..] == c
  {
  }

  /** Pairs drawn from the role lists are roster players who play the role. */
  lemma EligiblePlayers(players: seq<Player>, n: nat, m: Matchup)
    requires forall b :: 0 <= b < |m| ==>
      m[b].0 in Eligible(players, BlockRole(b, n)) && m[b].1 in Eligible(players, BlockRole(b, n))
    ensures forall b :: 0 <= b < |m| ==>
      m[b].0 in players && m[b].1 in players
      && PlaysPosition(m[b].0, BlockRole(b, n)) && PlaysPosition(m[b].1, BlockRole(b, n))
  {
    forall b | 0 <= b < |m|
      ensures m[b].0 in players && m[b].1 in players
      ensures PlaysPosition(m[b].0, BlockRole(b, n)) && PlaysPosition(m[b].1, BlockRole(b, n))
    {
      var e := Eligible(players, BlockRole(b, n));
      assert m[b].0 in e && m[b].1 in e;
    }
  }

  /** Every tank, damage and support combination whose 6N names are
      distinct is emitted. */
  lemma MatchupsComplete(players: seq<Player>, t: seq<Pair>, d: seq<Pair>, s: seq<Pair>)
    requires |players| < 0x8000
    requires t in RoleCombinations(players, Tank, TeamCount(|players|))
    requires d in RoleCombinations(players, Damage, TeamCount(|players|))
    requires s in RoleCombinations(players, Support, TeamCount(|players|))
    requires NoDup(ComboNames(t + d + s))
    ensures t + d + s in MatchupsOf(players)
  {
    var n := TeamCount(|players|);
    var ts, ds, ss := RoleCombinations(players, Tank, n), RoleCombinations(players, Damage, n),
                      RoleCombinations(players, Support, n);
    ComboNamesAppend(t, d);
    ComboNamesAppend(t + d, s);
    TriplesMember(ts, ds, ss, (t, d, s));
    KeepMember(Triples(ts, ds, ss), t + d + s);
  }

  lemma CellNoDup(t: seq<Pair>, d: seq<Pair>, ss: seq<seq<Pair>>)
    requires NoDup(ss)
    ensures NoDup(Cell(t, d, ss))
  {
    CellMembers(t, d, ss);
  }

  lemma {:induction false} RowNoDup(t: seq<Pair>, ds: seq<seq<Pair>>, ss: seq<seq<Pair>>)
    requires NoDup(ds) && NoDup(ss)
    ensures NoDup(Row(t, ds, ss))
    decreases |ds|
  {
    if ds != [] {
      var init, last := ds[..|ds| - 1], ds[|ds| - 1];
      Snoc(ds);
      NoDupPrefix(init, [last]);
      RowNoDup(t, init, ss);
      CellNoDup(t, last, ss);
      CellMembers(t, last, ss);
      forall x | x in Row(t, init, ss) ensures x !in Cell(t, last, ss) {
        RowMember(t, init, ss, x);
        var i :| 0 <= i < |init| && init[i] == x.1;
        assert ds[i] == x.1;
      }
      NoDupConcat(Row(t, init, ss), Cell(t, last, ss));
    }
  }

  lemma {:induction false} TriplesNoDup(ts: seq<seq<Pair>>, ds: seq<seq<Pair>>, ss: seq<seq<Pair>>)
    requires NoDup(ts) && NoDup(ds) && NoDup(ss)
    ensures NoDup(Triples(ts, ds, ss))
    decreases |ts|
  {
    if ts != [] {
      var init, last := ts[..|ts| - 1], ts[|ts| - 1];
      Snoc(ts);
      NoDupPrefix(init, [last]);
      TriplesNoDup(init, ds, ss);
      RowNoDup(last, ds, ss);
      forall x | x in Triples(init, ds, ss) ensures x !in Row(last, ds, ss) {
        TriplesMember(init, ds, ss, x);
        RowMember(last, ds, ss, x);
        var i :| 0 <= i < |init| && init[i] == x.0;
        assert ts[i] == x.0;
      }
      NoDupConcat(Triples(init, ds, ss), Row(last, ds, ss));
    }
  }

  /** Blocks of fixed lengths can be read back from their concatenation. */
  lemma ConcatInjective(x: Triple, y: Triple)
    requires |x.0| == |y.0| && |x.1| == |y.1|
    ensures x.0 + x.1 + x.2 == y.0 + y.1 + y.2 ==> x == y
  {
    if x.0 + x.1 + x.2 == y.0 + y.1 + y.2 {
      var m := x.0 + x.1 + x.2;
      var a, b := |x.0|, |x.0| + |x.1|;
      assert x.0 == m[..a] == y.0;
      assert x.1 == m[a..b] == y.1;
      assert x.2 == m[b..] == y.2;
    }
  }

  lemma {:induction false} KeepNoDup(xs: seq<Triple>, n: nat)
    requires NoDup(xs)
    requires forall x :: x in xs ==> |x.0| == n && |x.1| == n
    ensures NoDup(Keep(xs))
    decreases |xs|
  {
    if xs != [] {
      var init, last := xs[..|xs| - 1], xs[|xs| - 1];
      Snoc(xs);
      NoDupPrefix(init, [last]);
      KeepNoDup(init, n);
      var tail := if Disjoint(last) then [last.0 + last.1 + last.2] else [];
      forall m | m in Keep(init) ensures m !in tail {
        KeptEarlier(xs, n, m);
      }
      NoDupConcat(Keep(init), tail);
    }
  }

  /** A matchup kept from the first candidates differs from the last candidate's. */
  lemma KeptEarlier(xs: seq<Triple>, n: nat, m: Matchup)
    requires xs != [] && NoDup(xs)
    requires forall x :: x in xs ==> |x.0| == n && |x.1| == n
    requires m in Keep(xs[..|xs| - 1])
    ensures m != xs[|xs| - 1].0 + xs[|xs| - 1].1 + xs[|xs| - 1].2
  {
    var init, last := xs[..|xs| - 1], xs[|xs| - 1];
    KeepMember(init, m);
    var x :| x in init && Disjoint(x) && m == x.0 + x.1 + x.2;
    var i :| 0 <= i < |init| && init[i] == x;
    assert xs[i] == x && x != last;
    ConcatInjective(x, last);
  }

  /** With no repeated roster entry, no matchup is emitted twice. */
  lemma MatchupsUnique(players: seq<Player>)
    requires |players| < 0x8000 && NoDup(players)
    ensures NoDup(MatchupsOf(players))
  {
    var n := TeamCount(|players|);
    forall pos: Position ensures NoDup(RoleCombinations(players, pos, n)) {
      var e := Eligible(players, pos);
      SubseqNoDup(e, players);
      PairsNoDup(e);
      CombinationsNoDup(PairsOf(e), n);
    }
    var ts, ds, ss := RoleCombinations(players, Tank, n), RoleCombinations(players, Damage, n),
                      RoleCombinations(players, Support, n);
    TriplesNoDup(ts, ds, ss);
    forall x | x in Triples(ts, ds, ss) ensures |x.0| == n && |x.1| == n {
      TriplesMember(ts, ds, ss, x);
      RoleCombinationFacts(players, Tank, n, x.0);
      RoleCombinationFacts(players, Damage, n, x.1);
    }
    KeepNoDup(Triples(ts, ds, ss), n);
  }

  lemma {:induction false} RowLength(t: seq<Pair>, ds: seq<seq<Pair>>, ss: seq<seq<Pair>>)
    ensures |Row(t, ds, ss)| == |ds| * |ss|
    decreases |ds|
  {
    if ds != [] {
      RowLength(t, ds[..|ds| - 1], ss);
      CellMembers(t, ds[|ds| - 1], ss);
      assert (|ds| - 1) * |ss| + |ss| == |ds| * |ss|;
    }
  }

  lemma {:induction false} TriplesLength(ts: seq<seq<Pair>>, ds: seq<seq<Pair>>, ss: seq<seq<Pair>>, size: nat)
    requires size == |ds| * |ss|
    ensures |Triples(ts, ds, ss)| == |ts| * size
    decreases |ts|
  {
    if ts != [] {
      TriplesLength(ts[..|ts| - 1], ds, ss, size);
      RowLength(ts[|ts| - 1], ds, ss);
      assert (|ts| - 1) * size + size == |ts| * size;
    }
  }

  lemma {:induction false} RowAt(t: seq<Pair>, ds: seq<seq<Pair>>, ss: seq<seq<Pair>>, j: nat, k: nat)
    requires j < |ds| && k < |ss|
    ensures j * |ss| + k < |Row(t, ds, ss)| && Row(t, ds, ss)[j * |ss| + k] == (t, ds[j], ss[k])
    decreases |ds|
  {
    var init, last := ds[..|ds| - 1], ds[|ds| - 1];
    RowLength(t, init, ss);
    CellMembers(t, last, ss);
    if j < |ds| - 1 {
      RowAt(t, init, ss, j, k);
    } else {
      assert j * |ss| == |Row(t, init, ss)|;
    }
  }

  lemma FlatIndex(i: nat, j: nat, k: nat, d: nat, s: nat)
    requires j < d && k < s
    ensures 0 <= j * s + k < d * s
    ensures (i * d + j) * s + k == i * (d * s) + (j * s + k)
  {
    Distributes(j, 1, s);
    Distributes(j + 1, d - j - 1, s);
    Distributes(i * d, j, s);
    Associates(i, d, s);
  }

  lemma Associates(i: nat, d: nat, s: nat)
    ensures (i * d) * s == i * (d * s)
  {
  }

  lemma Distributes(a: nat, b: nat, s: nat)
    ensures (a + b) * s == a * s + b * s
  {
  }

  /** Tank combination i's row of candidates occupies positions
      i * size up to (i + 1) * size. */
  lemma {:induction false} TriplesBlock(ts: seq<seq<Pair>>, ds: seq<seq<Pair>>, ss: seq<seq<Pair>>, size: nat, i: nat, p: nat)
    requires size == |ds| * |ss| && i < |ts| && p < size
    ensures p < |Row(ts[i], ds, ss)| && i * size + p < |Triples(ts, ds, ss)|
    ensures Triples(ts, ds, ss)[i * size + p] == Row(ts[i], ds, ss)[p]
    decreases |ts|
  {
    var init := ts[..|ts| - 1];
    TriplesLength(init, ds, ss, size);
    RowLength(ts[i], ds, ss);
    RowLength(ts[|ts| - 1], ds, ss);
    if i < |ts| - 1 {
      TriplesBlock(init, ds, ss, size, i, p);
    }
  }

  /** The candidates are enumerated tank-major: the candidate built from
      tank combination i, damage combination j and support combination k
      sits at position (i * |ds| + j) * |ss| + k. */
  lemma TriplesAt(ts: seq<seq<Pair>>, ds: seq<seq<Pair>>, ss: seq<seq<Pair>>, i: nat, j: nat, k: nat)
    requires i < |ts| && j < |ds| && k < |ss|
    ensures (i * |ds| + j) * |ss| + k < |Triples(ts, ds, ss)|
    ensures Triples(ts, ds, ss)[(i * |ds| + j) * |ss| + k] == (ts[i], ds[j], ss[k])
  {
    var size, p := |ds| * |ss|, j * |ss| + k;
    FlatIndex(i, j, k, |ds|, |ss|);
    assert (i * |ds| + j) * |ss| + k == i * size + p;
    RowAt(ts[i], ds, ss, j, k);
    TriplesBlock(ts, ds, ss, size, i, p);
  }

  /** With fewer than six players N is 0, and the one (empty) combination
      of each role yields a single empty matchup. */
  lemma FewerThanSixPlayers(players: seq<Player>)
    requires |players| < 6
    ensures MatchupsOf(players) == [[]]
  {
    var none: seq<seq<Pair>> := [[]];
    assert TeamCount(|players|) == 0;
    forall pos: Position ensures RoleCombinations(players, pos, 0) == none {
    }
    var empty: Triple := ([], [], []);
    assert none[..0] == [];
    assert Cell([], [], none) == [empty];
    assert Row([], none, none) == [empty];
    assert Triples(none, none, none) == [empty];
    assert ComboNames([]) == [];
    assert Disjoint(empty);
    assert [empty][..0] == [];
    assert empty.0 + empty.1 + empty.2 == [];
    assert Keep([empty]) == [[]];
  }

  lemma {:induction false} ComboNamesMember(c: seq<Pair>, name: string)
    requires name in ComboNames(c)
    ensures exists q :: q in c && (name == q.0.name || name == q.1.name)
    decreases |c|
  {
    var init, last := c[..|c| - 1], c[|c| - 1];
    assert last in c;
    if name in ComboNames(init) {
      ComboNamesMember(init, name);
      var q :| q in init && (name == q.0.name || name == q.1.name);
      assert q in c;
    }
  }

  /** N pairs drawn from fewer than 2N players of a role repeat a name. */
  lemma RoleShortClash(players: seq<Player>, pos: Position, n: nat, c: seq<Pair>)
    requires c in RoleCombinations(players, pos, n)
    requires |Eligible(players, pos)| < 2 * n
    ensures !NoDup(ComboNames(c))
  {
    var e := Eligible(players, pos);
    RoleCombinationFacts(players, pos, n, c);
    var pool := NamesOf(e);
    forall name | name in ComboNames(c) ensures name in pool {
      ComboNamesMember(c, name);
      var q :| q in c && (name == q.0.name || name == q.1.name);
      var p := if name == q.0.name then q.0 else q.1;
      var i :| 0 <= i < |e| && e[i] == p;
      assert pool[i] == name;
    }
    DistinctBound(ComboNames(c), pool);
  }

  lemma TripleClash(players: seq<Player>, pos: Position, n: nat, x: Triple)
    requires x.0 in RoleCombinations(players, Tank, n)
    requires x.1 in RoleCombinations(players, Damage, n)
    requires x.2 in RoleCombinations(players, Support, n)
    requires |Eligible(players, pos)| < 2 * n
    ensures !Disjoint(x)
  {
    var a, b, c := ComboNames(x.0), ComboNames(x.1), ComboNames(x.2);
    match pos {
      case Tank =>
        RoleShortClash(players, pos, n, x.0);
        DuplicateKept(a, b + c);
        AppendAssoc(a, b, c);
      case Damage =>
        RoleShortClash(players, pos, n, x.1);
        DuplicateInside(a, b, c);
      case Support =>
        RoleShortClash(players, pos, n, x.2);
        DuplicateInside(a + b, c, []);
        AppendEmpty(a + b + c);
    }
  }

  /** When some role has fewer than 2N eligible players, nothing is emitted. */
  lemma MatchupsEmptyIfRoleShort(players: seq<Player>, pos: Position)
    requires |players| < 0x8000
    requires |Eligible(players, pos)| < 2 * TeamCount(|players|)
    ensures MatchupsOf(players) == []
  {
    var n := TeamCount(|players|);
    var ts, ds, ss := RoleCombinations(players, Tank, n), RoleCombinations(players, Damage, n),
                      RoleCombinations(players, Support, n);
    var xs := Triples(ts, ds, ss);
    forall i | 0 <= i < |xs| ensures !Disjoint(xs[i]) {
      assert xs[i] in xs;
      TriplesMember(ts, ds, ss, xs[i]);
      TripleClash(players, pos, n, xs[i]);
    }
    KeepNone(xs);
  }

  lemma KeepAt(xs: seq<Triple>, p: nat)
    requires p < |xs| && Disjoint(xs[p])
    ensures |Keep(xs[..p])| < |Keep(xs)|
    ensures Keep(xs)[|Keep(xs[..p])|] == xs[p].0 + xs[p].1 + xs[p].2
  {
    assert xs == xs[..p] + [xs[p]] + xs[p + 1..];
    KeepAppend(xs[..p] + [xs[p]], xs[p + 1..]);
    KeepSnoc(xs[..p], xs[p]);
  }

  /** Kept candidates are emitted in candidate order: the kept candidate
      at position p comes out before the kept candidate at position q > p. */
  lemma KeepOrder(xs: seq<Triple>, p: nat, q: nat)
    requires p < q < |xs| && Disjoint(xs[p]) && Disjoint(xs[q])
    ensures |Keep(xs[..p])| < |Keep(xs[..q])| < |Keep(xs)|
    ensures Keep(xs)[|Keep(xs[..p])|] == xs[p].0 + xs[p].1 + xs[p].2
    ensures Keep(xs)[|Keep(xs[..q])|] == xs[q].0 + xs[q].1 + xs[q].2
  {
    KeepAt(xs, p);
    KeepAt(xs, q);
    assert xs[..q][..p] == xs[..p];
    KeepAt(xs[..q], p);
  }

  // ------------------------------------------------------ create_scrims

  /** The first team's name, pushed before the counted loop. */
  const FirstTeamName := "Naughty Tomatoes"

  /** `format!("Team {}", k)`. */
  function TeamName(k: nat): string
  {
    "Team " + NatToString(k)
  }

  lemma TeamNamesDiffer(a: nat, b: nat)
    ensures TeamName(a) != FirstTeamName
    ensures a != b ==> TeamName(a) != TeamName(b)
  {
    assert TeamName(a)[0] == 'T';
    if TeamName(a) == TeamName(b) {
      assert NatToString(a) == TeamName(a)[5..] == TeamName(b)[5..] == NatToString(b);
      NatToStringInjective(a, b);
    }
  }

  /** A count cast `as i16`: its low 16 bits read in two's complement. */
  function AsI16(x: nat): (r: int)
    ensures IsI16(r) && (r - x) % 0x1_0000 == 0
    ensures x < 0x8000 ==> r == x
  {
    var low := x % 0x1_0000;
    if low < 0x8000 then low else low - 0x1_0000
  }

  /** The team names of `create_scrims` for `numberOfTeams` teams: the
      first team's name, one "Team k" per further team (k = 2 .. n, pushed
      in a counted loop), then the vector reversed in place. */
  method TeamNames(numberOfTeams: int) returns (names: seq<string>)
    ensures |names| == if numberOfTeams > 1 then numberOfTeams else 1
    ensures names[|names| - 1] == FirstTeamName
    ensures forall i :: 0 <= i < |names| - 1 ==> names[i] == TeamName(|names| - i)
    ensures NoDup(names)
  {
    names := [FirstTeamName];
    var round := 1;
    while round < numberOfTeams
      invariant |names| == round >= 1
      invariant if numberOfTeams > 1 then round <= numberOfTeams else round == 1
      invariant names[0] == FirstTeamName
      invariant forall i :: 1 <= i < |names| ==> names[i] == TeamName(i + 1)
    {
      names := names + [TeamName(|names| + 1)];
      round := round + 1;
    }
    names := Reverse(names);
    forall i, j | 0 <= i < j < |names| ensures names[i] != names[j] {
      TeamNamesDiffer(|names| - i, |names| - j);
    }
  }

  /** `Vec::reverse`: swaps from both ends toward the middle. */
  method Reverse<T>(s: seq<T>) returns (r: seq<T>)
    ensures |r| == |s| && forall i :: 0 <= i < |s| ==> r[i] == s[|s| - 1 - i]
  {
    r := s;
    var lo := 0;
    while lo < |r| / 2
      invariant 0 <= lo <= |r| / 2 && |r| == |s|
      invariant forall i :: 0 <= i < lo ==> r[i] == s[|s| - 1 - i]
      invariant forall i :: |s| - lo <= i < |s| ==> r[i] == s[|s| - 1 - i]
      invariant forall i :: lo <= i < |s| - lo ==> r[i] == s[i]
    {
      var hi := |r| - 1 - lo;
      var low, high := r[lo], r[hi];
      r := r[lo := high][hi := low];
      lo := lo + 1;
    }
  }

  /** `create_scrims`: the team count is the first matchup's length over
      three, cast to `i16`; the names are built and the empty vector is
      returned. `matchups[0]` panics on an empty list, hence the requirement. */
  method CreateScrims(matchups: seq<Matchup>) returns (scrims: seq<Matchup>, teamNames: seq<string>)
    requires |matchups| > 0
    ensures scrims == []
    ensures var n := AsI16(|matchups[0]| / 3);
      |teamNames| == (if n > 1 then n else 1)
      && teamNames[|teamNames| - 1] == FirstTeamName
      && forall i :: 0 <= i < |teamNames| - 1 ==> teamNames[i] == TeamName(|teamNames| - i)
  {
    scrims := [];
    var numberOfTeams := AsI16(|matchups[0]| / 3);
    teamNames := TeamNames(numberOfTeams);
  }

  /** For a list produced from a roster, the scrim names number the teams
      of a matchup: one per team, with the first team last. */
  lemma ScrimTeamCount(players: seq<Player>)
    requires |players| < 0x8000
    requires MatchupsOf(players) != []
    ensures AsI16(|MatchupsOf(players)[0]| / 3) == TeamCount(|players|)
  {
    MatchupsSound(players, MatchupsOf(players)[0]);
  }
}
