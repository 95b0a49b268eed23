/** The five-player team of src/team_ow2.rs: one tank, two damage players and two supports. */
module Ow2Teams {
  import opened Wrappers
  import opened Strings
  import opened Stats
  import opened Players
  import opened NameIds

  datatype Ow2Team = Ow2Team(
    name: string,
    tank: Option<Player>,
    damage1: Option<Player>,
    damage2: Option<Player>,
    support1: Option<Player>,
    support2: Option<Player>)

  predicate Complete(t: Ow2Team)
  {
    t.tank.Some? && t.damage1.Some? && t.damage2.Some? && t.support1.Some? && t.support2.Some?
  }

  /** `OW2Team::new`. */
  function NewOw2Team(name: string, tank: Player, damage1: Player, damage2: Player,
                      support1: Player, support2: Player): (t: Ow2Team)
    ensures Complete(t) && t.name == name
    ensures AllPlayers(t) == [tank, damage1, damage2, support1, support2]
  {
    Ow2Team(name, Some(tank), Some(damage1), Some(damage2), Some(support1), Some(support2))
  }

  function SlotRole(i: nat): Position
    requires i < 5
  {
    if i < 1 then Tank else if i < 3 then Damage else Support
  }

  /** `_get_all_players`: the five players in slot order. */
  function AllPlayers(t: Ow2Team): (ps: seq<Player>)
    requires Complete(t)
    ensures |ps| == 5
  {
    [t.tank.value, t.damage1.value, t.damage2.value, t.support1.value, t.support2.value]
  }

  /** `get_all_player_srs`: each slot's player rated for that slot's role, in slot order. */
  function AllPlayerSrs(t: Ow2Team): (srs: seq<int>)
    requires Complete(t)
    ensures |srs| == 5
    ensures forall i :: 0 <= i < 5 ==> srs[i] == GetSr(AllPlayers(t)[i], SlotRole(i))
  {
    [GetSr(t.tank.value, Tank), GetSr(t.damage1.value, Damage), GetSr(t.damage2.value, Damage),
     GetSr(t.support1.value, Support), GetSr(t.support2.value, Support)]
  }

  // ------------------------------------------------------------ role duos

  function RatingIfPresent(slot: Option<Player>, pos: Position): seq<int>
  {
    if slot.Some? then [GetSr(slot.value, pos) as int] else []
  }

  /** The ratings `get_average_sr_of_role_duo` adds up: the filled slots of
      that role (`if let Some`), in slot order. */
  function DuoSrs(t: Ow2Team, pos: Position): (xs: seq<int>)
    ensures |xs| <= 2 && forall i :: 0 <= i < |xs| ==> IsI16(xs[i])
  {
    match pos
    case Tank => RatingIfPresent(t.tank, Tank)
    case Damage => RatingIfPresent(t.damage1, Damage) + RatingIfPresent(t.damage2, Damage)
    case Support => RatingIfPresent(t.support1, Support) + RatingIfPresent(t.support2, Support)
  }

  /** `get_average_sr_of_role_duo`: the `i16` total of the role's ratings,
      as is for the tank and halved for the damage and support duos. */
  function AverageSrOfRoleDuo(t: Ow2Team, pos: Position): (avg: real)
    requires PrefixSumsFit(DuoSrs(t, pos))
    ensures pos == Tank && |DuoSrs(t, pos)| == 1 ==> avg == DuoSrs(t, pos)[0] as real
    ensures pos != Tank && |DuoSrs(t, pos)| == 2 ==>
              Min(DuoSrs(t, pos)) as real <= avg <= Max(DuoSrs(t, pos)) as real
  {
    SumOfFew(DuoSrs(t, pos));
    var total := Sum(DuoSrs(t, pos)) as real;
    if pos == Tank then total else total / 2.0
  }

  /** The value `get_standard_deviation_of_role_duo` takes the square root of:
      the squared distances of the role's ratings from the role average. */
  function DuoSquaredDeviation(t: Ow2Team, pos: Position): (r: real)
    requires PrefixSumsFit(DuoSrs(t, pos))
    ensures r >= 0.0
    ensures pos != Tank && |DuoSrs(t, pos)| == 2 ==> (r == 0.0 <==> DuoSrs(t, pos)[0] == DuoSrs(t, pos)[1])
  {
    var xs := DuoSrs(t, pos);
    var avg := AverageSrOfRoleDuo(t, pos);
    if pos != Tank && |xs| == 2 then
      SumOfFew(xs);
      SpreadOfTwo(xs, avg);
      SquaresAround(xs, avg)
    else
      SquaresAround(xs, avg)
  }

  /** Two ratings spread around their mean exactly when they differ. */
  lemma SpreadOfTwo(xs: seq<int>, avg: real)
    requires |xs| == 2 && avg == (xs[0] + xs[1]) as real / 2.0
    ensures SquaresAround(xs, avg) == 0.0 <==> xs[0] == xs[1]
  {
    ClosedFormOfTwo(xs, avg);
    Square(xs[0] - xs[1]);
  }

  function SquaresAround(xs: seq<int>, avg: real): (r: real)
    ensures r >= 0.0
  {
    if xs == [] then 0.0
    else SquaresAround(xs[..|xs| - 1], avg) + (xs[|xs| - 1] as real - avg) * (xs[|xs| - 1] as real - avg)
  }

  /** For a full team the tank "average" is the tank's rating, and a duo's
      average is exactly half its two ratings' sum, between the two ratings. */
  lemma DuoAverage(t: Ow2Team, pos: Position)
    requires Complete(t)
    requires PrefixSumsFit(DuoSrs(t, pos))
    ensures pos == Tank ==> AverageSrOfRoleDuo(t, pos) == GetSr(t.tank.value, Tank) as real
    ensures pos == Damage ==> AverageSrOfRoleDuo(t, pos) * 2.0
                              == (GetSr(t.damage1.value, Damage) + GetSr(t.damage2.value, Damage)) as real
    ensures pos == Support ==> AverageSrOfRoleDuo(t, pos) * 2.0
                               == (GetSr(t.support1.value, Support) + GetSr(t.support2.value, Support)) as real
    ensures pos != Tank ==> Min(DuoSrs(t, pos)) as real <= AverageSrOfRoleDuo(t, pos) <= Max(DuoSrs(t, pos)) as real
  {
    SumOfFew(DuoSrs(t, pos));
  }

  function Min(xs: seq<int>): int
    requires |xs| == 2
  {
    if xs[0] <= xs[1] then xs[0] else xs[1]
  }

  function Max(xs: seq<int>): int
    requires |xs| == 2
  {
    if xs[0] <= xs[1] then xs[1] else xs[0]
  }

  /** The single tank rating is measured against itself: the tank spread is
      always zero, filled slot or not. */
  lemma TankDeviationZero(t: Ow2Team)
    requires PrefixSumsFit(DuoSrs(t, Tank))
    ensures DuoSquaredDeviation(t, Tank) == 0.0
  {
    var xs := DuoSrs(t, Tank);
    SumOfFew(xs);
    SquaresAroundOfFew(xs, AverageSrOfRoleDuo(t, Tank));
  }

  lemma SquaresAroundOfFew(xs: seq<int>, m: real)
    ensures |xs| == 0 ==> SquaresAround(xs, m) == 0.0
    ensures |xs| == 1 ==> SquaresAround(xs, m) == (xs[0] as real - m) * (xs[0] as real - m)
    ensures |xs| == 2 ==> SquaresAround(xs, m) == (xs[0] as real - m) * (xs[0] as real - m) + (xs[1] as real - m) * (xs[1] as real - m)
  {
    if |xs| == 2 {
      assert xs[..1] == [xs[0]] && xs[..1][..0] == [];
    }
    if |xs| == 1 {
      assert xs[..0] == [];
    }
  }

  /** For a full team a duo's squared deviation is half the squared
      difference of its two ratings. */
  lemma DuoDeviationClosedForm(t: Ow2Team, pos: Position)
    requires Complete(t) && pos != Tank
    requires PrefixSumsFit(DuoSrs(t, pos))
    ensures var xs := DuoSrs(t, pos);
            DuoSquaredDeviation(t, pos) == ((xs[0] - xs[1]) * (xs[0] - xs[1])) as real / 2.0
  {
    var xs := DuoSrs(t, pos);
    assert |xs| == 2;
    SumOfFew(xs);
    var m := AverageSrOfRoleDuo(t, pos);
    assert DuoSquaredDeviation(t, pos) == SquaresAround(xs, m);
    ClosedFormOfTwo(xs, m);
  }

  lemma ClosedFormOfTwo(xs: seq<int>, m: real)
    requires |xs| == 2 && m == (xs[0] + xs[1]) as real / 2.0
    ensures SquaresAround(xs, m) == ((xs[0] - xs[1]) * (xs[0] - xs[1])) as real / 2.0
  {
    SquaresAroundOfFew(xs, m);
    TwoSpread(xs[0], xs[1], m);
  }

  /** Two values measured against their mean spread by half their squared difference. */
  lemma TwoSpread(x: int, y: int, m: real)
    requires m == (x + y) as real / 2.0
    ensures (x as real - m) * (x as real - m) + (y as real - m) * (y as real - m) == ((x - y) * (x - y)) as real / 2.0
  {
    HalfSquares(x as real, y as real);
    CastSquare(x - y);
  }

  lemma CastSquare(d: int)
    ensures (d * d) as real == d as real * d as real
  {
  }

  lemma HalfSquares(a: real, b: real)
    ensures var m := (a + b) / 2.0; (a - m) * (a - m) + (b - m) * (b - m) == (a - b) * (a - b) / 2.0
  {
    var m := (a + b) / 2.0;
    assert a - m == (a - b) / 2.0 && b - m == -((a - b) / 2.0);
  }

  function SwapDamage(t: Ow2Team): Ow2Team
  {
    t.(damage1 := t.damage2, damage2 := t.damage1)
  }

  function SwapSupport(t: Ow2Team): Ow2Team
  {
    t.(support1 := t.support2, support2 := t.support1)
  }

  /** Trading the two damage players (or the two supports) changes neither that
      duo's average nor its squared deviation, filled slots or not. */
  lemma DuoSwap(t: Ow2Team, pos: Position)
    requires pos != Tank
    requires PrefixSumsFit(DuoSrs(t, pos))
    ensures var u := if pos == Damage then SwapDamage(t) else SwapSupport(t);
            && PrefixSumsFit(DuoSrs(u, pos))
            && AverageSrOfRoleDuo(u, pos) == AverageSrOfRoleDuo(t, pos)
            && DuoSquaredDeviation(u, pos) == DuoSquaredDeviation(t, pos)
  {
    var u := if pos == Damage then SwapDamage(t) else SwapSupport(t);
    var xs, ys := DuoSrs(t, pos), DuoSrs(u, pos);
    SwappedDuoSrs(t, pos);
    if |xs| == 2 {
      SwapTwo(xs, ys, AverageSrOfRoleDuo(t, pos));
    }
    SameDuoSums(t, u, pos);
  }

  /** Duos whose ratings have the same sum and spread have the same average and deviation. */
  lemma SameDuoSums(t: Ow2Team, u: Ow2Team, pos: Position)
    requires PrefixSumsFit(DuoSrs(t, pos)) && PrefixSumsFit(DuoSrs(u, pos))
    requires Sum(DuoSrs(u, pos)) == Sum(DuoSrs(t, pos))
    requires SquaresAround(DuoSrs(u, pos), AverageSrOfRoleDuo(t, pos))
          == SquaresAround(DuoSrs(t, pos), AverageSrOfRoleDuo(t, pos))
    ensures AverageSrOfRoleDuo(u, pos) == AverageSrOfRoleDuo(t, pos)
    ensures DuoSquaredDeviation(u, pos) == DuoSquaredDeviation(t, pos)
  {
  }

  /** Swapping a duo's slots reverses its list of filled ratings. */
  lemma SwappedDuoSrs(t: Ow2Team, pos: Position)
    requires pos != Tank
    ensures var xs, ys := DuoSrs(t, pos), DuoSrs(if pos == Damage then SwapDamage(t) else SwapSupport(t), pos);
            (|xs| == 2 ==> ys == [xs[1], xs[0]]) && (|xs| < 2 ==> ys == xs)
  {
  }

  /** Two ratings in either order have the same sum, running totals in range and spread. */
  lemma SwapTwo(xs: seq<int>, ys: seq<int>, m: real)
    requires |xs| == 2 && ys == [xs[1], xs[0]]
    requires PrefixSumsFit(xs) && IsI16(xs[1])
    ensures PrefixSumsFit(ys) && Sum(ys) == Sum(xs)
    ensures SquaresAround(ys, m) == SquaresAround(xs, m)
  {
    PrefixSumsOfTwo(xs);
    PrefixSumsOfTwo(ys);
    SquaresAroundSwap(xs, ys, m);
  }

  lemma SquaresAroundSwap(xs: seq<int>, ys: seq<int>, m: real)
    requires |xs| == 2 && ys == [xs[1], xs[0]]
    ensures SquaresAround(ys, m) == SquaresAround(xs, m)
  {
    SquaresAroundOfFew(xs, m);
    SquaresAroundOfFew(ys, m);
    var a, b := (xs[0] as real - m) * (xs[0] as real - m), (xs[1] as real - m) * (xs[1] as real - m);
    assert SquaresAround(ys, m) == b + a;
  }

  lemma PrefixSumsOfTwo(xs: seq<int>)
    requires |xs| == 2
    ensures Sum(xs) == xs[0] + xs[1]
    ensures PrefixSumsFit(xs) <==> IsI16(xs[0]) && IsI16(xs[0] + xs[1])
  {
    SumOfFew(xs);
    assert xs[..0] == [] && xs[..2] == xs;
    SumOfFew(xs[..1]);
  }

  // ------------------------------------------------------------ whole team

  /** `get_average_sr`, with the `f32` quotient taken exactly. */
  function AverageSr(t: Ow2Team): (avg: real)
    requires Complete(t) && PrefixSumsFit(AllPlayerSrs(t))
    ensures avg * 5.0 == Sum(AllPlayerSrs(t)) as real
  {
    Sum(AllPlayerSrs(t)) as real / 5.0
  }

  function DeviationSquared(t: Ow2Team): int
    requires Complete(t)
  {
    SquaredDeviations(AllPlayerSrs(t), TruncDiv(Sum(AllPlayerSrs(t)), 5))
  }

  /** `get_standard_deviation` before its final `sqrt`. */
  method StandardDeviationSquared(t: Ow2Team) returns (deviation: int)
    requires Complete(t) && PrefixSumsFit(AllPlayerSrs(t))
    requires DeviationSquared(t) < 0x8000_0000
    ensures deviation == SquaredDeviations(AllPlayerSrs(t), TruncDiv(Sum(AllPlayerSrs(t)), 5))
  {
    var srs := AllPlayerSrs(t);
    var averageSr := TruncReal(AverageSr(t));
    TruncOfQuotient(Sum(srs), 5);
    assert averageSr == TruncDiv(Sum(srs), 5);
    deviation := SumSquaredDeviations(srs, averageSr);
  }

  /** The spread is never negative, and it is zero exactly when all five ratings are equal. */
  lemma DeviationZeroIffEqual(t: Ow2Team)
    requires Complete(t)
    ensures DeviationSquared(t) >= 0
    ensures DeviationSquared(t) == 0 <==> AllEqualTo(AllPlayerSrs(t), AllPlayerSrs(t)[0])
  {
    SquaredDeviationsZero(AllPlayerSrs(t), TruncDiv(Sum(AllPlayerSrs(t)), 5));
    ZeroSpreadIffEqual(AllPlayerSrs(t));
  }

  // ---------------------------------------------------------------- _get_id

  /** The id: the tank's name, then each duo's names sorted, every name followed by ",". */
  function TeamId(t: Ow2Team): string
    requires Complete(t)
  {
    t.tank.value.name + "," + DuoId(t.damage1.value, t.damage2.value) + DuoId(t.support1.value, t.support2.value)
  }

  /** `_get_id`. */
  method GetId(t: Ow2Team) returns (s: string)
    requires Complete(t)
    ensures s == TeamId(t)
  {
    var tank, damage1, damage2, support1, support2 :=
      t.tank.value, t.damage1.value, t.damage2.value, t.support1.value, t.support2.value;
    s := "";
    s := s + tank.name;
    s := s + ",";
    assert s == tank.name + ",";
    var damage := SortedDuo(damage1, damage2);
    s := AppendNames(s, damage);
    var support := SortedDuo(support1, support2);
    s := AppendNames(s, support);
  }

  /** The id does not change when the two damage players or the two supports trade slots. */
  lemma TeamIdSwap(t: Ow2Team)
    requires Complete(t)
    ensures TeamId(SwapDamage(t)) == TeamId(t)
    ensures TeamId(SwapSupport(t)) == TeamId(t)
  {
    DuoListingSwap(t.damage1.value, t.damage2.value);
    DuoListingSwap(t.support1.value, t.support2.value);
  }

  predicate NamesCommaFree(t: Ow2Team)
    requires Complete(t)
  {
    && CommaFree(t.tank.value.name)
    && CommaFree(t.damage1.value.name) && CommaFree(t.damage2.value.name)
    && CommaFree(t.support1.value.name) && CommaFree(t.support2.value.name)
  }

  function SortedNames(t: Ow2Team): seq<string>
    requires Complete(t)
  {
    [t.tank.value.name]
      + NamesOf(ByName(t.damage1.value, t.damage2.value))
      + NamesOf(ByName(t.support1.value, t.support2.value))
  }

  lemma TeamIdListsSortedNames(t: Ow2Team)
    requires Complete(t)
    ensures TeamId(t) == Listed(SortedNames(t))
  {
    var a, b, c := [t.tank.value.name], NamesOf(ByName(t.damage1.value, t.damage2.value)), NamesOf(ByName(t.support1.value, t.support2.value));
    assert Listed(a) == t.tank.value.name + ",";
    ListedAppend(a, b);
    ListedAppend(a + b, c);
  }

  lemma SortedNamesRoles(t: Ow2Team)
    requires Complete(t)
    ensures |SortedNames(t)| == 5 && SortedNames(t)[0] == t.tank.value.name
    ensures multiset(SortedNames(t)[1..3]) == multiset{t.damage1.value.name, t.damage2.value.name}
    ensures multiset(SortedNames(t)[3..]) == multiset{t.support1.value.name, t.support2.value.name}
  {
    var a, b, c := [t.tank.value.name], NamesOf(ByName(t.damage1.value, t.damage2.value)), NamesOf(ByName(t.support1.value, t.support2.value));
    OneTwoTwo(a, b, c);
    ByNameNames(t.damage1.value, t.damage2.value);
    ByNameNames(t.support1.value, t.support2.value);
  }

  lemma SortedNamesCommaFree(t: Ow2Team)
    requires Complete(t) && NamesCommaFree(t)
    ensures |SortedNames(t)| == 5
    ensures forall i :: 0 <= i < 5 ==> CommaFree(SortedNames(t)[i])
  {
    DuoCommaFree(t.damage1.value, t.damage2.value);
    DuoCommaFree(t.support1.value, t.support2.value);
  }

  lemma OneTwoTwo(a: seq<string>, b: seq<string>, c: seq<string>)
    requires |a| == 1 && |b| == |c| == 2
    ensures (a + b + c)[0] == a[0] && (a + b + c)[1..3] == b && (a + b + c)[3..] == c
  {
  }

  /** For names without commas, two full teams have the same id exactly when
      they have the same tank name and the same damage and support names. */
  lemma TeamIdIff(t: Ow2Team, u: Ow2Team)
    requires Complete(t) && Complete(u) && NamesCommaFree(t) && NamesCommaFree(u)
    ensures TeamId(t) == TeamId(u) <==>
      && t.tank.value.name == u.tank.value.name
      && multiset{t.damage1.value.name, t.damage2.value.name} == multiset{u.damage1.value.name, u.damage2.value.name}
      && multiset{t.support1.value.name, t.support2.value.name} == multiset{u.support1.value.name, u.support2.value.name}
  {
    SortedNamesRoles(t);
    SortedNamesRoles(u);
    SortedNamesCommaFree(t);
    SortedNamesCommaFree(u);
    TeamIdListsSortedNames(t);
    TeamIdListsSortedNames(u);
    if TeamId(t) == TeamId(u) {
      ListedInjective(SortedNames(t), SortedNames(u));
    }
    if && t.tank.value.name == u.tank.value.name
       && multiset{t.damage1.value.name, t.damage2.value.name} == multiset{u.damage1.value.name, u.damage2.value.name}
       && multiset{t.support1.value.name, t.support2.value.name} == multiset{u.support1.value.name, u.support2.value.name}
    {
      DuoListingSameNames(t.damage1.value, t.damage2.value, u.damage1.value, u.damage2.value);
      DuoListingSameNames(t.support1.value, t.support2.value, u.support1.value, u.support2.value);
    }
  }
}
