/** The six-player team of src/team.rs: two tanks, two damage players and two supports. */
module Teams {
  import opened Wrappers
  import opened Stats
  import opened Players
  import opened NameIds

  datatype Team = Team(
    name: string,
    tank1: Option<Player>,
    tank2: Option<Player>,
    damage1: Option<Player>,
    damage2: Option<Player>,
    support1: Option<Player>,
    support2: Option<Player>)

  /** Every slot is filled, so every `unwrap` of a slot succeeds. */
  predicate Complete(t: Team)
  {
    t.tank1.Some? && t.tank2.Some? && t.damage1.Some? && t.damage2.Some? && t.support1.Some? && t.support2.Some?
  }

  /** `Team::new`. */
  function NewTeam(name: string, tank1: Player, tank2: Player, damage1: Player, damage2: Player,
                   support1: Player, support2: Player): (t: Team)
    ensures Complete(t) && t.name == name
    ensures AllPlayers(t) == Ok([tank1, tank2, damage1, damage2, support1, support2])
  {
    Team(name, Some(tank1), Some(tank2), Some(damage1), Some(damage2), Some(support1), Some(support2))
  }

  /** The role a slot is filled for, in slot order. */
  function SlotRole(i: nat): Position
    requires i < 6
  {
    if i < 2 then Tank else if i < 4 then Damage else Support
  }

  /** `get_all_players`: the six players in slot order. */
  function AllPlayers(t: Team): (r: Result<seq<Player>>)
    requires Complete(t)
    ensures r.Ok? && |r.value| == 6
  {
    Ok([t.tank1.value, t.tank2.value, t.damage1.value, t.damage2.value, t.support1.value, t.support2.value])
  }

  /** `get_all_player_srs`: each slot's player rated for that slot's role, in slot order. */
  function AllPlayerSrs(t: Team): (r: Result<seq<int>>)
    requires Complete(t)
    ensures r.Ok? && |r.value| == 6
    ensures forall i :: 0 <= i < 6 ==> r.value[i] == GetSr(AllPlayers(t).value[i], SlotRole(i))
  {
    Ok([GetSr(t.tank1.value, Tank), GetSr(t.tank2.value, Tank),
        GetSr(t.damage1.value, Damage), GetSr(t.damage2.value, Damage),
        GetSr(t.support1.value, Support), GetSr(t.support2.value, Support)])
  }

  function Srs(t: Team): seq<int>
    requires Complete(t)
  {
    AllPlayerSrs(t).value
  }

  /** `get_average_sr`, with the `f32` quotient taken exactly. */
  function AverageSr(t: Team): (r: Result<real>)
    requires Complete(t) && PrefixSumsFit(Srs(t))
    ensures r.Ok? && r.value * 6.0 == Sum(Srs(t)) as real
  {
    Ok(Sum(Srs(t)) as real / 6.0)
  }

  /** The value `get_standard_deviation` takes the square root of. */
  function DeviationSquared(t: Team): int
    requires Complete(t)
  {
    SquaredDeviations(Srs(t), TruncDiv(Sum(Srs(t)), 6))
  }

  /** `get_standard_deviation` before its final `sqrt`: the average is cut to an
      integer with `as i32` and the squared differences are accumulated. */
  method StandardDeviationSquared(t: Team) returns (r: Result<int>)
    requires Complete(t) && PrefixSumsFit(Srs(t))
    requires DeviationSquared(t) < 0x8000_0000
    ensures r.Ok? && r.value == SquaredDeviations(Srs(t), TruncDiv(Sum(Srs(t)), 6))
  {
    ghost var xs := Srs(t);
    var average := AverageSr(t);
    var averageSr := TruncReal(average.value);
    TruncOfQuotient(Sum(xs), 6);
    assert averageSr == TruncDiv(Sum(xs), 6);
    var srs := AllPlayerSrs(t);
    var deviation := SumSquaredDeviations(srs.value, averageSr);
    r := Ok(deviation);
  }

  /** The spread is never negative, and it is zero exactly when all six
      ratings are equal. */
  lemma DeviationZeroIffEqual(t: Team)
    requires Complete(t)
    ensures DeviationSquared(t) >= 0
    ensures DeviationSquared(t) == 0 <==> AllEqualTo(Srs(t), Srs(t)[0])
  {
    SquaredDeviationsZero(Srs(t), TruncDiv(Sum(Srs(t)), 6));
    ZeroSpreadIffEqual(Srs(t));
  }

  // ----------------------------------------------------------------- get_ID

  /** The id: each role's two names sorted, every name followed by ",". */
  function TeamId(t: Team): string
    requires Complete(t)
  {
    DuoId(t.tank1.value, t.tank2.value) + DuoId(t.damage1.value, t.damage2.value) + DuoId(t.support1.value, t.support2.value)
  }

  /** `get_ID`. */
  method GetId(t: Team) returns (r: Result<string>)
    requires Complete(t)
    ensures r == Ok(TeamId(t))
  {
    var s := "";
    var tanks := SortedDuo(t.tank1.value, t.tank2.value);
    s := AppendNames(s, tanks);
    assert s == DuoId(t.tank1.value, t.tank2.value);
    var damage := SortedDuo(t.damage1.value, t.damage2.value);
    s := AppendNames(s, damage);
    assert s == DuoId(t.tank1.value, t.tank2.value) + DuoId(t.damage1.value, t.damage2.value);
    var support := SortedDuo(t.support1.value, t.support2.value);
    s := AppendNames(s, support);
    r := Ok(s);
  }

  /** The id does not change when the two players of a role trade slots. */
  lemma TeamIdSwap(t: Team)
    requires Complete(t)
    ensures TeamId(t.(tank1 := t.tank2, tank2 := t.tank1)) == TeamId(t)
    ensures TeamId(t.(damage1 := t.damage2, damage2 := t.damage1)) == TeamId(t)
    ensures TeamId(t.(support1 := t.support2, support2 := t.support1)) == TeamId(t)
  {
    DuoListingSwap(t.tank1.value, t.tank2.value);
    DuoListingSwap(t.damage1.value, t.damage2.value);
    DuoListingSwap(t.support1.value, t.support2.value);
  }

  predicate NamesCommaFree(t: Team)
    requires Complete(t)
  {
    && CommaFree(t.tank1.value.name) && CommaFree(t.tank2.value.name)
    && CommaFree(t.damage1.value.name) && CommaFree(t.damage2.value.name)
    && CommaFree(t.support1.value.name) && CommaFree(t.support2.value.name)
  }

  /** The six names of the id, in id order. */
  function SortedNames(t: Team): seq<string>
    requires Complete(t)
  {
    NamesOf(ByName(t.tank1.value, t.tank2.value))
      + NamesOf(ByName(t.damage1.value, t.damage2.value))
      + NamesOf(ByName(t.support1.value, t.support2.value))
  }

  lemma TeamIdListsSortedNames(t: Team)
    requires Complete(t)
    ensures TeamId(t) == Listed(SortedNames(t))
  {
    var a, b, c := NamesOf(ByName(t.tank1.value, t.tank2.value)), NamesOf(ByName(t.damage1.value, t.damage2.value)), NamesOf(ByName(t.support1.value, t.support2.value));
    ListedAppend(a, b);
    ListedAppend(a + b, c);
  }

  lemma SortedNamesCommaFree(t: Team)
    requires Complete(t) && NamesCommaFree(t)
    ensures |SortedNames(t)| == 6
    ensures forall i :: 0 <= i < 6 ==> CommaFree(SortedNames(t)[i])
  {
    DuoCommaFree(t.tank1.value, t.tank2.value);
    DuoCommaFree(t.damage1.value, t.damage2.value);
    DuoCommaFree(t.support1.value, t.support2.value);
  }

  lemma SortedNamesRoles(t: Team)
    requires Complete(t)
    ensures multiset(SortedNames(t)[..2]) == multiset{t.tank1.value.name, t.tank2.value.name}
    ensures multiset(SortedNames(t)[2..4]) == multiset{t.damage1.value.name, t.damage2.value.name}
    ensures multiset(SortedNames(t)[4..]) == multiset{t.support1.value.name, t.support2.value.name}
  {
    var a, b, c := NamesOf(ByName(t.tank1.value, t.tank2.value)), NamesOf(ByName(t.damage1.value, t.damage2.value)), NamesOf(ByName(t.support1.value, t.support2.value));
    ThreeDuos(a, b, c);
    ByNameNames(t.tank1.value, t.tank2.value);
    ByNameNames(t.damage1.value, t.damage2.value);
    ByNameNames(t.support1.value, t.support2.value);
  }

  /** For names without commas, the id determines each role's names. */
  lemma TeamIdDeterminesNames(t: Team, u: Team)
    requires Complete(t) && Complete(u) && NamesCommaFree(t) && NamesCommaFree(u)
    requires TeamId(t) == TeamId(u)
    ensures multiset{t.tank1.value.name, t.tank2.value.name} == multiset{u.tank1.value.name, u.tank2.value.name}
    ensures multiset{t.damage1.value.name, t.damage2.value.name} == multiset{u.damage1.value.name, u.damage2.value.name}
    ensures multiset{t.support1.value.name, t.support2.value.name} == multiset{u.support1.value.name, u.support2.value.name}
  {
    SortedNamesCommaFree(t);
    SortedNamesCommaFree(u);
    TeamIdListsSortedNames(t);
    TeamIdListsSortedNames(u);
    ListedInjective(SortedNames(t), SortedNames(u));
    SortedNamesRoles(t);
    SortedNamesRoles(u);
  }

  /** Teams holding the same names in each role have the same id. */
  lemma SameNamesSameTeamId(t: Team, u: Team)
    requires Complete(t) && Complete(u)
    requires multiset{t.tank1.value.name, t.tank2.value.name} == multiset{u.tank1.value.name, u.tank2.value.name}
    requires multiset{t.damage1.value.name, t.damage2.value.name} == multiset{u.damage1.value.name, u.damage2.value.name}
    requires multiset{t.support1.value.name, t.support2.value.name} == multiset{u.support1.value.name, u.support2.value.name}
    ensures TeamId(t) == TeamId(u)
  {
    DuoListingSameNames(t.tank1.value, t.tank2.value, u.tank1.value, u.tank2.value);
    DuoListingSameNames(t.damage1.value, t.damage2.value, u.damage1.value, u.damage2.value);
    DuoListingSameNames(t.support1.value, t.support2.value, u.support1.value, u.support2.value);
  }

  lemma ThreeDuos(a: seq<string>, b: seq<string>, c: seq<string>)
    requires |a| == |b| == |c| == 2
    ensures (a + b + c)[..2] == a && (a + b + c)[2..4] == b && (a + b + c)[4..] == c
  {
  }
}
