/** A roster entry (src/player.rs) and the roles of src/types.rs. */
module Players {
  import opened Wrappers
  import opened Strings

  /** Declared in this order: Tank, Damage, Support. */
  datatype Position = Tank | Damage | Support

  type I16 = x: int | IsI16(x)

  datatype Player = Player(
    name: string,
    tankSr: I16,
    damageSr: I16,
    supportSr: I16,
    playsTank: bool,
    playsDamage: bool,
    playsSupport: bool)

  /** `player_string.split(" - ")`. */
  function Fields(line: string): seq<string>
  {
    Split(line)
  }

  /** What `Player::new` needs in order not to panic in `unwrap`: when the
      line has five fields, the three rating fields parse as `i16`. */
  predicate RatingsParse(line: string)
  {
    var f := Fields(line);
    |f| >= 5 ==> ParseI16(f[1]).Some? && ParseI16(f[2]).Some? && ParseI16(f[3]).Some?
  }

  /** `Player::new`: `Name - TankSr - DamageSr - SupportSr - Roles`. */
  function New(line: string): (r: Result<Player>)
    requires RatingsParse(line)
    ensures r.Err? <==> |Fields(line)| < 5
    ensures r.Ok? ==> r.value.name == Fields(line)[0]
    ensures r.Ok? ==> ParseI16(Fields(line)[1]) == Some(r.value.tankSr)
    ensures r.Ok? ==> ParseI16(Fields(line)[2]) == Some(r.value.damageSr)
    ensures r.Ok? ==> ParseI16(Fields(line)[3]) == Some(r.value.supportSr)
    ensures r.Ok? ==> (r.value.playsTank <==> 't' in Fields(line)[4])
    ensures r.Ok? ==> (r.value.playsDamage <==> 'd' in Fields(line)[4])
    ensures r.Ok? ==> (r.value.playsSupport <==> 's' in Fields(line)[4])
  {
    var f := Fields(line);
    if |f| < 5 then Err("Splitting Error")
    else
      Ok(Player(
        f[0],
        ParseI16(f[1]).value,
        ParseI16(f[2]).value,
        ParseI16(f[3]).value,
        't' in f[4],
        'd' in f[4],
        's' in f[4]))
  }

  /** Only the first five fields matter; anything after the fifth is ignored. */
  lemma ExtraFieldsIgnored(line: string, other: string)
    requires RatingsParse(line) && RatingsParse(other)
    requires |Fields(line)| >= 5 && |Fields(other)| >= 5
    requires Fields(line)[..5] == Fields(other)[..5]
    ensures New(line) == New(other)
  {
    assert forall i :: 0 <= i < 5 ==> Fields(line)[i] == Fields(line)[..5][i];
    assert forall i :: 0 <= i < 5 ==> Fields(other)[i] == Fields(other)[..5][i];
  }

  /** `Player::create_dummy`. */
  function CreateDummy(): (p: Player)
    ensures p.name == "---"
    ensures forall pos :: GetSr(p, pos) == 0 && !PlaysPosition(p, pos)
  {
    Player("---", 0, 0, 0, false, false, false)
  }

  /** The three ratings in the order of the roster line's rating fields. */
  function Ratings(p: Player): seq<I16>
  {
    [p.tankSr, p.damageSr, p.supportSr]
  }

  /** `get_sr`: the rating for the given role, the one the roster line
      carries in that role's rating field. */
  function GetSr(p: Player, pos: Position): (r: I16)
    ensures r == Ratings(p)[RatingField(pos) - 1]
  {
    match pos
    case Tank => p.tankSr
    case Damage => p.damageSr
    case Support => p.supportSr
  }

  /** `plays_position`: the eligibility flag for the given role, which is
      whether the role field written for the player holds that role's letter. */
  function PlaysPosition(p: Player, pos: Position): (b: bool)
    ensures b <==> RoleLetter(pos) in RoleFlags(p)
  {
    RoleFlagsLetters(p);
    match pos
    case Tank => p.playsTank
    case Damage => p.playsDamage
    case Support => p.playsSupport
  }

  /** The letter of the role field that marks a role. */
  function RoleLetter(pos: Position): char
  {
    match pos
    case Tank => 't'
    case Damage => 'd'
    case Support => 's'
  }

  /** The field of a roster line that carries a role's rating. */
  function RatingField(pos: Position): nat
  {
    match pos
    case Tank => 1
    case Damage => 2
    case Support => 3
  }

  /** The accessors read what the parser took from the line: a player plays a
      role iff the role field contains that role's letter, independently of the
      other letters, and `GetSr` is the parsed value of that role's field. */
  lemma ParsedRoles(line: string, pos: Position)
    requires RatingsParse(line) && New(line).Ok?
    ensures PlaysPosition(New(line).value, pos) <==> RoleLetter(pos) in Fields(line)[4]
    ensures ParseI16(Fields(line)[RatingField(pos)]) == Some(GetSr(New(line).value, pos))
  {
  }

  // ------------------------------------------------------- writing a line

  function RoleFlags(p: Player): string
  {
    (if p.playsTank then "t" else "") + (if p.playsDamage then "d" else "") + (if p.playsSupport then "s" else "")
  }

  /** The five fields of the roster line a player is read from. */
  function LineFields(p: Player): seq<string>
  {
    [p.name, IntToString(p.tankSr), IntToString(p.damageSr), IntToString(p.supportSr), RoleFlags(p)]
  }

  /** The roster line a player is read from. */
  function Format(p: Player): string
  {
    Join(LineFields(p))
  }

  lemma SpaceFreeClean(f: string)
    requires forall i :: 0 <= i < |f| ==> f[i] != ' '
    ensures Clean(f)
  {
    forall q: nat ensures !DelimiterAt(f + " ", q) {
      if q + 3 <= |f + " "| {
        assert (f + " ")[q] == f[q];
      }
    }
  }

  lemma IntToStringClean(v: int)
    ensures Clean(IntToString(v))
  {
    var s := IntToString(v);
    if v < 0 {
      assert forall i :: 1 <= i < |s| ==> s[i] == NatToString(-v)[i - 1];
    }
    SpaceFreeClean(s);
  }

  /** Parsing a formatted player gives the player back, provided the name can
      be followed by the delimiter (it contains no " - " and does not end in " -"). */
  lemma ParseFormat(p: Player)
    requires Clean(p.name)
    ensures RatingsParse(Format(p))
    ensures New(Format(p)) == Ok(p)
  {
    var fields := LineFields(p);
    IntToStringClean(p.tankSr);
    IntToStringClean(p.damageSr);
    IntToStringClean(p.supportSr);
    SpaceFreeClean(RoleFlags(p));
    SplitJoin(fields);
    ParseI16OfString(p.tankSr);
    ParseI16OfString(p.damageSr);
    ParseI16OfString(p.supportSr);
    RoleFlagsLetters(p);
    assert Fields(Format(p)) == fields;
  }

  lemma RoleFlagsLetters(p: Player)
    ensures 't' in RoleFlags(p) <==> p.playsTank
    ensures 'd' in RoleFlags(p) <==> p.playsDamage
    ensures 's' in RoleFlags(p) <==> p.playsSupport
  {
    var t, d, s := if p.playsTank then "t" else "", if p.playsDamage then "d" else "", if p.playsSupport then "s" else "";
    assert RoleFlags(p) == t + d + s;
    assert forall c :: c in t + d + s <==> c in t || c in d || c in s;
  }

  // ------------------------------------------------------- reading a roster

  /** `line.starts_with("#")`. */
  predicate IsComment(line: string)
  {
    |line| > 0 && line[0] == '#'
  }

  /** The lines `read_players` hands to the parser can be parsed without panicking. */
  predicate RosterParses(lines: seq<string>)
  {
    forall i :: 0 <= i < |lines| ==> !IsComment(lines[i]) ==> RatingsParse(lines[i])
  }

  /** `read_players` without the file: comment lines are skipped, lines that
      do not split into five fields are skipped, the rest become players in order. */
  function ReadPlayers(lines: seq<string>): (players: seq<Player>)
    requires RosterParses(lines)
    ensures |players| <= |lines|
    ensures forall p :: p in players ==> exists l :: l in lines && !IsComment(l) && New(l) == Ok(p)
    ensures forall l :: l in lines && !IsComment(l) && New(l).Ok? ==> New(l).value in players
  {
    if lines == [] then []
    else
      var init, last := lines[..|lines| - 1], lines[|lines| - 1];
      assert RosterParses(init) by {
        forall i | 0 <= i < |init| ensures !IsComment(init[i]) ==> RatingsParse(init[i]) {
          assert init[i] == lines[i];
        }
      }
      assert forall l :: l in lines <==> l in init || l == last;
      var kept := ReadPlayers(init);
      if IsComment(last) then kept
      else match New(last)
        case Ok(p) => kept + [p]
        case Err(_) => kept
  }

  /** A line `read_players` turns into a player: not a comment, and at least five fields. */
  predicate Usable(line: string)
  {
    !IsComment(line) && |Fields(line)| >= 5
  }

  /** The positions of the usable lines, in increasing order. */
  function UsableLines(lines: seq<string>): (idx: seq<nat>)
    ensures forall k :: 0 <= k < |idx| ==> idx[k] < |lines| && Usable(lines[idx[k]])
    ensures forall k, m :: 0 <= k < m < |idx| ==> idx[k] < idx[m]
    ensures forall i :: 0 <= i < |lines| && Usable(lines[i]) ==> i in idx
  {
    if lines == [] then []
    else
      var init := UsableLines(lines[..|lines| - 1]);
      assert forall i :: 0 <= i < |lines| - 1 ==> lines[..|lines| - 1][i] == lines[i];
      if Usable(lines[|lines| - 1]) then init + [|lines| - 1] else init
  }

  /** `ps[k]` is the player parsed from line `idx[k]`, for every `k`. */
  ghost predicate ParsedFrom(lines: seq<string>, ps: seq<Player>, idx: seq<nat>)
  {
    |ps| == |idx|
    && forall k :: 0 <= k < |ps| ==>
         idx[k] < |lines| && RatingsParse(lines[idx[k]]) && Ok(ps[k]) == New(lines[idx[k]])
  }

  /** The players come out in line order, one for each usable line. */
  lemma {:induction false} ReadPlayersInOrder(lines: seq<string>)
    requires RosterParses(lines)
    ensures ParsedFrom(lines, ReadPlayers(lines), UsableLines(lines))
    decreases |lines|
  {
    if lines != [] {
      var init, last := lines[..|lines| - 1], lines[|lines| - 1];
      assert RosterParses(init) by {
        forall i | 0 <= i < |init| ensures !IsComment(init[i]) ==> RatingsParse(init[i]) {
          assert init[i] == lines[i];
        }
      }
      ReadPlayersInOrder(init);
      var ps, idx := ReadPlayers(init), UsableLines(init);
      if Usable(last) {
        assert RatingsParse(last);
        var p := New(last).value;
        ParsedFromGrows(lines, ps, idx, [p], [|lines| - 1]);
        assert ReadPlayers(lines) == ps + [p];
      } else {
        ParsedFromGrows(lines, ps, idx, [], []);
        assert ReadPlayers(lines) == ps + [];
      }
    }
  }

  lemma ParsedFromGrows(lines: seq<string>, ps: seq<Player>, idx: seq<nat>, more: seq<Player>, at: seq<nat>)
    requires lines != [] && ParsedFrom(lines[..|lines| - 1], ps, idx)
    requires |more| == |at| <= 1
    requires |at| == 1 ==> at[0] == |lines| - 1 && RatingsParse(lines[at[0]]) && Ok(more[0]) == New(lines[at[0]])
    ensures ParsedFrom(lines, ps + more, idx + at)
  {
    var init := lines[..|lines| - 1];
    forall k | 0 <= k < |ps + more|
      ensures (idx + at)[k] < |lines| && RatingsParse(lines[(idx + at)[k]])
              && Ok((ps + more)[k]) == New(lines[(idx + at)[k]])
    {
      if k < |ps| {
        assert (ps + more)[k] == ps[k] && (idx + at)[k] == idx[k];
        assert lines[idx[k]] == init[idx[k]];
      }
    }
  }
}
