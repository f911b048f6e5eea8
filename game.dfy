/** The game state that `main` (src/main.rs:110-265) updates turn by turn:
    the player, the enemy list, the fog of war and the floor counter, with
    the new-floor step at the start of a turn, the move and attack commands
    and the floor check at the end of a turn.

    Random draws are parameters. An arithmetic overflow of a `u8` counter,
    which panics in a debug build, halts the game with `ArithmeticOverflow`;
    the process is gone after it, so nothing else is promised about the
    state in that case. */
module Game {
  import opened World
  import opened Raster
  import opened Placement

  datatype Halt = Defeated | ArithmeticOverflow | OutOfFlips

  datatype Phase = Playing | Halted(why: Halt)

  datatype MoveResult = OutOfBounds | Moved(met: Option<Enemy>)

  datatype AttackResult = NoTarget | Victory(gained: nat) | Defeat(hpLeft: nat) | GameOver | Overflowed

  /** The first enemy in the list standing on `p`, the search that both the
      attack (lines 192-193) and the encounter report (lines 243-244) do. */
  function EnemyIndexAt(es: seq<Enemy>, p: Coordinate): (r: Option<nat>)
    ensures r.Some? ==> r.value < |es| && es[r.value].pos == p
    ensures r.Some? ==> forall j :: 0 <= j < r.value ==> es[j].pos != p
    ensures r.None? <==> forall j :: 0 <= j < |es| ==> es[j].pos != p
  {
    if es == [] then None
    else if es[0].pos == p then Some(0)
    else
      match EnemyIndexAt(es[1..], p)
      case None => None
      case Some(k) => Some(k + 1)
  }

  /** With no two enemies on one cell, the enemy found on a cell is the
      only one there. */
  lemma EnemyIndexAtUnique(es: seq<Enemy>, k: nat)
    requires DistinctPositions(es) && k < |es|
    ensures EnemyIndexAt(es, es[k].pos) == Some(k)
  {
    var r := EnemyIndexAt(es, es[k].pos);
    assert r.Some?;
  }

  /** The enemies of floor `floor`: inside the grid, each on a cell of its
      own, with a strength in `[1, (1 + floor)^2]`. */
  predicate EnemiesFit(es: seq<Enemy>, width: nat, height: nat, floor: nat)
  {
    && AllInBounds(es, width, height)
    && DistinctPositions(es)
    && forall i :: 0 <= i < |es| ==> 1 <= es[i].strength <= Square(1 + floor)
  }

  /** Removing the defeated enemy keeps every other enemy, in order, on its
      own cell and inside the grid, and leaves no enemy on that cell. */
  lemma RemoveEnemy(es: seq<Enemy>, k: nat, width: nat, height: nat, floor: nat)
    requires EnemiesFit(es, width, height, floor) && k < |es|
    ensures |es[..k] + es[k + 1..]| == |es| - 1
    ensures EnemiesFit(es[..k] + es[k + 1..], width, height, floor)
    ensures forall e :: e in es[..k] + es[k + 1..] ==> e.pos != es[k].pos
  {
    var rest := es[..k] + es[k + 1..];
    assert forall i :: 0 <= i < |rest| ==> rest[i] == es[if i < k then i else i + 1];
    forall e | e in rest
      ensures e.pos != es[k].pos
    {
      var i :| 0 <= i < |rest| && rest[i] == e;
    }
  }

  class Dungeon {
    const width: nat
    const height: nat
    /** `fog[y, x]` is true while cell `(x, y)` is hidden. */
    const fog: array2<bool>
    var player: Player
    var enemies: seq<Enemy>
    var floorProgress: nat
    var phase: Phase

    /** The state every turn keeps: everything on the grid, no two enemies
        on one cell, every enemy as strong as its floor allows, the `u8`
        counters in range, and a live player while the game runs. */
    ghost predicate Valid()
      reads this
    {
      && width >= 1 && height >= 1
      && fog.Length0 == height && fog.Length1 == width
      && InBounds(player.pos, width, height)
      && EnemiesFit(enemies, width, height, floorProgress)
      && player.strength <= U8Max && player.hp <= U8Max && floorProgress <= U8Max
      && (phase == Playing ==> player.hp >= 1)
    }

    /** The start of `main` (lines 111-128): floor 0, the player at (0, 0)
        with strength 2 and 3 hit points, the floor's enemies, and a fog
        map that starts fully revealed. Floor 0 allows a single enemy,
        so it stands where it was sampled. */
    constructor (width: nat, height: nat, d: FloorDraws)
      requires width >= 1 && height >= 1
      requires DrawsFit(0, width, height, d)
      ensures Valid() && fresh(fog)
      ensures this.width == width && this.height == height
      ensures floorProgress == 0 && phase == Playing
      ensures player == Player(Coordinate(0, 0), 2, 3)
      ensures enemies == [Enemy(d.starts[0], d.strengths[0])]
      ensures forall y, x :: 0 <= y < height && 0 <= x < width ==> !fog[y, x]
    {
      this.width := width;
      this.height := height;
      player := Player(Coordinate(0, 0), 2, 3);
      assert |d.starts| == 1 by {
        CapBounds(0, width, height);
      }
      DistinctSamplesNeedNoNudge(width, height, d, [], 0);
      var r := PrepareEnemies(0, height, width, d);
      enemies := r.enemies;
      fog := new bool[height, width]((y, x) => false);
      floorProgress := 0;
      phase := Playing;
    }

    /** The start of a turn (lines 131-140 and 149). A cleared floor is
        replaced by a new one: all fog hidden, new enemies, the player on the
        spawn cell with one more hit point. Then the player's cell is
        revealed. */
    method BeginTurn(d: FloorDraws, spawn: Coordinate)
      requires Valid() && phase == Playing
      requires enemies == [] ==> DrawsFit(floorProgress, width, height, d) && InBounds(spawn, width, height)
      modifies this, fog
      ensures Valid()
      ensures floorProgress == old(floorProgress) && player.strength == old(player.strength)
      ensures old(enemies) != [] ==>
        && phase == Playing && player == old(player) && enemies == old(enemies)
        && forall y, x :: 0 <= y < height && 0 <= x < width ==>
             fog[y, x] == (old(fog[y, x]) && !(x == player.pos.x && y == player.pos.y))
      ensures old(enemies) == [] && PowOverflows(floorProgress) ==>
        phase == Halted(ArithmeticOverflow)
      ensures old(enemies) == [] && !PowOverflows(floorProgress) && Place(width, height, d).None? ==>
        phase == Halted(OutOfFlips)
      ensures old(enemies) == [] && !PowOverflows(floorProgress) && Place(width, height, d).Some? ==>
        && enemies == Place(width, height, d).value && enemies != []
        && player.pos == spawn
        && (phase == Playing <==> old(player.hp) < U8Max)
        && (phase != Playing ==> phase == Halted(ArithmeticOverflow))
        && (phase == Playing ==> player.hp == old(player.hp) + 1)
        && (phase == Playing ==> forall y, x :: 0 <= y < height && 0 <= x < width ==>
              fog[y, x] == !(x == spawn.x && y == spawn.y))
    {
      if enemies == [] {
        forall y, x | 0 <= y < height && 0 <= x < width {
          fog[y, x] := true;
        }
        var r := PrepareEnemies(floorProgress, height, width, d);
        if !r.Placed? {
          phase := Halted(if r.PowOverflow? then ArithmeticOverflow else OutOfFlips);
          return;
        }
        enemies := r.enemies;
        player := player.(pos := spawn);
        if player.hp == U8Max {
          phase := Halted(ArithmeticOverflow);
          return;
        }
        player := player.(hp := player.hp + 1);
      }
      fog[player.pos.y, player.pos.x] := false;
    }

    /** A move command (lines 224-240, 241-259). A target outside the grid
        changes nothing. Otherwise the fog is cleared along the line from the
        old cell to the target, the player stands on the target, and the
        enemy there, if any, is reported; the report adds the two strengths
        in `u8`, which can overflow. */
    method MoveTo(x: nat, y: nat) returns (r: MoveResult)
      requires Valid() && phase == Playing
      modifies this, fog
      ensures Valid()
      ensures enemies == old(enemies) && floorProgress == old(floorProgress)
      ensures player.strength == old(player.strength) && player.hp == old(player.hp)
      ensures !(x < width && y < height) ==>
        && r == OutOfBounds && player == old(player) && phase == Playing
        && Snapshot(fog) == old(Snapshot(fog))
      ensures x < width && y < height ==>
        && player.pos == Coordinate(x, y)
        && Snapshot(fog) == Paint(old(Snapshot(fog)), Line(old(player.pos.x), old(player.pos.y), x, y), false)
        && r == Moved(match EnemyIndexAt(enemies, player.pos)
                      case None => None
                      case Some(k) => Some(enemies[k]))
        && phase == if r.met.Some? && player.strength + r.met.value.strength > U8Max
                    then Halted(ArithmeticOverflow) else Playing
      ensures forall y', x' :: 0 <= y' < height && 0 <= x' < width && !old(fog[y', x']) ==> !fog[y', x']
    {
      if x < width && y < height {
        ghost var before := Snapshot(fog);
        DrawLine(fog, player.pos.x, player.pos.y, x, y, false);
        forall y', x' | 0 <= y' < height && 0 <= x' < width && !before[y'][x']
          ensures !fog[y', x']
        {
          assert fog[y', x'] == Snapshot(fog)[y'][x'];
        }
        player := player.(pos := Coordinate(x, y));
      } else {
        return OutOfBounds;
      }
      var k := EnemyIndexAt(enemies, player.pos);
      var met := if k.Some? then Some(enemies[k.value]) else None;
      if met.Some? && player.strength + met.value.strength > U8Max {
        phase := Halted(ArithmeticOverflow);
      }
      r := Moved(met);
    }

    /** The attack command (lines 190-223): the first enemy on the player's
        cell is fought. The weighted coin `win` and the strength gain `gain`
        are the random draws. A win adds `gain` to the strength and removes
        that enemy; a loss costs one hit point, and the last one ends the
        game. The odds are computed from the two strengths added in `u8`. */
    method Attack(win: bool, gain: nat) returns (r: AttackResult)
      requires Valid() && phase == Playing
      requires win ==> forall i :: 0 <= i < |enemies| && enemies[i].pos == player.pos ==>
        1 <= gain <= enemies[i].strength
      modifies this
      ensures Valid()
      ensures player.pos == old(player.pos) && floorProgress == old(floorProgress)
      ensures EnemyIndexAt(old(enemies), player.pos).None? ==>
        r == NoTarget && player == old(player) && enemies == old(enemies) && phase == Playing
      ensures EnemyIndexAt(old(enemies), player.pos).Some? ==>
        var k := EnemyIndexAt(old(enemies), player.pos).value;
        var foe := old(enemies)[k];
        if old(player.strength) + foe.strength > U8Max then
          r == Overflowed && phase == Halted(ArithmeticOverflow) && player == old(player) && enemies == old(enemies)
        else if win then
          && r == Victory(gain) && phase == Playing
          && player == old(player).(strength := old(player.strength) + gain)
          && enemies == old(enemies)[..k] + old(enemies)[k + 1..]
          && forall e :: e in enemies ==> e.pos != player.pos
        else
          && player == old(player).(hp := old(player.hp) - 1) && enemies == old(enemies)
          && if old(player.hp) == 1 then r == GameOver && phase == Halted(Defeated)
             else r == Defeat(player.hp) && phase == Playing
    {
      var i := 0;
      while i < |enemies| && !(enemies[i].pos.x == player.pos.x && enemies[i].pos.y == player.pos.y)
        invariant 0 <= i <= |enemies|
        invariant forall j :: 0 <= j < i ==> enemies[j].pos != player.pos
      {
        i := i + 1;
      }
      if i == |enemies| {
        return NoTarget;
      }
      var foe := enemies[i];
      assert EnemyIndexAt(enemies, player.pos) == Some(i);
      if player.strength + foe.strength > U8Max {
        phase := Halted(ArithmeticOverflow);
        return Overflowed;
      }
      if win {
        RemoveEnemy(enemies, i, width, height, floorProgress);
        player := player.(strength := player.strength + gain);
        enemies := enemies[..i] + enemies[i + 1..];
        return Victory(gain);
      }
      player := player.(hp := player.hp - 1);
      if player.hp == 0 {
        phase := Halted(Defeated);
        return GameOver;
      }
      return Defeat(player.hp);
    }

    /** The end of a turn (lines 261-263): a cleared floor counts as passed.
        The counter is a `u8`. */
    method EndTurn()
      requires Valid() && phase == Playing
      modifies this
      ensures Valid()
      ensures player == old(player) && enemies == old(enemies)
      ensures old(enemies) != [] ==> floorProgress == old(floorProgress) && phase == Playing
      ensures old(enemies) == [] && old(floorProgress) < U8Max ==>
        floorProgress == old(floorProgress) + 1 && phase == Playing
      ensures old(enemies) == [] && old(floorProgress) == U8Max ==>
        phase == Halted(ArithmeticOverflow)
    {
      if enemies == [] {
        if floorProgress == U8Max {
          phase := Halted(ArithmeticOverflow);
          return;
        }
        floorProgress := floorProgress + 1;
      }
    }
  }

  /** Clearing floor 0 of a 16 by 16 map: one enemy of strength 1 at
      (5, 5); the player walks there and wins with the only possible gain
      of 1, and the floor counter becomes 1. A move to (20, 20) is then
      refused. */
  method ClearFirstFloor()
  {
    var g := new Dungeon(16, 16, FloorDraws([Coordinate(5, 5)], [], [1]));
    g.BeginTurn(FloorDraws([], [], []), Coordinate(0, 0));
    var m := g.MoveTo(5, 5);
    EnemyIndexAtUnique(g.enemies, 0);
    assert m == Moved(Some(Enemy(Coordinate(5, 5), 1)));
    var a := g.Attack(true, 1);
    assert a == Victory(1) && g.enemies == [];
    g.EndTurn();
    assert g.floorProgress == 1 && g.player.hp == 3;
    var o := g.MoveTo(20, 20);
    assert o == OutOfBounds && g.player.pos == Coordinate(5, 5);
  }

  /** The turn after floor 0 is cleared: floor 1 starts with one more hit
      point, the player on the spawn cell, which is the only revealed
      cell. */
  method EnterSecondFloor(g: Dungeon)
    requires g.Valid() && g.phase == Playing && g.width == 16 && g.height == 16
    requires g.enemies == [] && g.floorProgress == 1 && g.player.hp == 3
    modifies g, g.fog
  {
    var next := FloorDraws([Coordinate(3, 3)], [], [4]);
    assert EnemyCap(1, 16, 16) == 2;
    DistinctSamplesNeedNoNudge(16, 16, next, [], 0);
    g.BeginTurn(next, Coordinate(7, 7));
    assert g.phase == Playing && g.player.pos == Coordinate(7, 7) && g.player.hp == 4;
    assert g.enemies == [Enemy(Coordinate(3, 3), 4)];
    assert !g.fog[7, 7] && g.fog[0, 0];
  }
}
