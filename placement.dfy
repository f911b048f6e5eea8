/** `prepare_enemies` (src/main.rs:60-108): how many enemies a floor gets,
    where they stand and how strong they are.

    The random draws are inputs. `FloorDraws` holds the sampled cells (one
    per enemy, so its length is the drawn enemy count), the coin flips the
    collision loop consumes, two per nudge, and the drawn strengths. */
module Placement {
  import opened World

  datatype FloorDraws = FloorDraws(starts: seq<Coordinate>, flips: seq<bool>, strengths: seq<nat>)

  /** `(1 + floor_progress).pow(2)` does not fit in a `u8`: the game panics
      before placing anything. */
  predicate PowOverflows(floor: nat)
  {
    Square(1 + floor) > U8Max
  }

  /** The squared strength bound overflows exactly from floor 15 on. */
  lemma PowOverflowsFrom15(floor: nat)
    ensures PowOverflows(floor) <==> floor >= 15
  {
    if floor >= 15 {
      assert Square(1 + floor) >= 16 * (1 + floor) by {
        assert (1 + floor) * (1 + floor) >= 16 * (1 + floor);
      }
    } else {
      assert (1 + floor) * (1 + floor) <= 15 * (1 + floor);
    }
  }

  /** `how_many_enemies`: the largest enemy count the floor may draw. The
      grid size `width * height` is compared with `(1 + floor)^2`, and only
      when the grid is larger does the cap drop to `1 + floor`. */
  function EnemyCap(floor: nat, width: nat, height: nat): (cap: nat)
    ensures cap <= width * height && cap <= Square(1 + floor)
    ensures cap == width * height || cap == 1 + floor
    ensures width * height <= Square(1 + floor) ==> cap == width * height
  {
    if width * height > Square(1 + floor) then
      assert Square(1 + floor) >= 1 + floor by {
        assert (1 + floor) * (1 + floor) == (1 + floor) * floor + (1 + floor);
      }
      1 + floor
    else width * height
  }

  /** The cap admits at least one enemy, never more than there are cells,
      never more than the squared floor number, and at least as many as
      `min(width * height, 1 + floor)`. */
  lemma CapBounds(floor: nat, width: nat, height: nat)
    requires width >= 1 && height >= 1
    ensures 1 <= EnemyCap(floor, width, height) <= width * height
    ensures EnemyCap(floor, width, height) <= Square(1 + floor)
    ensures EnemyCap(floor, width, height) >= 1 + floor || EnemyCap(floor, width, height) == width * height
  {
    MulAtLeastOne(width, height);
    MulAtLeastOne(1 + floor, 1 + floor);
    assert (1 + floor) * (1 + floor) >= 1 + floor by {
      assert (1 + floor) * (1 + floor) == (1 + floor) * floor + (1 + floor);
    }
  }

  lemma MulAtLeastOne(a: nat, b: nat)
    requires a >= 1 && b >= 1
    ensures a * b >= 1 && a * b >= a
  {
    assert a * b == a * (b - 1) + a;
  }

  /** Whenever the grid has more than `1 + floor` cells but no more than
      `(1 + floor)^2`, the cap is the whole grid, above the
      `min(width * height, 1 + floor)` one might expect; on a grid of 4
      cells at floor 1 it is 4 rather than 2. */
  lemma CapExceedsFloorPlusOne(floor: nat, width: nat, height: nat)
    ensures 1 + floor < width * height <= Square(1 + floor) ==>
      EnemyCap(floor, width, height) == width * height > 1 + floor
    ensures EnemyCap(1, 2, 2) == 4
  {
  }

  /** What `prepare_enemies` asks of its random draws: between 1 and the
      cap enemies, each sampled inside the grid and given a strength in
      `[1, (1 + floor)^2]`. */
  predicate DrawsFit(floor: nat, width: nat, height: nat, d: FloorDraws)
  {
    && 1 <= |d.starts| <= EnemyCap(floor, width, height)
    && (forall i :: 0 <= i < |d.starts| ==> InBounds(d.starts[i], width, height))
    && |d.strengths| == |d.starts|
    && (forall i :: 0 <= i < |d.strengths| ==> 1 <= d.strengths[i] <= Square(1 + floor))
  }

  /** One pass of the collision loop (lines 79-96): a `true` first flip moves
      x one to the right and a `false` one to the left; a `true` second flip
      moves y one up (towards 0) and a `false` one down. A move that would
      leave the grid is skipped. */
  function Nudge(p: Coordinate, width: nat, height: nat, flipX: bool, flipY: bool): (q: Coordinate)
    requires InBounds(p, width, height)
    ensures InBounds(q, width, height)
    ensures q.x == p.x + 1 || q.x == p.x || q.x + 1 == p.x
    ensures q.y == p.y + 1 || q.y == p.y || q.y + 1 == p.y
    ensures q.x == p.x <==> (if flipX then p.x + 1 == width else p.x == 0)
    ensures q.y == p.y <==> (if flipY then p.y == 0 else p.y + 1 == height)
    ensures flipX && p.x + 1 < width ==> q.x == p.x + 1
    ensures !flipX && p.x > 0 ==> q.x + 1 == p.x
    ensures flipY && p.y > 0 ==> q.y + 1 == p.y
    ensures !flipY && p.y + 1 < height ==> q.y == p.y + 1
  {
    var x := if flipX then (if p.x < width - 1 then p.x + 1 else p.x)
             else (if p.x > 0 then p.x - 1 else p.x);
    var y := if flipY then (if p.y > 0 then p.y - 1 else p.y)
             else (if p.y < height - 1 then p.y + 1 else p.y);
    Coordinate(x, y)
  }

  /** The collision loop (lines 77-100) started at `p` with the unused flips
      beginning at index `at`: the free cell it settles on and the index of
      the first flip it left unused, or `None` when fewer than two flips are
      left while the cell is still taken. */
  function Settle(taken: seq<Coordinate>, p: Coordinate, width: nat, height: nat, flips: seq<bool>, at: nat)
    : (r: Option<(Coordinate, nat)>)
    requires InBounds(p, width, height) && at <= |flips|
    decreases |flips| - at
    ensures r.Some? ==> InBounds(r.value.0, width, height) && r.value.0 !in taken
    ensures r.Some? ==> at <= r.value.1 <= |flips|
    ensures p !in taken ==> r == Some((p, at))
  {
    if p !in taken then Some((p, at))
    else if at + 2 > |flips| then None
    else Settle(taken, Nudge(p, width, height, flips[at], flips[at + 1]), width, height, flips, at + 2)
  }

  /** Places the enemies after `placed` one by one, each on the cell its
      collision loop settles on, with the flips from index `at`. */
  function PlaceFrom(width: nat, height: nat, d: FloorDraws, placed: seq<Enemy>, at: nat): (r: Option<seq<Enemy>>)
    requires |placed| <= |d.starts| == |d.strengths| && at <= |d.flips|
    requires forall i :: 0 <= i < |d.starts| ==> InBounds(d.starts[i], width, height)
    decreases |d.starts| - |placed|
    ensures r.Some? ==> |r.value| == |d.starts| && r.value[..|placed|] == placed
    ensures r.Some? ==> forall i :: |placed| <= i < |r.value| ==> r.value[i].strength == d.strengths[i]
  {
    if |placed| == |d.starts| then Some(placed)
    else
      match Settle(Positions(placed), d.starts[|placed|], width, height, d.flips, at)
      case None => None
      case Some((p, next)) => PlaceFrom(width, height, d, placed + [Enemy(p, d.strengths[|placed|])], next)
  }

  /** The enemies `prepare_enemies` returns for the draws `d`, or `None`
      when the coin flips run out. */
  function Place(width: nat, height: nat, d: FloorDraws): (r: Option<seq<Enemy>>)
    requires |d.starts| == |d.strengths|
    requires forall i :: 0 <= i < |d.starts| ==> InBounds(d.starts[i], width, height)
    ensures r.Some? ==> |r.value| == |d.starts|
    ensures r.Some? ==> AllInBounds(r.value, width, height) && DistinctPositions(r.value)
    ensures r.Some? ==> forall i :: 0 <= i < |r.value| ==> r.value[i].strength == d.strengths[i]
  {
    PlaceFromSound(width, height, d, [], 0);
    PlaceFrom(width, height, d, [], 0)
  }

  /** A collision loop that settles lets the next enemy be placed there. */
  lemma PlaceStep(width: nat, height: nat, d: FloorDraws, placed: seq<Enemy>, at: nat, p: Coordinate, next: nat)
    requires |placed| < |d.starts| == |d.strengths| && at <= |d.flips|
    requires forall i :: 0 <= i < |d.starts| ==> InBounds(d.starts[i], width, height)
    requires Settle(Positions(placed), d.starts[|placed|], width, height, d.flips, at) == Some((p, next))
    ensures PlaceFrom(width, height, d, placed, at)
         == PlaceFrom(width, height, d, placed + [Enemy(p, d.strengths[|placed|])], next)
  {
  }

  /** A collision loop that runs out of flips fails the whole placement. */
  lemma PlaceStuck(width: nat, height: nat, d: FloorDraws, placed: seq<Enemy>, at: nat)
    requires |placed| < |d.starts| == |d.strengths| && at <= |d.flips|
    requires forall i :: 0 <= i < |d.starts| ==> InBounds(d.starts[i], width, height)
    requires Settle(Positions(placed), d.starts[|placed|], width, height, d.flips, at).None?
    ensures PlaceFrom(width, height, d, placed, at).None?
  {
  }

  lemma PositionsAppend(es: seq<Enemy>, e: Enemy)
    ensures Positions(es + [e]) == Positions(es) + [e.pos]
  {
    assert (es + [e])[..|es|] == es;
  }

  /** What placement promises: one enemy per draw, each inside the grid, on
      a cell of its own, with its drawn strength, after the ones already
      placed. */
  lemma {:induction false} PlaceFromSound(width: nat, height: nat, d: FloorDraws, placed: seq<Enemy>, at: nat)
    requires |placed| <= |d.starts| == |d.strengths| && at <= |d.flips|
    requires forall i :: 0 <= i < |d.starts| ==> InBounds(d.starts[i], width, height)
    requires AllInBounds(placed, width, height) && DistinctPositions(placed)
    requires forall i :: 0 <= i < |placed| ==> placed[i].strength == d.strengths[i]
    ensures PlaceFrom(width, height, d, placed, at).Some? ==>
      var es := PlaceFrom(width, height, d, placed, at).value;
      && |es| == |d.starts|
      && es[..|placed|] == placed
      && AllInBounds(es, width, height)
      && DistinctPositions(es)
      && forall i :: 0 <= i < |es| ==> es[i].strength == d.strengths[i]
    decreases |d.starts| - |placed|
  {
    if |placed| < |d.starts| {
      var s := Settle(Positions(placed), d.starts[|placed|], width, height, d.flips, at);
      if s.Some? {
        var (p, next) := s.value;
        var placed' := placed + [Enemy(p, d.strengths[|placed|])];
        assert p !in Positions(placed);
        forall i | 0 <= i < |placed|
          ensures placed'[i].pos != p
        {
          assert Positions(placed)[i] == placed[i].pos;
        }
        PlaceFromSound(width, height, d, placed', next);
        var es := PlaceFrom(width, height, d, placed', next);
        if es.Some? {
          assert es.value[..|placed|] == es.value[..|placed'|][..|placed|];
        }
      }
    }
  }

  /** When the sampled cells are already pairwise different, no nudge
      happens and no flip is needed: every enemy stands where it was
      sampled. */
  lemma {:induction false} DistinctSamplesNeedNoNudge(width: nat, height: nat, d: FloorDraws, placed: seq<Enemy>, at: nat)
    requires |placed| <= |d.starts| == |d.strengths| && at <= |d.flips|
    requires forall i :: 0 <= i < |d.starts| ==> InBounds(d.starts[i], width, height)
    requires forall i, j :: 0 <= i < j < |d.starts| ==> d.starts[i] != d.starts[j]
    requires forall i :: 0 <= i < |placed| ==> placed[i].pos == d.starts[i]
    ensures PlaceFrom(width, height, d, placed, at).Some?
    ensures |PlaceFrom(width, height, d, placed, at).value| == |d.starts|
    ensures forall i :: 0 <= i < |d.starts| ==>
      PlaceFrom(width, height, d, placed, at).value[i].pos == d.starts[i]
    decreases |d.starts| - |placed|
  {
    if |placed| < |d.starts| {
      var p := d.starts[|placed|];
      forall i | 0 <= i < |placed|
        ensures Positions(placed)[i] != p
      {
      }
      assert p !in Positions(placed);
      var placed' := placed + [Enemy(p, d.strengths[|placed|])];
      DistinctSamplesNeedNoNudge(width, height, d, placed', at);
    }
  }

  datatype PlaceOutcome = Placed(enemies: seq<Enemy>) | PowOverflow | FlipsExhausted

  /** `prepare_enemies`. The count comparison evaluates `(1 + floor)^2` in
      `u8` first, so that overflow is reported before anything is drawn;
      `FlipsExhausted` stands for a collision loop the given flips cannot
      finish. */
  method PrepareEnemies(floor: nat, height: nat, width: nat, d: FloorDraws) returns (r: PlaceOutcome)
    requires width >= 1 && height >= 1
    requires DrawsFit(floor, width, height, d)
    ensures r.PowOverflow? <==> PowOverflows(floor)
    ensures !PowOverflows(floor) ==> (r.Placed? <==> Place(width, height, d).Some?)
    ensures r.Placed? ==> Place(width, height, d) == Some(r.enemies)
    ensures r.Placed? ==>
      && 1 <= |r.enemies| <= EnemyCap(floor, width, height)
      && AllInBounds(r.enemies, width, height)
      && DistinctPositions(r.enemies)
      && forall i :: 0 <= i < |r.enemies| ==> 1 <= r.enemies[i].strength <= Square(1 + floor)
  {
    if Square(1 + floor) > U8Max {
      return PowOverflow;
    }
    var enemyList: seq<Enemy> := [];
    var alreadyUsed: seq<Coordinate> := [];
    var at := 0;
    while |enemyList| < |d.starts|
      invariant |enemyList| <= |d.starts| && at <= |d.flips|
      invariant alreadyUsed == Positions(enemyList)
      invariant Place(width, height, d) == PlaceFrom(width, height, d, enemyList, at)
    {
      var pos := d.starts[|enemyList|];
      ghost var at0 := at;
      while pos in alreadyUsed
        invariant InBounds(pos, width, height) && at0 <= at <= |d.flips|
        invariant Settle(alreadyUsed, pos, width, height, d.flips, at)
               == Settle(alreadyUsed, d.starts[|enemyList|], width, height, d.flips, at0)
        decreases |d.flips| - at
      {
        if at + 2 > |d.flips| {
          PlaceStuck(width, height, d, enemyList, at0);
          return FlipsExhausted;
        }
        pos := Nudge(pos, width, height, d.flips[at], d.flips[at + 1]);
        at := at + 2;
      }
      PlaceStep(width, height, d, enemyList, at0, pos, at);
      PositionsAppend(enemyList, Enemy(pos, d.strengths[|enemyList|]));
      alreadyUsed := alreadyUsed + [pos];
      enemyList := enemyList + [Enemy(pos, d.strengths[|enemyList|])];
    }
    return Placed(enemyList);
  }
}
