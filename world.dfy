/** Shared vocabulary of the dungeon: grid coordinates, the two kinds of
    creature, and the width of Rust's `u8` that bounds their counters. */
module World {

  datatype Option<T> = None | Some(value: T)

  /** Largest value of a Rust `u8`: player strength, hit points, enemy
      strength and the floor counter are all `u8` in the game. */
  const U8Max: nat := 255

  /** A grid cell; `x` counts columns and `y` rows, both from 0. */
  datatype Coordinate = Coordinate(x: nat, y: nat)

  predicate InBounds(p: Coordinate, width: nat, height: nat)
  {
    p.x < width && p.y < height
  }

  datatype Enemy = Enemy(pos: Coordinate, strength: nat)

  datatype Player = Player(pos: Coordinate, strength: nat, hp: nat)

  function Square(n: nat): nat
  {
    n * n
  }

  /** The cells the enemies stand on, in list order. */
  function Positions(es: seq<Enemy>): (ps: seq<Coordinate>)
    ensures |ps| == |es|
    ensures forall i :: 0 <= i < |es| ==> ps[i] == es[i].pos
  {
    if es == [] then [] else Positions(es[..|es| - 1]) + [es[|es| - 1].pos]
  }

  predicate DistinctPositions(es: seq<Enemy>)
  {
    forall i, j :: 0 <= i < j < |es| ==> es[i].pos != es[j].pos
  }

  predicate AllInBounds(es: seq<Enemy>, width: nat, height: nat)
  {
    forall i :: 0 <= i < |es| ==> InBounds(es[i].pos, width, height)
  }
}
