/** A ship of the sea-battle game: the board cells it occupies, written as
    coordinate strings, and which of them have been hit. */
module BattleShip {
  import opened Text

  /** A board coordinate as the game writes it: String(row) + String(col). */
  function Coord(row: nat, col: nat): (s: string)
    ensures row < 10 && col < 10 ==>
      |s| == 2 && IsDigit(s[0]) && IsDigit(s[1]) && DigitValue(s[0]) == row && DigitValue(s[1]) == col
  {
    NatToString(row) + NatToString(col)
  }

  /** On boards of at most ten rows and columns a coordinate string names
      exactly one cell. */
  lemma CoordInjective(r1: nat, c1: nat, r2: nat, c2: nat)
    requires r1 < 10 && c1 < 10 && r2 < 10 && c2 < 10
    ensures Coord(r1, c1) == Coord(r2, c2) <==> r1 == r2 && c1 == c2
  {
    if Coord(r1, c1) == Coord(r2, c2) {
      assert DigitValue(Coord(r1, c1)[0]) == DigitValue(Coord(r2, c2)[0]);
      assert DigitValue(Coord(r1, c1)[1]) == DigitValue(Coord(r2, c2)[1]);
    }
  }

  /** Every slot is marked 'hit'. */
  predicate AllHit(hits: seq<bool>) {
    forall i :: 0 <= i < |hits| ==> hits[i]
  }

  /** The hit marks after hit(position): the slot of the position's first
      occurrence is marked, or nothing changes when the ship is not there. */
  function AfterHit(hits: seq<bool>, locations: seq<string>, position: string): seq<bool>
    requires |hits| == |locations|
  {
    var index := IndexOf(locations, position);
    if index >= 0 then hits[index := true] else hits
  }

  /** isHit on hit marks: the slot of the position's first occurrence is
      marked. */
  predicate IsMarked(hits: seq<bool>, locations: seq<string>, position: string)
    requires |hits| == |locations|
  {
    var index := IndexOf(locations, position);
    index >= 0 && hits[index]
  }

  /** The hit marks after a series of hits, applied in order. */
  function AfterHits(hits: seq<bool>, locations: seq<string>, positions: seq<string>): (h: seq<bool>)
    requires |hits| == |locations|
    ensures |h| == |hits|
  {
    if positions == [] then hits
    else AfterHit(AfterHits(hits, locations, positions[..|positions| - 1]), locations, positions[|positions| - 1])
  }

  /** A hit away from the ship changes nothing; a hit on it marks the slot of
      the position's first occurrence and no other; marks are never removed;
      hitting the same position twice is the same as hitting it once. */
  lemma HitEffect(hits: seq<bool>, locations: seq<string>, position: string)
    requires |hits| == |locations|
    ensures position !in locations ==> AfterHit(hits, locations, position) == hits
    ensures position in locations ==>
      var i := IndexOf(locations, position);
      && locations[i] == position
      && AfterHit(hits, locations, position)[i]
      && (forall j :: 0 <= j < |hits| && j != i ==> AfterHit(hits, locations, position)[j] == hits[j])
    ensures forall j :: 0 <= j < |hits| && hits[j] ==> AfterHit(hits, locations, position)[j]
    ensures AfterHit(AfterHit(hits, locations, position), locations, position) == AfterHit(hits, locations, position)
    ensures IsMarked(AfterHit(hits, locations, position), locations, position) <==> position in locations
    ensures IsMarked(hits, locations, position) ==> AfterHit(hits, locations, position) == hits
  {
  }

  /** A one-cell ship sinks on its first hit. */
  lemma OneCellSinks(hits: seq<bool>, location: string)
    requires |hits| == 1
    ensures AllHit(AfterHit(hits, [location], location))
  {
    assert IndexOf([location], location) == 0;
  }

  /** Marks already set stay set through any series of hits, and every
      position hit is marked afterwards. */
  lemma {:induction false} HitsAccumulate(hits: seq<bool>, locations: seq<string>, positions: seq<string>)
    requires |hits| == |locations|
    ensures forall j :: 0 <= j < |hits| && hits[j] ==> AfterHits(hits, locations, positions)[j]
    ensures forall k :: 0 <= k < |positions| && positions[k] in locations ==>
      AfterHits(hits, locations, positions)[IndexOf(locations, positions[k])]
  {
    if positions != [] {
      var init := positions[..|positions| - 1];
      var last := positions[|positions| - 1];
      HitsAccumulate(hits, locations, init);
      var h := AfterHits(hits, locations, init);
      HitEffect(h, locations, last);
      forall k | 0 <= k < |positions| && positions[k] in locations
        ensures AfterHits(hits, locations, positions)[IndexOf(locations, positions[k])]
      {
        if k < |init| {
          assert positions[k] == init[k];
        }
      }
    }
  }

  /** A ship whose cells are all different is sunk once every one of its
      cells has been hit, in any order and with any other hits between. */
  lemma HittingEveryCellSinks(hits: seq<bool>, locations: seq<string>, positions: seq<string>)
    requires |hits| == |locations|
    requires forall i, j :: 0 <= i < j < |locations| ==> locations[i] != locations[j]
    requires forall i :: 0 <= i < |locations| ==> locations[i] in positions
    ensures AllHit(AfterHits(hits, locations, positions))
  {
    HitsAccumulate(hits, locations, positions);
    forall i | 0 <= i < |locations| ensures AfterHits(hits, locations, positions)[i] {
      var k :| 0 <= k < |positions| && positions[k] == locations[i];
      IndexOfDistinct(locations, i);
    }
  }

  /** The ship with two copies of one cell that hitting that cell twice
      still leaves afloat: only the first copy is ever marked. */
  lemma DuplicateCellNeverSinks()
    ensures !AllHit(AfterHits([false, false], ["00", "00"], ["00", "00"]))
  {
    var locations := ["00", "00"];
    assert IndexOf(locations, "00") == 0;
    assert AfterHits([false, false], locations, ["00"]) == [true, false] by {
      assert ["00"][..0] == [];
    }
    assert ["00", "00"][..1] == ["00"];
    assert AfterHits([false, false], locations, ["00", "00"]) == [true, false];
    assert ![true, false][1];
  }

  class Ship {
    const locations: seq<string>
    /** The hit marks, one per location: true for 'hit', false for ''. */
    var hits: seq<bool>

    ghost predicate Valid()
      reads this
    {
      |hits| == |locations|
    }

    /** new Ship(locations): one empty mark per location. */
    constructor(locations: seq<string>)
      ensures Valid() && this.locations == locations
      ensures hits == seq(|locations|, _ => false)
    {
      this.locations := locations;
      hits := seq(|locations|, _ => false);
    }

    /** hit(position) */
    method Hit(position: string)
      requires Valid()
      modifies this
      ensures Valid() && hits == AfterHit(old(hits), locations, position)
    {
      var index := IndexOf(locations, position);
      if index >= 0 {
        hits := hits[index := true];
      }
    }

    /** isSunk(): every slot is marked. */
    predicate IsSunk()
      reads this
    {
      AllHit(hits)
    }

    /** isHit(position) */
    function IsHit(position: string): (b: bool)
      requires Valid()
      reads this
      ensures b ==> Occupies(position)
    {
      IsMarked(hits, locations, position)
    }

    /** occupies(position) */
    predicate Occupies(position: string) {
      position in locations
    }
  }
}
