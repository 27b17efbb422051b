/** The character roster and the two filters the renderers apply to it. */
module Roster {

  /** One record of the roster document. `name` maps a language code to the
      display name; `position` and `tier` are compared as plain strings, so a
      value outside the fixed lists below is simply never matched. */
  datatype Character = Character(
    name: map<string, string>,
    position: string,
    tier: string,
    grade: string,
    img: string)

  /** The positions, in the order of the characters page and the grid columns. */
  const Positions: seq<string> := ["WS", "SE", "MB"]

  /** The tiers, in the order of the grid rows. */
  const Tiers: seq<string> := ["S+", "S", "A+", "A"]

  /** `roster.filter(keep)`: the records that satisfy `keep`, in roster order. */
  function Filter(roster: seq<Character>, keep: Character -> bool): (r: seq<Character>)
    ensures |r| <= |roster|
    ensures forall k :: 0 <= k < |r| ==> keep(r[k]) && r[k] in roster
  {
    if roster == [] then []
    else (if keep(roster[0]) then [roster[0]] else []) + Filter(roster[1..], keep)
  }

  /** Filtering a concatenation filters each part and keeps them in order:
      the filter never reorders records. */
  lemma {:induction false} FilterAppend(a: seq<Character>, b: seq<Character>, keep: Character -> bool)
    ensures Filter(a + b, keep) == Filter(a, keep) + Filter(b, keep)
  {
    if a == [] {
      assert a + b == b;
    } else {
      assert (a + b)[0] == a[0];
      assert (a + b)[1..] == a[1..] + b;
      FilterAppend(a[1..], b, keep);
    }
  }

  /** Each record occurs in the filtered sequence as often as in the roster
      when it satisfies `keep`, and not at all otherwise. */
  lemma {:induction false} FilterCount(roster: seq<Character>, keep: Character -> bool, c: Character)
    ensures multiset(Filter(roster, keep))[c] == if keep(c) then multiset(roster)[c] else 0
  {
    if roster != [] {
      FilterCount(roster[1..], keep, c);
      assert roster == [roster[0]] + roster[1..];
    }
  }

  /** The predicate `c => c.position === p` of the characters page. */
  function AtPosition(p: string): Character -> bool
  {
    (c: Character) => c.position == p
  }

  /** The predicate `c => c.tier === t && c.position === p` of the tier grid. */
  function AtCell(t: string, p: string): Character -> bool
  {
    (c: Character) => c.tier == t && c.position == p
  }

  /** `characters.filter(c => c.position === p)` */
  function WithPosition(roster: seq<Character>, p: string): (r: seq<Character>)
    ensures forall k :: 0 <= k < |r| ==> r[k] in roster && r[k].position == p
  {
    Filter(roster, AtPosition(p))
  }

  /** `characters.filter(c => c.tier === t && c.position === p)` */
  function InCell(roster: seq<Character>, t: string, p: string): (r: seq<Character>)
    ensures forall k :: 0 <= k < |r| ==> r[k] in roster && r[k].tier == t && r[k].position == p
  {
    Filter(roster, AtCell(t, p))
  }

  /** The characters-page section of position `p` lists exactly the records
      with that position, each as often as the roster has it. */
  lemma WithPositionCount(roster: seq<Character>, p: string, c: Character)
    ensures multiset(WithPosition(roster, p))[c] == if c.position == p then multiset(roster)[c] else 0
  {
    FilterCount(roster, AtPosition(p), c);
  }

  /** The grid cell (t, p) lists exactly the records with tier t and
      position p, each as often as the roster has it. */
  lemma InCellCount(roster: seq<Character>, t: string, p: string, c: Character)
    ensures multiset(InCell(roster, t, p))[c] ==
      if c.tier == t && c.position == p then multiset(roster)[c] else 0
  {
    FilterCount(roster, AtCell(t, p), c);
  }

  /** Across the three sections, a roster record with a listed position
      appears in exactly the section of its position, and a record with any
      other position appears in none. */
  lemma SectionsPartition(roster: seq<Character>, c: Character)
    requires c in roster
    ensures forall k :: 0 <= k < |Positions| ==>
      (c in WithPosition(roster, Positions[k]) <==> c.position == Positions[k])
    ensures (exists k :: 0 <= k < |Positions| && c in WithPosition(roster, Positions[k]))
        <==> c.position in Positions
    ensures forall k, l ::
      (0 <= k < |Positions| && 0 <= l < |Positions| &&
       c in WithPosition(roster, Positions[k]) && c in WithPosition(roster, Positions[l]))
      ==> k == l
  {
    forall k | 0 <= k < |Positions|
      ensures c in WithPosition(roster, Positions[k]) <==> c.position == Positions[k]
    {
      WithPositionCount(roster, Positions[k], c);
    }
  }

  /** No tier and no position is listed twice. */
  lemma ListsDistinct()
    ensures forall i, i' :: 0 <= i < |Tiers| && 0 <= i' < |Tiers| && Tiers[i] == Tiers[i'] ==> i == i'
    ensures forall j, j' :: 0 <= j < |Positions| && 0 <= j' < |Positions| && Positions[j] == Positions[j'] ==> j == j'
  {
    assert Tiers[0][..] != Tiers[1][..] by { assert |Tiers[0]| != |Tiers[1]|; }
    assert Tiers[2][..] != Tiers[3][..] by { assert |Tiers[2]| != |Tiers[3]|; }
    assert Tiers[0][..] != Tiers[2][..] by { assert Tiers[0][0] != Tiers[2][0]; }
    assert Tiers[1][..] != Tiers[3][..] by { assert Tiers[1][0] != Tiers[3][0]; }
    assert Positions[0][0] != Positions[1][0] && Positions[0][0] != Positions[2][0] && Positions[1][0] != Positions[2][0];
  }

  /** Cell (Tiers[i], Positions[j]) holds a roster record exactly when its tier
      is Tiers[i] and its position is Positions[j]. */
  lemma CellMembership(roster: seq<Character>, c: Character, i: nat, j: nat)
    requires c in roster
    requires i < |Tiers| && j < |Positions|
    ensures c in InCell(roster, Tiers[i], Positions[j]) <==> c.tier == Tiers[i] && c.position == Positions[j]
  {
    InCellCount(roster, Tiers[i], Positions[j], c);
  }

  /** In the tier grid, a roster record appears in at most one cell, and in
      exactly one exactly when both its tier and its position are listed. */
  lemma CellsPartition(roster: seq<Character>, c: Character)
    requires c in roster
    ensures (exists i, j :: 0 <= i < |Tiers| && 0 <= j < |Positions| &&
               c in InCell(roster, Tiers[i], Positions[j]))
        <==> c.tier in Tiers && c.position in Positions
    ensures forall i, j, i', j' ::
      (0 <= i < |Tiers| && 0 <= j < |Positions| && 0 <= i' < |Tiers| && 0 <= j' < |Positions| &&
       c in InCell(roster, Tiers[i], Positions[j]) && c in InCell(roster, Tiers[i'], Positions[j']))
      ==> i == i' && j == j'
  {
    ListsDistinct();
    forall i, j | 0 <= i < |Tiers| && 0 <= j < |Positions|
      ensures c in InCell(roster, Tiers[i], Positions[j]) <==> c.tier == Tiers[i] && c.position == Positions[j]
    {
      CellMembership(roster, c, i, j);
    }
    if c.tier in Tiers && c.position in Positions {
      var i :| 0 <= i < |Tiers| && Tiers[i] == c.tier;
      var j :| 0 <= j < |Positions| && Positions[j] == c.position;
      assert c in InCell(roster, Tiers[i], Positions[j]);
    }
  }
}
