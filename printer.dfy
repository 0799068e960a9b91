/**
  The colour lookup of the printer: a name is shown in the colour of the
  first squad whose original roster lists it, or in the console's default
  colour when no roster does.
*/
module Printer {
  import opened Squads

  /** `squads.FirstOrDefault(x => x.InitialMembers.Contains(name))?.Color
      ?? defaultColor`. */
  function GetColor(name: string, squads: seq<Squad>, defaultColor: Color): (c: Color)
    reads squads
    ensures (forall j :: 0 <= j < |squads| ==> name !in squads[j].initialMembers) ==> c == defaultColor
    ensures forall j ::
      (0 <= j < |squads| && name in squads[j].initialMembers &&
       forall i :: 0 <= i < j ==> name !in squads[i].initialMembers) ==> c == squads[j].color
  {
    if squads == [] then defaultColor
    else if name in squads[0].initialMembers then squads[0].color
    else
      var rest := GetColor(name, squads[1..], defaultColor);
      assert forall j :: 1 <= j < |squads| ==> squads[j] == squads[1..][j - 1];
      rest
  }

  /** A name on some roster is shown in the colour of a squad that lists
      it, and never in a colour chosen by a later squad. */
  lemma {:induction false} ColorOfListed(name: string, squads: seq<Squad>, defaultColor: Color, j: int)
    requires 0 <= j < |squads| && name in squads[j].initialMembers
    ensures exists k ::
      && 0 <= k <= j && name in squads[k].initialMembers
      && GetColor(name, squads, defaultColor) == squads[k].color
  {
    if name !in squads[0].initialMembers {
      assert squads[1..][j - 1] == squads[j];
      ColorOfListed(name, squads[1..], defaultColor, j - 1);
      var k :| 0 <= k <= j - 1 && name in squads[1..][k].initialMembers &&
        GetColor(name, squads[1..], defaultColor) == squads[1..][k].color;
      assert squads[k + 1] == squads[1..][k];
    }
  }

  /** While every pool holds only people of its own roster, anyone still in
      a pool (and so anyone a group can receive) is shown in the colour of
      a squad that lists them. */
  lemma PooledMemberColored(name: string, squads: seq<Squad>, defaultColor: Color)
    requires forall i :: 0 <= i < |squads| ==> squads[i].Valid()
    requires name in Flatten(Pools(squads))
    ensures exists k ::
      && 0 <= k < |squads| && name in squads[k].initialMembers
      && GetColor(name, squads, defaultColor) == squads[k].color
  {
    var pools := Pools(squads);
    FlattenMembership(pools, name);
    var i :| 0 <= i < |pools| && name in pools[i];
    assert name in multiset(squads[i].members);
    assert name in squads[i].initialMembers;
    ColorOfListed(name, squads, defaultColor, i);
  }
}
