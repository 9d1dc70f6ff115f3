/** Name-to-image tables: an ordered list of rules, each a test on the name
    and the bundled image it selects; the first rule whose test holds wins,
    and no image is chosen when none holds (Kotlin's `when` with an
    `else -> null` branch). */
module ImageLookup {
  import opened Text

  /** The bundled drawables the tables can choose. */
  datatype Drawable =
    | TableMountainCapeTown | ApartheidMeseum | UnionBuildingsPretoria | UshakaMarineWorld
    | AddoElephantPark | BlydeRiverCanyon | DrakensbergAmphitheatre | DurbanGoldenMile
    | GodsWindow | GoldenGateHighlands | KgalagadiTransfrontierPark | KnysnaHeads
    | KrugerNationalPark | MapungubweNationalPark | PilanesbergNationalPark
    | TsitsikammaNationalPark | AugrabiesFalls | VAndAWaterfront | CapeOfGoodHope
    | StellenboschWineRoute | HermanusWhaleWatching

  /** A condition of one `when` branch. */
  datatype Test =
    | ContainsText(pattern: string, ignoreCase: bool)
    | StartsWithText(prefix: string)
    | Either(left: Test, right: Test)

  predicate Holds(t: Test, name: string) {
    match t
    case ContainsText(p, ic) => Contains(name, p, ic)
    case StartsWithText(p) => StartsWith(name, p)
    case Either(l, r) => Holds(l, name) || Holds(r, name)
  }

  datatype Rule = Rule(test: Test, image: Drawable)

  /** The position of the first rule whose test holds, or |rules| when no
      test holds. */
  function FirstMatchIndex(rules: seq<Rule>, name: string): (i: nat)
    ensures i <= |rules|
    ensures forall j :: 0 <= j < i ==> !Holds(rules[j].test, name)
    ensures i < |rules| ==> Holds(rules[i].test, name)
  {
    if rules == [] then 0
    else if Holds(rules[0].test, name) then 0
    else 1 + FirstMatchIndex(rules[1..], name)
  }

  /** The image of the first rule that matches, or nothing. */
  function FirstMatch(rules: seq<Rule>, name: string): (r: Option<Drawable>)
    ensures r.None? <==> forall j :: 0 <= j < |rules| ==> !Holds(rules[j].test, name)
    ensures r.Some? ==> exists i :: 0 <= i < |rules| && rules[i].image == r.value &&
                                   Holds(rules[i].test, name) &&
                                   (forall j :: 0 <= j < i ==> !Holds(rules[j].test, name))
  {
    var i := FirstMatchIndex(rules, name);
    if i < |rules| then Some(rules[i].image) else None
  }

  /** Whichever rule matches, the chosen one is at or before it: earlier
      rules shadow later ones. */
  lemma FirstMatchShadows(rules: seq<Rule>, name: string, k: nat)
    requires k < |rules| && Holds(rules[k].test, name)
    ensures FirstMatchIndex(rules, name) <= k
    ensures FirstMatch(rules, name) == Some(rules[FirstMatchIndex(rules, name)].image)
  {
  }

  /** When rule k matches and no earlier one does, rule k decides. */
  lemma FirstMatchAt(rules: seq<Rule>, name: string, k: nat)
    requires k < |rules| && Holds(rules[k].test, name)
    requires forall j :: 0 <= j < k ==> !Holds(rules[j].test, name)
    ensures FirstMatch(rules, name) == Some(rules[k].image)
  {
  }

  /** A pattern cannot occur, even ignoring case, in a name lacking one of its
      characters. Used to rule out tests on concrete names. */
  lemma AbsentCharRulesOut(name: string, p: string, j: nat)
    requires j < |p|
    requires forall i :: 0 <= i < |name| ==> !CharEqualsIgnoreCase(name[i], p[j])
    ensures !Contains(name, p, true) && !Contains(name, p, false)
  {
    forall k
      ensures !MatchesAt(name, k, p, true) && !MatchesAt(name, k, p, false)
    {
      if 0 <= k && k + |p| <= |name| {
        assert name[k..k + |p|][j] == name[k + j];
        assert !CharEqualsIgnoreCase(name[k + j], p[j]);
      }
    }
  }

  /** A name whose first character differs from the prefix's does not start
      with it. */
  lemma FirstCharRulesOutPrefix(name: string, p: string)
    requires p != [] && (name == [] || name[0] != p[0])
    ensures !StartsWith(name, p)
  {
    if |p| <= |name| {
      assert name[0..|p|][0] == name[0];
    }
  }

  /** A name that begins with the pattern contains it, ignoring case or not. */
  lemma PrefixIsContained(name: string, p: string)
    requires |p| <= |name| && name[..|p|] == p
    ensures Contains(name, p, false) && Contains(name, p, true)
  {
    assert MatchesAt(name, 0, p, false);
    assert MatchesAt(name, 0, p, true);
  }
}
