/** The settings screen's logic (SettingsScreen and its helpers): the chips
    that select language, map type and image quality, the account dialog's
    name and e-mail, the map-type mapping handed to the map, and the map's
    image table. */
module Settings {
  import opened Text
  import opened Data
  import opened ImageLookup

  // ---------------------------------------------------------------------------
  // Map type

  /** The map renderer's kinds of map. */
  datatype MapType = Normal | Satellite | Terrain

  /** The stored setting as the map reads it: "Satellite" and "Terrain" name
      their kinds, anything else — "Normal" included — is a normal map. */
  function MapTypeOf(setting: string): (t: MapType)
    ensures t == Satellite <==> setting == "Satellite"
    ensures t == Terrain <==> setting == "Terrain"
    ensures t == Normal <==> setting != "Satellite" && setting != "Terrain"
  {
    if setting == "Satellite" then Satellite
    else if setting == "Terrain" then Terrain
    else Normal
  }

  /** The label of each chip, which is also the stored setting. */
  function MapTypeName(t: MapType): (chip: string)
    ensures chip == "Normal" <==> t == Normal
    ensures chip == "Satellite" <==> t == Satellite
    ensures chip == "Terrain" <==> t == Terrain
  {
    match t
    case Normal => "Normal"
    case Satellite => "Satellite"
    case Terrain => "Terrain"
  }

  /** A setting stored by a chip is read back as that chip's kind, and no two
      chips store the same setting. */
  lemma MapTypeRoundTrip(t: MapType, u: MapType)
    ensures MapTypeOf(MapTypeName(t)) == t
    ensures MapTypeName(t) == MapTypeName(u) ==> t == u
  {
  }

  // ---------------------------------------------------------------------------
  // Account name from the e-mail address

  /** replaceFirstChar { it.uppercase() }. */
  function Capitalize(w: string): (r: string)
    ensures |r| == |w|
    ensures forall i :: 0 <= i < |w| ==> r[i] == (if i == 0 then ToUpper(w[0]) else w[i])
  {
    if w == [] then [] else [ToUpper(w[0])] + w[1..]
  }

  function CapitalizeAll(ws: seq<string>): (rs: seq<string>)
    ensures |rs| == |ws|
    ensures forall i :: 0 <= i < |ws| ==> rs[i] == Capitalize(ws[i])
  {
    if ws == [] then [] else [Capitalize(ws[0])] + CapitalizeAll(ws[1..])
  }

  /** The local part with '.', '_' and '-' replaced by spaces. */
  function Spaced(local: string): (s: string)
    ensures |s| == |local|
    ensures forall i :: 0 <= i < |local| ==>
      s[i] == (if local[i] == '.' || local[i] == '_' || local[i] == '-' then ' ' else local[i])
  {
    ReplaceChar(ReplaceChar(ReplaceChar(local, '.', ' '), '_', ' '), '-', ' ')
  }

  /** The name derived from an e-mail address: the text before the first
      '@', separators turned into spaces, split into words on ' ', each word
      capitalised, rejoined with ' '. */
  function NameFromEmail(email: string): string {
    Join(CapitalizeAll(Split(Spaced(SubstringBefore(email, '@')), ' ')), ' ')
  }

  /** Whether r is s with exactly its word-initial characters upper-cased:
      the first one and each one following a separator. */
  predicate WordStartsUpper(r: string, s: string, sep: char) {
    |r| == |s| &&
    forall i :: 0 <= i < |s| ==> r[i] == (if i == 0 || s[i - 1] == sep then ToUpper(s[i]) else s[i])
  }

  lemma WordStartsUpperAt(r: string, s: string, sep: char, j: int)
    requires WordStartsUpper(r, s, sep) && 0 <= j < |s|
    ensures r[j] == (if j == 0 || s[j - 1] == sep then ToUpper(s[j]) else s[j])
  {
  }

  /** One step of the join: a capitalised word, the separator, and a rest
      that already has its word starts upper-cased. */
  lemma WordStartsUpperStep(w: string, rest: string, capRest: string, sep: char)
    requires !IsLower(sep) && sep !in w
    requires WordStartsUpper(capRest, rest, sep)
    ensures WordStartsUpper(Capitalize(w) + [sep] + capRest, w + [sep] + rest, sep)
  {
    var s := w + [sep] + rest;
    var r := Capitalize(w) + [sep] + capRest;
    forall i | 0 <= i < |s|
      ensures r[i] == (if i == 0 || s[i - 1] == sep then ToUpper(s[i]) else s[i])
    {
      if i < |w| {
        assert s[i] == w[i] && r[i] == Capitalize(w)[i];
        if i > 0 {
          assert s[i - 1] == w[i - 1] && w[i - 1] in w;
        }
      } else if i == |w| {
        assert s[i] == sep && r[i] == sep;
        if i > 0 {
          assert s[i - 1] == w[i - 1] && w[i - 1] in w;
        }
      } else {
        var j := i - |w| - 1;
        WordStartsUpperAt(capRest, rest, sep, j);
        assert s[i] == rest[j] && r[i] == capRest[j];
        if j > 0 {
          assert s[i - 1] == rest[j - 1];
        } else {
          assert s[i - 1] == sep;
        }
      }
    }
    assert |r| == |s|;
    assert WordStartsUpper(r, s, sep);
  }

  /** Capitalising the words of a join upper-cases exactly the characters
      that start a word. */
  lemma {:induction false} JoinCapitalized(ws: seq<string>, sep: char)
    requires !IsLower(sep)
    requires forall k :: 0 <= k < |ws| ==> sep !in ws[k]
    ensures WordStartsUpper(Join(CapitalizeAll(ws), sep), Join(ws, sep), sep)
  {
    if ws == [] {
      assert CapitalizeAll(ws) == [];
    } else if |ws| == 1 {
      assert CapitalizeAll(ws) == [Capitalize(ws[0])];
      forall i | 0 <= i < |ws[0]|
        ensures ws[0][i] != sep
      {
        assert ws[0][i] in ws[0];
      }
    } else {
      var caps := CapitalizeAll(ws);
      assert caps[1..] == CapitalizeAll(ws[1..]);
      JoinCapitalized(ws[1..], sep);
      WordStartsUpperStep(ws[0], Join(ws[1..], sep), Join(CapitalizeAll(ws[1..]), sep), sep);
    }
  }

  /** Capitalising keeps a character out of a word unless it is an
      upper-case letter. */
  lemma CapitalizeAvoids(w: string, c: char)
    requires !('A' <= c <= 'Z') && c !in w
    ensures c !in Capitalize(w)
  {
  }

  /** A character absent from a string is absent from every piece of its
      split. */
  lemma {:induction false} SplitAvoids(s: string, sep: char, c: char)
    requires c !in s
    ensures forall k :: 0 <= k < |Split(s, sep)| ==> c !in Split(s, sep)[k]
    decreases |s|
  {
    var i := IndexOf(s, sep);
    if i < |s| {
      assert s == s[..i] + [sep] + s[i + 1..];
      SplitAvoids(s[i + 1..], sep, c);
    }
  }

  lemma CapitalizeAllAvoids(ws: seq<string>, c: char)
    requires !('A' <= c <= 'Z')
    requires forall k :: 0 <= k < |ws| ==> c !in ws[k]
    ensures forall k :: 0 <= k < |ws| ==> c !in CapitalizeAll(ws)[k]
  {
    forall k | 0 <= k < |ws|
      ensures c !in CapitalizeAll(ws)[k]
    {
      CapitalizeAvoids(ws[k], c);
    }
  }

  /** The spaced local part holds no '@' and no separator. */
  lemma SpacedAvoids(email: string)
    ensures var s := Spaced(SubstringBefore(email, '@'));
      '@' !in s && '.' !in s && '_' !in s && '-' !in s
  {
    var local := SubstringBefore(email, '@');
    var s := Spaced(local);
    forall i | 0 <= i < |s|
      ensures s[i] != '@' && s[i] != '.' && s[i] != '_' && s[i] != '-'
    {
      assert local[i] in local;
    }
  }

  /** A character missing from the spaced local part, other than a space or
      an upper-case letter, is missing from the name. */
  lemma NameAvoids(email: string, c: char)
    requires !('A' <= c <= 'Z') && c != ' '
    requires c !in Spaced(SubstringBefore(email, '@'))
    ensures c !in NameFromEmail(email)
  {
    var s := Spaced(SubstringBefore(email, '@'));
    var ws := Split(s, ' ');
    SplitAvoids(s, ' ', c);
    CapitalizeAllAvoids(ws, c);
    JoinAvoids(CapitalizeAll(ws), ' ', c);
  }

  /** The derived name, character by character: as long as the local part of
      the address; a separator '.', '_' or '-' shows as a space; the first
      character and every one after a space is upper-cased; all others are
      kept. */
  lemma NameFromEmailChars(email: string)
    ensures |NameFromEmail(email)| == |SubstringBefore(email, '@')|
    ensures WordStartsUpper(NameFromEmail(email), Spaced(SubstringBefore(email, '@')), ' ')
  {
    var s := Spaced(SubstringBefore(email, '@'));
    var ws := Split(s, ' ');
    JoinSplit(s, ' ');
    JoinCapitalized(ws, ' ');
  }

  /** The derived name contains no '@', '.', '_' or '-'. */
  lemma NameFromEmailAvoids(email: string)
    ensures var r := NameFromEmail(email);
      '@' !in r && '.' !in r && '_' !in r && '-' !in r
  {
    SpacedAvoids(email);
    NameAvoids(email, '@');
    NameAvoids(email, '.');
    NameAvoids(email, '_');
    NameAvoids(email, '-');
  }

  lemma LocalPartExample(email: string)
    requires email == "jane.doe@example.com"
    ensures SubstringBefore(email, '@') == "jane.doe"
  {
    assert email[8] == '@' && '@' !in email[..8];
  }

  lemma SpacedExample(local: string)
    requires local == "jane.doe"
    ensures Spaced(local) == "jane doe"
  {
  }

  lemma WordStartsExample(r: string, s: string)
    requires s == "jane doe" && WordStartsUpper(r, s, ' ')
    ensures r == "Jane Doe"
  {
    forall i | 0 <= i < |s|
      ensures r[i] == "Jane Doe"[i]
    {
      WordStartsUpperAt(r, s, ' ', i);
    }
  }

  /** A dotted address gives two capitalised words. */
  lemma NameFromEmailExample()
    ensures NameFromEmail("jane.doe@example.com") == "Jane Doe"
  {
    var email := "jane.doe@example.com";
    NameFromEmailChars(email);
    LocalPartExample(email);
    SpacedExample("jane.doe");
    WordStartsExample(NameFromEmail(email), "jane doe");
  }

  /** The name shown in the account dialog: a display name that is set and
      not blank, else the name derived from the e-mail, else "Unknown". */
  function AccountName(user: Option<AuthUser>): (r: string)
    ensures user.Some? && user.value.displayName.Some? && !IsBlank(user.value.displayName.value) ==>
      r == user.value.displayName.value
    ensures user.None? || (user.value.email.None? && (user.value.displayName.None? || IsBlank(user.value.displayName.value))) ==>
      r == "Unknown"
    ensures user.Some? && user.value.email.Some? && (user.value.displayName.None? || IsBlank(user.value.displayName.value)) ==>
      r == NameFromEmail(user.value.email.value)
  {
    match user
    case None => "Unknown"
    case Some(u) =>
      if u.displayName.Some? && !IsBlank(u.displayName.value) then u.displayName.value
      else if u.email.Some? then NameFromEmail(u.email.value)
      else "Unknown"
  }

  /** The e-mail shown in the account dialog, "Unknown" when there is none. */
  function AccountEmail(user: Option<AuthUser>): (r: string)
    ensures user.Some? && user.value.email.Some? ==> r == user.value.email.value
    ensures user.None? || user.value.email.None? ==> r == "Unknown"
  {
    if user.Some? && user.value.email.Some? then user.value.email.value else "Unknown"
  }

  // ---------------------------------------------------------------------------
  // mapImageResOrNull

  /** The map marker image table, in the order the rules are tried; every
      pattern ignores case. The Vilakazi Street entry reuses the waterfront
      photo. */
  const MapRules: seq<Rule> := [
    Rule(ContainsText("Table Mountain", true), TableMountainCapeTown),
    Rule(ContainsText("Waterfront", true), VAndAWaterfront),
    Rule(ContainsText("Apartheid Museum", true), ApartheidMeseum),
    Rule(ContainsText("Union Buildings", true), UnionBuildingsPretoria),
    Rule(ContainsText("Vilakazi Street", true), VAndAWaterfront),
    Rule(ContainsText("Cape of Good Hope", true), CapeOfGoodHope),
    Rule(ContainsText("Kruger", true), KrugerNationalPark),
    Rule(ContainsText("Blyde River Canyon", true), BlydeRiverCanyon),
    Rule(ContainsText("God's Window", true), GodsWindow),
    Rule(ContainsText("Durban Golden Mile", true), DurbanGoldenMile),
    Rule(ContainsText("uShaka", true), UshakaMarineWorld),
    Rule(ContainsText("Drakensberg", true), DrakensbergAmphitheatre),
    Rule(ContainsText("Addo Elephant", true), AddoElephantPark),
    Rule(ContainsText("Knysna Heads", true), KnysnaHeads),
    Rule(ContainsText("Hermanus", true), HermanusWhaleWatching),
    Rule(ContainsText("Stellenbosch", true), StellenboschWineRoute)
  ]

  /** mapImageResOrNull: the image of the first matching rule, or none. */
  function MapImage(title: string): (r: Option<Drawable>)
    ensures r.None? <==> forall j :: 0 <= j < |MapRules| ==> !Holds(MapRules[j].test, title)
    ensures r.Some? ==> exists i :: 0 <= i < |MapRules| && MapRules[i].image == r.value &&
                                   Holds(MapRules[i].test, title) &&
                                   (forall j :: 0 <= j < i ==> !Holds(MapRules[j].test, title))
  {
    FirstMatch(MapRules, title)
  }

  /** The steps of VilakaziImage below; as for the Kruger card, each helper
      receives the title through its precondition. The Soweto marker: none of
      the four rules before the Vilakazi Street rule matches it (it has no
      'b', 'f', 'p' or 'u'). */
  lemma SowetoLacksEarlyPatterns(title: string)
    requires title == "Soweto (Vilakazi Street)"
    ensures !Contains(title, "Table Mountain", true)
    ensures !Contains(title, "Waterfront", true)
  {
    AbsentCharRulesOut(title, "Table Mountain", 2);
    AbsentCharRulesOut(title, "Waterfront", 5);
  }

  lemma SowetoLacksMorePatterns(title: string)
    requires title == "Soweto (Vilakazi Street)"
    ensures !Contains(title, "Apartheid Museum", true)
    ensures !Contains(title, "Union Buildings", true)
  {
    AbsentCharRulesOut(title, "Apartheid Museum", 1);
    AbsentCharRulesOut(title, "Union Buildings", 0);
  }

  lemma SowetoMissesEarlierRules(title: string)
    requires title == "Soweto (Vilakazi Street)"
    ensures forall j :: 0 <= j < 4 ==> !Holds(MapRules[j].test, title)
  {
    SowetoLacksEarlyPatterns(title);
    SowetoLacksMorePatterns(title);
  }

  lemma SowetoMatchesVilakaziRule(title: string)
    requires title == "Soweto (Vilakazi Street)"
    ensures Holds(MapRules[4].test, title)
  {
    assert MatchesAt(title, 8, "Vilakazi Street", true) by {
      assert title[8..8 + |"Vilakazi Street"|] == "Vilakazi Street";
    }
  }

  /** The Soweto (Vilakazi Street) marker shows the waterfront photo. */
  lemma VilakaziImage()
    ensures MapImage("Soweto (Vilakazi Street)") == Some(VAndAWaterfront)
  {
    var title := "Soweto (Vilakazi Street)";
    SowetoMissesEarlierRules(title);
    SowetoMatchesVilakaziRule(title);
    FirstMatchAt(MapRules, title, 4);
  }

  // ---------------------------------------------------------------------------
  // Screen state

  /** The choices the settings screen shows as selected, and whether the
      account dialog is open. They start as the stored settings. */
  class SettingsState {
    var selectedLanguage: string
    var showAccount: bool
    var selectedMapType: string
    var selectedImageQuality: string

    constructor (language: string, mapType: string, imageQuality: string)
      ensures selectedLanguage == language && selectedMapType == mapType
      ensures selectedImageQuality == imageQuality && !showAccount
    {
      selectedLanguage := language;
      showAccount := false;
      selectedMapType := mapType;
      selectedImageQuality := imageQuality;
    }

    /** Whether the chip for t is drawn as selected. */
    predicate ChipSelected(t: MapType)
      reads this
    {
      selectedMapType == MapTypeName(t)
    }

    /** How many of the three map chips are drawn as selected. */
    function SelectedChipCount(): (n: nat)
      reads this
      ensures n <= 1
      ensures n == 1 <==> exists t :: ChipSelected(t)
    {
      (if ChipSelected(Normal) then 1 else 0) + (if ChipSelected(Satellite) then 1 else 0)
        + (if ChipSelected(Terrain) then 1 else 0)
    }

    /** A click on a map chip selects it and forwards the same setting, after
      which that chip and no other is selected. */
    method ClickMapChip(t: MapType) returns (forwarded: string)
      modifies this`selectedMapType
      ensures selectedMapType == MapTypeName(t) && forwarded == MapTypeName(t)
      ensures forall u :: ChipSelected(u) <==> u == t
      ensures SelectedChipCount() == 1
    {
      selectedMapType := MapTypeName(t);
      forwarded := selectedMapType;
      assert ChipSelected(t);
    }

    /** The one language chip. */
    method ClickLanguage() returns (forwarded: string)
      modifies this`selectedLanguage
      ensures selectedLanguage == "English" && forwarded == "English"
    {
      selectedLanguage := "English";
      forwarded := selectedLanguage;
    }

    /** The "High quality" and "Standard" chips. */
    method ClickImageQuality(high: bool) returns (forwarded: string)
      modifies this`selectedImageQuality
      ensures selectedImageQuality == (if high then "High" else "Standard")
      ensures forwarded == selectedImageQuality
    {
      selectedImageQuality := if high then "High" else "Standard";
      forwarded := selectedImageQuality;
    }

    /** "View account details". */
    method OpenAccount()
      modifies this`showAccount
      ensures showAccount
    {
      showAccount := true;
    }

    /** "Close", or a tap outside the dialog. */
    method CloseAccount()
      modifies this`showAccount
      ensures !showAccount
    {
      showAccount := false;
    }
  }
}
