/** The Explore screen's logic: the duplicate-bookmark rule evaluated before a
    curated attraction is bookmarked, the bookmark action itself, and the
    attraction image table. */
module Explore {
  import opened Text
  import opened Data
  import opened Repository
  import opened ImageLookup

  /** A curated attraction: a name and its coordinates. */
  datatype Attraction = Attraction(name: string, lat: real, lon: real)

  /** 1e-5 degrees: closer than this on both axes counts as the same spot. */
  const Tolerance: real := 0.00001

  const DuplicateMessage := "You have already added to bookmarks"
  const AddedMessage := "Added to Bookmarks"

  function Abs(x: real): (r: real)
    ensures r >= 0.0 && (r == x || r == -x)
  {
    if x < 0.0 then -x else x
  }

  /** An existing bookmark stands for attraction a: the same name ignoring
      case, or both coordinates within the tolerance. */
  predicate SamePlace(b: Bookmark, a: Attraction) {
    EqualsIgnoreCase(b.placeName, a.name) ||
    (Abs(b.lat - a.lat) < Tolerance && Abs(b.lon - a.lon) < Tolerance)
  }

  /** `existing.any { ... }`. */
  function AnySamePlace(existing: seq<Bookmark>, a: Attraction): (r: bool)
    ensures r <==> exists i :: 0 <= i < |existing| && SamePlace(existing[i], a)
  {
    if existing == [] then false
    else SamePlace(existing[0], a) || AnySamePlace(existing[1..], a)
  }

  /** The place record the bookmark action hands to addBookmark. */
  function PlaceFor(a: Attraction): Place {
    Place(
      name := Some(a.name),
      lon := Some(a.lon),
      lat := Some(a.lat),
      country := Some("South Africa"),
      city := None,
      categories := Some(["tourism.sights"]))
  }

  /** The rule only looks at name and coordinates, so a listing (stored
      documents stamped with their ids) has a match exactly when the stored
      collection does. */
  lemma ListingHasSamePlace(r: seq<Bookmark>, coll: map<string, Bookmark>, a: Attraction)
    requires BookmarkListing(r, coll)
    ensures AnySamePlace(r, a) <==> exists k :: k in coll && SamePlace(coll[k], a)
  {
    if AnySamePlace(r, a) {
      ListedMatchIsStored(r, coll, a);
    }
    if exists k :: k in coll && SamePlace(coll[k], a) {
      StoredMatchIsListed(r, coll, a);
    }
  }

  /** Stamping a document with its id does not change whether it matches. */
  lemma StampKeepsSamePlace(b: Bookmark, id: string, a: Attraction)
    ensures SamePlace(b.(id := id), a) == SamePlace(b, a)
  {
  }

  lemma ListedMatchIsStored(r: seq<Bookmark>, coll: map<string, Bookmark>, a: Attraction)
    requires BookmarkListing(r, coll) && AnySamePlace(r, a)
    ensures exists k :: k in coll && SamePlace(coll[k], a)
  {
    var i :| 0 <= i < |r| && SamePlace(r[i], a);
    var k := r[i].id;
    assert k in coll && r[i] == coll[k].(id := k);
    StampKeepsSamePlace(coll[k], k, a);
  }

  lemma StoredMatchIsListed(r: seq<Bookmark>, coll: map<string, Bookmark>, a: Attraction)
    requires BookmarkListing(r, coll)
    requires exists k :: k in coll && SamePlace(coll[k], a)
    ensures AnySamePlace(r, a)
  {
    var k :| k in coll && SamePlace(coll[k], a);
    var i :| 0 <= i < |r| && r[i].id == k;
    assert r[i] == coll[k].(id := k);
    StampKeepsSamePlace(coll[k], k, a);
  }

  /** What is stored for a bookmarked attraction: its name and coordinates,
      the fixed category, and the minted id and owner. */
  lemma StoredForAttraction(id: string, uid: string, a: Attraction)
    ensures NewBookmark(id, uid, PlaceFor(a)) ==
      Bookmark(id, uid, a.name, a.lat, a.lon, ["tourism.sights"])
  {
  }

  /** Press of "Bookmark" on attraction a: list the user's bookmarks, and
      either report the duplicate without writing, or add exactly one
      bookmark for a. With no one signed in the listing is empty and the add
      writes nothing, yet "Added to Bookmarks" is still shown. */
  method BookmarkAttraction(repo: FirestoreRepository, a: Attraction) returns (shown: string, ghost minted: string)
    modifies repo`bookmarks
    ensures var coll := old(repo.BookmarksOf(repo.Uid()));
      var duplicate := repo.Uid() != "" && exists k :: k in coll && SamePlace(coll[k], a);
      && (duplicate ==> shown == DuplicateMessage && repo.bookmarks == old(repo.bookmarks))
      && (!duplicate ==> shown == AddedMessage)
      && (!duplicate && repo.Uid() == "" ==> repo.bookmarks == old(repo.bookmarks))
      && (!duplicate && repo.Uid() != "" ==>
            && !IsBlank(minted) && minted !in coll
            && repo.bookmarks == old(repo.bookmarks)[repo.Uid() := coll[minted := NewBookmark(minted, repo.Uid(), PlaceFor(a))]])
    ensures old(repo.Valid()) ==> repo.Valid()
  {
    var existing := repo.ListBookmarks();
    if repo.Uid() != "" {
      ListingHasSamePlace(existing, repo.BookmarksOf(repo.Uid()), a);
    }
    var already := AnySamePlace(existing, a);
    if already {
      shown := DuplicateMessage;
      minted := "";
    } else {
      minted := repo.AddBookmark(PlaceFor(a));
      shown := AddedMessage;
    }
  }

  /** The duplicate rule on the Table Mountain bookmark: a candidate that
      differs only in case is a duplicate, so is one a few millionths of a
      degree away under another name, and one 0.0072 degrees south is not. */
  lemma DuplicateExamples()
    ensures var existing := [Bookmark("b1", "u1", "Table Mountain, Cape Town", -33.9628, 18.4098, ["tourism.sights"])];
      && AnySamePlace(existing, Attraction("table mountain, cape town", 0.0, 0.0))
      && AnySamePlace(existing, Attraction("Lookout", -33.962805, 18.409805))
      && !AnySamePlace(existing, Attraction("Lookout", -33.97, 18.4098))
  {
    var b := Bookmark("b1", "u1", "Table Mountain, Cape Town", -33.9628, 18.4098, ["tourism.sights"]);
    var c := Attraction("table mountain, cape town", 0.0, 0.0);
    assert forall i :: 0 <= i < |b.placeName| ==> CharEqualsIgnoreCase(b.placeName[i], c.name[i]);
    assert SamePlace(b, c);
    var far := Attraction("Lookout", -33.97, 18.4098);
    assert !EqualsIgnoreCase(b.placeName, far.name);
    assert !SamePlace(b, far);
  }

  /** The comparison is strict: a point exactly 1e-5 degrees away on both
      axes, under another name, is not a duplicate in exact arithmetic. (In
      the app's doubles both differences round to just under 1e-5, so the
      app calls this point a duplicate.) */
  lemma ToleranceIsStrict()
    ensures var existing := [Bookmark("b1", "u1", "Table Mountain, Cape Town", -33.9628, 18.4098, ["tourism.sights"])];
      !AnySamePlace(existing, Attraction("Lookout", -33.96281, 18.40981))
  {
    var b := Bookmark("b1", "u1", "Table Mountain, Cape Town", -33.9628, 18.4098, ["tourism.sights"]);
    var tie := Attraction("Lookout", -33.96281, 18.40981);
    assert !EqualsIgnoreCase(b.placeName, tie.name);
    assert Abs(b.lat - tie.lat) == Tolerance;
    assert !SamePlace(b, tie);
  }

  // ---------------------------------------------------------------------------
  // attractionImageResOrNull

  /** The attraction image table, in the order the rules are tried. Only the
      first four patterns ignore case. */
  const AttractionRules: seq<Rule> := [
    Rule(ContainsText("Table Mountain", true), TableMountainCapeTown),
    Rule(ContainsText("Apartheid Museum", true), ApartheidMeseum),
    Rule(ContainsText("Union Buildings", true), UnionBuildingsPretoria),
    Rule(ContainsText("uShaka", true), UshakaMarineWorld),
    Rule(StartsWithText("Addo Elephant Park"), AddoElephantPark),
    Rule(StartsWithText("Blyde River Canyon"), BlydeRiverCanyon),
    Rule(ContainsText("Drakensberg Amphitheatre", false), DrakensbergAmphitheatre),
    Rule(StartsWithText("Durban Golden Mile"), DurbanGoldenMile),
    Rule(StartsWithText("God's Window"), GodsWindow),
    Rule(StartsWithText("Golden Gate Highlands"), GoldenGateHighlands),
    Rule(ContainsText("Kgalagadi Transfrontier Park", false), KgalagadiTransfrontierPark),
    Rule(ContainsText("Knysna Heads", false), KnysnaHeads),
    Rule(StartsWithText("Kruger National Park"), KrugerNationalPark),
    Rule(StartsWithText("Mapungubwe National Park"), MapungubweNationalPark),
    Rule(StartsWithText("Pilanesberg National Park"), PilanesbergNationalPark),
    Rule(StartsWithText("Tsitsikamma National Park"), TsitsikammaNationalPark),
    Rule(ContainsText("Augrabies Falls", false), AugrabiesFalls),
    Rule(Either(ContainsText("V&A Waterfront", false), ContainsText("Waterfront", false)), VAndAWaterfront),
    Rule(ContainsText("Cape of Good Hope", false), CapeOfGoodHope),
    Rule(ContainsText("Stellenbosch Wine Route", false), StellenboschWineRoute),
    Rule(Either(ContainsText("Hermanus Whale Watching", false), ContainsText("Hermanus", false)), HermanusWhaleWatching)
  ]

  /** attractionImageResOrNull: the image of the first matching rule, or none
      (the screen then falls back to a street-view photo). */
  function AttractionImage(name: string): (r: Option<Drawable>)
    ensures r.None? <==> forall j :: 0 <= j < |AttractionRules| ==> !Holds(AttractionRules[j].test, name)
    ensures r.Some? ==> exists i :: 0 <= i < |AttractionRules| && AttractionRules[i].image == r.value &&
                                   Holds(AttractionRules[i].test, name) &&
                                   (forall j :: 0 <= j < i ==> !Holds(AttractionRules[j].test, name))
  {
    FirstMatch(AttractionRules, name)
  }

  /** The Table Mountain card gets its photo from the first rule. */
  lemma TableMountainImage(title: string)
    requires title == "Table Mountain, Cape Town"
    ensures AttractionImage(title) == Some(TableMountainCapeTown)
  {
    assert title[..|"Table Mountain"|] == "Table Mountain";
    PrefixIsContained(title, "Table Mountain");
    FirstMatchAt(AttractionRules, title, 0);
  }

  /** So does the name written in capitals: the first rule ignores case. */
  lemma ShoutedTableMountainImage(title: string)
    requires title == "TABLE MOUNTAIN"
    ensures AttractionImage(title) == Some(TableMountainCapeTown)
  {
    assert MatchesAt(title, 0, "Table Mountain", true);
    FirstMatchAt(AttractionRules, title, 0);
  }

  /** The steps of KrugerImage below. Each helper receives the card's title
      through its precondition rather than as a literal in its body, so that
      each proof handles one 30-character string fact at a time.

      The Kruger card has no 'b', 'h' or 'd' in either case, so no
      contains-pattern holding one of them matches it. */
  lemma KrugerLacksLetter(title: string, c: char)
    requires title == "Kruger National Park (Skukuza)"
    requires ToUpper(c) == 'B' || ToUpper(c) == 'H' || ToUpper(c) == 'D'
    ensures forall i :: 0 <= i < |title| ==> !CharEqualsIgnoreCase(title[i], c)
  {
  }

  /** The first four rules look for text the card lacks. */
  lemma KrugerMissesFirstRules(title: string)
    requires title == "Kruger National Park (Skukuza)"
    ensures forall j :: 0 <= j < 4 ==> !Holds(AttractionRules[j].test, title)
  {
    KrugerLacksLetter(title, "Table Mountain"[2]);
    AbsentCharRulesOut(title, "Table Mountain", 2);
    KrugerLacksLetter(title, "Apartheid Museum"[5]);
    AbsentCharRulesOut(title, "Apartheid Museum", 5);
    KrugerLacksLetter(title, "Union Buildings"[6]);
    AbsentCharRulesOut(title, "Union Buildings", 6);
    KrugerLacksLetter(title, "uShaka"[2]);
    AbsentCharRulesOut(title, "uShaka", 2);
  }

  /** The next eight look for text the card lacks or for a prefix it does
      not start with. */
  lemma KrugerMissesMiddleRules(title: string)
    requires title == "Kruger National Park (Skukuza)"
    ensures forall j :: 4 <= j < 12 ==> !Holds(AttractionRules[j].test, title)
  {
    KrugerLacksLetter(title, "Drakensberg Amphitheatre"[0]);
    AbsentCharRulesOut(title, "Drakensberg Amphitheatre", 0);
    KrugerLacksLetter(title, "Kgalagadi Transfrontier Park"[7]);
    AbsentCharRulesOut(title, "Kgalagadi Transfrontier Park", 7);
    KrugerLacksLetter(title, "Knysna Heads"[7]);
    AbsentCharRulesOut(title, "Knysna Heads", 7);
    FirstCharRulesOutPrefix(title, "Addo Elephant Park");
    FirstCharRulesOutPrefix(title, "Blyde River Canyon");
    FirstCharRulesOutPrefix(title, "Durban Golden Mile");
    FirstCharRulesOutPrefix(title, "God's Window");
    FirstCharRulesOutPrefix(title, "Golden Gate Highlands");
  }

  lemma KrugerMatchesPrefixRule(title: string)
    requires title == "Kruger National Park (Skukuza)"
    ensures Holds(AttractionRules[12].test, title)
  {
    assert title[..|"Kruger National Park"|] == "Kruger National Park";
  }

  /** The Kruger card is matched first by the thirteenth rule, a prefix test,
      and gets the park's photo. */
  lemma KrugerImage()
    ensures AttractionImage("Kruger National Park (Skukuza)") == Some(KrugerNationalPark)
  {
    var title := "Kruger National Park (Skukuza)";
    KrugerMissesFirstRules(title);
    KrugerMissesMiddleRules(title);
    KrugerMatchesPrefixRule(title);
    FirstMatchAt(AttractionRules, title, 12);
  }
}
