/** The per-user document store (FirestoreRepository). The hosted database is
    modelled as three in-memory maps keyed by user id, each user's collection
    a map from document id to document; the authentication service is the
    `currentUser` field. Every operation first derives the uid ("" when no one
    is signed in) and does nothing, or returns nothing, without one. */
module Repository {
  import opened Text
  import opened Data

  /** There is always a non-blank id not yet used in a collection: document
      ids minted by the database are drawn from outside the used ones. */
  ghost function LongerThanAll(used: set<string>): (r: string)
    ensures r != [] && r[|r| - 1] == 'x'
    ensures forall k :: k in used ==> |k| < |r|
    decreases used
  {
    if used == {} then "x"
    else
      var k :| k in used;
      var r' := LongerThanAll(used - {k});
      if |k| >= |r'| then k + "x" else r'
  }

  lemma FreshIdExists(used: set<string>)
    ensures exists id :: !IsBlank(id) && id !in used
  {
    var r := LongerThanAll(used);
    assert r !in used;
  }

  /** The bookmark addBookmark stores for `place`: name "" , coordinates 0.0
      and no categories stand in for the missing fields. */
  function NewBookmark(id: string, uid: string, place: Place): Bookmark {
    Bookmark(
      id := id,
      uid := uid,
      placeName := place.name.GetOr(""),
      lat := place.lat.GetOr(0.0),
      lon := place.lon.GetOr(0.0),
      categories := place.categories.GetOr([]))
  }

  /** `r` lists collection `coll`: every element is a stored bookmark stamped
      with its document id, no document is listed twice, none is missed. */
  ghost predicate BookmarkListing(r: seq<Bookmark>, coll: map<string, Bookmark>) {
    && (forall i :: 0 <= i < |r| ==> r[i].id in coll && r[i] == coll[r[i].id].(id := r[i].id))
    && (forall i, j :: 0 <= i < j < |r| ==> r[i].id != r[j].id)
    && (forall k :: k in coll ==> exists i :: 0 <= i < |r| && r[i].id == k)
  }

  /** The same for itineraries. */
  ghost predicate ItineraryListing(r: seq<Itinerary>, coll: map<string, Itinerary>) {
    && (forall i :: 0 <= i < |r| ==> r[i].id in coll && r[i] == coll[r[i].id].(id := r[i].id))
    && (forall i, j :: 0 <= i < j < |r| ==> r[i].id != r[j].id)
    && (forall k :: k in coll ==> exists i :: 0 <= i < |r| && r[i].id == k)
  }

  ghost function Ids(r: seq<Bookmark>): set<string> {
    set i | 0 <= i < |r| :: r[i].id
  }

  /** A sequence of bookmarks with pairwise distinct ids has as many ids as
      elements. */
  lemma {:induction false} DistinctIdsCount(r: seq<Bookmark>)
    requires forall i, j :: 0 <= i < j < |r| ==> r[i].id != r[j].id
    ensures |Ids(r)| == |r|
  {
    if r != [] {
      var front := r[..|r| - 1];
      DistinctIdsCount(front);
      assert Ids(r) == Ids(front) + {r[|r| - 1].id};
      assert r[|r| - 1].id !in Ids(front);
    }
  }

  /** A bookmark listing has exactly one element per stored document. */
  lemma BookmarkListingSize(r: seq<Bookmark>, coll: map<string, Bookmark>)
    requires BookmarkListing(r, coll)
    ensures |r| == |coll|
  {
    DistinctIdsCount(r);
    assert Ids(r) == coll.Keys;
  }

  class FirestoreRepository {
    /** The identity the authentication service currently reports. */
    var currentUser: Option<AuthUser>
    /** users/{uid} */
    var profiles: map<string, UserProfile>
    /** users/{uid}/bookmarks/{id} */
    var bookmarks: map<string, map<string, Bookmark>>
    /** users/{uid}/itineraries/{id} */
    var itineraries: map<string, map<string, Itinerary>>

    /** Everything stored was written by this repository: each document
        records its own id and its owner. */
    ghost predicate Valid()
      reads this
    {
      && (forall u | u in profiles :: profiles[u].uid == u)
      && (forall u, k | u in bookmarks && k in bookmarks[u] ::
            bookmarks[u][k].id == k && bookmarks[u][k].uid == u)
      && (forall u, k | u in itineraries && k in itineraries[u] ::
            itineraries[u][k].id == k && itineraries[u][k].uid == u)
    }

    constructor (user: Option<AuthUser>)
      ensures currentUser == user
      ensures profiles == map[] && bookmarks == map[] && itineraries == map[]
      ensures Valid()
    {
      currentUser := user;
      profiles, bookmarks, itineraries := map[], map[], map[];
    }

    /** uid(): the signed-in user's id, or "" with no one signed in. */
    function Uid(): (u: string)
      reads this
      ensures currentUser.Some? ==> u == currentUser.value.uid
      ensures currentUser.None? ==> u == ""
    {
      if currentUser.Some? then currentUser.value.uid else ""
    }

    /** The bookmarks collection of user u (absent reads as empty). */
    function BookmarksOf(u: string): map<string, Bookmark>
      reads this
    {
      if u in bookmarks then bookmarks[u] else map[]
    }

    /** The itineraries collection of user u (absent reads as empty). */
    function ItinerariesOf(u: string): map<string, Itinerary>
      reads this
    {
      if u in itineraries then itineraries[u] else map[]
    }

    /** upsertUserProfile: with a signed-in user, overwrite users/{uid} with
        the given name and language and the account's e-mail ("" if none). */
    method UpsertUserProfile(name: string, language: string)
      modifies this`profiles
      ensures currentUser.None? ==> profiles == old(profiles)
      ensures currentUser.Some? ==>
        var u := currentUser.value;
        profiles == old(profiles)[u.uid := UserProfile(u.uid, name, u.email.GetOr(""), language)]
      ensures old(Valid()) ==> Valid()
    {
      if currentUser.None? { return; }
      var u := currentUser.value;
      profiles := profiles[u.uid := UserProfile(u.uid, name, u.email.GetOr(""), language)];
    }

    /** addBookmark: store one new document under a freshly minted id. The
        source returns nothing; `minted` exposes the new id to proofs only. */
    method AddBookmark(place: Place) returns (ghost minted: string)
      modifies this`bookmarks
      ensures Uid() == "" ==> bookmarks == old(bookmarks)
      ensures Uid() != "" ==>
        && !IsBlank(minted)
        && minted !in old(BookmarksOf(Uid()))
        && bookmarks == old(bookmarks)[Uid() := old(BookmarksOf(Uid()))[minted := NewBookmark(minted, Uid(), place)]]
      ensures old(Valid()) ==> Valid()
    {
      minted := "";
      var u := Uid();
      if u == "" { return; }
      var coll := BookmarksOf(u);
      FreshIdExists(coll.Keys);
      var id :| !IsBlank(id) && id !in coll;
      bookmarks := bookmarks[u := coll[id := NewBookmark(id, u, place)]];
      minted := id;
    }

    /** removeBookmark: delete users/{uid}/bookmarks/{id}; deleting a missing
        document is not an error. */
    method RemoveBookmark(id: string)
      modifies this`bookmarks
      ensures Uid() == "" ==> bookmarks == old(bookmarks)
      ensures Uid() != "" ==> BookmarksOf(Uid()) == old(BookmarksOf(Uid())) - {id}
      ensures forall v :: v != Uid() ==> BookmarksOf(v) == old(BookmarksOf(v))
      ensures bookmarks.Keys == old(bookmarks.Keys)
      ensures old(Valid()) ==> Valid()
    {
      var u := Uid();
      if u == "" { return; }
      if u in bookmarks {
        bookmarks := bookmarks[u := bookmarks[u] - {id}];
      }
    }

    /** listBookmarks: every document of the user's collection, each stamped
        with its document id; empty with no one signed in. The order the
        database returns documents in is not modelled. */
    method ListBookmarks() returns (r: seq<Bookmark>)
      ensures Uid() == "" ==> r == []
      ensures Uid() != "" ==> BookmarkListing(r, BookmarksOf(Uid()))
    {
      r := [];
      var u := Uid();
      if u == "" { return; }
      var coll := BookmarksOf(u);
      var todo := coll.Keys;
      while todo != {}
        invariant todo <= coll.Keys
        invariant forall i :: 0 <= i < |r| ==>
          r[i].id in coll && r[i].id !in todo && r[i] == coll[r[i].id].(id := r[i].id)
        invariant forall i, j :: 0 <= i < j < |r| ==> r[i].id != r[j].id
        invariant forall k :: k in coll && k !in todo ==> exists i :: 0 <= i < |r| && r[i].id == k
        decreases todo
      {
        var k :| k in todo;
        ghost var before := r;
        r := r + [coll[k].(id := k)];
        assert r[|r| - 1].id == k;
        assert forall i :: 0 <= i < |before| ==> r[i] == before[i];
        todo := todo - {k};
      }
    }

    /** getBookmark: nothing for a blank id or with no one signed in;
        otherwise the stored document stamped with its id, if it exists. */
    method GetBookmark(id: string) returns (r: Option<Bookmark>)
      ensures Uid() == "" || IsBlank(id) ==> r == None
      ensures r.Some? <==> Uid() != "" && !IsBlank(id) && id in BookmarksOf(Uid())
      ensures r.Some? ==> r.value == BookmarksOf(Uid())[id].(id := id)
    {
      var u := Uid();
      if u == "" || IsBlank(id) { return None; }
      var coll := BookmarksOf(u);
      r := if id in coll then Some(coll[id].(id := id)) else None;
    }

    /** saveItinerary: create one new document holding the items in order and
        return its id; nothing and no write with no one signed in. */
    method SaveItinerary(items: seq<ItineraryItem>) returns (r: Option<string>)
      modifies this`itineraries
      ensures Uid() == "" ==> r == None && itineraries == old(itineraries)
      ensures Uid() != "" ==>
        && r.Some? && !IsBlank(r.value)
        && r.value !in old(ItinerariesOf(Uid()))
        && itineraries == old(itineraries)[Uid() := old(ItinerariesOf(Uid()))[r.value := Itinerary(r.value, Uid(), items)]]
      ensures old(Valid()) ==> Valid()
    {
      var u := Uid();
      if u == "" { return None; }
      var coll := ItinerariesOf(u);
      FreshIdExists(coll.Keys);
      var id :| !IsBlank(id) && id !in coll;
      itineraries := itineraries[u := coll[id := Itinerary(id, u, items)]];
      r := Some(id);
    }

    /** getLatestItinerary: one document of the user's collection, or nothing
        when it is empty or no one is signed in. The query puts no order on
        the documents, so which one is returned is an arbitrary choice. The
        document is returned as stored, without stamping its id. */
    method GetLatestItinerary() returns (r: Option<Itinerary>)
      ensures r.None? <==> Uid() == "" || ItinerariesOf(Uid()) == map[]
      ensures r.Some? ==> exists k :: k in ItinerariesOf(Uid()) && r.value == ItinerariesOf(Uid())[k]
      ensures r.Some? && Valid() ==>
        r.value.id in ItinerariesOf(Uid()) && r.value == ItinerariesOf(Uid())[r.value.id]
    {
      var u := Uid();
      if u == "" { return None; }
      var coll := ItinerariesOf(u);
      if coll == map[] { return None; }
      var k :| k in coll;
      r := Some(coll[k]);
    }

    /** listItineraries: every itinerary of the user, stamped with its
        document id; empty with no one signed in. */
    method ListItineraries() returns (r: seq<Itinerary>)
      ensures Uid() == "" ==> r == []
      ensures Uid() != "" ==> ItineraryListing(r, ItinerariesOf(Uid()))
    {
      r := [];
      var u := Uid();
      if u == "" { return; }
      var coll := ItinerariesOf(u);
      var todo := coll.Keys;
      while todo != {}
        invariant todo <= coll.Keys
        invariant forall i :: 0 <= i < |r| ==>
          r[i].id in coll && r[i].id !in todo && r[i] == coll[r[i].id].(id := r[i].id)
        invariant forall i, j :: 0 <= i < j < |r| ==> r[i].id != r[j].id
        invariant forall k :: k in coll && k !in todo ==> exists i :: 0 <= i < |r| && r[i].id == k
        decreases todo
      {
        var k :| k in todo;
        ghost var before := r;
        r := r + [coll[k].(id := k)];
        assert r[|r| - 1].id == k;
        assert forall i :: 0 <= i < |before| ==> r[i] == before[i];
        todo := todo - {k};
      }
    }
  }

  /** Adding a bookmark and then fetching it by the new document's id (the
      one id the collection did not have before) gives back what was added:
      the place's fields, with the defaults for the missing ones, under that
      id and owned by the signed-in user. Signed out, nothing is stored and
      nothing comes back. */
  method AddThenGetBookmark(repo: FirestoreRepository, place: Place) returns (r: Option<Bookmark>)
    modifies repo`bookmarks
    ensures repo.Uid() == "" ==> r.None? && repo.bookmarks == old(repo.bookmarks)
    ensures repo.Uid() != "" ==>
      && r.Some?
      && r.value.id !in old(repo.BookmarksOf(repo.Uid()))
      && r.value == Bookmark(r.value.id, repo.Uid(), place.name.GetOr(""),
                          place.lat.GetOr(0.0), place.lon.GetOr(0.0), place.categories.GetOr([]))
  {
    var before := repo.BookmarksOf(repo.Uid());
    ghost var minted := repo.AddBookmark(place);
    if repo.Uid() == "" {
      return None;
    }
    var added := repo.BookmarksOf(repo.Uid()).Keys - before.Keys;
    assert minted in added;
    var id :| id in added;
    assert id == minted;
    r := repo.GetBookmark(id);
  }

  /** Adding a bookmark and then listing the bookmarks shows the new one,
      stamped with its id, beside every earlier one: the listing is one
      longer than the collection was. */
  method AddThenListBookmarks(repo: FirestoreRepository, place: Place) returns (r: seq<Bookmark>, ghost minted: string)
    modifies repo`bookmarks
    ensures repo.Uid() == "" ==> r == []
    ensures repo.Uid() != "" ==>
      && (exists i :: 0 <= i < |r| && r[i] == NewBookmark(minted, repo.Uid(), place))
      && |r| == |old(repo.BookmarksOf(repo.Uid()))| + 1
      && forall k :: k in old(repo.BookmarksOf(repo.Uid())) ==>
           exists i :: 0 <= i < |r| && r[i] == old(repo.BookmarksOf(repo.Uid()))[k].(id := k)
  {
    ghost var before := repo.BookmarksOf(repo.Uid());
    minted := repo.AddBookmark(place);
    r := repo.ListBookmarks();
    if repo.Uid() != "" {
      ListingAfterInsert(r, before, minted, NewBookmark(minted, repo.Uid(), place));
    }
  }

  /** A listing of a collection with one document inserted under a new id
      shows that document, stamped, and every earlier document, stamped:
      one more element than before. */
  lemma ListingAfterInsert(r: seq<Bookmark>, before: map<string, Bookmark>, id: string, b: Bookmark)
    requires id !in before && b.id == id
    requires BookmarkListing(r, before[id := b])
    ensures exists i :: 0 <= i < |r| && r[i] == b
    ensures |r| == |before| + 1
    ensures forall k :: k in before ==> exists i :: 0 <= i < |r| && r[i] == before[k].(id := k)
  {
    var coll := before[id := b];
    assert id in coll;
    var i :| 0 <= i < |r| && r[i].id == id;
    assert r[i] == b;
    BookmarkListingSize(r, coll);
    assert coll.Keys == before.Keys + {id};
    forall k | k in before
      ensures exists j :: 0 <= j < |r| && r[j] == before[k].(id := k)
    {
      assert k in coll && coll[k] == before[k];
      var j :| 0 <= j < |r| && r[j].id == k;
      assert r[j] == before[k].(id := k);
    }
  }
}
