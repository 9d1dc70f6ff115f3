/** The records the app stores and exchanges: the four data classes of the
    repository layer, the place record returned by the place search, and the
    part of the signed-in identity the screens read. Kotlin `Double` is
    modelled as `real`, `Long` as `int`, a nullable `T?` as `Option<T>`. */
module Data {
  import opened Text

  /** users/{uid}: one profile per signed-in identity. */
  datatype UserProfile = UserProfile(uid: string, name: string, email: string, language: string)

  /** users/{uid}/bookmarks/{id}. */
  datatype Bookmark = Bookmark(
    id: string,
    uid: string,
    placeName: string,
    lat: real,
    lon: real,
    categories: seq<string>)

  /** One stop of an itinerary; lives only inside an Itinerary or the planner. */
  datatype ItineraryItem = ItineraryItem(
    title: string,
    note: string,
    dateMillis: Option<int>,
    time: Option<string>,
    lat: Option<real>,
    lon: Option<real>)

  /** users/{uid}/itineraries/{id}. */
  datatype Itinerary = Itinerary(id: string, uid: string, items: seq<ItineraryItem>)

  /** A place-search result; every field may be missing. */
  datatype Place = Place(
    name: Option<string>,
    lon: Option<real>,
    lat: Option<real>,
    country: Option<string>,
    city: Option<string>,
    categories: Option<seq<string>>)

  /** The signed-in identity as the authentication service reports it. */
  datatype AuthUser = AuthUser(uid: string, email: Option<string>, displayName: Option<string>)
}
