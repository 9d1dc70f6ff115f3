# Exploreo — a verified model of the app's logic

Exploreo is an Android travel app for South Africa, written with Kotlin and Jetpack Compose.
Its logic sits inside composable event handlers, a Firestore-backed repository and a
DataStore-backed preference store. This project restates that logic in Dafny and proves what
it promises. The parts modelled are:

- **Firestore repository** (`Repository`). The store is a class with three per-user maps:
  profiles, bookmarks and itineraries. Every operation is gated on the signed-in uid. The model
  covers defaulting on insert, id stamping on listings, fresh ids on create, and a blank-id
  `getBookmark`.
- **Preferences** (`Preferences`). Five typed keys, each read with its default and written by
  its own setter.
- **Trip planner** (`Planner`). The `PlannerScreen` session is a class: add an item (only
  with a non-blank title), remove by position, load the latest itinerary, and the save guard.
  The share text is built by a loop and proved equal to a reference definition; its
  line-by-line shape is proved from that definition.
- **Explore screen** (`Explore`). The duplicate-bookmark rule (same name ignoring case, or
  both coordinates within 1e-5), the bookmark action over the repository, and the attraction
  image table.
- **Image tables** (`ImageLookup`). Ordered first-match rule lists with no result when
  nothing matches. They are shared by the attraction table and the map table.
- **Settings** (`Settings`):
  - the map-type mapping;
  - the account name derived from the e-mail's local part;
  - the account dialog's fields;
  - the map image table;
  - the chip selection state.
- **Login and registration** (`Auth`). The validation guards, the error state, and the
  effects after a successful sign-up.
- **Kotlin text helpers** (`Text`). ASCII versions of the Kotlin string functions the app
  calls: `isBlank`, `trim`, `equals`/`contains` with `ignoreCase`, `startsWith`,
  `substringBefore`, `replace`, `split`, `joinToString` and `uppercase`.

The platform is abstract:

- The signed-in user is a field of the repository.
- Document ids are drawn nondeterministically from the ids not yet used.
- The date formatter (`SimpleDateFormat`) and the number parser (`toDoubleOrNull`) are
  function parameters.
- `Double` coordinates are `real`.

## Model

| member | source | states |
|---|---|---|
| Repository.FirestoreRepository.constructor | app/src/main/java/com/example/exploreo/data/Repository.kt:38-42 | the signed-in user is the one given; all three stores are empty and valid |
| Repository.FirestoreRepository.Uid | app/src/main/java/com/example/exploreo/data/Repository.kt:42 | the signed-in user's id, or "" when no one is signed in |
| Repository.FreshIdExists | app/src/main/java/com/example/exploreo/data/Repository.kt:53 | a collection always has room for a fresh, non-blank document id |
| Repository.NewBookmark | app/src/main/java/com/example/exploreo/data/Repository.kt:54-61 | the document addBookmark builds: the minted id, the current uid, the place's name, lat, lon and categories, with "", 0.0, 0.0 and [] for missing ones |
| Repository.FirestoreRepository.UpsertUserProfile | app/src/main/java/com/example/exploreo/data/Repository.kt:44-48 | signed out: no write. Signed in: users/{uid} becomes the profile with uid, name, the account e-mail or "", and language; nothing else changes |
| Repository.FirestoreRepository.AddBookmark | app/src/main/java/com/example/exploreo/data/Repository.kt:50-63 | signed out: no write. Signed in: exactly one new document under a fresh non-blank id, with owner = uid, the place's name/lat/lon/categories, and "", 0.0, 0.0, [] for missing fields; other users untouched; validity kept |
| Repository.FirestoreRepository.RemoveBookmark | app/src/main/java/com/example/exploreo/data/Repository.kt:65-69 | signed out: no write. Signed in: the user's collection loses exactly the given id (deleting a missing id is a no-op); every other user's collection is unchanged |
| Repository.FirestoreRepository.ListBookmarks | app/src/main/java/com/example/exploreo/data/Repository.kt:71-76 | signed out: empty. Signed in: every stored document appears exactly once, stamped with its document id, and nothing else appears |
| Repository.BookmarkListingSize | app/src/main/java/com/example/exploreo/data/Repository.kt:75 | a bookmark listing has exactly as many elements as the collection has documents |
| Repository.DistinctIdsCount | app/src/main/java/com/example/exploreo/data/Repository.kt:75 | elements with pairwise distinct ids have as many ids as elements |
| Repository.FirestoreRepository.GetBookmark | app/src/main/java/com/example/exploreo/data/Repository.kt:78-83 | nothing when signed out or the id is blank; otherwise the stored document stamped with its id when one exists, else nothing |
| Repository.FirestoreRepository.SaveItinerary | app/src/main/java/com/example/exploreo/data/Repository.kt:85-93 | signed out: no result and no write. Signed in: the result is a fresh non-blank id, and exactly one new document holds that id, the uid and the items in order |
| Repository.FirestoreRepository.GetLatestItinerary | app/src/main/java/com/example/exploreo/data/Repository.kt:95-100 | nothing exactly when signed out or the collection is empty; otherwise one stored document, returned as stored (unstamped), which is the store's entry under its own id when the store is valid |
| Repository.FirestoreRepository.ListItineraries | app/src/main/java/com/example/exploreo/data/Repository.kt:102-108 | signed out: empty. Signed in: every stored itinerary appears exactly once, stamped with its id |
| Repository.AddThenGetBookmark | app/src/main/java/com/example/exploreo/data/Repository.kt:50-83 | signed in, a bookmark added and then fetched by the one new document id comes back with that fresh id, the signed-in uid as owner, and the place's fields with the defaults for missing ones; signed out, nothing is stored or returned |
| Repository.AddThenListBookmarks | app/src/main/java/com/example/exploreo/data/Repository.kt:50-76 | signed in, after adding a bookmark the listing holds the new document stamped with its id and every earlier document stamped with its id, and is one longer than the collection was; signed out, the listing is empty |
| Repository.ListingAfterInsert | app/src/main/java/com/example/exploreo/data/Repository.kt:75 | a listing of a collection with one document inserted under a new id holds that document and every earlier one, and has one more element |
| Preferences.KeyNamesDistinct | app/src/main/java/com/example/exploreo/data/Preferences.kt:13-19 | two keys have the same stored name exactly when they are the same key |
| Preferences.KeyName | app/src/main/java/com/example/exploreo/data/Preferences.kt:13-19 | the name each key is stored under: "dark_mode", "language", "map_type", "traffic_enabled", "image_quality" |
| Preferences.Default | app/src/main/java/com/example/exploreo/data/Preferences.kt:22-26 | each key's default has the key's type |
| Preferences.Read | app/src/main/java/com/example/exploreo/data/Preferences.kt:22-26 | a read has the key's type and gives the default for an unset key |
| Preferences.Write | app/src/main/java/com/example/exploreo/data/Preferences.kt:27-51 | a setter's edit: the key's stored name now holds the new value |
| Preferences.UnsetReadsDefault | app/src/main/java/com/example/exploreo/data/Preferences.kt:22-26 | an empty store reads as dark mode true, "English", "Normal", traffic true, "High" |
| Preferences.ReadAfterWrite | app/src/main/java/com/example/exploreo/data/Preferences.kt:27-51 | a well-typed write keeps the store well typed; the key reads back as the value written; every other key reads as before |
| Preferences.WriteIdempotent | app/src/main/java/com/example/exploreo/data/Preferences.kt:27-51 | writing the same value twice equals writing it once |
| Preferences.PreferencesRepository.constructor | app/src/main/java/com/example/exploreo/data/Preferences.kt:11 | the store starts empty and well typed |
| Preferences.PreferencesRepository.DarkModeValue | app/src/main/java/com/example/exploreo/data/Preferences.kt:22 | dark mode reads the stored flag, or true when none is stored |
| Preferences.PreferencesRepository.LanguageValue | app/src/main/java/com/example/exploreo/data/Preferences.kt:23 | the language reads the stored name, or "English" when none is stored |
| Preferences.PreferencesRepository.MapTypeValue | app/src/main/java/com/example/exploreo/data/Preferences.kt:24 | the map type reads the stored label, or "Normal" when none is stored |
| Preferences.PreferencesRepository.TrafficEnabledValue | app/src/main/java/com/example/exploreo/data/Preferences.kt:25 | traffic reads the stored flag, or true when none is stored |
| Preferences.PreferencesRepository.ImageQualityValue | app/src/main/java/com/example/exploreo/data/Preferences.kt:26 | the image quality reads the stored label, or "High" when none is stored |
| Preferences.PreferencesRepository.SetDarkMode | app/src/main/java/com/example/exploreo/data/Preferences.kt:27-31 | dark mode reads as the value given; the other four settings read as before |
| Preferences.PreferencesRepository.SetLanguage | app/src/main/java/com/example/exploreo/data/Preferences.kt:32-36 | language reads as the value given; the other four settings read as before |
| Preferences.PreferencesRepository.SetMapType | app/src/main/java/com/example/exploreo/data/Preferences.kt:37-41 | map type reads as the value given; the other four settings read as before |
| Preferences.PreferencesRepository.SetTrafficEnabled | app/src/main/java/com/example/exploreo/data/Preferences.kt:42-46 | traffic reads as the value given; the other four settings read as before |
| Preferences.PreferencesRepository.SetImageQuality | app/src/main/java/com/example/exploreo/data/Preferences.kt:47-51 | image quality reads as the value given; the other four settings read as before |
| Preferences.SetMapTypeTwice | app/src/main/java/com/example/exploreo/data/Preferences.kt:37-41 | calling the setter twice with one value leaves the store as one call does |
| Planner.WhenPart | app/src/main/java/com/example/exploreo/screens/BottomNav.kt:449-452 | no time: empty; a time and a date: formatted date, space, time; a time without a date: the time alone |
| Planner.LineText | app/src/main/java/com/example/exploreo/screens/BottomNav.kt:453 | the text of item n's line: the number, ". ", the title, " (when)" when the when-part is not blank, ": note" when the note is not blank |
| Planner.ItemLine | app/src/main/java/com/example/exploreo/screens/BottomNav.kt:453 | an item line is its text followed by a line break |
| Planner.Body | app/src/main/java/com/example/exploreo/screens/BottomNav.kt:448-454 | the item lines in list order, numbered from n on |
| Planner.ShareText | app/src/main/java/com/example/exploreo/screens/BottomNav.kt:446-455 | the share text: the header "My Exploreo itinerary:" and a line break, then the body numbered from 1 |
| Planner.LineTextShape | app/src/main/java/com/example/exploreo/screens/BottomNav.kt:453 | an item's line starts with "N. title"; " (when)" follows exactly when the when-part is not blank; it ends with ": note" exactly when the note is not blank; the length is the sum of these parts |
| Planner.BodyAppend | app/src/main/java/com/example/exploreo/screens/BottomNav.kt:448-454 | appending an item appends its line, numbered one past the others |
| Planner.BuildShareText | app/src/main/java/com/example/exploreo/screens/BottomNav.kt:446-455 | the buildString loop produces the header followed by each item's numbered line |
| Planner.LineTextSingleLine | app/src/main/java/com/example/exploreo/screens/BottomNav.kt:453 | an item whose title, note, time and date text hold no line break gives a line with no line break |
| Planner.BodyTerminated | app/src/main/java/com/example/exploreo/screens/BottomNav.kt:448-454 | the body is the item lines, in list order, each ended by a line break |
| Planner.BodyLines | app/src/main/java/com/example/exploreo/screens/BottomNav.kt:448-454 | for items whose text holds no line break, splitting the body on line breaks gives the item lines and then an empty piece |
| Planner.ShareTextSplit | app/src/main/java/com/example/exploreo/screens/BottomNav.kt:446-455 | for items whose text holds no line break, splitting the share text on line breaks gives the header line, the item lines, then an empty piece |
| Planner.ShareTextLines | app/src/main/java/com/example/exploreo/screens/BottomNav.kt:446-455 | for items whose text holds no line break, read back line by line, the share text has items+1 terminated lines: the header, then the line of item i numbered i+1, in order |
| Planner.LineWithTimeExample | app/src/main/java/com/example/exploreo/screens/BottomNav.kt:449-453 | an item "Beach" with time 10:00 and no date becomes "1. Beach (10:00)" |
| Planner.LineWithNoteExample | app/src/main/java/com/example/exploreo/screens/BottomNav.kt:453 | item 2 "Market" with note "buy gifts" and no time becomes "2. Market: buy gifts" |
| Planner.ShareTextExample | app/src/main/java/com/example/exploreo/screens/BottomNav.kt:446-455 | the two items above share as the header line followed by their two lines |
| Planner.WithoutIndex | app/src/main/java/com/example/exploreo/screens/BottomNav.kt:496 | removal at an in-range index drops exactly that element and keeps the rest in order; an out-of-range index changes nothing |
| Planner.WithoutIndexMultiset | app/src/main/java/com/example/exploreo/screens/BottomNav.kt:496 | removal at an in-range index shortens the list by one and removes one occurrence of that element only |
| Planner.TimeField | app/src/main/java/com/example/exploreo/screens/BottomNav.kt:591 | the time field stores nothing exactly for blank input, else the input unchanged |
| Planner.PlannerSession.constructor | app/src/main/java/com/example/exploreo/screens/BottomNav.kt:426-430 | the session starts with no items, the dialog closed and no saved id |
| Planner.PlannerSession.OpenAddDialog | app/src/main/java/com/example/exploreo/screens/BottomNav.kt:443 | the add dialog is open |
| Planner.PlannerSession.DismissAddDialog | app/src/main/java/com/example/exploreo/screens/BottomNav.kt:540 | the add dialog is closed |
| Planner.PlannerSession.ConfirmAdd | app/src/main/java/com/example/exploreo/screens/BottomNav.kt:543-555 | blank title: nothing changes and the dialog stays open. Otherwise the list grows by one at the end, earlier items are unchanged, the new item carries the dialog's title, note, parsed coordinates, the time field's text only when it is not blank (the `ifBlank { null }` of line 591), and no date (the dialog cannot set one), and the dialog closes |
| Planner.PlannerSession.Remove | app/src/main/java/com/example/exploreo/screens/BottomNav.kt:496 | in range: exactly the element at idx is gone and the rest keep their order; out of range: unchanged |
| Planner.PlannerSession.LoadLatest | app/src/main/java/com/example/exploreo/screens/BottomNav.kt:444 | with a latest itinerary, the list becomes that itinerary's items; otherwise the list is unchanged |
| Planner.PlannerSession.Share | app/src/main/java/com/example/exploreo/screens/BottomNav.kt:446-455 | the shared text is the share text of the current items |
| Planner.PlannerSession.Save | app/src/main/java/com/example/exploreo/screens/BottomNav.kt:508-522 | empty list: "Add at least one item before saving", no store write, saved id unchanged. Signed out: the sign-in message, and the saved id is cleared. Otherwise "Itinerary saved", a fresh non-blank saved id, and exactly one new itinerary holding the items |
| Explore.Abs | app/src/main/java/com/example/exploreo/screens/BottomNav.kt:257 | the absolute value is non-negative and equals x or -x |
| Explore.SamePlace | app/src/main/java/com/example/exploreo/screens/BottomNav.kt:257 | an existing bookmark stands for the attraction: the same name ignoring case, or both coordinates less than 1e-5 apart |
| Explore.AnySamePlace | app/src/main/java/com/example/exploreo/screens/BottomNav.kt:257 | true exactly when some existing bookmark has the candidate's name ignoring case, or both coordinates within 1e-5 |
| Explore.ListingHasSamePlace | app/src/main/java/com/example/exploreo/screens/BottomNav.kt:256-257 | a listing of the collection has a matching bookmark exactly when the stored collection does |
| Explore.StampKeepsSamePlace | app/src/main/java/com/example/exploreo/screens/BottomNav.kt:257 | stamping a document with its id does not change whether it matches |
| Explore.PlaceFor | app/src/main/java/com/example/exploreo/screens/BottomNav.kt:262-269 | the place handed to addBookmark: the attraction's name and coordinates, country "South Africa", no city, categories ["tourism.sights"] |
| Explore.ListedMatchIsStored | app/src/main/java/com/example/exploreo/screens/BottomNav.kt:256-257 | a match in the listing is a match in the store |
| Explore.StoredMatchIsListed | app/src/main/java/com/example/exploreo/screens/BottomNav.kt:256-257 | a match in the store is a match in the listing |
| Explore.StoredForAttraction | app/src/main/java/com/example/exploreo/screens/BottomNav.kt:260-270 | the stored bookmark for an attraction has its name and coordinates and categories ["tourism.sights"] |
| Explore.BookmarkAttraction | app/src/main/java/com/example/exploreo/screens/BottomNav.kt:255-272 | duplicate: "You have already added to bookmarks" and no write. Otherwise "Added to Bookmarks", and when signed in exactly one new bookmark for the attraction under a fresh id; validity kept |
| Explore.DuplicateExamples | app/src/main/java/com/example/exploreo/screens/BottomNav.kt:257 | the Table Mountain bookmark makes a differently-cased name a duplicate, and a point a few millionths of a degree away; a point 0.0072 degrees south is not a duplicate |
| Explore.ToleranceIsStrict | app/src/main/java/com/example/exploreo/screens/BottomNav.kt:257 | the tolerance is strict: a point exactly 1e-5 away on both axes is not a duplicate in exact arithmetic |
| Explore.AttractionImage | app/src/main/java/com/example/exploreo/screens/BottomNav.kt:291-317 | no image exactly when no rule holds; otherwise the image of the first rule that holds, in listed order |
| Explore.TableMountainImage | app/src/main/java/com/example/exploreo/screens/BottomNav.kt:293 | "Table Mountain, Cape Town" gets the Table Mountain photo |
| Explore.ShoutedTableMountainImage | app/src/main/java/com/example/exploreo/screens/BottomNav.kt:293 | "TABLE MOUNTAIN" gets the same photo, because the test ignores case |
| Explore.KrugerImage | app/src/main/java/com/example/exploreo/screens/BottomNav.kt:291-317 | "Kruger National Park (Skukuza)" fails the first twelve rules (it lacks a character of each contains-pattern and does not start with any earlier prefix), is decided by the thirteenth, a prefix test, and gets the Kruger photo |
| ImageLookup.FirstMatchIndex | app/src/main/java/com/example/exploreo/screens/BottomNav.kt:291-317 | the position of the first rule that holds; every earlier rule fails; no rules hold when it is past the end |
| ImageLookup.FirstMatch | app/src/main/java/com/example/exploreo/screens/HomeAndSettings.kt:158-178 | no result exactly when no rule holds; otherwise the image of a rule that holds with none holding before it |
| ImageLookup.FirstMatchShadows | app/src/main/java/com/example/exploreo/screens/BottomNav.kt:291-317 | when rule k holds, the chosen rule is at or before k |
| ImageLookup.FirstMatchAt | app/src/main/java/com/example/exploreo/screens/BottomNav.kt:291-317 | when rule k holds and no earlier one does, rule k's image is chosen |
| ImageLookup.AbsentCharRulesOut | app/src/main/java/com/example/exploreo/screens/HomeAndSettings.kt:158-178 | a pattern cannot occur in a name lacking one of its characters, with or without ignoring case |
| ImageLookup.FirstCharRulesOutPrefix | app/src/main/java/com/example/exploreo/screens/BottomNav.kt:297 | a name whose first character differs from the prefix's does not start with it |
| ImageLookup.PrefixIsContained | app/src/main/java/com/example/exploreo/screens/BottomNav.kt:293 | a name that starts with a pattern contains it |
| Settings.MapTypeOf | app/src/main/java/com/example/exploreo/screens/HomeAndSettings.kt:245-249 | "Satellite" gives a satellite map, "Terrain" a terrain map, and every other string, "Normal" included, a normal map; each iff |
| Settings.MapTypeName | app/src/main/java/com/example/exploreo/screens/HomeAndSettings.kt:90-116 | each chip's label, which is also the setting it stores: "Normal", "Satellite" and "Terrain", each exactly for its own chip |
| Settings.MapTypeRoundTrip | app/src/main/java/com/example/exploreo/screens/HomeAndSettings.kt:90-116 | each chip's stored setting maps back to that chip's kind, and no two chips store the same setting |
| Settings.Capitalize | app/src/main/java/com/example/exploreo/screens/HomeAndSettings.kt:141 | same length; the first character upper-cased and the rest unchanged |
| Settings.CapitalizeAll | app/src/main/java/com/example/exploreo/screens/HomeAndSettings.kt:141 | each word is capitalised, in place |
| Settings.Spaced | app/src/main/java/com/example/exploreo/screens/HomeAndSettings.kt:141 | same length; '.', '_' and '-' become spaces and every other character is kept |
| Settings.NameFromEmail | app/src/main/java/com/example/exploreo/screens/HomeAndSettings.kt:141 | the name derived from an e-mail: the text before the first '@', with '.', '_' and '-' as spaces, split on ' ', each word capitalised, rejoined with ' ' |
| Settings.WordStartsUpperStep | app/src/main/java/com/example/exploreo/screens/HomeAndSettings.kt:141 | capitalising the first word, then the separator, then capitalised later words, upper-cases exactly the word starts of the joined text |
| Settings.JoinCapitalized | app/src/main/java/com/example/exploreo/screens/HomeAndSettings.kt:141 | joining capitalised words gives the joined text with exactly its word-initial characters upper-cased |
| Settings.NameFromEmailChars | app/src/main/java/com/example/exploreo/screens/HomeAndSettings.kt:141 | the derived name has the local part's length and is the spaced local part with each word-initial character upper-cased and the rest unchanged |
| Settings.CapitalizeAvoids | app/src/main/java/com/example/exploreo/screens/HomeAndSettings.kt:141 | capitalising introduces no character other than an upper-case letter |
| Settings.SplitAvoids | app/src/main/java/com/example/exploreo/screens/HomeAndSettings.kt:141 | a character absent from the text is absent from every piece of its split |
| Settings.CapitalizeAllAvoids | app/src/main/java/com/example/exploreo/screens/HomeAndSettings.kt:141 | the same for all words |
| Settings.SpacedAvoids | app/src/main/java/com/example/exploreo/screens/HomeAndSettings.kt:141 | the spaced local part holds no '@', '.', '_' or '-' |
| Settings.NameAvoids | app/src/main/java/com/example/exploreo/screens/HomeAndSettings.kt:141 | a non-letter, non-space character absent from the spaced local part is absent from the name |
| Settings.NameFromEmailAvoids | app/src/main/java/com/example/exploreo/screens/HomeAndSettings.kt:141 | the derived name contains no '@', '.', '_' or '-' |
| Settings.LocalPartExample | app/src/main/java/com/example/exploreo/screens/HomeAndSettings.kt:141 | the local part of "jane.doe@example.com" is "jane.doe" |
| Settings.SpacedExample | app/src/main/java/com/example/exploreo/screens/HomeAndSettings.kt:141 | "jane.doe" spaced is "jane doe" |
| Settings.WordStartsExample | app/src/main/java/com/example/exploreo/screens/HomeAndSettings.kt:141 | the only word-start capitalisation of "jane doe" is "Jane Doe" |
| Settings.NameFromEmailExample | app/src/main/java/com/example/exploreo/screens/HomeAndSettings.kt:141 | "jane.doe@example.com" gives the name "Jane Doe" |
| Settings.AccountName | app/src/main/java/com/example/exploreo/screens/HomeAndSettings.kt:140-141 | a non-blank display name is shown unchanged; else the name derived from the e-mail; with no user or no e-mail, "Unknown" |
| Settings.AccountEmail | app/src/main/java/com/example/exploreo/screens/HomeAndSettings.kt:142 | the account's e-mail, or "Unknown" without one |
| Settings.MapImage | app/src/main/java/com/example/exploreo/screens/HomeAndSettings.kt:158-178 | no image exactly when no pattern is contained, ignoring case; otherwise the image of the first that is |
| Settings.VilakaziImage | app/src/main/java/com/example/exploreo/screens/HomeAndSettings.kt:164 | "Soweto (Vilakazi Street)" fails the first four map rules, is decided by the "Vilakazi Street" rule, and deliberately gets the waterfront image |
| Settings.SettingsState.constructor | app/src/main/java/com/example/exploreo/screens/HomeAndSettings.kt:70-73 | the selections start as the stored settings, and the account dialog is closed |
| Settings.SettingsState.SelectedChipCount | app/src/main/java/com/example/exploreo/screens/HomeAndSettings.kt:90-116 | at most one map chip is selected, and exactly one when the selection names a chip |
| Settings.SettingsState.ClickMapChip | app/src/main/java/com/example/exploreo/screens/HomeAndSettings.kt:90-116 | afterwards the chip clicked and no other is selected, and its setting is forwarded |
| Settings.SettingsState.ClickLanguage | app/src/main/java/com/example/exploreo/screens/HomeAndSettings.kt:84 | "English" is selected and forwarded |
| Settings.SettingsState.ClickImageQuality | app/src/main/java/com/example/exploreo/screens/HomeAndSettings.kt:127-128 | "High" or "Standard" is selected and the same value forwarded |
| Settings.SettingsState.OpenAccount | app/src/main/java/com/example/exploreo/screens/HomeAndSettings.kt:133 | the account dialog is open |
| Settings.SettingsState.CloseAccount | app/src/main/java/com/example/exploreo/screens/HomeAndSettings.kt:144-145 | the account dialog is closed |
| Auth.LoginRequest | app/src/main/java/com/example/exploreo/screens/AuthScreens.kt:51-54 | no request exactly when the e-mail is blank or the password is shorter than 6; otherwise the trimmed e-mail and the password unmodified |
| Auth.RegisterRequest | app/src/main/java/com/example/exploreo/screens/AuthScreens.kt:105-108 | no request exactly when the name or the e-mail is blank or the password is shorter than 6; otherwise the trimmed e-mail and the password unmodified |
| Auth.AcceptedEmailIsTrimmed | app/src/main/java/com/example/exploreo/screens/AuthScreens.kt:54 | an accepted e-mail is sent non-empty, with no surrounding whitespace, as a slice of what was typed |
| Auth.SignUpEffects | app/src/main/java/com/example/exploreo/screens/AuthScreens.kt:109-116 | the display name is updated at most once, and only to the form's name, exactly when a user came back and the name is not blank; onRegistered comes last and exactly once |
| Auth.LoginForm.constructor | app/src/main/java/com/example/exploreo/screens/AuthScreens.kt:18-21 | the form starts empty, with the password hidden and no error |
| Auth.LoginForm.TogglePassword | app/src/main/java/com/example/exploreo/screens/AuthScreens.kt:45 | the password's visibility flips |
| Auth.LoginForm.Submit | app/src/main/java/com/example/exploreo/screens/AuthScreens.kt:49-55 | the error is cleared; a rejected form shows "Enter a valid email and 6+ char password" and sends nothing; an accepted one sends the login request with no error |
| Auth.LoginForm.SignInFailed | app/src/main/java/com/example/exploreo/screens/AuthScreens.kt:56 | the error becomes the failure's message, possibly none |
| Auth.RegisterForm.constructor | app/src/main/java/com/example/exploreo/screens/AuthScreens.kt:69-73 | the form starts empty, with the password hidden and no error |
| Auth.RegisterForm.TogglePassword | app/src/main/java/com/example/exploreo/screens/AuthScreens.kt:99 | the password's visibility flips |
| Auth.RegisterForm.Submit | app/src/main/java/com/example/exploreo/screens/AuthScreens.kt:103-108 | the error is cleared; a rejected form shows "Fill all fields. Password 6+ chars" and sends nothing; an accepted one sends the registration request with no error |
| Auth.RegisterForm.SignUpSucceeded | app/src/main/java/com/example/exploreo/screens/AuthScreens.kt:109-116 | the effects of a successful sign-up are those of SignUpEffects for the returned user and the current name |
| Auth.RegisterForm.SignUpFailed | app/src/main/java/com/example/exploreo/screens/AuthScreens.kt:118 | the error becomes the failure's message, possibly none |
| Text.Trim | app/src/main/java/com/example/exploreo/screens/AuthScreens.kt:54 | the trimmed text is empty exactly for blank input; otherwise it starts and ends with non-whitespace and is the input without its leading and trailing whitespace |
| Text.Split | app/src/main/java/com/example/exploreo/screens/HomeAndSettings.kt:141 | a split has at least one piece, and no piece holds the separator |
| Text.JoinSplit | app/src/main/java/com/example/exploreo/screens/HomeAndSettings.kt:141 | joining the pieces of a split with the same separator gives back the text |
| Text.SplitTerminated | app/src/main/java/com/example/exploreo/screens/BottomNav.kt:448-454 | splitting pieces that each end with the separator gives the pieces back, then an empty piece |
| Text.SubstringBefore | app/src/main/java/com/example/exploreo/screens/HomeAndSettings.kt:141 | the text before the first delimiter (the '@' here), or the whole text when it has none; the result holds no delimiter |
| Text.NatToStringRoundTrip | app/src/main/java/com/example/exploreo/screens/BottomNav.kt:453 | the decimal digits of an item number read back as that number |

## Left out

- The rendering is not modelled. This covers Compose layout, snackbars as UI, dialogs' visuals, the press-aware buttons and the theme. Only the messages and state changes are modelled.
- Navigation is not modelled (the navigation graphs in BottomNav.kt and App.kt, and the start-route choice). It is wiring over the navigation library.
- Firebase Auth, Firestore and coroutines are not modelled. The signed-in user is a field, and the authentication answers are method arguments. Network failures inside the repository, `await` and snapshot listeners are left out.
- Document order is not modelled. The order in which Firestore returns documents in `listBookmarks`/`listItineraries` is left open: the listing is any order of the stored documents.
- `toObject` is assumed to always succeed. A document it could not map is not modelled as dropped.
- Repository.FirestoreRepository.AddBookmark: the source returns nothing, so the minted id is exposed to proofs only, as a ghost out-parameter.
- Repository.FirestoreRepository.Valid: it assumes that only the app writes to the store. Documents written by other clients, with mismatched ids or owners, are not modelled.
- Repository.FirestoreRepository.GetLatestItinerary: `limit(1)` with no sort order is an arbitrary choice among the stored itineraries. "Latest" is not guaranteed, as in the source.
- The Geoapify network client is not modelled. Only the `Place` record shape is used.
- Platform hand-offs are not modelled: share and map intents, `geo:` and navigation URIs, and static-map and street-view URLs. They are fire-and-forget calls to the platform. The share text handed to the intent is modelled.
- Coordinates are `real`, not IEEE doubles, so rounding in the 1e-5 comparison is not captured. The tie case differs: a point exactly 1e-5 from a bookmark on both axes, such as (-33.96281, 18.40981) against (-33.9628, 18.4098), is not a duplicate in the model (Explore.ToleranceIsStrict). The app's doubles put both differences just under 1e-5, so the app calls it a duplicate. The near-duplicate example therefore uses a point well inside the tolerance.
- Typed latitude and longitude are parsed by a `toDouble` parameter standing for `toDoubleOrNull`. Dates are formatted by a `formatDate` parameter standing for `SimpleDateFormat("EEE, d MMM")` with the default locale.
- Case folding and whitespace are ASCII only. Kotlin's Unicode `uppercase`, `equals(ignoreCase)` and `isWhitespace` are not modelled beyond ASCII, and password length counts characters rather than UTF-16 units.
- The bookmark pre-fill dropdown in the add dialog (BottomNav.kt lines 566-589) is not modelled. It copies a bookmark's name and its coordinates printed with `Double.toString` into the text fields, and that printing is not modelled.
- The "Saved: …" label, and the saved-itineraries list screen that renders ListItineraries, are not modelled. They are display only.
- The dark-mode and traffic switches are not modelled separately. They pass the new value straight to SetDarkMode and SetTrafficEnabled.
- The bookmarks screen's remove-and-reload and the map screen's markers are not modelled. They are outside the modelled core.
- The hard-coded attraction and map catalogues are not modelled as tables. They appear only in the concrete examples.
