/** The trip planner screen's logic (PlannerScreen): the itinerary being
    built, the add-item dialog's confirm and dismiss, removal by position,
    loading the latest saved itinerary, the save guard, and the plain-text
    rendering handed to the share sheet. The date formatter and the number
    parser the dialog uses are parameters. */
module Planner {
  import opened Text
  import opened Data
  import opened Repository

  // ---------------------------------------------------------------------------
  // Share text

  const HeaderLine := "My Exploreo itinerary:"
  const Header := HeaderLine + "\n"

  /** The "when" of an item: nothing without a time; the formatted date, a
      space and the time when there is a date; else the time alone. */
  function WhenPart(item: ItineraryItem, formatDate: int -> string): (w: string)
    ensures item.time.None? ==> w == ""
    ensures item.time.Some? && item.dateMillis.None? ==> w == item.time.value
    ensures item.time.Some? && item.dateMillis.Some? ==>
      w == formatDate(item.dateMillis.value) + " " + item.time.value
  {
    match item.time
    case None => ""
    case Some(t) =>
      match item.dateMillis
      case Some(d) => formatDate(d) + " " + t
      case None => t
  }

  /** The line of the n-th item, without its line break. */
  function LineText(n: nat, item: ItineraryItem, formatDate: int -> string): string {
    var w := WhenPart(item, formatDate);
    NatToString(n) + ". " + item.title
      + (if !IsBlank(w) then " (" + w + ")" else "")
      + (if !IsBlank(item.note) then ": " + item.note else "")
  }

  /** The shape of an item's line: it starts with the number, ". " and the
      title; " (when)" follows exactly when the when is not blank, and the
      line ends with ": note" exactly when the note is not blank. */
  lemma LineTextShape(n: nat, item: ItineraryItem, formatDate: int -> string)
    ensures var r := LineText(n, item, formatDate);
      var head := NatToString(n) + ". " + item.title;
      var w := WhenPart(item, formatDate);
      && |head| <= |r| && r[..|head|] == head
      && |r| == |head| + (if IsBlank(w) then 0 else |w| + 3) + (if IsBlank(item.note) then 0 else |item.note| + 2)
      && (!IsBlank(w) ==> r[|head|..|head| + |w| + 3] == " (" + w + ")")
      && (!IsBlank(item.note) ==> r[|r| - |item.note| - 2..] == ": " + item.note)
      && (IsBlank(item.note) && IsBlank(w) ==> r == head)
  {
    var w := WhenPart(item, formatDate);
    var head := NatToString(n) + ". " + item.title;
    var whenSuffix := if !IsBlank(w) then " (" + w + ")" else "";
    var noteSuffix := if !IsBlank(item.note) then ": " + item.note else "";
    assert LineText(n, item, formatDate) == head + whenSuffix + noteSuffix;
    ThreeParts(head, whenSuffix, noteSuffix);
  }

  lemma ThreeParts(head: string, mid: string, tail: string)
    ensures var r := head + mid + tail;
      && r[..|head|] == head
      && r[|head|..|head| + |mid|] == mid
      && r[|r| - |tail|..] == tail
  {
    var r := head + mid + tail;
    assert r[..|head|] == head;
    assert r[|head|..|head| + |mid|] == mid;
    assert r[|r| - |tail|..] == tail;
  }

  function ItemLine(n: nat, item: ItineraryItem, formatDate: int -> string): string {
    LineText(n, item, formatDate) + "\n"
  }

  /** The lines of items numbered from n on, in list order. */
  function Body(items: seq<ItineraryItem>, n: nat, formatDate: int -> string): string
    decreases |items|
  {
    if items == [] then "" else ItemLine(n, items[0], formatDate) + Body(items[1..], n + 1, formatDate)
  }

  /** The shared text: the header line and one numbered line per item. */
  function ShareText(items: seq<ItineraryItem>, formatDate: int -> string): string {
    Header + Body(items, 1, formatDate)
  }

  /** Appending an item appends its line, numbered after the others. */
  lemma {:induction false} BodyAppend(items: seq<ItineraryItem>, x: ItineraryItem, n: nat, formatDate: int -> string)
    ensures Body(items + [x], n, formatDate) == Body(items, n, formatDate) + ItemLine(n + |items|, x, formatDate)
    decreases |items|
  {
    if items == [] {
      assert [x][1..] == [];
    } else {
      assert (items + [x])[1..] == items[1..] + [x];
      BodyAppend(items[1..], x, n + 1, formatDate);
    }
  }

  /** The buildString loop: append the header, then each item's line. */
  method BuildShareText(items: seq<ItineraryItem>, formatDate: int -> string) returns (text: string)
    ensures text == ShareText(items, formatDate)
  {
    text := Header;
    var i := 0;
    while i < |items|
      invariant 0 <= i <= |items|
      invariant text == Header + Body(items[..i], 1, formatDate)
    {
      BodyAppend(items[..i], items[i], 1, formatDate);
      assert items[..i + 1] == items[..i] + [items[i]];
      var line := ItemLine(i + 1, items[i], formatDate);
      ConcatAssoc(Header, Body(items[..i], 1, formatDate), line);
      text := text + line;
      i := i + 1;
    }
    assert items[..i] == items;
    assert text == Header + Body(items, 1, formatDate);
  }

  /** Nothing the item contributes to its line holds a line break. */
  predicate SingleLine(item: ItineraryItem, formatDate: int -> string) {
    && '\n' !in item.title
    && '\n' !in item.note
    && (item.time.Some? ==> '\n' !in item.time.value)
    && (item.dateMillis.Some? ==> '\n' !in formatDate(item.dateMillis.value))
  }

  lemma LineTextSingleLine(n: nat, item: ItineraryItem, formatDate: int -> string)
    requires SingleLine(item, formatDate)
    ensures '\n' !in LineText(n, item, formatDate)
  {
    var digits := NatToString(n);
    assert '\n' !in digits by {
      assert forall i :: 0 <= i < |digits| ==> digits[i] != '\n';
    }
    var w := WhenPart(item, formatDate);
    assert '\n' !in w;
    var head := digits + ". " + item.title;
    var whenSuffix := if !IsBlank(w) then " (" + w + ")" else "";
    var noteSuffix := if !IsBlank(item.note) then ": " + item.note else "";
    assert LineText(n, item, formatDate) == head + whenSuffix + noteSuffix;
  }

  /** The line texts of items numbered from n on. */
  function Lines(items: seq<ItineraryItem>, n: nat, formatDate: int -> string): (ls: seq<string>)
    ensures |ls| == |items|
  {
    seq(|items|, i requires 0 <= i < |items| => LineText(n + i, items[i], formatDate))
  }

  lemma BodyFront(items: seq<ItineraryItem>, n: nat, formatDate: int -> string)
    requires items != []
    ensures Body(items, n, formatDate) == LineText(n, items[0], formatDate) + ['\n'] + Body(items[1..], n + 1, formatDate)
  {
  }

  lemma LinesFront(items: seq<ItineraryItem>, n: nat, formatDate: int -> string)
    requires items != []
    ensures Lines(items, n, formatDate) == [LineText(n, items[0], formatDate)] + Lines(items[1..], n + 1, formatDate)
  {
  }

  /** The body is the item lines, each followed by a line break. */
  lemma {:induction false} BodyTerminated(items: seq<ItineraryItem>, n: nat, formatDate: int -> string)
    ensures Body(items, n, formatDate) == Terminated(Lines(items, n, formatDate), '\n')
    decreases |items|
  {
    if items != [] {
      var ls := Lines(items, n, formatDate);
      BodyTerminated(items[1..], n + 1, formatDate);
      BodyFront(items, n, formatDate);
      LinesFront(items, n, formatDate);
      assert ls[1..] == Lines(items[1..], n + 1, formatDate);
      assert Terminated(ls, '\n') == ls[0] + ['\n'] + Terminated(ls[1..], '\n');
    }
  }

  /** The body splits on line breaks into the item lines and an empty last
      piece. */
  lemma BodyLines(items: seq<ItineraryItem>, n: nat, formatDate: int -> string)
    requires forall i :: 0 <= i < |items| ==> SingleLine(items[i], formatDate)
    ensures Split(Body(items, n, formatDate), '\n') == Lines(items, n, formatDate) + [""]
  {
    LinesSingleLine(items, n, formatDate);
    BodyTerminated(items, n, formatDate);
    SplitTerminated(Lines(items, n, formatDate), '\n');
  }

  lemma LinesSingleLine(items: seq<ItineraryItem>, n: nat, formatDate: int -> string)
    requires forall i :: 0 <= i < |items| ==> SingleLine(items[i], formatDate)
    ensures var ls := Lines(items, n, formatDate);
      forall i :: 0 <= i < |ls| ==> '\n' !in ls[i]
  {
    var ls := Lines(items, n, formatDate);
    forall i | 0 <= i < |ls| ensures '\n' !in ls[i] {
      LineTextSingleLine(n + i, items[i], formatDate);
    }
  }

  lemma ShareTextFront(items: seq<ItineraryItem>, formatDate: int -> string)
    ensures ShareText(items, formatDate) == HeaderLine + ['\n'] + Body(items, 1, formatDate)
  {
  }

  lemma {:induction false} ShareTextSplit(items: seq<ItineraryItem>, formatDate: int -> string)
    requires forall i :: 0 <= i < |items| ==> SingleLine(items[i], formatDate)
    ensures Split(ShareText(items, formatDate), '\n') == [HeaderLine] + (Lines(items, 1, formatDate) + [""])
  {
    ShareTextFront(items, formatDate);
    BodyLines(items, 1, formatDate);
    SplitAfterPiece(HeaderLine, '\n', Body(items, 1, formatDate));
  }

  lemma PiecesShape(items: seq<ItineraryItem>, formatDate: int -> string, pieces: seq<string>)
    requires pieces == [HeaderLine] + (Lines(items, 1, formatDate) + [""])
    ensures && |pieces| == |items| + 2
      && pieces[0] == HeaderLine
      && (forall i :: 0 <= i < |items| ==> pieces[i + 1] == LineText(i + 1, items[i], formatDate))
      && pieces[|items| + 1] == ""
  {
  }

  /** Read back line by line, the shared text is the header, then the line
      of each item in order numbered from 1, each ended by a line break
      (the final break leaves an empty last piece): |items| + 1 lines. */
  lemma ShareTextLines(items: seq<ItineraryItem>, formatDate: int -> string)
    requires forall i :: 0 <= i < |items| ==> SingleLine(items[i], formatDate)
    ensures var pieces := Split(ShareText(items, formatDate), '\n');
      && |pieces| == |items| + 2
      && pieces[0] == HeaderLine
      && (forall i :: 0 <= i < |items| ==> pieces[i + 1] == LineText(i + 1, items[i], formatDate))
      && pieces[|items| + 1] == ""
  {
    ShareTextSplit(items, formatDate);
    PiecesShape(items, formatDate, Split(ShareText(items, formatDate), '\n'));
  }

  /** An item with a time and no date shows the time in parentheses. */
  lemma LineWithTimeExample(formatDate: int -> string)
    ensures LineText(1, ItineraryItem("Beach", "", None, Some("10:00"), None, None), formatDate) == "1. Beach (10:00)"
  {
    assert NatToString(1) == "1";
    assert !IsBlank("10:00") by { assert !IsWhitespace("10:00"[0]); }
    assert IsBlank("");
  }

  /** An item with a note and no time shows the note after a colon. */
  lemma LineWithNoteExample(formatDate: int -> string)
    ensures LineText(2, ItineraryItem("Market", "buy gifts", None, None, None, None), formatDate) == "2. Market: buy gifts"
  {
    assert NatToString(2) == "2";
    assert !IsBlank("buy gifts") by { assert !IsWhitespace("buy gifts"[0]); }
    assert IsBlank("");
  }

  /** The two items above, shared together. */
  lemma ShareTextExample(formatDate: int -> string)
    ensures ShareText([ItineraryItem("Beach", "", None, Some("10:00"), None, None),
                       ItineraryItem("Market", "buy gifts", None, None, None, None)], formatDate)
      == "My Exploreo itinerary:\n" + "1. Beach (10:00)\n" + "2. Market: buy gifts\n"
  {
    var a := ItineraryItem("Beach", "", None, Some("10:00"), None, None);
    var b := ItineraryItem("Market", "buy gifts", None, None, None, None);
    LineWithTimeExample(formatDate);
    LineWithNoteExample(formatDate);
    assert [a, b][1..] == [b];
    assert [b][1..] == [];
    assert Body([b], 2, formatDate) == ItemLine(2, b, formatDate) + "";
    assert Body([a, b], 1, formatDate) == ItemLine(1, a, formatDate) + Body([b], 2, formatDate);
  }

  // ---------------------------------------------------------------------------
  // Editing the list

  /** filterIndexed { i, _ -> i != idx }: every element except the one at
      position idx, the rest in their order. */
  function WithoutIndex<T>(s: seq<T>, idx: int): (r: seq<T>)
    ensures 0 <= idx < |s| ==> r == s[..idx] + s[idx + 1..]
    ensures !(0 <= idx < |s|) ==> r == s
    decreases |s|
  {
    if s == [] then []
    else (if idx == 0 then [] else [s[0]]) + WithoutIndex(s[1..], idx - 1)
  }

  lemma SliceAroundMultiset<T>(s: seq<T>, idx: int)
    requires 0 <= idx < |s|
    ensures multiset(s[..idx] + s[idx + 1..]) + multiset{s[idx]} == multiset(s)
  {
    assert s == s[..idx] + ([s[idx]] + s[idx + 1..]);
  }

  /** Removing by position takes away one occurrence of that element and
      keeps every other element. */
  lemma WithoutIndexMultiset<T>(s: seq<T>, idx: int)
    requires 0 <= idx < |s|
    ensures |WithoutIndex(s, idx)| == |s| - 1
    ensures multiset(WithoutIndex(s, idx)) + multiset{s[idx]} == multiset(s)
  {
    SliceAroundMultiset(s, idx);
  }

  /** The time field stores nothing for blank input. */
  function TimeField(input: string): (t: Option<string>)
    ensures t.None? <==> IsBlank(input)
    ensures t.Some? ==> t.value == input
  {
    if IsBlank(input) then None else Some(input)
  }

  const EmptyMessage := "Add at least one item before saving"
  const SignInMessage := "Please sign in to save your itinerary"
  const SavedMessage := "Itinerary saved"

  /** The state PlannerScreen keeps: the itinerary being built, whether the
      add dialog is open, and the id of the last save. */
  class PlannerSession {
    const repo: FirestoreRepository
    var items: seq<ItineraryItem>
    var showAdd: bool
    var lastId: Option<string>

    constructor (repo: FirestoreRepository)
      ensures this.repo == repo
      ensures items == [] && !showAdd && lastId.None?
    {
      this.repo := repo;
      items := [];
      showAdd := false;
      lastId := None;
    }

    /** "Add item". */
    method OpenAddDialog()
      modifies this`showAdd
      ensures showAdd
    {
      showAdd := true;
    }

    /** "Cancel", or a tap outside the dialog. */
    method DismissAddDialog()
      modifies this`showAdd
      ensures !showAdd
    {
      showAdd := false;
    }

    /** "Add": with a title that is not blank, append a new item built from
      the dialog's fields (the typed coordinates parsed, unparsable ones
      stored as missing, the time field's text kept only when it is not
      blank; the dialog has no way to set a date, so the item has none) and
      close the dialog; with a blank title nothing happens and the dialog
      stays open. */
    method ConfirmAdd(title: string, note: string, timeText: string,
                      lat: string, lon: string, toDouble: string -> Option<real>)
      modifies this`items, this`showAdd
      ensures IsBlank(title) ==> items == old(items) && showAdd == old(showAdd)
      ensures !IsBlank(title) ==>
        && |items| == |old(items)| + 1
        && items[..|old(items)|] == old(items)
        && items[|old(items)|] == ItineraryItem(title, note, None, TimeField(timeText), toDouble(lat), toDouble(lon))
        && !showAdd
    {
      if !IsBlank(title) {
        var item := ItineraryItem(title, note, None, TimeField(timeText), toDouble(lat), toDouble(lon));
        items := items + [item];
        showAdd := false;
      }
    }

    /** "Remove" on the card at position idx. */
    method Remove(idx: int)
      modifies this`items
      ensures 0 <= idx < |old(items)| ==> items == old(items)[..idx] + old(items)[idx + 1..]
      ensures !(0 <= idx < |old(items)|) ==> items == old(items)
    {
      items := WithoutIndex(items, idx);
    }

    /** "Load latest": the list becomes the items of one of the user's saved
      itineraries; it is unchanged when there is none or no one is signed
      in. */
    method LoadLatest()
      modifies this`items
      ensures repo.Uid() == "" || repo.ItinerariesOf(repo.Uid()) == map[] ==> items == old(items)
      ensures repo.Uid() != "" && repo.ItinerariesOf(repo.Uid()) != map[] ==>
        exists k :: k in repo.ItinerariesOf(repo.Uid()) && items == repo.ItinerariesOf(repo.Uid())[k].items
    {
      var latest := repo.GetLatestItinerary();
      if latest.Some? {
        items := latest.value.items;
      }
    }

    /** "Share": the text handed to the share sheet. */
    method Share(formatDate: int -> string) returns (text: string)
      ensures text == ShareText(items, formatDate)
    {
      text := BuildShareText(items, formatDate);
    }

    /** "Save": refuse an empty list without touching the store; otherwise
      save the items, remember the returned id, and report whether the
      save took place. */
    method Save() returns (shown: string)
      modifies this`lastId, repo`itineraries
      ensures items == [] ==>
        shown == EmptyMessage && lastId == old(lastId) && repo.itineraries == old(repo.itineraries)
      ensures items != [] && repo.Uid() == "" ==>
        shown == SignInMessage && lastId.None? && repo.itineraries == old(repo.itineraries)
      ensures items != [] && repo.Uid() != "" ==>
        && shown == SavedMessage
        && lastId.Some? && !IsBlank(lastId.value)
        && lastId.value !in old(repo.ItinerariesOf(repo.Uid()))
        && repo.itineraries == old(repo.itineraries)[repo.Uid() :=
             old(repo.ItinerariesOf(repo.Uid()))[lastId.value := Itinerary(lastId.value, repo.Uid(), items)]]
      ensures old(repo.Valid()) ==> repo.Valid()
    {
      if items == [] {
        return EmptyMessage;
      }
      var id := repo.SaveItinerary(items);
      lastId := id;
      if id.None? || IsBlank(id.value) {
        shown := SignInMessage;
      } else {
        shown := SavedMessage;
      }
    }
  }
}
