/** RoomInterface.findRoomData: the search of the embedded room data
    (categories, each with rooms, each with optional subrooms) for the room
    or subroom a sidebar element stands for. The ids it searches for are
    always strings, read from data-room-id / data-subroom-id attributes. */
module RoomData {
  import opened Wrappers
  import opened Json

  /** A room of the embedded data, or one of its subrooms: findRoomData
      returns either, and both carry an id, a name and a description (an
      absent description reads as ""). The subrooms of a subroom are never
      read. */
  datatype Room = Room(id: Value, name: string, description: string, subrooms: Option<seq<Room>>)

  datatype Category = Category(rooms: seq<Room>)

  /** this.roomData?.categories || []: no data (never loaded, or parsing
      failed) searches no categories. */
  function Categories(data: Option<seq<Category>>): seq<Category>
  {
    if data.Some? then data.value else []
  }

  /** How an id of the data is compared with an attribute string.
      Strict is the `===` the source writes; AsText compares the id's
      String() form, which is the text the sidebar put in the attribute. */
  datatype IdEquality = Strict | AsText

  predicate IdMatches(eq: IdEquality, id: Value, key: string)
  {
    match eq
    case Strict => id == Str(key)
    case AsText => ToText(id) == key
  }

  /** A subroom id is only used when it is truthy: neither null nor "". */
  predicate IsSet(subroomId: Option<string>)
  {
    subroomId.Some? && subroomId.value != ""
  }

  /** rooms.find(r => r.id matches key), as the index of the element found:
      the first matching room, or None when no room matches. */
  function FirstMatch(eq: IdEquality, rooms: seq<Room>, key: string): (r: Option<nat>)
    ensures r.Some? ==>
      && r.value < |rooms|
      && IdMatches(eq, rooms[r.value].id, key)
      && forall j :: 0 <= j < r.value ==> !IdMatches(eq, rooms[j].id, key)
    ensures r.None? <==> forall j :: 0 <= j < |rooms| ==> !IdMatches(eq, rooms[j].id, key)
    decreases |rooms|
  {
    if rooms == [] then None
    else if IdMatches(eq, rooms[0].id, key) then Some(0)
    else
      match FirstMatch(eq, rooms[1..], key)
      case None => None
      case Some(j) => Some(j + 1)
  }

  /** What findRoomData returns once it has found `room`: with a truthy
      subroom id, room.subrooms?.find(...) || room, otherwise the room. The
      result is the room itself or the first of its own subrooms whose id
      matches; never a subroom of another room. */
  function Narrow(eq: IdEquality, room: Room, subroomId: Option<string>): (r: Room)
    ensures !IsSet(subroomId) ==> r == room
    ensures r == room || (IsSet(subroomId) && room.subrooms.Some? && r in room.subrooms.value
                          && IdMatches(eq, r.id, subroomId.value))
    ensures IsSet(subroomId) && room.subrooms.Some? ==>
      match FirstMatch(eq, room.subrooms.value, subroomId.value)
      case Some(k) => r == room.subrooms.value[k]
      case None => r == room
  {
    if IsSet(subroomId) && room.subrooms.Some? then
      match FirstMatch(eq, room.subrooms.value, subroomId.value)
      case Some(k) => room.subrooms.value[k]
      case None => room
    else room
  }

  /** The search of findRoomData over a list of categories: the first
      category holding a matching room decides, and within it the first
      matching room. */
  function Lookup(eq: IdEquality, cats: seq<Category>, roomId: string, subroomId: Option<string>): Option<Room>
    decreases |cats|
  {
    if cats == [] then None
    else
      match FirstMatch(eq, cats[0].rooms, roomId)
      case Some(j) => Some(Narrow(eq, cats[0].rooms[j], subroomId))
      case None => Lookup(eq, cats[1..], roomId, subroomId)
  }

  predicate NoMatchIn(eq: IdEquality, rooms: seq<Room>, key: string)
  {
    forall j :: 0 <= j < |rooms| ==> !IdMatches(eq, rooms[j].id, key)
  }

  /** Room j of category i is the first match in category order and then
      room order. */
  predicate IsFirstRoom(eq: IdEquality, cats: seq<Category>, key: string, i: nat, j: nat)
  {
    && i < |cats|
    && j < |cats[i].rooms|
    && IdMatches(eq, cats[i].rooms[j].id, key)
    && (forall i' :: 0 <= i' < i ==> NoMatchIn(eq, cats[i'].rooms, key))
    && (forall j' :: 0 <= j' < j ==> !IdMatches(eq, cats[i].rooms[j'].id, key))
  }

  /** The search finds nothing exactly when no room of any category matches. */
  lemma {:induction false} LookupNoneIffNoMatch(eq: IdEquality, cats: seq<Category>, roomId: string, subroomId: Option<string>)
    ensures Lookup(eq, cats, roomId, subroomId).None? <==>
      forall i :: 0 <= i < |cats| ==> NoMatchIn(eq, cats[i].rooms, roomId)
    decreases |cats|
  {
    if cats != [] {
      LookupNoneIffNoMatch(eq, cats[1..], roomId, subroomId);
      if FirstMatch(eq, cats[0].rooms, roomId).None? {
        assert forall i :: 1 <= i < |cats| ==> cats[i] == cats[1..][i - 1];
      }
    }
  }

  /** The search returns the first matching room (narrowed to its subroom):
      in category order, then room order. */
  lemma {:induction false} LookupReturnsFirst(eq: IdEquality, cats: seq<Category>, roomId: string,
                                             subroomId: Option<string>, i: nat, j: nat)
    requires IsFirstRoom(eq, cats, roomId, i, j)
    ensures Lookup(eq, cats, roomId, subroomId) == Some(Narrow(eq, cats[i].rooms[j], subroomId))
    decreases i
  {
    if i == 0 {
      var k := FirstMatch(eq, cats[0].rooms, roomId);
      assert k.Some?;
    } else {
      assert NoMatchIn(eq, cats[0].rooms, roomId);
      assert IsFirstRoom(eq, cats[1..], roomId, i - 1, j) by {
        forall i' | 0 <= i' < i - 1 ensures NoMatchIn(eq, cats[1..][i'].rooms, roomId) {
          assert cats[1..][i'] == cats[i' + 1];
        }
      }
      LookupReturnsFirst(eq, cats[1..], roomId, subroomId, i - 1, j);
    }
  }

  /** A first match in the categories after a category without a match is
      a first match of the whole list, one category further on. */
  lemma FirstRoomShift(eq: IdEquality, cats: seq<Category>, roomId: string, i: nat, j: nat)
    requires cats != [] && NoMatchIn(eq, cats[0].rooms, roomId)
    requires IsFirstRoom(eq, cats[1..], roomId, i, j)
    ensures IsFirstRoom(eq, cats, roomId, i + 1, j)
  {
    assert cats[i + 1] == cats[1..][i];
    forall i' | 0 <= i' < i + 1 ensures NoMatchIn(eq, cats[i'].rooms, roomId) {
      if i' > 0 {
        assert cats[i'] == cats[1..][i' - 1];
      }
    }
  }

  /** Whatever the search returns is a matching room at the first matching
      position, narrowed to its subroom. */
  lemma {:induction false} LookupSound(eq: IdEquality, cats: seq<Category>, roomId: string, subroomId: Option<string>)
    requires Lookup(eq, cats, roomId, subroomId).Some?
    ensures exists i: nat, j: nat ::
              IsFirstRoom(eq, cats, roomId, i, j) &&
              Lookup(eq, cats, roomId, subroomId) == Some(Narrow(eq, cats[i].rooms[j], subroomId))
    decreases |cats|
  {
    var k := FirstMatch(eq, cats[0].rooms, roomId);
    if k.Some? {
      assert IsFirstRoom(eq, cats, roomId, 0, k.value);
    } else {
      LookupSound(eq, cats[1..], roomId, subroomId);
      var i: nat, j: nat :| IsFirstRoom(eq, cats[1..], roomId, i, j) &&
        Lookup(eq, cats[1..], roomId, subroomId) == Some(Narrow(eq, cats[1..][i].rooms[j], subroomId));
      FirstRoomShift(eq, cats, roomId, i, j);
      assert cats[1..][i] == cats[i + 1];
      assert Lookup(eq, cats, roomId, subroomId) == Some(Narrow(eq, cats[i + 1].rooms[j], subroomId));
    }
  }

  /** findRoomData as written: ids compared with `===`. */
  function FindRoomDataAsWritten(data: Option<seq<Category>>, roomId: string, subroomId: Option<string>): Option<Room>
  {
    Lookup(Strict, Categories(data), roomId, subroomId)
  }

  /** findRoomData with the ids compared by their text, the comparison the
      rest of the model uses. */
  function FindRoomData(data: Option<seq<Category>>, roomId: string, subroomId: Option<string>): Option<Room>
  {
    Lookup(AsText, Categories(data), roomId, subroomId)
  }

  /** As written, a room whose id in the data is a number is never found:
      the attribute string never `===` a number. If every room id is a
      number, every search comes back empty. */
  lemma NumericIdsNeverFoundAsWritten(data: Option<seq<Category>>, roomId: string, subroomId: Option<string>)
    requires forall i, j :: 0 <= i < |Categories(data)| && 0 <= j < |Categories(data)[i].rooms| ==>
      Categories(data)[i].rooms[j].id.Num?
    ensures FindRoomDataAsWritten(data, roomId, subroomId).None?
  {
    LookupNoneIffNoMatch(Strict, Categories(data), roomId, subroomId);
  }

  /** The smallest case: one category with room 3, looked up by the text
      "3" that the sidebar writes into data-room-id. */
  lemma RoomThreeMissedAsWritten()
    ensures var data := Some([Category([Room(Num(3), "general", "", None)])]);
      && ToText(Num(3)) == "3"
      && FindRoomDataAsWritten(data, "3", None).None?
      && FindRoomData(data, "3", None) == Some(Room(Num(3), "general", "", None))
  {
    assert ToText(Num(3)) == "3";
  }

  /** With ids compared by their text, looking up the text of any room's id
      finds a room (the first one) with that id text. */
  lemma EveryRoomFoundByItsText(data: Option<seq<Category>>, i: nat, j: nat)
    requires i < |Categories(data)| && j < |Categories(data)[i].rooms|
    ensures var key := ToText(Categories(data)[i].rooms[j].id);
      var r := FindRoomData(data, key, None);
      r.Some? && ToText(r.value.id) == key
  {
    var cats := Categories(data);
    var key := ToText(cats[i].rooms[j].id);
    LookupNoneIffNoMatch(AsText, cats, key, None);
    assert !NoMatchIn(AsText, cats[i].rooms, key);
    LookupSound(AsText, cats, key, None);
  }

  /** What the search's answer means under either comparison: nothing
      exactly when no room of any category matches the room id; otherwise a
      room matching the room id, or, for a truthy subroom id, possibly a
      subroom matching it. */
  lemma LookupMeaning(eq: IdEquality, cats: seq<Category>, roomId: string, subroomId: Option<string>)
    ensures var r := Lookup(eq, cats, roomId, subroomId);
      && (r.None? <==> forall c :: 0 <= c < |cats| ==> NoMatchIn(eq, cats[c].rooms, roomId))
      && (r.Some? ==> IdMatches(eq, r.value.id, roomId) || (IsSet(subroomId) && IdMatches(eq, r.value.id, subroomId.value)))
  {
    LookupNoneIffNoMatch(eq, cats, roomId, subroomId);
    if Lookup(eq, cats, roomId, subroomId).Some? {
      LookupSound(eq, cats, roomId, subroomId);
    }
  }

  /** What findRoomData's answer means with ids compared by their text:
      nothing exactly when no room of any category has the id text;
      otherwise a room with that id text, or, for a truthy subroom id,
      possibly the subroom with that id text. */
  lemma FindRoomDataMeaning(data: Option<seq<Category>>, roomId: string, subroomId: Option<string>)
    ensures var r := FindRoomData(data, roomId, subroomId);
      && (r.None? <==> forall c :: 0 <= c < |Categories(data)| ==> NoMatchIn(AsText, Categories(data)[c].rooms, roomId))
      && (r.Some? ==> ToText(r.value.id) == roomId || (IsSet(subroomId) && ToText(r.value.id) == subroomId.value))
  {
    LookupMeaning(AsText, Categories(data), roomId, subroomId);
  }
}
