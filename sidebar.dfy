/** The room sidebar RoomInterface renders from the room data, reduced to
    what its handlers read and write: for each category, whether its room
    list is collapsed and how its chevron is turned; for each room, a row
    carrying the room's id text and name, followed, when the room has
    subrooms, by a subroom panel (shown or hidden) listing them. */
module Sidebar {
  import opened Wrappers
  import opened Json
  import opened RoomData

  /** A .subroom-item: its data-room-id, its data-subroom-id and the text of
      its .subroom-name. */
  datatype SubroomItem = SubroomItem(roomId: string, subroomId: string, name: string)

  /** A child element of a category's .room-list, in document order: a
      .room-item (data-room-id and .room-name text), or a .subroom-list with
      its style.display and its items. */
  datatype Child =
    | RoomRow(roomId: string, name: string)
    | SubroomPanel(display: string, items: seq<SubroomItem>)

  /** A .room-category: whether its .room-list has the `collapsed` class, the
      transform on its chevron ("" until first toggled), and the room list. */
  datatype CategoryBlock = CategoryBlock(collapsed: bool, rotation: string, children: seq<Child>)

  /** room.subrooms && room.subrooms.length > 0 */
  predicate HasSubrooms(room: Room)
  {
    room.subrooms.Some? && |room.subrooms.value| > 0
  }

  function SubroomItems(room: Room): (items: seq<SubroomItem>)
    requires room.subrooms.Some?
    ensures |items| == |room.subrooms.value|
    ensures forall k :: 0 <= k < |items| ==>
      items[k] == SubroomItem(ToText(room.id), ToText(room.subrooms.value[k].id), room.subrooms.value[k].name)
  {
    var subs := room.subrooms.value;
    seq(|subs|, k requires 0 <= k < |subs| => SubroomItem(ToText(room.id), ToText(subs[k].id), subs[k].name))
  }

  /** renderRoom: the room's row, then its panel (hidden) when it has
      subrooms. Row and panel are siblings in the room list. */
  function RenderRoom(room: Room): (r: seq<Child>)
    ensures |r| == (if HasSubrooms(room) then 2 else 1)
    ensures r[0] == RoomRow(ToText(room.id), room.name)
    ensures |r| == 2 ==> r[1].SubroomPanel? && r[1].display == "none" && |r[1].items| == |room.subrooms.value|
    ensures |r| == 2 ==> forall item :: item in r[1].items ==> item.roomId == ToText(room.id)
  {
    [RoomRow(ToText(room.id), room.name)] +
    (if HasSubrooms(room) then [SubroomPanel("none", SubroomItems(room))] else [])
  }

  /** category.rooms.map(renderRoom).join('') */
  function RenderRooms(rooms: seq<Room>): seq<Child>
    decreases |rooms|
  {
    if rooms == [] then [] else RenderRoom(rooms[0]) + RenderRooms(rooms[1..])
  }

  /** renderRoomStructure: one block per category, expanded, chevron unset. */
  function Render(cats: seq<Category>): (blocks: seq<CategoryBlock>)
    ensures |blocks| == |cats|
    ensures forall c :: 0 <= c < |cats| ==> blocks[c] == CategoryBlock(false, "", RenderRooms(cats[c].rooms))
  {
    seq(|cats|, c requires 0 <= c < |cats| => CategoryBlock(false, "", RenderRooms(cats[c].rooms)))
  }

  /** Every panel directly follows a row, and lists only items that carry
      that row's room id. */
  predicate PanelsFollowRows(ch: seq<Child>)
  {
    forall k :: 0 <= k < |ch| && ch[k].SubroomPanel? ==>
      && k > 0
      && ch[k - 1].RoomRow?
      && forall item :: item in ch[k].items ==> item.roomId == ch[k - 1].roomId
  }

  /** Every row stands for one of the rooms: it carries that room's id text
      and name. */
  predicate RowsOfRooms(ch: seq<Child>, rooms: seq<Room>)
  {
    forall k :: 0 <= k < |ch| && ch[k].RoomRow? ==>
      exists j :: 0 <= j < |rooms| && ch[k] == RoomRow(ToText(rooms[j].id), rooms[j].name)
  }

  /** The shape of a rendered room list. */
  lemma {:induction false} RenderRoomsShape(rooms: seq<Room>)
    ensures PanelsFollowRows(RenderRooms(rooms))
    ensures RowsOfRooms(RenderRooms(rooms), rooms)
    decreases |rooms|
  {
    if rooms != [] {
      var head := RenderRoom(rooms[0]);
      var rest := RenderRooms(rooms[1..]);
      var ch := head + rest;
      RenderRoomsShape(rooms[1..]);
      forall k | 0 <= k < |ch| && ch[k].SubroomPanel?
        ensures k > 0 && ch[k - 1].RoomRow? && forall item :: item in ch[k].items ==> item.roomId == ch[k - 1].roomId
      {
        if k < |head| {
          assert k == 1;
        } else {
          assert ch[k] == rest[k - |head|];
          assert ch[k - 1] == rest[k - 1 - |head|];
        }
      }
      forall k | 0 <= k < |ch| && ch[k].RoomRow?
        ensures exists j :: 0 <= j < |rooms| && ch[k] == RoomRow(ToText(rooms[j].id), rooms[j].name)
      {
        if k < |head| {
          assert k == 0;
          assert ch[k] == RoomRow(ToText(rooms[0].id), rooms[0].name);
        } else {
          assert ch[k] == rest[k - |head|];
          var j :| 0 <= j < |rooms[1..]| && rest[k - |head|] == RoomRow(ToText(rooms[1..][j].id), rooms[1..][j].name);
          assert rooms[1..][j] == rooms[j + 1];
        }
      }
    }
  }

  /** Every row of the rendered sidebar leads back, by its id text, to a room
      of the data that has that id text. */
  lemma RowsResolve(cats: seq<Category>, c: nat, k: nat)
    requires c < |Render(cats)| && k < |Render(cats)[c].children| && Render(cats)[c].children[k].RoomRow?
    ensures var row := Render(cats)[c].children[k];
      var r := FindRoomData(Some(cats), row.roomId, None);
      r.Some? && ToText(r.value.id) == row.roomId
  {
    var ch := Render(cats)[c].children;
    RenderRoomsShape(cats[c].rooms);
    var j :| 0 <= j < |cats[c].rooms| && ch[k] == RoomRow(ToText(cats[c].rooms[j].id), cats[c].rooms[j].name);
    EveryRoomFoundByItsText(Some(cats), c, j);
  }

  /** roomElement.parentElement.querySelector('.subroom-list') as written:
      the parent is the category's room list, so this is the first panel of
      the whole list, whichever row was clicked. */
  function FirstPanel(ch: seq<Child>): (r: Option<nat>)
    ensures r.Some? ==>
      && r.value < |ch|
      && ch[r.value].SubroomPanel?
      && forall k :: 0 <= k < r.value ==> !ch[k].SubroomPanel?
    ensures r.None? <==> forall k :: 0 <= k < |ch| ==> !ch[k].SubroomPanel?
    decreases |ch|
  {
    if ch == [] then None
    else if ch[0].SubroomPanel? then Some(0)
    else
      match FirstPanel(ch[1..])
      case None => None
      case Some(k) => Some(k + 1)
  }

  /** The panel of the clicked row itself: its next sibling, when that is a
      panel. */
  function OwnPanel(ch: seq<Child>, i: nat): (r: Option<nat>)
    requires i < |ch|
    ensures r.Some? ==> r.value == i + 1 && r.value < |ch| && ch[r.value].SubroomPanel?
    ensures r.None? <==> i + 1 == |ch| || !ch[i + 1].SubroomPanel?
  {
    if i + 1 < |ch| && ch[i + 1].SubroomPanel? then Some(i + 1) else None
  }

  /** Which panel selectRoom toggles: the first of the room list, as
      rooms.js:146 is written, or the clicked row's own. */
  datatype PanelChoice = FirstOfList | OwnOfRow

  function PanelFor(choice: PanelChoice, ch: seq<Child>, i: nat): (r: Option<nat>)
    requires i < |ch|
    ensures r.Some? ==> r.value < |ch| && ch[r.value].SubroomPanel?
  {
    match choice
    case FirstOfList => FirstPanel(ch)
    case OwnOfRow => OwnPanel(ch, i)
  }

  /** In a rendered sidebar the panel OwnPanel picks lists subrooms of the
      clicked row's room and no other. */
  lemma OwnPanelBelongsToRow(cats: seq<Category>, c: nat, i: nat)
    requires c < |Render(cats)| && i < |Render(cats)[c].children| && Render(cats)[c].children[i].RoomRow?
    ensures var ch := Render(cats)[c].children;
      OwnPanel(ch, i).Some? ==>
        forall item :: item in ch[OwnPanel(ch, i).value].items ==> item.roomId == ch[i].roomId
  {
    RenderRoomsShape(cats[c].rooms);
  }

  /** As written, clicking a room without subrooms that precedes a room with
      subrooms opens the other room's panel. Rooms 1 and 2, only room 2 with
      a subroom: clicking row "1" toggles the panel listing room 2's
      subroom, while room 1 has no panel of its own. */
  lemma FirstPanelOpensAnotherRoomsList()
    ensures var ch := RenderRooms([Room(Num(1), "intro", "", None),
                                   Room(Num(2), "python", "", Some([Room(Num(5), "help", "", None)]))]);
      && |ch| == 3
      && ch[0] == RoomRow("1", "intro")
      && FirstPanel(ch) == Some(2)
      && ch[2].items == [SubroomItem("2", "5", "help")]
      && OwnPanel(ch, 0).None?
  {
    var r1 := Room(Num(1), "intro", "", None);
    var r2 := Room(Num(2), "python", "", Some([Room(Num(5), "help", "", None)]));
    assert ToText(Num(1)) == "1";
    assert ToText(Num(2)) == "2";
    assert ToText(Num(5)) == "5";
    assert RenderRooms([r1, r2]) == RenderRoom(r1) + RenderRooms([r2]);
    assert RenderRooms([r2]) == RenderRoom(r2) + RenderRooms([]);
  }

  /** style.display = isVisible ? 'none' : 'block', with isVisible meaning
      display === 'block'. The result is shown exactly when the panel was
      not shown, and is always one of the two values. */
  function ToggleDisplay(d: string): (r: string)
    ensures r == "block" <==> d != "block"
    ensures r == "block" || r == "none"
  {
    if d == "block" then "none" else "block"
  }

  /** Two toggles restore the display exactly when it was one of the two
      values a toggle writes (a rendered panel starts at "none"). */
  lemma ToggleDisplayTwice(d: string)
    ensures ToggleDisplay(ToggleDisplay(d)) == d <==> d == "none" || d == "block"
  {
  }

  /** Toggling panel k of category c changes that panel's display and
      nothing else of the sidebar. */
  function TogglePanel(blocks: seq<CategoryBlock>, c: nat, k: nat): (r: seq<CategoryBlock>)
    requires c < |blocks| && k < |blocks[c].children| && blocks[c].children[k].SubroomPanel?
    ensures |r| == |blocks|
    ensures forall c' :: 0 <= c' < |blocks| && c' != c ==> r[c'] == blocks[c']
    ensures r[c].collapsed == blocks[c].collapsed && r[c].rotation == blocks[c].rotation
    ensures |r[c].children| == |blocks[c].children|
    ensures forall k' :: 0 <= k' < |blocks[c].children| && k' != k ==> r[c].children[k'] == blocks[c].children[k']
    ensures r[c].children[k].SubroomPanel? && r[c].children[k].items == blocks[c].children[k].items
    ensures r[c].children[k].display == ToggleDisplay(blocks[c].children[k].display)
  {
    var b := blocks[c];
    var p := b.children[k];
    blocks[c := b.(children := b.children[k := p.(display := ToggleDisplay(p.display))])]
  }

  /** The chevron agrees with the collapsed state. */
  predicate RotationAgrees(b: CategoryBlock)
  {
    b.rotation == if b.collapsed then "rotate(-90deg)" else "rotate(0deg)"
  }

  /** toggleCategory: flips the collapsed class and turns the chevron to
      match; the rooms are untouched. */
  function ToggleCategory(b: CategoryBlock): (r: CategoryBlock)
    ensures r.collapsed == !b.collapsed
    ensures r.children == b.children
    ensures RotationAgrees(r)
  {
    if b.collapsed then b.(collapsed := false, rotation := "rotate(0deg)")
    else b.(collapsed := true, rotation := "rotate(-90deg)")
  }

  /** Two toggles always restore the collapsed state, and restore the whole
      block once the chevron agrees with it (after the first toggle). */
  lemma ToggleCategoryTwice(b: CategoryBlock)
    ensures ToggleCategory(ToggleCategory(b)).collapsed == b.collapsed
    ensures ToggleCategory(ToggleCategory(b)) == b <==> RotationAgrees(b)
  {
  }

  function ToggleCategoryAt(blocks: seq<CategoryBlock>, c: nat): (r: seq<CategoryBlock>)
    requires c < |blocks|
    ensures |r| == |blocks|
    ensures forall c' :: 0 <= c' < |blocks| && c' != c ==> r[c'] == blocks[c']
    ensures r[c] == ToggleCategory(blocks[c])
  {
    blocks[c := ToggleCategory(blocks[c])]
  }

  /** The structure every sidebar keeps: in each category, panels follow
      the row of their room. */
  predicate WellShaped(blocks: seq<CategoryBlock>)
  {
    forall c :: 0 <= c < |blocks| ==> PanelsFollowRows(blocks[c].children)
  }

  lemma RenderWellShaped(cats: seq<Category>)
    ensures WellShaped(Render(cats))
  {
    forall c | 0 <= c < |cats| ensures PanelsFollowRows(Render(cats)[c].children) {
      RenderRoomsShape(cats[c].rooms);
    }
  }

  /** Neither toggle changes the structure. */
  lemma TogglesKeepShape(blocks: seq<CategoryBlock>, c: nat, k: nat)
    requires WellShaped(blocks) && c < |blocks|
    ensures WellShaped(ToggleCategoryAt(blocks, c))
    ensures k < |blocks[c].children| && blocks[c].children[k].SubroomPanel? ==>
      WellShaped(TogglePanel(blocks, c, k))
  {
    if k < |blocks[c].children| && blocks[c].children[k].SubroomPanel? {
      var r := TogglePanel(blocks, c, k);
      forall c' | 0 <= c' < |r| ensures PanelsFollowRows(r[c'].children) {
        if c' == c {
          var ch := blocks[c].children;
          forall k' | 0 <= k' < |ch| && r[c].children[k'].SubroomPanel?
            ensures k' > 0 && r[c].children[k' - 1].RoomRow? &&
              forall item :: item in r[c].children[k'].items ==> item.roomId == r[c].children[k' - 1].roomId
          {
            assert ch[k'].SubroomPanel?;
            assert k' > 0 && ch[k' - 1].RoomRow?;
            assert k' - 1 != k;
          }
        }
      }
    }
  }
}
