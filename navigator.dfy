/** The RoomInterface controller of rooms.js: the sidebar it renders from
    the embedded room data, the room or subroom selected in it, the chat
    header it fills in, the room WebSocket it replaces on every selection,
    and the typing indicator it sends on that socket. */
module Navigator {
  import opened Wrappers
  import opened Json
  import opened Frames
  import opened RoomData
  import opened Sidebar
  import Endpoint
  import Typing

  /** Where a room-info button sits: inside a subroom item (with that
      item's data attributes), inside a room item, or in neither. */
  datatype InfoAnchor = InSubroom(roomId: string, subroomId: string) | InRoom(roomId: string) | Elsewhere

  /** getCurrentRoomData(button), with ids compared by `eq` (Strict as
      rooms.js:227 is written): the subroom item is looked at first. No
      answer outside both kinds of item, or when no room matches the item's
      room id; otherwise a room matching it or, inside a subroom item,
      possibly the subroom matching the item's subroom id. */
  function CurrentRoomData(eq: IdEquality, data: Option<seq<Category>>, at: InfoAnchor): (r: Option<Room>)
    ensures at.Elsewhere? ==> r.None?
    ensures at.InSubroom? ==> r == Lookup(eq, Categories(data), at.roomId, Some(at.subroomId))
    ensures at.InRoom? ==> r == Lookup(eq, Categories(data), at.roomId, None)
    ensures !at.Elsewhere? ==>
      && (r.None? <==> forall c :: 0 <= c < |Categories(data)| ==> NoMatchIn(eq, Categories(data)[c].rooms, at.roomId))
      && (r.Some? ==> IdMatches(eq, r.value.id, at.roomId) || (at.InSubroom? && IdMatches(eq, r.value.id, at.subroomId)))
  {
    match at
    case InSubroom(roomId, subroomId) =>
      LookupMeaning(eq, Categories(data), roomId, Some(subroomId));
      Lookup(eq, Categories(data), roomId, Some(subroomId))
    case InRoom(roomId) =>
      LookupMeaning(eq, Categories(data), roomId, None);
      Lookup(eq, Categories(data), roomId, None)
    case Elsewhere => None
  }

  /** The URL of the socket a selection opens. */
  function NavigationUrl(loc: Endpoint.Location, roomId: string, subroomId: Option<string>): string
  {
    if subroomId.Some? then Endpoint.SubroomUrl(loc, roomId, subroomId.value) else Endpoint.RoomUrl(loc, roomId)
  }

  /** The typing frames written on socket `s`, one per is_typing value. */
  function TypingFrames(s: nat, sent: seq<bool>): seq<Sent>
  {
    seq(|sent|, k requires 0 <= k < |sent| => Sent(s, TypingStatus(sent[k])))
  }

  class RoomInterface {
    /** this.currentRoom / this.currentSubroom: the data attributes of the
        item last selected. */
    var currentRoom: Option<string>
    var currentSubroom: Option<string>
    /** this.roomData: the parsed #room-data categories, None when the page
        has none or it does not parse. */
    const roomData: Option<seq<Category>>
    var sidebar: seq<CategoryBlock>
    /** The text of .chat-header-title and of .chat-description. */
    var chatTitle: string
    var chatDescription: string
    /** The URL of every socket created, in order; a socket is named by its
        position. */
    var sockets: seq<string>
    /** this.socket: the socket last created, if any. */
    var socket: Option<nat>
    /** The sockets this controller has closed. */
    var closed: set<nat>
    /** Every frame written to a socket, in order. */
    var log: seq<Sent>
    /** this.typingTimeout: the pending idle timer, by delay. */
    var typingTimer: Option<nat>
    const location: Endpoint.Location
    /** How findRoomData compares ids, and which panel selectRoom toggles:
        Strict and FirstOfList are rooms.js as written, AsText and OwnOfRow
        the corrected behaviour. */
    const idEquality: IdEquality
    const panelChoice: PanelChoice

    /** One socket at a time: every socket but the held one, the last, has
        been closed. The held socket is on the URL of the current selection,
        and there is one exactly when a room is selected; a subroom is only
        selected with its room. The debounce state is well formed, the
        sidebar keeps its shape, and only typing frames are written. */
    ghost predicate Valid()
      reads this
    {
      && (socket.None? <==> sockets == [])
      && (socket.Some? ==> socket.value == |sockets| - 1 && socket.value !in closed)
      && (forall k :: k in closed ==> k < |sockets|)
      && (forall k :: 0 <= k < |sockets| - 1 ==> k in closed)
      && (socket.Some? <==> currentRoom.Some?)
      && (currentSubroom.Some? ==> currentRoom.Some?)
      && (socket.Some? ==> sockets[socket.value] == NavigationUrl(location, currentRoom.value, currentSubroom))
      && Typing.WellFormed(Typing.Debounce(socket.Some?, typingTimer))
      && WellShaped(sidebar)
      && (forall k :: 0 <= k < |log| ==> log[k].socket < |sockets| && log[k].frame.TypingStatus?)
    }

    /** new RoomInterface(): nothing selected and no socket; loadRoomData
        renders the sidebar when the data parses. The header shows what the
        page was served with. */
    constructor (data: Option<seq<Category>>, location: Endpoint.Location, title: string, description: string,
                 idEquality: IdEquality, panelChoice: PanelChoice)
      ensures Valid()
      ensures roomData == data && this.location == location
      ensures this.idEquality == idEquality && this.panelChoice == panelChoice
      ensures sidebar == (if data.Some? then Render(data.value) else [])
      ensures currentRoom.None? && currentSubroom.None? && socket.None? && typingTimer.None?
      ensures sockets == [] && closed == {} && log == []
      ensures chatTitle == title && chatDescription == description
    {
      currentRoom := None;
      currentSubroom := None;
      roomData := data;
      sidebar := if data.Some? then Render(data.value) else [];
      chatTitle := title;
      chatDescription := description;
      sockets := [];
      socket := None;
      closed := {};
      log := [];
      typingTimer := None;
      this.location := location;
      this.idEquality := idEquality;
      this.panelChoice := panelChoice;
      new;
      if data.Some? {
        RenderWellShaped(data.value);
      }
    }

    /** findRoomData(roomId, subroomId): the loop over the categories,
        returning at the first category that holds a room with the id. */
    method FindRoomData(roomId: string, subroomId: Option<string>) returns (r: Option<Room>)
      ensures r == Lookup(idEquality, Categories(roomData), roomId, subroomId)
    {
      var cats := Categories(roomData);
      var i := 0;
      while i < |cats|
        invariant 0 <= i <= |cats|
        invariant Lookup(idEquality, cats, roomId, subroomId) == Lookup(idEquality, cats[i..], roomId, subroomId)
      {
        assert cats[i..][0] == cats[i];
        var found := FirstMatch(idEquality, cats[i].rooms, roomId);
        if found.Some? {
          return Some(Narrow(idEquality, cats[i].rooms[found.value], subroomId));
        }
        assert cats[i..][1..] == cats[i + 1..];
        i := i + 1;
      }
      return None;
    }

    /** initWebSocket(url): the held socket, if any, is closed, and a new
        socket on url becomes the held one. */
    method InitWebSocket(url: string)
      modifies this
      ensures sockets == old(sockets) + [url]
      ensures socket == Some(|old(sockets)|)
      ensures closed == old(closed) + (if old(socket).Some? then {old(socket).value} else {})
      ensures currentRoom == old(currentRoom) && currentSubroom == old(currentSubroom)
      ensures sidebar == old(sidebar) && chatTitle == old(chatTitle) && chatDescription == old(chatDescription)
      ensures log == old(log) && typingTimer == old(typingTimer)
    {
      if socket.Some? {
        closed := closed + {socket.value};
      }
      sockets := sockets + [url];
      socket := Some(|sockets| - 1);
    }

    /** updateChatHeader(name) with updateRoomInfo(): the title, then the
        description of the selection when findRoomData knows it. */
    method UpdateChatHeader(name: string)
      requires currentRoom.Some?
      modifies this
      ensures chatTitle == name
      ensures chatDescription ==
        (match Lookup(idEquality, Categories(roomData), old(currentRoom.value), old(currentSubroom))
         case Some(info) => info.description
         case None => old(chatDescription))
      ensures currentRoom == old(currentRoom) && currentSubroom == old(currentSubroom)
      ensures sidebar == old(sidebar) && sockets == old(sockets) && socket == old(socket)
      ensures closed == old(closed) && log == old(log) && typingTimer == old(typingTimer)
    {
      chatTitle := name;
      var info := FindRoomData(currentRoom.value, currentSubroom);
      if info.Some? {
        chatDescription := info.value.description;
      }
    }

    /** The subroom-list step of selectRoom: the panel the controller's
        panel choice picks for the clicked row, if any, is shown or hidden. */
    method ToggleRowPanel(c: nat, i: nat)
      requires Valid() && c < |sidebar| && i < |sidebar[c].children|
      modifies this
      ensures Valid()
      ensures sidebar == (match PanelFor(panelChoice, old(sidebar[c].children), i)
                          case Some(k) => TogglePanel(old(sidebar), c, k)
                          case None => old(sidebar))
      ensures currentRoom == old(currentRoom) && currentSubroom == old(currentSubroom)
      ensures chatTitle == old(chatTitle) && chatDescription == old(chatDescription)
      ensures sockets == old(sockets) && socket == old(socket) && closed == old(closed)
      ensures log == old(log) && typingTimer == old(typingTimer)
    {
      var panel := PanelFor(panelChoice, sidebar[c].children, i);
      if panel.Some? {
        TogglesKeepShape(sidebar, c, panel.value);
        sidebar := TogglePanel(sidebar, c, panel.value);
      }
    }

    /** selectRoom(row): the subroom panel the panel choice picks, if any,
        is shown or hidden; the room becomes the selection, with no subroom; the
        header shows the room; and the socket is replaced by one on the
        room's URL. */
    method SelectRoom(c: nat, i: nat)
      requires Valid() && c < |sidebar| && i < |sidebar[c].children| && sidebar[c].children[i].RoomRow?
      modifies this
      ensures Valid()
      ensures var row := old(sidebar[c].children[i]);
        && sidebar == (match PanelFor(panelChoice, old(sidebar[c].children), i)
                       case Some(k) => TogglePanel(old(sidebar), c, k)
                       case None => old(sidebar))
        && currentRoom == Some(row.roomId) && currentSubroom.None?
        && chatTitle == row.name
        && chatDescription == (match Lookup(idEquality, Categories(roomData), row.roomId, None)
                               case Some(info) => info.description
                               case None => old(chatDescription))
        && sockets == old(sockets) + [Endpoint.RoomUrl(location, row.roomId)]
        && socket == Some(|old(sockets)|)
      ensures closed == old(closed) + (if old(socket).Some? then {old(socket).value} else {})
      ensures log == old(log) && typingTimer == old(typingTimer)
    {
      var row := sidebar[c].children[i];
      ToggleRowPanel(c, i);
      currentRoom := Some(row.roomId);
      currentSubroom := None;
      UpdateChatHeader(row.name);
      InitWebSocket(Endpoint.RoomUrl(location, row.roomId));
    }

    /** selectSubroom(item): the item's room and subroom become the
        selection, whichever they are (they are not checked against the
        data); the header shows the subroom; and the socket is replaced by
        one on the subroom's URL. */
    method SelectSubroom(c: nat, i: nat, k: nat)
      requires Valid() && c < |sidebar| && i < |sidebar[c].children| && sidebar[c].children[i].SubroomPanel?
      requires k < |sidebar[c].children[i].items|
      modifies this
      ensures Valid()
      ensures var item := old(sidebar[c].children[i].items[k]);
        && currentRoom == Some(item.roomId) && currentSubroom == Some(item.subroomId)
        && chatTitle == item.name
        && chatDescription == (match Lookup(idEquality, Categories(roomData), item.roomId, Some(item.subroomId))
                               case Some(info) => info.description
                               case None => old(chatDescription))
        && sockets == old(sockets) + [Endpoint.SubroomUrl(location, item.roomId, item.subroomId)]
        && socket == Some(|old(sockets)|)
      ensures closed == old(closed) + (if old(socket).Some? then {old(socket).value} else {})
      ensures sidebar == old(sidebar) && log == old(log) && typingTimer == old(typingTimer)
    {
      var item := sidebar[c].children[i].items[k];
      currentRoom := Some(item.roomId);
      currentSubroom := Some(item.subroomId);
      UpdateChatHeader(item.name);
      InitWebSocket(Endpoint.SubroomUrl(location, item.roomId, item.subroomId));
    }

    /** toggleCategory(header): that category's list collapses or expands;
        nothing else changes. */
    method ToggleCategory(c: nat)
      requires Valid() && c < |sidebar|
      modifies this
      ensures Valid()
      ensures sidebar == ToggleCategoryAt(old(sidebar), c)
      ensures currentRoom == old(currentRoom) && currentSubroom == old(currentSubroom)
      ensures chatTitle == old(chatTitle) && chatDescription == old(chatDescription)
      ensures sockets == old(sockets) && socket == old(socket) && closed == old(closed)
      ensures log == old(log) && typingTimer == old(typingTimer)
    {
      TogglesKeepShape(sidebar, c, 0);
      sidebar := ToggleCategoryAt(sidebar, c);
    }

    /** handleTyping(): the debounce's keystroke step, its frames written on
        the held socket. */
    method HandleTyping()
      requires Valid()
      modifies this
      ensures Valid()
      ensures var step := Typing.OnKeystroke(Typing.Debounce(old(socket).Some?, old(typingTimer)));
        && typingTimer == step.state.timer
        && log == old(log) + (if old(socket).Some? then TypingFrames(old(socket).value, step.sent) else [])
      ensures currentRoom == old(currentRoom) && currentSubroom == old(currentSubroom) && sidebar == old(sidebar)
      ensures chatTitle == old(chatTitle) && chatDescription == old(chatDescription)
      ensures sockets == old(sockets) && socket == old(socket) && closed == old(closed)
    {
      typingTimer := None;
      if socket.Some? {
        log := log + [Sent(socket.value, TypingStatus(true))];
        typingTimer := Some(Typing.TypingDelay);
      }
    }

    /** The idle timer fires: the debounce's timer step, its false frame
        written on the socket held when it fires, which is the one of the
        latest selection. */
    method FireTypingTimer()
      requires Valid() && typingTimer.Some?
      modifies this
      ensures Valid()
      ensures old(socket).Some?
      ensures var step := Typing.OnTimerFires(Typing.Debounce(true, old(typingTimer)));
        && typingTimer == step.state.timer
        && log == old(log) + TypingFrames(old(socket).value, step.sent)
      ensures currentRoom == old(currentRoom) && currentSubroom == old(currentSubroom) && sidebar == old(sidebar)
      ensures chatTitle == old(chatTitle) && chatDescription == old(chatDescription)
      ensures sockets == old(sockets) && socket == old(socket) && closed == old(closed)
    {
      log := log + [Sent(socket.value, TypingStatus(false))];
      typingTimer := None;
    }
  }
}
