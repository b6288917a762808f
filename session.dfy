/** The CodeBuddy controller of main.js, reduced to its state: the signed-in
    user and the owner flag read from the page, the chat WebSocket of a room
    page with its reconnect-on-close timers, and the message box whose text
    sendMessage writes to the socket. Sockets are numbered in the order they
    are created; a socket is named by its number. */
module Session {
  import opened Wrappers
  import opened Json
  import opened Frames
  import Text
  import Endpoint

  /** The delay, in ms, before a closed socket is replaced. */
  const ReconnectDelay: nat := 3000

  /** this.user.role === 'owner' || this.user.is_superuser, for user data
      that is not null, taken as a truth value: an owner is an object whose
      role is the string "owner" or whose is_superuser is truthy. */
  function OwnerFlag(v: Value): (b: bool)
    ensures b <==>
      && v.Obj?
      && (|| ("role" in v.fields && v.fields["role"] == Str("owner"))
          || ("is_superuser" in v.fields && Truthy(Some(v.fields["is_superuser"]))))
  {
    Get(v, "role") == Some(Str("owner")) || Truthy(Get(v, "is_superuser"))
  }

  /** What sendMessage writes, if anything. Nothing without a message box or
      a socket, nor when the box holds only spaces; otherwise one chat frame
      on the held socket, whose content is the box's text trimmed (non-empty,
      no space at either end) and whose room_id is the room the controller
      holds. */
  function ChatFrame(input: Option<string>, socket: Option<nat>, room: Option<string>): (r: Option<Sent>)
    ensures r.Some? <==>
      && input.Some?
      && socket.Some?
      && exists k :: 0 <= k < |input.value| && !Text.IsJsSpace(input.value[k])
    ensures r.Some? ==>
      && r.value.socket == socket.value
      && r.value.frame == ChatMessage(Text.Trim(input.value), room)
      && Text.Trim(input.value) != []
      && !Text.IsJsSpace(Text.Trim(input.value)[0])
  {
    if input.None? || socket.None? then None
    else
      var content := Text.Trim(input.value);
      if content == [] then None else Some(Sent(socket.value, ChatMessage(content, room)))
  }

  class CodeBuddy {
    /** this.user: the parsed #user-data, or Null. */
    var user: Value
    var isOwner: bool
    /** this.socket: the socket last created, if any. */
    var socket: Option<nat>
    /** this.currentRoom: set to null by the constructor and never assigned
        again. */
    var currentRoom: Option<string>
    /** The URL of every socket created, in order. */
    var sockets: seq<string>
    /** The sockets whose close event has fired. */
    var closed: set<nat>
    /** The reconnect timers scheduled and not yet fired, by delay. */
    var reconnects: seq<nat>
    /** The .message-input element's value, None when there is no such
        element. */
    var messageInput: Option<string>
    /** Every frame written to a socket, in order. */
    var log: seq<Sent>
    /** The data-room-id of the page's .room-chat element, None when the page
        has no such element. An element without the attribute is passed as
        Some("undefined"), the text the URL template writes for it. */
    const roomChat: Option<string>
    const location: Endpoint.Location

    /** The socket discipline of main.js: sockets are only ever replaced
        after a close, so every socket but the last has closed; the held one
        is the last; a reconnect is pending exactly when the last socket has
        closed, and never more than one. Every socket opens the page's room
        URL, and every frame carries room_id null. */
    ghost predicate Valid()
      reads this
    {
      && (socket.None? <==> sockets == [])
      && (socket.Some? ==> socket.value == |sockets| - 1)
      && (forall k :: k in closed ==> k < |sockets|)
      && (forall k :: 0 <= k < |sockets| - 1 ==> k in closed)
      && |reconnects| <= 1
      && (forall k :: 0 <= k < |reconnects| ==> reconnects[k] == ReconnectDelay)
      && (sockets != [] ==> (|sockets| - 1 in closed <==> |reconnects| == 1))
      && (sockets == [] ==> reconnects == [])
      && (sockets != [] ==> roomChat.Some?)
      && (forall k :: 0 <= k < |sockets| ==>
            roomChat.Some? && sockets[k] == Endpoint.RoomUrl(location, roomChat.value))
      && currentRoom.None?
      && (forall k :: 0 <= k < |log| ==>
            log[k].socket < |sockets| && log[k].frame.ChatMessage? && log[k].frame.roomId.None?)
    }

    /** new CodeBuddy(): loadUserData, then, on a room page, the chat socket. */
    constructor (userData: Option<Parsed>, roomChat: Option<string>, messageInput: Option<string>,
                 location: Endpoint.Location)
      ensures Valid()
      ensures this.roomChat == roomChat && this.location == location && this.messageInput == messageInput
      ensures userData.Some? && userData.value.Parsed? ==>
        user == userData.value.value && isOwner == (!user.Null? && OwnerFlag(user))
      ensures !(userData.Some? && userData.value.Parsed?) ==> user.Null? && !isOwner
      ensures roomChat.None? ==> socket.None? && sockets == []
      ensures roomChat.Some? ==>
        socket == Some(0) && sockets == [Endpoint.RoomUrl(location, roomChat.value)]
      ensures closed == {} && reconnects == [] && log == []
    {
      user := Null;
      isOwner := false;
      socket := None;
      currentRoom := None;
      sockets := [];
      closed := {};
      reconnects := [];
      this.messageInput := messageInput;
      log := [];
      this.roomChat := roomChat;
      this.location := location;
      new;
      LoadUserData(userData);
      if roomChat.Some? {
        InitializeWebSocket();
      }
    }

    /** loadUserData(userData): with no #user-data element, or text that
        JSON.parse rejects, nothing changes. Otherwise the user is the parsed
        value, and the owner flag is computed from it, except for null, where
        reading its role throws (caught) and the flag keeps its value. */
    method LoadUserData(userData: Option<Parsed>)
      modifies this
      ensures userData.Some? && userData.value.Parsed? ==>
        user == userData.value.value && isOwner == (if user.Null? then old(isOwner) else OwnerFlag(user))
      ensures !(userData.Some? && userData.value.Parsed?) ==> user == old(user) && isOwner == old(isOwner)
      ensures socket == old(socket) && currentRoom == old(currentRoom) && sockets == old(sockets)
      ensures closed == old(closed) && reconnects == old(reconnects)
      ensures messageInput == old(messageInput) && log == old(log)
    {
      if userData.Some? {
        match userData.value
        case Malformed =>
        case Parsed(v) =>
          user := v;
          if !v.Null? {
            isOwner := OwnerFlag(v);
          }
      }
    }

    /** initializeWebSocket(): a new socket on the page's room URL becomes
        the held one. The socket held before is not closed. */
    method InitializeWebSocket()
      requires roomChat.Some?
      modifies this
      ensures sockets == old(sockets) + [Endpoint.RoomUrl(location, roomChat.value)]
      ensures socket == Some(|old(sockets)|)
      ensures user == old(user) && isOwner == old(isOwner) && currentRoom == old(currentRoom)
      ensures closed == old(closed) && reconnects == old(reconnects)
      ensures messageInput == old(messageInput) && log == old(log)
    {
      sockets := sockets + [Endpoint.RoomUrl(location, roomChat.value)];
      socket := Some(|sockets| - 1);
    }

    /** The onclose callback of socket `id`: a reconnect in 3000 ms. Only
        the held socket can still close. */
    method OnClose(id: nat)
      requires Valid() && id < |sockets| && id !in closed
      modifies this
      ensures Valid()
      ensures Some(id) == old(socket)
      ensures closed == old(closed) + {id}
      ensures reconnects == old(reconnects) + [ReconnectDelay]
      ensures user == old(user) && isOwner == old(isOwner) && socket == old(socket) && sockets == old(sockets)
      ensures messageInput == old(messageInput) && log == old(log) && currentRoom == old(currentRoom)
    {
      closed := closed + {id};
      reconnects := reconnects + [ReconnectDelay];
    }

    /** The pending reconnect timer fires: initializeWebSocket() again, on
        the same room URL. */
    method FireReconnect()
      requires Valid() && |reconnects| > 0
      modifies this
      ensures Valid()
      ensures reconnects == []
      ensures |old(sockets)| > 0
      ensures sockets == old(sockets) + [old(sockets)[0]]
      ensures socket == Some(|old(sockets)|)
      ensures user == old(user) && isOwner == old(isOwner) && closed == old(closed)
      ensures messageInput == old(messageInput) && log == old(log) && currentRoom == old(currentRoom)
    {
      reconnects := reconnects[1..];
      InitializeWebSocket();
    }

    /** sendMessage(): the frame ChatFrame describes, if any, is written to
        the held socket and the box is cleared; otherwise nothing changes. */
    method SendMessage()
      requires Valid()
      modifies this
      ensures Valid()
      ensures var f := ChatFrame(old(messageInput), old(socket), old(currentRoom));
        && log == old(log) + (if f.Some? then [f.value] else [])
        && messageInput == (if f.Some? then Some("") else old(messageInput))
      ensures user == old(user) && isOwner == old(isOwner) && socket == old(socket) && sockets == old(sockets)
      ensures closed == old(closed) && reconnects == old(reconnects) && currentRoom == old(currentRoom)
    {
      if messageInput.None? || socket.None? {
        return;
      }
      var content := Text.Trim(messageInput.value);
      if content == [] {
        return;
      }
      log := log + [Sent(socket.value, ChatMessage(content, currentRoom))];
      messageInput := Some("");
    }
  }
}
