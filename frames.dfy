/** The frames the controllers write to a WebSocket (the objects they pass
    to JSON.stringify), and the log of writes that stands for the transport. */
module Frames {
  import opened Wrappers

  datatype Frame =
    /** {type: 'message', content, room_id} */
    | ChatMessage(content: string, roomId: Option<string>)
    /** {type: 'typing', is_typing} */
    | TypingStatus(isTyping: bool)

  /** socket.send(JSON.stringify(frame)) on the socket numbered `socket`
      (sockets are numbered in the order they were created). */
  datatype Sent = Sent(socket: nat, frame: Frame)
}
