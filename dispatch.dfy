/** CodeBuddy.handleWebSocketMessage and the onmessage callback that feeds
    it: an inbound frame is parsed as JSON and routed by its `type` to one of
    five handlers; any other type does nothing. */
module Dispatch {
  import opened Wrappers
  import opened Json

  /** The handlers the switch can call. */
  datatype Handler = DisplayMessage | TypingIndicator | UserJoined | UserLeft | ErrorNotice

  /** One handler call with its argument: the whole frame, or for an error
      frame the frame's `message` (None when it is undefined). */
  datatype Call = Call(handler: Handler, argument: Option<Value>)

  /** What handling a frame does: the handler calls it makes, or an
      exception escaping the callback. */
  datatype Outcome = Handled(calls: seq<Call>) | Raised

  /** The case label of each handler. */
  function TagOf(h: Handler): string
  {
    match h
    case DisplayMessage => "message"
    case TypingIndicator => "typing"
    case UserJoined => "user_joined"
    case UserLeft => "user_left"
    case ErrorNotice => "error"
  }

  /** switch (data.type): strict equality against the case labels, so only a
      string equal to a label selects a handler. */
  function Route(kind: Option<Value>): (r: Option<Handler>)
    ensures r.Some? ==> kind == Some(Str(TagOf(r.value)))
  {
    match kind
    case Some(Str("message")) => Some(DisplayMessage)
    case Some(Str("typing")) => Some(TypingIndicator)
    case Some(Str("user_joined")) => Some(UserJoined)
    case Some(Str("user_left")) => Some(UserLeft)
    case Some(Str("error")) => Some(ErrorNotice)
    case _ => None
  }

  /** The routing rule and the case labels agree in both directions: a type
      selects handler h exactly when it is the string label of h. */
  lemma RouteMatchesTags(kind: Option<Value>, h: Handler)
    ensures Route(kind) == Some(h) <==> kind == Some(Str(TagOf(h)))
  {
  }

  /** The five labels are distinct, so no type selects two handlers. */
  lemma TagsDistinct(h1: Handler, h2: Handler)
    ensures TagOf(h1) == TagOf(h2) ==> h1 == h2
  {
  }

  /** handleWebSocketMessage(data), with every handler defined. Reading
      data.type of null raises; any other value makes at most one handler
      call, and makes one exactly when its type is one of the five labels,
      calling that label's handler with the whole frame, or the error
      handler with the frame's message. */
  function HandleMessage(data: Value): (r: Outcome)
    ensures data.Null? <==> r.Raised?
    ensures r.Handled? ==> |r.calls| <= 1
    ensures r.Handled? ==>
      (|r.calls| == 1 <==> exists h :: Get(data, "type") == Some(Str(TagOf(h))))
    ensures r.Handled? && |r.calls| == 1 ==>
      && Get(data, "type") == Some(Str(TagOf(r.calls[0].handler)))
      && r.calls[0].argument == (if r.calls[0].handler == ErrorNotice then Get(data, "message") else Some(data))
  {
    if data.Null? then Raised
    else
      var kind := Get(data, "type");
      match Route(kind)
      case None => Handled([])
      case Some(h) =>
        RouteMatchesTags(kind, h);
        if h == ErrorNotice then Handled([Call(h, Get(data, "message"))])
        else Handled([Call(h, Some(data))])
  }

  /** The handlers CodeBuddy has as methods: displayMessage and
      showNotification. No handleTypingIndicator, handleUserJoined or
      handleUserLeft is defined in main.js or rooms.js. */
  predicate Defined(h: Handler)
  {
    h == DisplayMessage || h == ErrorNotice
  }

  /** handleWebSocketMessage(data) as written: calling a handler that is
      not defined throws a TypeError out of the callback. So a frame raises
      exactly when it is null or its type is the label of an undefined
      handler; otherwise it does what HandleMessage does. */
  function HandleMessageAsWritten(data: Value): (r: Outcome)
    ensures r.Raised? <==> data.Null? || exists h :: !Defined(h) && Get(data, "type") == Some(Str(TagOf(h)))
    ensures r.Handled? ==> r == HandleMessage(data)
  {
    var o := HandleMessage(data);
    if o.Handled? && |o.calls| == 1 && !Defined(o.calls[0].handler) then Raised
    else
      assert forall h :: Get(data, "type") == Some(Str(TagOf(h))) ==> o.Handled? && o.calls[0].handler == h by {
        forall h | Get(data, "type") == Some(Str(TagOf(h))) ensures o.Handled? && o.calls[0].handler == h {
          TagsDistinct(h, o.calls[0].handler);
        }
      }
      o
  }

  /** A typing, user_joined or user_left frame throws as written, where
      the intended dispatch calls that handler with the frame. */
  lemma UndefinedHandlersThrowAsWritten(data: Value, h: Handler)
    requires !Defined(h) && Get(data, "type") == Some(Str(TagOf(h)))
    ensures HandleMessageAsWritten(data).Raised?
    ensures HandleMessage(data) == Handled([Call(h, Some(data))])
  {
    TagsDistinct(h, HandleMessage(data).calls[0].handler);
  }

  /** The onmessage callback: JSON.parse(event.data) then the dispatch. A
      malformed frame makes JSON.parse throw out of the callback, so nothing
      is dispatched. */
  function OnMessage(raw: Parsed): (r: Outcome)
    ensures raw.Malformed? ==> r.Raised?
    ensures raw.Parsed? ==> r == HandleMessage(raw.value)
  {
    match raw
    case Malformed => Raised
    case Parsed(v) => HandleMessage(v)
  }
}
