/** The WebSocket endpoint URLs the controllers build
    (`${scheme}//${host}/ws/room/${roomId}/` and its subroom form), and the
    server's route table in routing.py that those paths must reach. */
module Endpoint {
  import opened Wrappers
  import Text

  /** window.location: its protocol ("https:", "http:", ...) and host. */
  datatype Location = Location(protocol: string, host: string)

  /** "wss:" on a page served over https, "ws:" otherwise. */
  function Scheme(protocol: string): (s: string)
    ensures s == "wss:" <==> protocol == "https:"
    ensures s == "wss:" || s == "ws:"
  {
    if protocol == "https:" then "wss:" else "ws:"
  }

  function RoomPath(roomId: string): string
  {
    "ws/room/" + roomId + "/"
  }

  function SubroomPath(roomId: string, subroomId: string): string
  {
    "ws/room/" + roomId + "/subroom/" + subroomId + "/"
  }

  /** scheme + "//" + host + "/" + path. */
  function Url(loc: Location, path: string): string
  {
    Scheme(loc.protocol) + "//" + loc.host + "/" + path
  }

  /** The URL connectToRoom (and CodeBuddy.initializeWebSocket) opens. */
  function RoomUrl(loc: Location, roomId: string): string
  {
    Url(loc, RoomPath(roomId))
  }

  /** The URL connectToSubroom opens. */
  function SubroomUrl(loc: Location, roomId: string, subroomId: string): string
  {
    Url(loc, SubroomPath(roomId, subroomId))
  }

  /** The consumers of routing.py, with the values their converters take. */
  datatype Route =
    | ChatRoute(roomName: string)
    | RoomRoute(roomId: nat)
    | SubroomRoute(roomId: nat, subroomId: nat)

  /** What an `<int:...>` converter accepts: `[0-9]+`. */
  predicate IsIntSegment(seg: string)
  {
    seg != "" && Text.IsDigits(seg)
  }

  /** The route table, applied to a request path without its leading slash:
      each pattern must match the whole path; `<str:...>` takes a non-empty
      segment without '/', `<int:...>` a run of digits. */
  function MatchRoute(path: string): Option<Route>
  {
    var p := Text.Split(path, '/');
    if |p| == 4 && p[0] == "ws" && p[1] == "chat" && p[2] != "" && p[3] == "" then
      Some(ChatRoute(p[2]))
    else if |p| == 4 && p[0] == "ws" && p[1] == "room" && IsIntSegment(p[2]) && p[3] == "" then
      Some(RoomRoute(Text.DigitsValue(p[2])))
    else if |p| == 6 && p[0] == "ws" && p[1] == "room" && IsIntSegment(p[2])
         && p[3] == "subroom" && IsIntSegment(p[4]) && p[5] == "" then
      Some(SubroomRoute(Text.DigitsValue(p[2]), Text.DigitsValue(p[4])))
    else None
  }

  /** The room path as the join of its pieces. */
  lemma JoinRoomPath(r: string)
    ensures Text.Join(["ws", "room", r, ""], '/') == RoomPath(r)
  {
    Text.JoinCons(r, [""], '/');
    assert ["room", r, ""] == ["room"] + [r, ""];
    Text.JoinCons("room", [r, ""], '/');
    assert ["ws", "room", r, ""] == ["ws"] + ["room", r, ""];
    Text.JoinCons("ws", ["room", r, ""], '/');
  }

  /** The subroom path as the join of its pieces. */
  lemma JoinSubroomPath(r: string, t: string)
    ensures Text.Join(["ws", "room", r, "subroom", t, ""], '/') == SubroomPath(r, t)
  {
    Text.JoinCons(t, [""], '/');
    var j1 := t + "/";
    assert Text.Join([t, ""], '/') == j1;
    assert ["subroom", t, ""] == ["subroom"] + [t, ""];
    Text.JoinCons("subroom", [t, ""], '/');
    var j2 := "subroom/" + j1;
    assert Text.Join(["subroom", t, ""], '/') == j2;
    assert [r, "subroom", t, ""] == [r] + ["subroom", t, ""];
    Text.JoinCons(r, ["subroom", t, ""], '/');
    var j3 := r + "/" + j2;
    assert Text.Join([r, "subroom", t, ""], '/') == j3;
    RoomPrefix(["room", r, "subroom", t, ""], [r, "subroom", t, ""], j3);
    assert SubroomPath(r, t) == "ws/room/" + j3;
  }

  /** Joining "ws", "room" and then the rest. */
  lemma RoomPrefix(mid: seq<string>, tail: seq<string>, j: string)
    requires |tail| >= 1 && mid == ["room"] + tail && Text.Join(tail, '/') == j
    ensures Text.Join(["ws"] + mid, '/') == "ws/room/" + j
  {
    Text.JoinCons("room", tail, '/');
    Text.JoinCons("ws", mid, '/');
  }

  /** A URL as the join of scheme, an empty piece, the host and the path's
      pieces. */
  lemma JoinHost(scheme: string, host: string, tail: seq<string>)
    requires |tail| >= 1
    ensures Text.Join([scheme, "", host] + tail, '/') == scheme + "//" + host + "/" + Text.Join(tail, '/')
  {
    var j := Text.Join(tail, '/');
    var t2 := [host] + tail;
    var t1 := [""] + t2;
    assert [scheme, "", host] + tail == [scheme] + t1;
    Text.JoinCons(host, tail, '/');
    Text.JoinCons("", t2, '/');
    Text.JoinCons(scheme, t1, '/');
    Glue(scheme, host, j);
  }

  /** The three joins regrouped: an empty piece between two slashes is
      the "//" after the scheme. */
  lemma Glue(a: string, b: string, j: string)
    ensures a + "/" + ("" + "/" + (b + "/" + j)) == a + "//" + b + "/" + j
  {
  }

  /** A room URL is, piece by piece between slashes: the scheme, an empty
      piece, the host, "ws", "room", the room id and an empty piece. */
  lemma RoomUrlPieces(loc: Location, roomId: string)
    requires '/' !in loc.host && '/' !in roomId
    ensures Text.Split(RoomUrl(loc, roomId), '/') ==
      [Scheme(loc.protocol), "", loc.host, "ws", "room", roomId, ""]
  {
    var pieces := [Scheme(loc.protocol), "", loc.host, "ws", "room", roomId, ""];
    assert pieces == [Scheme(loc.protocol), "", loc.host] + ["ws", "room", roomId, ""];
    JoinRoomPath(roomId);
    JoinHost(Scheme(loc.protocol), loc.host, ["ws", "room", roomId, ""]);
    Text.SplitJoin(pieces, '/');
  }

  /** A subroom URL is, piece by piece between slashes: the scheme, an empty
      piece, the host, "ws", "room", the room id, "subroom", the subroom id
      and an empty piece. */
  lemma SubroomUrlPieces(loc: Location, roomId: string, subroomId: string)
    requires '/' !in loc.host && '/' !in roomId && '/' !in subroomId
    ensures Text.Split(SubroomUrl(loc, roomId, subroomId), '/') ==
      [Scheme(loc.protocol), "", loc.host, "ws", "room", roomId, "subroom", subroomId, ""]
  {
    var pieces := [Scheme(loc.protocol), "", loc.host, "ws", "room", roomId, "subroom", subroomId, ""];
    assert pieces == [Scheme(loc.protocol), "", loc.host] + ["ws", "room", roomId, "subroom", subroomId, ""];
    JoinSubroomPath(roomId, subroomId);
    JoinHost(Scheme(loc.protocol), loc.host, ["ws", "room", roomId, "subroom", subroomId, ""]);
    Text.SplitJoin(pieces, '/');
  }

  /** The path of a room URL reaches RoomConsumer with that room's number
      exactly when the id is a run of digits; otherwise no route takes it. */
  lemma RoomPathRoutes(roomId: string)
    requires '/' !in roomId
    ensures MatchRoute(RoomPath(roomId)) ==
      if IsIntSegment(roomId) then Some(RoomRoute(Text.DigitsValue(roomId))) else None
  {
    var pieces := ["ws", "room", roomId, ""];
    JoinRoomPath(roomId);
    Text.SplitJoin(pieces, '/');
  }

  /** The path of a subroom URL reaches SubRoomConsumer with both numbers
      exactly when both ids are runs of digits; otherwise no route takes it. */
  lemma SubroomPathRoutes(roomId: string, subroomId: string)
    requires '/' !in roomId && '/' !in subroomId
    ensures MatchRoute(SubroomPath(roomId, subroomId)) ==
      if IsIntSegment(roomId) && IsIntSegment(subroomId)
      then Some(SubroomRoute(Text.DigitsValue(roomId), Text.DigitsValue(subroomId)))
      else None
  {
    var pieces := ["ws", "room", roomId, "subroom", subroomId, ""];
    JoinSubroomPath(roomId, subroomId);
    Text.SplitJoin(pieces, '/');
  }

  /** A room id written as a decimal numeral reaches RoomConsumer with that
      very number. */
  lemma NumeralRoomRoutes(n: nat)
    ensures MatchRoute(RoomPath(Text.Decimal(n))) == Some(RoomRoute(n))
  {
    var r := Text.Decimal(n);
    assert '/' !in r by {
      forall k | 0 <= k < |r| ensures r[k] != '/' {
        assert Text.IsDigit(r[k]);
      }
    }
    RoomPathRoutes(r);
    Text.DecimalRoundTrip(n);
  }
}
