# CodeBuddy room controllers, modelled in Dafny

CodeBuddy is a Django chat platform organised in categories, rooms and
subrooms. Its browser side has two controllers:

- `CodeBuddy`, in `main.js`, covers the signed-in user, the room chat socket
  with its reconnect timer, inbound frame dispatch, the relative timestamps
  on messages, and upload validation.
- `RoomInterface`, in `rooms.js`, covers the room sidebar, navigation
  between rooms and subrooms, the room socket, and the typing indicator.

This project models the decision logic of both controllers, without the
DOM, and proves what that logic promises.

The DOM, the transport and the timers become plain state:

- A socket is a number, given in the order sockets are created.
- Each controller keeps the URL of every socket it created, the set of
  sockets that have closed, and a log of every frame written.
- A pending timer is a slot that holds its delay.
- Parsed JSON is a `Value` datatype.
- The page's embedded data is a constructor argument.

Modules:

- `Text`:
  - decimal numerals and their round trip;
  - `String.prototype.split` and `join` on one separator;
  - ASCII `toLowerCase`;
  - `trim`, with the ECMAScript whitespace set.
- `Json`: parsed values, property access, truthiness and `String(v)`.
- `Upload`: `validateFile`.
- `Timestamp`: `formatTimestamp`, working on the millisecond difference.
- `Dispatch`: `handleWebSocketMessage` as written and as intended, and the
  `onmessage` parse step.
- `Frames`: the outbound frames and the log entries.
- `Endpoint`:
  - the WebSocket URLs both controllers build;
  - the server route table of `routing.py` as a matcher, with proofs that
    the built paths reach the intended route.
- `Session`: the `CodeBuddy` class, covering user data and the owner flag,
  the socket with reconnect on close, and `sendMessage`.
- `RoomData`: the `findRoomData` search as a specification, and the
  behaviour the source has as written.
- `Sidebar`: the rendered sidebar structure, both toggles, and the panel
  `selectRoom` picks.
- `Typing`: the typing debounce as a state machine, with lemmas over whole
  event sequences.
- `Navigator`: the `RoomInterface` class, covering selection, the chat
  header, socket replacement and typing frames; also `getCurrentRoomData`.

`RoomInterface` takes two constructor arguments that fix how it behaves
where `rooms.js` has a defect (see Findings):

- `idEquality`: `Strict` compares ids with `===`, as `rooms.js:227` does;
  `AsText` compares an id's text.
- `panelChoice`: `FirstOfList` toggles the first panel of the room list, as
  `rooms.js:146` does; `OwnOfRow` toggles the clicked row's own panel.

Built with `Strict` and `FirstOfList`, the class is the code as written.
Every contract of the class holds for both settings.

### Behaviour of the code worth noting
- No `onmessage` catches a `JSON.parse` failure, so a malformed frame throws
  out of the callback (`main.js:146`, `rooms.js:336`).
- `handleWebSocketMessage` calls `handleTypingIndicator`, `handleUserJoined`
  and `handleUserLeft` (`main.js:169-175`). Neither `main.js` nor `rooms.js`
  defines them, so those three frame types throw (see Findings).
- `selectSubroom` takes both ids from the clicked element and does not check
  that the subroom belongs to the room (`rooms.js:180-181`).
- `CodeBuddy.initializeWebSocket` replaces `this.socket` without closing the
  old socket (`main.js:139`). It only runs again after a close, so the
  replaced socket has always closed already.
- In `rooms.js`, `onclose` only logs (`rooms.js:340-342`). Only `main.js`
  reconnects.
- `handleTyping` sends `typing: true` on every keystroke of a burst
  (`rooms.js:361-365`).
- A new selection does not cancel the idle timer. When that timer fires, it
  writes its `false` frame on whichever socket is held at that moment
  (`rooms.js:367-371`).
- `CodeBuddy.currentRoom` is set to null in the constructor and never
  assigned again, so every chat frame carries `room_id: null`
  (`main.js:10`, `main.js:259`).

## Model

| member | source | states |
|---|---|---|
| Text.Decimal | Codebuddy_2.0/main.js:243-244 | the numeral a template literal writes for a whole number: non-empty, digits only, a leading 0 only for zero |
| Text.DecimalRoundTrip | Codebuddy_2.0/main.js:243-244 | reading a written numeral back gives the number |
| Text.DecimalInjective | Codebuddy_2.0/main.js:243-244 | distinct numbers are written differently |
| Text.Split | Codebuddy_2.0/main.js:313 | `split` always yields at least one piece, and no piece holds the separator |
| Text.JoinSplit | Codebuddy_2.0/main.js:313 | the pieces joined by the separator give back the text |
| Text.SplitJoin | Codebuddy_2.0/rooms.js:315 | splitting a join of separator-free pieces gives the pieces back |
| Text.LastPieceIsFinalSegment | Codebuddy_2.0/main.js:313 | the piece `pop()` takes is the text's final dot-free segment: a suffix that is the whole text or follows a separator |
| Text.FinalSegmentUnique | Codebuddy_2.0/main.js:313 | a text has only one final segment |
| Text.Lower | Codebuddy_2.0/main.js:313 | lowercasing keeps the length and maps each character on its own |
| Text.LowerKeepsFinalSegment | Codebuddy_2.0/main.js:313 | lowercasing keeps the final segment after a non-letter separator, lowercased |
| Text.Trim | Codebuddy_2.0/main.js:253 | `trim()` gives the infix that starts at the first non-space, has no space at either end, and is empty exactly when the text is all spaces |
| Json.Get | Codebuddy_2.0/main.js:164 | a property read gives a value exactly when the value is an object that has the key, and that value is the key's |
| Json.Truthy | Codebuddy_2.0/main.js:45 | JavaScript truthiness of a read property: undefined, null, false, 0 and "" are falsy, everything else truthy (also rooms.js:229) |
| Json.ToText | Codebuddy_2.0/rooms.js:78 | `String(v)` as the sidebar template writes ids into data attributes (also rooms.js:63-64): strings as they are, integers as decimal numerals, null as "null" |
| Upload.ValidateFile | Codebuddy_2.0/main.js:304-320 | accepted iff size ≤ 10·1024·1024 and the lowercased extension is one of the 14 allowed; an oversized file gets the size notice alone; any other refusal gets the type notice; an accepted file gets none |
| Upload.Extension | Codebuddy_2.0/main.js:313 | `split('.').pop()` holds no dot; ExtensionIsFinalSegment states which piece it is |
| Upload.ExtensionIsFinalSegment | Codebuddy_2.0/main.js:313 | the extension is the text after the last dot, or the whole name |
| Upload.NoDotWholeName | Codebuddy_2.0/main.js:313 | a name without a dot is its own extension |
| Upload.ExtensionOfLower | Codebuddy_2.0/main.js:313 | taking the extension and lowercasing commute |
| Upload.ValidateFileIgnoresCase | Codebuddy_2.0/main.js:313-314 | names that differ only in case get the same answer |
| Upload.AllowedTypesHaveNoDot | Codebuddy_2.0/main.js:306 | no allowed extension contains a dot |
| Upload.ExtensionIsSuffix | Codebuddy_2.0/main.js:313 | the extension is the whole name or the suffix after a dot |
| Upload.SuffixIsExtension | Codebuddy_2.0/main.js:313 | a dot-free suffix after a dot, or the whole dot-free name, is the extension |
| Upload.ValidateFileBySuffix | Codebuddy_2.0/main.js:304-320 | a reference form of the rule that uses no split: accepted iff small enough and the lowercased name is an allowed extension or ends with "." and one |
| Timestamp.Classify | Codebuddy_2.0/main.js:239-244 | for each bucket, the exact millisecond interval it covers; the minute count is 1..59 and the hour count 1..23, each with its floor bounds; future times are "now" |
| Timestamp.AgeTextRoundTrip | Codebuddy_2.0/main.js:242-244 | each relative text reads back to the bucket it was written from |
| Timestamp.FormatTimestamp | Codebuddy_2.0/main.js:236-247 | no relative text iff at least a day; "now" iff under a minute, so also for every future time |
| Timestamp.FormatTimestampMeaning | Codebuddy_2.0/main.js:236-246 | read back, "Nm ago" and "Nh ago" bound the elapsed time by N whole units, N in 1..59 and 1..23; "now" means under a minute |
| Dispatch.RouteMatchesTags | Codebuddy_2.0/main.js:164-180 | a type selects handler h iff it is the string label of h |
| Dispatch.TagsDistinct | Codebuddy_2.0/main.js:164-180 | no two handlers share a label |
| Dispatch.Route | Codebuddy_2.0/main.js:164-180 | a selected handler is the one whose label the type is, as a string |
| Dispatch.HandleMessage | Codebuddy_2.0/main.js:163-181 | the intended dispatch, every handler defined: null data throws; otherwise at most one handler call, with exactly one iff the type is a label; it calls that label's handler with the whole frame, or the error handler with the frame's message |
| Dispatch.HandleMessageAsWritten | Codebuddy_2.0/main.js:163-181 | as written, at the dispatch step: throws iff the data is null or its type is typing, user_joined or user_left, whose handlers are undefined; otherwise the intended dispatch |
| Dispatch.UndefinedHandlersThrowAsWritten | Codebuddy_2.0/main.js:168-176 | a frame whose type names an undefined handler throws as written, where the intended dispatch calls that handler with the frame |
| Dispatch.OnMessage | Codebuddy_2.0/main.js:145-148 | a malformed frame throws before dispatch; a parsed frame is dispatched |
| Endpoint.Scheme | Codebuddy_2.0/rooms.js:315 | `wss:` iff the page protocol is `https:`, otherwise `ws:` |
| Endpoint.RoomUrl | Codebuddy_2.0/rooms.js:314-317 | the URL connectToRoom and CodeBuddy.initializeWebSocket (main.js:137) open; RoomUrlPieces and RoomPathRoutes state its pieces and its route |
| Endpoint.SubroomUrl | Codebuddy_2.0/rooms.js:319-322 | the URL connectToSubroom opens; SubroomUrlPieces and SubroomPathRoutes state its pieces and its route |
| Endpoint.MatchRoute | Codebuddy_2.0/routing.py:7-11 | the route table applied to a whole path, each converter as Django's; RoomPathRoutes, SubroomPathRoutes and NumeralRoomRoutes state what it returns for the built paths |
| Endpoint.JoinRoomPath | Codebuddy_2.0/rooms.js:315 | the room path is the pieces ws, room, id and "" joined by '/' |
| Endpoint.JoinSubroomPath | Codebuddy_2.0/rooms.js:320 | the subroom path is the pieces ws, room, id, subroom, id and "" joined by '/' |
| Endpoint.JoinHost | Codebuddy_2.0/rooms.js:315 | a URL is its scheme, "//", the host and the path, as a join of pieces |
| Endpoint.RoomUrlPieces | Codebuddy_2.0/rooms.js:314-317 | the room URL splits into scheme, "", host, ws, room, id, "" |
| Endpoint.SubroomUrlPieces | Codebuddy_2.0/rooms.js:319-322 | the subroom URL splits into scheme, "", host, ws, room, id, subroom, id, "" |
| Endpoint.RoomPathRoutes | Codebuddy_2.0/routing.py:9 | for an id without '/', a room path reaches RoomConsumer with the room's number iff the id is a run of digits; otherwise no route takes it |
| Endpoint.SubroomPathRoutes | Codebuddy_2.0/routing.py:10 | for ids without '/', a subroom path reaches SubRoomConsumer iff both ids are digit runs; otherwise no route takes it |
| Endpoint.NumeralRoomRoutes | Codebuddy_2.0/routing.py:9 | a room id written as a numeral reaches RoomConsumer with that same number |
| Typing.OnKeystroke | Codebuddy_2.0/rooms.js:357-374 | the pending timer is always cancelled; with a socket, one true frame and a fresh 2000 ms timer; without one, nothing sent and no timer |
| Typing.OnTimerFires | Codebuddy_2.0/rooms.js:367-372 | a pending timer sends one false frame and leaves no timer; otherwise nothing is sent |
| Typing.RunAlternates | Codebuddy_2.0/rooms.js:357-374 | over any sequence of keystrokes, timer firings and connections: at most one timer, always 2000 ms; every false frame directly follows a true frame; a pending timer means the last frame was true |
| Typing.StepAlternates | Codebuddy_2.0/rooms.js:357-374 | any single keystroke, timer firing or connection keeps the debounce invariant |
| Typing.BurstArmsOneTimer | Codebuddy_2.0/rooms.js:359-372 | with a socket, n keystrokes send n true frames and leave exactly one timer |
| Typing.BurstThenIdle | Codebuddy_2.0/rooms.js:367-372 | n keystrokes and then the idle window send n trues, then exactly one false, and leave no timer |
| Typing.NoSocketSendsNothing | Codebuddy_2.0/rooms.js:361 | without a socket nothing is ever sent and no timer is armed |
| Session.OwnerFlag | Codebuddy_2.0/main.js:45 | owner iff the user is an object whose role is the string "owner" or whose is_superuser is truthy |
| Session.ChatFrame | Codebuddy_2.0/main.js:249-263 | a frame goes out iff there is a message box, a socket and a non-space character; it is on the held socket and holds the trimmed text (non-empty) and the held room id |
| Session.CodeBuddy.constructor | Codebuddy_2.0/main.js:7-14 | loads the user data, then on a room page opens one socket on the room URL; parse failure or no data leaves user null and isOwner false |
| Session.CodeBuddy.LoadUserData | Codebuddy_2.0/main.js:40-54 | no element or a parse failure changes nothing; otherwise the user is the parsed value and the owner flag follows it, except for null, where the throw is caught |
| Session.CodeBuddy.InitializeWebSocket | Codebuddy_2.0/main.js:135-139 | a new socket on the page's room URL becomes the held one; the previous one is not closed |
| Session.CodeBuddy.OnClose | Codebuddy_2.0/main.js:150-156 | a close schedules exactly one 3000 ms reconnect; only the held socket can still close; invariant kept: at most one reconnect pending, and every replaced socket had closed |
| Session.CodeBuddy.FireReconnect | Codebuddy_2.0/main.js:153-155 | the reconnect opens a new socket on the same room URL and leaves none pending; it can repeat without limit |
| Session.CodeBuddy.SendMessage | Codebuddy_2.0/main.js:249-263 | writes exactly the frame ChatFrame gives, clearing the box, or changes nothing |
| RoomData.FirstMatch | Codebuddy_2.0/rooms.js:227 | `find`: the index of the first matching room, or none exactly when no room matches |
| RoomData.Narrow | Codebuddy_2.0/rooms.js:229-232 | with a truthy subroom id, the room's first matching subroom, falling back to the room; otherwise the room; never another room's subroom |
| RoomData.Lookup | Codebuddy_2.0/rooms.js:225-236 | the loop of findRoomData under either comparison; LookupNoneIffNoMatch, LookupReturnsFirst, LookupSound and LookupMeaning state its answer |
| RoomData.LookupNoneIffNoMatch | Codebuddy_2.0/rooms.js:225-235 | the search finds nothing iff no room in any category matches, including when no data is loaded |
| RoomData.LookupReturnsFirst | Codebuddy_2.0/rooms.js:226-233 | the search returns the first match in category order and then room order, narrowed to its subroom |
| RoomData.LookupSound | Codebuddy_2.0/rooms.js:226-233 | every answer of the search is the narrowed first match |
| RoomData.LookupMeaning | Codebuddy_2.0/rooms.js:225-236 | under either comparison: no answer iff no room of any category matches the room id; an answer matches the room id, or the subroom id when that is truthy |
| RoomData.FindRoomDataAsWritten | Codebuddy_2.0/rooms.js:225-236 | findRoomData with `===`; NumericIdsNeverFoundAsWritten and RoomThreeMissedAsWritten state what it misses |
| RoomData.FindRoomData | Codebuddy_2.0/rooms.js:225-236 | findRoomData comparing id text; EveryRoomFoundByItsText and FindRoomDataMeaning state its answer |
| RoomData.NumericIdsNeverFoundAsWritten | Codebuddy_2.0/rooms.js:227 | as written, when every room id is a number, every search comes back empty |
| RoomData.RoomThreeMissedAsWritten | Codebuddy_2.0/rooms.js:227 | as written, room 3 is not found by the text "3"; by its id text it is found |
| RoomData.EveryRoomFoundByItsText | Codebuddy_2.0/rooms.js:225-235 | with ids compared by their text, every room of the data is found by its id text |
| RoomData.FindRoomDataMeaning | Codebuddy_2.0/rooms.js:225-236 | no answer iff no room has the id text; any answer has the room id text, or the subroom id text for a truthy subroom id |
| Sidebar.RenderRoomsShape | Codebuddy_2.0/rooms.js:58-89 | in a rendered list each panel follows the row of its own room, and each row shows a data room's id text and name |
| Sidebar.RenderRoom | Codebuddy_2.0/rooms.js:58-89 | a room's row with its id text and name, then, iff it has subrooms, a hidden panel with one item per subroom, each carrying the room's id text |
| Sidebar.RenderRooms | Codebuddy_2.0/rooms.js:50 | the rows and panels of a category's rooms in order; RenderRoomsShape states their shape |
| Sidebar.Render | Codebuddy_2.0/rooms.js:38-56 | one expanded block per category, chevron unset, holding that category's rendered rooms |
| Sidebar.RenderWellShaped | Codebuddy_2.0/rooms.js:38-56 | a rendered sidebar is well shaped in every category |
| Sidebar.RowsResolve | Codebuddy_2.0/rooms.js:78 | every rendered row's room id finds a data room with that id text |
| Sidebar.FirstPanel | Codebuddy_2.0/rooms.js:146 | as written, the first panel of the whole room list, or none iff the list has none |
| Sidebar.FirstPanelOpensAnotherRoomsList | Codebuddy_2.0/rooms.js:146 | as written, clicking a room without subrooms toggles the next room's panel |
| Sidebar.OwnPanel | Codebuddy_2.0/rooms.js:146 | the clicked row's next sibling, when that is a panel, and nothing otherwise |
| Sidebar.OwnPanelBelongsToRow | Codebuddy_2.0/rooms.js:146-149 | in a rendered sidebar that panel lists only subrooms of the clicked room |
| Sidebar.ToggleDisplay | Codebuddy_2.0/rooms.js:148-149 | shown afterwards iff not shown before; always "none" or "block" |
| Sidebar.ToggleDisplayTwice | Codebuddy_2.0/rooms.js:148-149 | two toggles restore the display iff it was "none" or "block" |
| Sidebar.TogglePanel | Codebuddy_2.0/rooms.js:146-149 | only that panel's display changes, nothing else in the sidebar |
| Sidebar.ToggleCategory | Codebuddy_2.0/rooms.js:195-203 | the collapsed state flips, the chevron matches it, and the rooms are unchanged |
| Sidebar.ToggleCategoryTwice | Codebuddy_2.0/rooms.js:195-203 | two toggles always restore collapsed, and restore the whole block iff the chevron already matched |
| Sidebar.ToggleCategoryAt | Codebuddy_2.0/rooms.js:191-204 | only the toggled category changes |
| Sidebar.TogglesKeepShape | Codebuddy_2.0/rooms.js:146-203 | neither toggle changes the sidebar's structure |
| Navigator.CurrentRoomData | Codebuddy_2.0/rooms.js:292-306 | inside a subroom item, the search for its room id narrowed to its subroom id; inside a room item, the search for its room id alone; under the given comparison: outside both kinds of item, no answer; no answer iff no room matches the item's room id; an answer matches the item's room id, or its subroom id |
| Navigator.RoomInterface.constructor | Codebuddy_2.0/rooms.js:7-36 | nothing selected, no socket, no timer; the sidebar is rendered from the data when it parses; the comparison and the panel choice are the ones given |
| Navigator.RoomInterface.FindRoomData | Codebuddy_2.0/rooms.js:225-236 | the loop over the categories returns exactly what the search gives under the controller's comparison |
| Navigator.RoomInterface.InitWebSocket | Codebuddy_2.0/rooms.js:324-329 | the held socket is closed before a new one on the URL is stored |
| Navigator.RoomInterface.UpdateChatHeader | Codebuddy_2.0/rooms.js:206-223 | the title is set; the description is set when the selection is found under the controller's comparison, otherwise kept |
| Navigator.RoomInterface.ToggleRowPanel | Codebuddy_2.0/rooms.js:146-157 | only the panel the panel choice picks for the clicked row, if any, is shown or hidden: the list's first with FirstOfList, the row's own with OwnOfRow; nothing else changes |
| Navigator.RoomInterface.SelectRoom | Codebuddy_2.0/rooms.js:136-168 | toggles the panel the panel choice picks; selects the room with no subroom; shows it in the header; replaces the socket with one on the room URL; invariant kept: one unclosed socket, on the selection's URL |
| Navigator.RoomInterface.SelectSubroom | Codebuddy_2.0/rooms.js:170-189 | selects the item's room and subroom without checking them; shows it in the header, its description found under the controller's comparison; replaces the socket with one on the subroom URL |
| Navigator.RoomInterface.ToggleCategory | Codebuddy_2.0/rooms.js:191-204 | only that category changes |
| Navigator.RoomInterface.HandleTyping | Codebuddy_2.0/rooms.js:357-374 | exactly the debounce keystroke step: its timer and its frames on the held socket |
| Navigator.RoomInterface.FireTypingTimer | Codebuddy_2.0/rooms.js:367-372 | exactly the debounce timer step: one false frame on the socket held when it fires, and no timer left |

## Left out
- DOM rendering is reduced to the element structure the handlers read. This covers `renderRoomStructure`, `renderRoom`, the message elements, `showRoomInfo`, tooltips, modals, dropdowns, notifications and animations. It is HTML templating with no contract beyond the shown state.
- `formatMessageContent` is a chain of regular-expression replacements, so it is not part of this model.
- `toLocaleDateString` and `new Date` parsing are locale and clock dependent. `formatTimestamp` takes the millisecond difference as an integer, and its date branch has no text.
- `uploadFile`, `getCSRFToken` and the drag-and-drop wiring are asynchronous fetch and form I/O.
- The WebSocket transport, `JSON.parse`, `JSON.stringify` and real time are replaced by socket numbers, a frame log, `Json.Parsed` and timer slots. Sending on a socket that is still connecting (which throws in a browser) is not modelled.
- `onerror` only logs (`main.js:158-160`), so it has no transition of its own: it changes nothing and schedules no reconnect.
- `RoomInterface.handleMessage`, `RoomInterface.sendMessage` and the room socket's `onmessage` hand over to `window.codebuddy`. This cross-object wiring is not modelled. The parse step they share is `Dispatch.OnMessage`.
- `Session.OwnerFlag`: `isOwner` may hold the `is_superuser` value itself. The model keeps only its truthiness, which is all that `if (this.isOwner)` reads. `initializeOwnerFeatures` is DOM work.
- JSON numbers are integers. Room ids with a fraction are not modelled.
- `Json.ToText` writes every digit of an integer, whereas JavaScript writes numbers from 10^21 up in exponent form ("1e+21"). Such ids are not modelled.
- `Dispatch.HandleMessageAsWritten` models only the throws of the dispatch step. Exceptions raised inside the defined handlers are not modelled: `displayMessage` and `createMessageElement` (main.js:183-221) throw on a frame without `author`, and on a frame with truthy `attachments`, because `renderAttachments` is not defined in either file. Message rendering is DOM work.
- `Text.Lower` lowercases ASCII letters only. No allowed extension has a non-ASCII letter, so acceptance agrees with JavaScript wherever this matters; only a notice's text could differ.
- Active-item classes and parent-colour styles in `selectRoom` and `selectSubroom` are not modelled. The chat header elements are taken to be present.
- The room data is taken as well-typed categories and rooms. Data whose `categories` or `rooms` property is missing, which makes the source throw, is not modelled.
- A page whose room data does not load keeps its server-rendered sidebar, which is not modelled. The model's sidebar is then empty.
- `selectedFiles`, `isOwner`, `openFileUpload` and `toggleOwnerControls` in `rooms.js` are unused state or only toggle a panel's visibility.
- `Endpoint.MatchRoute` models the `ws/chat/<str>/` route, but none of the built URLs target it.
- `Dispatch.OnMessage` dispatches with `Dispatch.HandleMessage`, the intended dispatch with every handler defined. The throw of the three undefined handlers is `Dispatch.HandleMessageAsWritten` (see Findings).

## Findings

| source | as written | input that shows it | evidently intended | confidence | as-written member | corrected member |
|---|---|---|---|---|---|---|
| Codebuddy_2.0/rooms.js:227 | `r.id === roomId` compares a room's id from the JSON data with the string read from `data-room-id` (likewise for subrooms at line 230) | one category holding a room whose id is the number 3, looked up by "3": nothing is found, so the description is never filled in | compare the id as the text the sidebar wrote into the attribute | likely: the routes take integer ids (`routing.py:9-10`); not executed | RoomData.RoomThreeMissedAsWritten | RoomData.EveryRoomFoundByItsText |
| Codebuddy_2.0/main.js:169-175 | `this.handleTypingIndicator(data)`, `this.handleUserJoined(data)` and `this.handleUserLeft(data)` call methods that neither `main.js` nor `rooms.js` defines | the frame `{"type": "typing"}`: the call throws a TypeError out of `onmessage`, and no indicator is shown | handlers for the three frame types, each called with the frame | high: the methods are absent from both files; not executed | Dispatch.UndefinedHandlersThrowAsWritten | Dispatch.HandleMessage |
| Codebuddy_2.0/rooms.js:146 | `roomElement.parentElement.querySelector('.subroom-list')`: the parent is the category's room list, and a room's row and its panel are siblings in it (`rooms.js:76-88`), so this finds the first panel of the whole category | rooms 1 (no subrooms) and 2 (one subroom); clicking room 1 shows room 2's subrooms | toggle the clicked room's own panel, its next sibling | high; not executed | Sidebar.FirstPanelOpensAnotherRoomsList | Sidebar.OwnPanelBelongsToRow |
