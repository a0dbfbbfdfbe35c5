# Clue board — a verified model

Python-Clue-Vis is a "detective board". Clues are cards with a title, text, an
image, a position and a timestamp. Connections are labelled lines between two
clues. The Flask server keeps both in two SQLite tables and serves a small JSON
API: create, update and delete clues and connections, export the whole board
as one JSON document, and import such a document in place of the board. The
browser script draws the board. It also runs three analyses (key nodes,
isolated nodes, clear), filters clues by a search term, and handles dragging,
the context menu and connection mode.

This project models both halves in Dafny:

- **Server.**
  - `Store` states each JSON handler as a function from the tables before the
    request to the reply and the tables after the commit.
  - `Exchange` does the same for export and import.
  - `Server.Database` is a class whose methods change the rows step by step.
    Each method is proved equal to its function and proved to keep the table
    invariants.
  - `Uploads` holds the upload filter `allowed_file`.
- **Client.**
  - `Board.Board` is a class holding the script's mutable state: the drawn
    clues, the lines, the connection-mode variables, the context-menu state
    and the drag and animation-frame flags. Each listener is a method on it.
  - The loops inside the listeners are standalone methods proved against
    specification functions. They live in `Board` and `Analysis`.
  - `Geometry` covers the pan/zoom arithmetic.
  - `Format` covers the `datetime-local` text and the `clue-<id>` element ids.
  - `Text` holds the string helpers: lower-casing, `includes`, decimal digits
    and `parseInt`.

Library calls the handlers depend on are parameters of an `Env` value:
bleach's `clean`, `datetime.fromisoformat` and `isoformat`. The only fact
assumed about them is that cleaning the empty text gives the empty text. The
clock (`utcnow`) and `uuid4` are parameters as well.

Some consequences of the code as written are proved and worth knowing:

- **Drag end wipes fields.** The drag-end listener sends only the two
  coordinates. `update_clue` reads a missing `content` or `image` as `''`, so
  every drag clears the clue's content, image and timestamp. The title is kept
  (`Store.PositionOnlyUpdate`).
- **Duplicate checks are narrow.** Only the identical ordered pair blocks a new
  connection: the reverse pair and a self-loop are accepted. The import never
  deduplicates.
- **A null coordinate means 0 on insert only.** Creating or importing a clue
  with `pos_x` or `pos_y` null stores 0: the ORM leaves a None attribute out
  of the INSERT, so the column default applies. The same null in an update is
  written as NULL and the commit fails with a 500.
- **Export then import is lossless up to renumbering.** The round trip gives
  back every clue and connection in order. Ids are renumbered from 1, and a
  null timestamp becomes the clock reading taken for that clue's row (the
  handler calls `utcnow()` once per row).
- **The analyses agree.** A clue is dimmed by "isolate" exactly when its degree
  in "key nodes" is positive.

## Model

| member | source | states |
|---|---|---|
| Uploads.AllowedFileIffExtension | app.py:86-88 | a name passes exactly when it has a dot and the text after its last dot, lower-cased, is png, jpg, jpeg or gif |
| Uploads.AfterLastDot | app.py:88 | the extension is a dot-free suffix of the name preceded by a dot, or the whole dot-free name |
| Uploads.UpperCaseExtensionAllowed | app.py:86-88 | "a.PNG" passes: the comparison ignores case |
| Uploads.AllowedExamples | app.py:86-88 | ".png" and "photo.jpeg" pass |
| Uploads.RejectedExamples | app.py:86-88 | "a.png.exe", "file." and "noext" are refused |
| Store.CleanField | app.py:158-160 | `sanitize_input(data.get(k, ''))`: null gives None, a missing key the empty text, a value its cleaned text |
| Store.TimestampOf | app.py:165 | an empty or missing timestamp gives the default; otherwise it raises exactly when `fromisoformat` rejects the text |
| Store.NextId | app.py:175-177 | a new row's id is larger than every id present (1 in an empty table) and keeps ids ascending |
| Store.Find | app.py:184 | the position of the row with that primary key, and none exactly when the id is absent |
| Store.Lookup | app.py:184 | `query.get` (inside `get_or_404` too) raises exactly when the id is outside SQLite's signed 64-bit INTEGER range; otherwise it finds the row with that key, and none exactly when the id is absent |
| Store.CreateClue | app.py:153-177 | 400 exactly when the cleaned title is empty or null; a clue is created exactly when the title is non-empty, the timestamp parses, both coordinate keys are present and the fresh `clue_id` is unused; then exactly one row with a new id is appended, holding the cleaned fields, the parsed timestamp, the given coordinates (a null one stored as the column default 0) and the `uuid4` text, and nothing else changes |
| Store.CreateClueKeepsValid | app.py:153-177 | creating a clue keeps ids ascending, titles non-empty, `clue_id`s unique and every connection between existing clues |
| Store.Merge | app.py:188-204 | the row PUT writes: a non-empty cleaned title replaces the old one; content and image are kept only for null; absent coordinates are kept; an empty timestamp clears it and a non-empty one is replaced by the parsed instant; a null coordinate or a bad timestamp raises |
| Store.PositionOnlyUpdate | app.py:188-204 | the body sent by the drag-end listener keeps the title but sets content and image to "" and the timestamp to null |
| Store.UpdateClue | app.py:181-206 | 500 for an id outside the 64-bit range; 404 exactly when the id is in range and unknown; success exactly when no coordinate is null and the timestamp parses; then only that row changes, to the merged one |
| Store.UpdateClueKeepsValid | app.py:181-206 | updating a clue keeps every table invariant |
| Store.Unattached | app.py:215 | the connections kept are exactly those with neither end at the clue, in their old order |
| Store.UnattachedIncreasing | app.py:215 | the kept connections stay in ascending id order |
| Store.DeleteClue | app.py:210-218 | 500 for an id outside the 64-bit range; 404 exactly when the id is in range and unknown; otherwise that clue and every connection touching it go, nothing else |
| Store.DeleteClueKeepsValid | app.py:210-218 | deleting a clue leaves no connection to a missing clue and keeps every invariant |
| Store.IntValue | app.py:248 | `isinstance(v, int)` accepts integers and booleans (as 1 and 0) and nothing else |
| Store.CreateConnection | app.py:236-274 | checks in order: a non-integer id gives 400, an id outside the 64-bit range 500, a missing clue 404, an identical existing pair 400; otherwise exactly one connection with the cleaned comment and a new id is appended |
| Store.CreateConnectionKeepsValid | app.py:236-274 | creating a connection keeps every invariant |
| Store.ReversedPairAccepted | app.py:259-265 | the reverse of an existing connection is accepted |
| Store.SelfLoopAccepted | app.py:245-265 | a connection from a clue to itself is accepted |
| Store.UpdateConnection | app.py:278-289 | 500 for an id outside the 64-bit range; 404 exactly when the id is in range and unknown; otherwise only that connection's comment changes, to the cleaned text |
| Store.UpdateConnectionKeepsValid | app.py:278-289 | updating a comment keeps every invariant |
| Store.DeleteConnection | app.py:292-298 | 500 for an id outside the 64-bit range; 404 exactly when the id is in range and unknown; otherwise only that connection goes |
| Store.DeleteConnectionKeepsValid | app.py:292-298 | deleting a connection keeps every invariant |
| Exchange.ExportData | app.py:337-373 | one exported clue per row with every column: id, `clue_id`, title, content, image, both coordinates, and the timestamp as its `isoformat` text or null; one exported connection per row with endpoints and comment, in table order |
| Exchange.ImportClue | app.py:410-435 | a row that is not an object, lacks `title` or has an empty cleaned title leaves the staging unchanged; otherwise it raises exactly when the timestamp does not parse, `clue_id` is null or already staged, or `id` is missing; else it appends one clue numbered next with the cleaned title, content and image, the given coordinates (0 when missing or null), the given `clue_id` (the `uuid4` text when missing), the parsed timestamp (the clock reading for that row when empty), and maps the row's old id to it |
| Exchange.ImportClues | app.py:410-435 | the clue loop applies `ImportClue` to each row in turn, with that row's own `utcnow()` reading and `uuid4()` text, until one raises; it numbers its clues 1, 2, ... and inserts at most one per row |
| Exchange.ImportCluesWell | app.py:410-435 | the staged clues satisfy the clue invariants, every title comes from some row, and `id_map` only maps to staged ids |
| Exchange.ImportConnections | app.py:438-455 | the connection loop numbers its connections 1, 2, ... and adds at most one per row |
| Exchange.ImportConnectionsFromRows | app.py:438-455 | every imported connection joins the new ids its row's old endpoints map to |
| Exchange.ImportedConnectionsValid | app.py:438-455 | imported connections only join imported clues |
| Exchange.DuplicateRowsKept | app.py:438-455 | two identical linkable rows give two connections |
| Exchange.Import | app.py:378-468 | a failed import changes nothing; a missing file, a bad name, bad JSON, a non-object or a missing or non-list `clues` or `connections` is a 400; a successful one replaces both tables by the results of the two loops |
| Exchange.ImportKeepsValid | app.py:378-468 | a successful import leaves tables that satisfy every invariant |
| Exchange.ImportExportedClues | app.py:337-366 | the clue loop over exported clues re-inserts each one in order and maps every old id to its new position |
| Exchange.ImportExportedConnections | app.py:359-365 | the connection loop over exported connections rebuilds every one between the new ids |
| Exchange.ExportImportRoundTrip | app.py:337-468 | importing an export gives back every clue and connection in order, renumbered from 1, with a null timestamp set to the clock reading of its row, whatever the tables held before |
| Server.StageClue | app.py:410-435 | one pass of the clue loop, computed step by step (a null coordinate stored as 0), equals `Exchange.ImportClue` |
| Server.ImportClueRows | app.py:410-435 | the clue loop with early exit on an exception equals `Exchange.ImportClues` |
| Server.ImportConnectionRows | app.py:438-455 | the connection loop equals `Exchange.ImportConnections` |
| Server.Database.CreateClue | app.py:153-177 | the reply and the new tables are those `Store.CreateClue` specifies, a null coordinate stored as 0; the invariants hold |
| Server.Database.UpdateClue | app.py:181-206 | field by field update equals `Store.UpdateClue`; the invariants hold |
| Server.Database.DeleteClue | app.py:210-218 | equals `Store.DeleteClue`; the invariants hold |
| Server.Database.CreateConnection | app.py:236-274 | equals `Store.CreateConnection`; the invariants hold |
| Server.Database.UpdateConnection | app.py:278-289 | equals `Store.UpdateConnection`; the invariants hold |
| Server.Database.DeleteConnection | app.py:292-298 | equals `Store.DeleteConnection`; the invariants hold |
| Server.Database.ImportData | app.py:378-468 | equals `Exchange.Import`, committing only a run without an exception; the invariants hold |
| Text.ContainsIffOccurs | static/js/main.js:456-457 | `includes` holds exactly when the term occurs at some index |
| Text.ContainsEmpty | static/js/main.js:452-457 | every text includes the empty term |
| Text.DigitsRoundTrip | static/js/main.js:95-98 | the decimal text of a number reads back as the number |
| Text.TwoDigitsRoundTrip | static/js/main.js:95-98 | `padStart(2, '0')` of a value below 100 is two digits that read back as the value |
| Text.LeadingZero | static/js/main.js:95-98 | a padding zero does not change the value |
| Text.LeadingDigitsOfDigits | static/js/main.js:327-328 | `parseInt` reads all of a digit string followed by a non-digit or the end |
| Format.LocalISOStringRoundTrip | static/js/main.js:93-100 | `toLocalISOString` is the year plus twelve fixed-shape characters, and reading it back gives the same five fields |
| Format.YearRoundTrip | static/js/main.js:94-99 | the year text, signed or not, reads back as the year |
| Format.TailRoundTrip | static/js/main.js:95-99 | `-MM-DDTHH:MM` reads back as month, day, hours and minutes |
| Format.FourDigitYearLength | static/js/main.js:93-100 | a four-digit year gives the sixteen characters of `YYYY-MM-DDTHH:MM` |
| Format.ElementId | static/js/main.js:104-108 | a node's DOM id starts with `clue-` |
| Format.ElementIdRoundTrip | static/js/main.js:327-328 | `parseInt(node.id.split('-')[1])` gives back the id the node was rendered with |
| Geometry.BoardScreenRoundTrip | static/js/main.js:495-496 | screen-to-board and board-to-screen are inverse under any zoom in [0.2, 2] |
| Geometry.DragFollowsCursor | static/js/main.js:744-753 | dividing the cursor delta by the zoom moves the node on screen by exactly the delta |
| Geometry.DragDistanceBounds | static/js/main.js:750-751 | with zoom in [0.2, 2], a delta d along either axis, of either sign, moves the node between abs(d)/2 and 5·abs(d) board units along that axis |
| Geometry.HitboxIsLabelledMidpoint | static/js/main.js:181-203 | without the label offset, the hitbox is equally far from both node centres |
| Geometry.HitboxSymmetric | static/js/main.js:181-203 | swapping source and target does not move the hitbox |
| Geometry.HitboxFollowsPan | static/js/main.js:181-203 | when both nodes move by d, the hitbox moves by d |
| Geometry.HitboxScrollInvariant | static/js/main.js:181-203 | when the nodes and the board move together, the hitbox stays put |
| Analysis.SelfLoopAddsTwo | static/js/main.js:217-220 | a self-loop adds two to its clue's degree |
| Analysis.DegreeSum | static/js/main.js:214-220 | degrees over the loaded clues add up to twice the number of lines |
| Analysis.ComputeDegrees | static/js/main.js:214-220 | the degree map has one entry per loaded clue, each equal to the number of line ends at it |
| Analysis.KeyCount | static/js/main.js:222 | `Math.ceil(n * 0.1)` is the least k with 10k >= n; at least 1 when n > 0 |
| Analysis.AscendingKeys | static/js/main.js:214 | `Object.keys` lists the clue ids once each, in ascending order |
| Analysis.InsertByDegreeSorted | static/js/main.js:221 | one step of the stable sort keeps the entries and their order (higher degree first, smaller id on ties) |
| Analysis.SortByDegreeSorted | static/js/main.js:221 | the sort gives a permutation of the keys ordered by degree, ties by id |
| Analysis.KeyNodesAreTop | static/js/main.js:221-223 | the key set has `ceil(n/10)` loaded clues, and each key clue has a higher degree than every other clue, or the same degree and a smaller id |
| Analysis.KeyNodesExample | static/js/main.js:212-232 | five clues, clue 1 joined to 2, 3 and 4: only clue 1 is a key node |
| Analysis.EndpointsMembership | static/js/main.js:238-241 | a clue is collected exactly when some line starts or ends at it |
| Analysis.CollectEndpoints | static/js/main.js:236-241 | the loop collects exactly the line endpoints |
| Analysis.EndpointIffPositiveDegree | static/js/main.js:212-249 | a clue touches a line exactly when its degree is positive |
| Board.RenderableMembership | static/js/main.js:143-150 | a fetched connection gets a line exactly when both its endpoints are loaded clues |
| Board.RenderableAllLoaded | static/js/main.js:143-150 | with every endpoint loaded, all fetched connections are drawn, in order |
| Board.BuildLines | static/js/main.js:136-179 | the rebuilt lines are the renderable connections in fetched order, each with a fresh hitbox tagged with its id and comment |
| Board.Redrawn | static/js/main.js:103-133 | `renderClue` sets the node's data and position; an existing node keeps its classes, a new one has none; other nodes are untouched |
| Board.RedrawnKeyed | static/js/main.js:103-133 | redrawing keeps every node keyed by its clue id |
| Board.DrawAll | static/js/main.js:631-635 | redrawing an emptied canvas gives one fresh node per fetched id, holding a fetched clue of that id |
| Board.PlaceHitboxes | static/js/main.js:181-203 | every hitbox is placed at its labelled midpoint; connections are unchanged |
| Board.Cleared | static/js/main.js:206-210 | no node keeps an analysis class; everything else is kept |
| Board.ClearedIdempotent | static/js/main.js:206-210 | clearing twice is clearing once |
| Board.MarkKeysGivesKeyClasses | static/js/main.js:212-233 | marking the selected keys highlights `ceil(n/10)` clues, dims the rest, and every highlighted clue outranks every dimmed one |
| Board.KeyNodeClasses | static/js/main.js:212-233 | the degree loop, the sort, the slice and the marking together give those classes and change nothing else |
| Board.IsolationClasses | static/js/main.js:235-250 | nothing is highlighted and a clue is dimmed exactly when some line touches it |
| Board.TouchesIffEndpoint | static/js/main.js:238-249 | touching a line is membership in the collected endpoints |
| Board.ClueMatchesIffOccurs | static/js/main.js:455-459 | a clue matches exactly when the term occurs, ignoring ASCII case, in its title or its non-empty content |
| Board.EmptyTermMatchesAll | static/js/main.js:451-464 | an empty search shows every clue |
| Board.Refiltered | static/js/main.js:455-464 | a node is filtered exactly when the term does not match it; no other field of any node changes |
| Board.RefilteredIffOccurs | static/js/main.js:455-459 | after a search a node stays visible exactly when the term occurs, ignoring ASCII case, in its title or its non-empty content |
| Board.MatchedIds | static/js/main.js:455-462 | the matched set is exactly the clues the term matches |
| Board.FilterLines | static/js/main.js:467-477 | a line is filtered exactly when one of its ends did not match; connections are unchanged |
| Board.ClueMenuNamesClickedClue | static/js/main.js:401-412 | the clue menu's edit, delete and connect items carry the clicked clue's id |
| Board.Board.constructor | static/js/main.js:700-718 | an empty board, with the administrator flag from `/status`, not connecting, no menu, no drag |
| Board.Board.RenderClue | static/js/main.js:103-134 | the clue map becomes `Redrawn`; the lines and all other state stay |
| Board.Board.RenderAllLines | static/js/main.js:136-203 | the lines become the renderable fetched connections in order, each placed |
| Board.Board.UpdateAllHitboxPositions | static/js/main.js:181-203 | every hitbox is re-placed; nothing else changes |
| Board.Board.ReloadAll | static/js/main.js:627-635 | the clues become one fresh node per fetched id, then the lines are rebuilt |
| Board.Board.RemoveClue | static/js/main.js:534-541 | the clue's node goes and the rebuilt lines have no end at it |
| Board.Board.ClearAnalysis | static/js/main.js:206-210 | the clue map becomes `Cleared`; nothing else changes |
| Board.Board.HighlightKeyNodes | static/js/main.js:212-233 | the key-node classes hold on the current lines; data, positions and search classes are kept |
| Board.Board.IdentifyIsolatedNodes | static/js/main.js:235-250 | no clue is highlighted and exactly the clues touched by a line are dimmed |
| Board.Board.Search | static/js/main.js:451-478 | clues are filtered by the term and lines by both of their ends |
| Board.Board.StartConnectionMode | static/js/main.js:291-301 | connection mode is on with that start clue, temporary line and follower |
| Board.Board.CancelConnectionMode | static/js/main.js:307-319 | outside connection mode nothing changes; inside, all four connection variables are cleared |
| Board.Board.CompleteConnection | static/js/main.js:326-344 | clicking the start clue only cancels; otherwise the request carries the start id, the target id and the prompt reply, and both outcomes end connection mode, the accepted one after rebuilding the lines |
| Board.Board.NodeClick | static/js/main.js:110-115 | a node click outside connection mode does nothing |
| Board.Board.RightClick | static/js/main.js:484-501 | while connecting it only cancels; a visitor gets nothing; an administrator gets the menu for the target and the board point under the cursor is remembered |
| Board.Board.MouseMove | static/js/main.js:503-510 | while connecting, the follower goes to the board point that is under the cursor on screen |
| Board.Board.DragStart | static/js/main.js:741-743 | pan and zoom pause |
| Board.Board.DragMove | static/js/main.js:744-758 | outside connection mode the node moves by the delta over the zoom and a line update is scheduled; inside, nothing changes |
| Board.Board.DragEnd | static/js/main.js:759-769 | outside connection mode pan/zoom resume and a PUT with only the two coordinates is sent; inside, it returns before resuming |
| Board.Board.ScheduleLineUpdate | static/js/main.js:727-736 | at most one animation frame is ever pending |
| Board.Board.RunLineUpdateFrame | static/js/main.js:730-734 | the frame re-places every hitbox and clears the flag |

## Left out

- Network requests, promises and `async` ordering are not modelled. Each
  listener takes the server's reply or the fetched lists as parameters and is
  modelled as one atomic step.
- The DOM and LeaderLine are not modelled: element creation, `innerHTML`, CSS
  cursors and outlines, `line.position()`. Measured rectangles are parameters
  (`rectOf`, `board`).
- The clue modal and form are not modelled: `showClueModal`,
  `handleClueFormSubmit`, the time-unknown checkbox. Image upload, `confirm`,
  `alert` and `window.open` are not modelled either. `handleContextMenuClick`
  appears only through the menu items it reads and `Board.Board.RemoveClue`.
- Import file selection and the page reload after an import are not modelled.
- `updateOnPan` and `updateOnZoom` are not modelled: they re-place hitboxes on
  a later frame or timer. `Board.Board.UpdateAllHitboxPositions` is the step
  they run.
- Text is modelled as ASCII only. `toLowerCase`, Python's `lower()` and string
  comparison ignore Unicode case rules.
- Numbers are exact. Coordinates are reals with no IEEE rounding. `parseFloat`
  of `data-x` is taken to give back the number that was written.
- bleach's `clean`, `fromisoformat`, `isoformat`, `utcnow` and `uuid4` are
  parameters, not implementations. The round trip assumes `clean` leaves
  stored texts alone and `isoformat` output is read back by `fromisoformat`.
- `upload_file` is not modelled beyond `allowed_file`: no `secure_filename`, no
  write to `static/uploads`, no URL. Those are filesystem effects.
- The GET handlers are not modelled separately (`get_clues`,
  `get_connections`, `status`). Their lists are the rows in table order, which
  is what the board methods take.
- Login, logout, CSRF, CORS and the security headers are not modelled.
- The `String(100)` and `String(200)` column lengths are not enforced. SQLite
  does not enforce them either.
- Ill-typed request bodies and fields are not modelled. A body that is not a
  JSON object, or a title, content, image, comment or timestamp that is not a
  string, makes `data.get`, bleach's `clean` or `fromisoformat` raise, which
  the handlers turn into a 500. The model types these fields as text.
- Import rows are assumed to have integer ids (or null/missing). A string,
  float or unhashable `id`, `source_id` or `target_id` is not modelled.
- Board.DrawAll: when the fetched list holds two clues with the same id, the
  node is stated to hold one of them, not specifically the last one.
- Store.NextId: ids past the largest 64-bit INTEGER are not modelled. SQLite
  then picks an unused rowid at random, whereas the model keeps counting.
- Store.NextId: a new row's id is one more than the largest id present, which is
  what SQLite does for an INTEGER PRIMARY KEY without AUTOINCREMENT (ids of
  deleted trailing rows are reused).
- Exchange.Import: the import stages the new rows and commits them only at the
  end. The source deletes first and rolls back on an exception; the final
  tables are the same either way.
- Board.Board.DragEnd: in connection mode the listener returns before resuming
  pan and zoom, so they stay paused. This is modelled as written.
