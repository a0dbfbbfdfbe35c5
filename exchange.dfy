/** `GET /api/data/export` and `POST /api/data/import`: the whole board as one
    JSON document, and its replacement by an uploaded one. */
module Exchange {
  import opened Common
  import opened Store

  /** One element of the exported `clues` list. */
  datatype ExportedClue = ExportedClue(
    id: nat, title: string, content: Option<string>, image: Option<string>,
    posX: real, posY: real, clueId: string, timestamp: Option<string>)

  /** One element of the exported `connections` list: the connection id is not
      exported. */
  datatype ExportedConnection = ExportedConnection(source: nat, target: nat, comment: Option<string>)

  datatype Exported = Exported(clues: seq<ExportedClue>, connections: seq<ExportedConnection>)

  function ExportClue(env: Env, c: Clue): ExportedClue
  {
    ExportedClue(c.id, c.title, c.content, c.image, c.posX, c.posY, c.clueId,
      match c.timestamp case None => None case Some(at) => Some(env.toIso(at)))
  }

  /** `export_data`: every clue with all its columns (the timestamp as ISO text or
      null) and every connection as its endpoints and comment, in table order. */
  function ExportData(t: Tables, env: Env): (r: Exported)
    ensures |r.clues| == |t.clues| && |r.connections| == |t.connections|
    ensures forall i :: 0 <= i < |t.clues| ==>
      && r.clues[i].id == t.clues[i].id && r.clues[i].clueId == t.clues[i].clueId
      && r.clues[i].title == t.clues[i].title
      && r.clues[i].content == t.clues[i].content && r.clues[i].image == t.clues[i].image
      && r.clues[i].posX == t.clues[i].posX && r.clues[i].posY == t.clues[i].posY
      && (t.clues[i].timestamp.None? ==> r.clues[i].timestamp.None?)
      && (t.clues[i].timestamp.Some? ==> r.clues[i].timestamp == Some(env.toIso(t.clues[i].timestamp.value)))
    ensures forall i :: 0 <= i < |t.connections| ==>
      r.connections[i].source == t.connections[i].source &&
      r.connections[i].target == t.connections[i].target &&
      r.connections[i].comment == t.connections[i].comment
  {
    Exported(
      seq(|t.clues|, i requires 0 <= i < |t.clues| => ExportClue(env, t.clues[i])),
      seq(|t.connections|, i requires 0 <= i < |t.connections| =>
        ExportedConnection(t.connections[i].source, t.connections[i].target, t.connections[i].comment)))
  }

  /** An element of the uploaded `clues` list: not an object, or an object whose
      keys may be missing, null or set. Ids are integers. */
  datatype ClueRow =
    | NotClueObject
    | ClueObject(id: Field<int>, title: Field<string>, content: Field<string>, image: Field<string>,
                 posX: Field<real>, posY: Field<real>, clueId: Field<string>, timestamp: Field<string>)

  /** An element of the uploaded `connections` list. */
  datatype ConnRow = NotConnObject | ConnObject(source: Field<int>, target: Field<int>, comment: Field<string>)

  /** The value under a top-level key of the uploaded document. */
  datatype Listed<+T> = Missing | NotList | Items(items: seq<T>)

  datatype Document = NotDict | Dict(clues: Listed<ClueRow>, connections: Listed<ConnRow>)

  /** What `json.load` makes of the file: a decode error, another error while
      reading, or a document. */
  datatype Payload = BadJson | Unreadable | Json(doc: Document)

  /** The multipart request: no `file` part, or a file with its name. */
  datatype Upload = NoFile | File(name: string, payload: Payload)

  predicate EndsWith(s: string, suffix: string)
  {
    |suffix| <= |s| && s[|s| - |suffix|..] == suffix
  }

  /** The key an old id takes in `id_map`: null is the key None. */
  function Key(f: Field<int>): Option<int>
  {
    match f
    case Given(k) => Some(k)
    case _ => None
  }

  /** The clues inserted so far and the old-id-to-new-id map. */
  datatype Staged = Staged(clues: seq<Clue>, idMap: map<Option<int>, nat>)

  /** Ids 1, 2, ... in order: what a table emptied in the same transaction hands
      out. */
  ghost predicate Numbered(cs: seq<Clue>)
  {
    forall i :: 0 <= i < |cs| ==> cs[i].id == i + 1
  }

  /** The largest id of an ascending table is its last one. */
  lemma {:induction false} MaxOfIncreasing(ids: seq<nat>)
    requires ids != [] && StrictlyIncreasing(ids)
    ensures MaxId(ids) == ids[|ids| - 1]
  {
    if |ids| > 1 {
      MaxOfIncreasing(ids[..|ids| - 1]);
    }
  }

  /** A numbered table hands out the next number. */
  lemma NextOfNumbered(cs: seq<Clue>)
    requires Numbered(cs)
    ensures NextId(ClueIds(cs)) == |cs| + 1
  {
    if cs != [] {
      MaxOfIncreasing(ClueIds(cs));
    }
  }

  /** A row the clue loop does not skip: an object with a `title` that is
      non-empty after cleaning. */
  predicate Titled(env: Env, row: ClueRow)
  {
    row.ClueObject? && row.title.Given? && Truthy(CleanField(env, row.title))
  }

  /** One pass of the clue loop of `import_data`. Rows that are not objects, lack
      `title` or have an empty cleaned title are skipped. A timestamp
      `fromisoformat` rejects, a null `clue_id`, a `clue_id` already inserted, or
      a missing `id` raises. Otherwise the clue is inserted with the next id (the
      timestamp defaults to `now`, the `clue_id` to `uuid`, a missing or null
      coordinate to 0) and `id_map` maps the row's old id to it. */
  function ImportClue(env: Env, now: Instant, uuid: string, s: Staged, row: ClueRow): (r: Attempt<Staged>)
    requires Numbered(s.clues)
    ensures r.Returns? ==> Numbered(r.value.clues)
    ensures r.Returns? && |r.value.clues| == |s.clues| ==> r.value == s
    ensures !Titled(env, row) ==> r == Returns(s)
    ensures Titled(env, row) ==>
      (r.Raises? <==>
        || TimestampOf(env, row.timestamp, Some(now)).Raises?
        || row.clueId.Null? || ClueIdTaken(s.clues, GetOr(row.clueId, uuid).value)
        || row.id.Absent?)
    ensures Titled(env, row) && r.Returns? ==>
      |r.value.clues| == |s.clues| + 1 &&
      var c := r.value.clues[|s.clues|];
      && c.content == CleanField(env, row.content) && c.image == CleanField(env, row.image)
      && (row.posX.Given? ==> c.posX == row.posX.value) && (!row.posX.Given? ==> c.posX == 0.0)
      && (row.posY.Given? ==> c.posY == row.posY.value) && (!row.posY.Given? ==> c.posY == 0.0)
      && (row.clueId.Given? ==> c.clueId == row.clueId.value) && (row.clueId.Absent? ==> c.clueId == uuid)
      && (Truthy(GetOr(row.timestamp, "")) ==> c.timestamp == env.fromIso(row.timestamp.value))
      && (!Truthy(GetOr(row.timestamp, "")) ==> c.timestamp == Some(now))
    ensures r.Returns? && |r.value.clues| != |s.clues| ==>
      && row.ClueObject? && row.title.Given? && !row.id.Absent?
      && |r.value.clues| == |s.clues| + 1 && r.value.clues[..|s.clues|] == s.clues
      && var c := r.value.clues[|s.clues|];
         c.title == env.clean(row.title.value) && c.title != ""
         && !ClueIdTaken(s.clues, c.clueId)
         && r.value.idMap == s.idMap[Key(row.id) := c.id]
  {
    match row
    case NotClueObject => Returns(s)
    case ClueObject(id, title, content, image, posX, posY, clueId, timestamp) =>
      var t := CleanField(env, title);
      if title.Absent? || !Truthy(t) then Returns(s)
      else
        var x, y := Inserted(GetOr(posX, 0.0)), Inserted(GetOr(posY, 0.0));
        match (TimestampOf(env, timestamp, Some(now)), NotNull(GetOr(clueId, uuid)))
        case (Returns(ts), Returns(cid)) =>
          if ClueIdTaken(s.clues, cid) || id.Absent? then Raises
          else
            var newId := NextId(ClueIds(s.clues));
            NextOfNumbered(s.clues);
            var c := Clue(newId, t.value, CleanField(env, content), CleanField(env, image), x, y, cid, ts);
            Returns(Staged(s.clues + [c], s.idMap[Key(id) := newId]))
        case _ => Raises
  }

  /** The clue loop over the first |rows| rows; `nows(i)` and `uuids(i)` are the
      `utcnow()` reading and the `uuid4()` text evaluated for row i, so every row
      reads the clock afresh. */
  function ImportClues(env: Env, nows: nat -> Instant, uuids: nat -> string, rows: seq<ClueRow>): (r: Attempt<Staged>)
    ensures r.Returns? ==> Numbered(r.value.clues) && |r.value.clues| <= |rows|
  {
    if rows == [] then Returns(Staged([], map[]))
    else
      match ImportClues(env, nows, uuids, rows[..|rows| - 1])
      case Raises => Raises
      case Returns(s) => ImportClue(env, nows(|rows| - 1), uuids(|rows| - 1), s, rows[|rows| - 1])
  }

  /** What the clue loop leaves: numbered clues with non-empty cleaned titles taken
      from the rows, distinct `clue_id`s, and an `id_map` into the new ids. */
  ghost predicate StagedWell(env: Env, rows: seq<ClueRow>, s: Staged)
  {
    && Numbered(s.clues)
    && ValidClues(s.clues)
    && (forall key :: key in s.idMap ==> 1 <= s.idMap[key] <= |s.clues|)
    && (forall c :: c in s.clues ==> exists row :: row in rows && TitledBy(env, row, c))
  }

  /** Clue c carries the cleaned title of row. */
  predicate TitledBy(env: Env, row: ClueRow, c: Clue)
  {
    row.ClueObject? && row.title.Given? && c.title == env.clean(row.title.value)
  }

  lemma NumberedIncreasing(cs: seq<Clue>)
    requires Numbered(cs)
    ensures StrictlyIncreasing(ClueIds(cs))
  {
  }

  /** One pass of the clue loop keeps what the loop promises. */
  lemma ImportClueWell(env: Env, now: Instant, uuid: string, init: seq<ClueRow>, row: ClueRow, s: Staged)
    requires StagedWell(env, init, s)
    requires ImportClue(env, now, uuid, s, row).Returns?
    ensures StagedWell(env, init + [row], ImportClue(env, now, uuid, s, row).value)
  {
    var s' := ImportClue(env, now, uuid, s, row).value;
    if |s'.clues| == |s.clues| {
      StagedWellMore(env, init, row, s);
    } else {
      StagedWellAppend(env, init, row, s, s');
    }
  }

  lemma StagedWellMore(env: Env, init: seq<ClueRow>, row: ClueRow, s: Staged)
    requires StagedWell(env, init, s)
    ensures StagedWell(env, init + [row], s)
  {
    forall c | c in s.clues ensures exists w :: w in init + [row] && TitledBy(env, w, c) {
      var w :| w in init && TitledBy(env, w, c);
      assert w in init + [row];
    }
  }

  lemma StagedWellAppend(env: Env, init: seq<ClueRow>, row: ClueRow, s: Staged, s': Staged)
    requires StagedWell(env, init, s) && Numbered(s'.clues)
    requires row.ClueObject? && row.title.Given?
    requires |s'.clues| == |s.clues| + 1 && s'.clues[..|s.clues|] == s.clues
    requires var c := s'.clues[|s.clues|];
      c.title == env.clean(row.title.value) && c.title != ""
      && !ClueIdTaken(s.clues, c.clueId)
      && s'.idMap == s.idMap[Key(row.id) := c.id]
    ensures StagedWell(env, init + [row], s')
  {
    StagedWellMore(env, init, row, s);
    var c := s'.clues[|s.clues|];
    assert s'.clues == s.clues + [c];
    assert row in init + [row] && TitledBy(env, row, c);
    CluesAppend(s.clues, c);
  }

  lemma {:induction false} ImportCluesWell(env: Env, nows: nat -> Instant, uuids: nat -> string, rows: seq<ClueRow>)
    ensures ImportClues(env, nows, uuids, rows).Returns? ==>
      StagedWell(env, rows, ImportClues(env, nows, uuids, rows).value)
  {
    var r := ImportClues(env, nows, uuids, rows);
    if rows != [] && r.Returns? {
      var init, last := rows[..|rows| - 1], rows[|rows| - 1];
      assert init + [last] == rows;
      ImportCluesWell(env, nows, uuids, init);
      var s := ImportClues(env, nows, uuids, init).value;
      assert r == ImportClue(env, nows(|rows| - 1), uuids(|rows| - 1), s, last);
      ImportClueWell(env, nows(|rows| - 1), uuids(|rows| - 1), init, last, s);
    }
  }

  /** `id_map.get(old)` is a new id, which is never 0, so the truthiness test of
      the handler is a membership test. */
  predicate Linkable(m: map<Option<int>, nat>, row: ConnRow)
  {
    row.ConnObject? && !row.source.Absent? && !row.target.Absent? &&
    Key(row.source) in m && Key(row.target) in m && m[Key(row.source)] != 0 && m[Key(row.target)] != 0
  }

  /** The connection loop of `import_data` over the first |rows| rows: each row
      whose two old ids both map through `id_map` becomes a connection between the
      new ids with the cleaned comment, numbered 1, 2, ...; nothing is
      deduplicated. */
  function ImportConnections(env: Env, m: map<Option<int>, nat>, rows: seq<ConnRow>): (r: seq<Connection>)
    ensures |r| <= |rows|
    ensures forall i :: 0 <= i < |r| ==> r[i].id == i + 1
  {
    if rows == [] then []
    else
      var ks := ImportConnections(env, m, rows[..|rows| - 1]);
      var row := rows[|rows| - 1];
      if Linkable(m, row) then
        ks + [Connection(|ks| + 1, m[Key(row.source)], m[Key(row.target)], CleanField(env, row.comment))]
      else ks
  }

  /** Connection k joins the new ids the old endpoints of row map to. */
  predicate JoinedBy(m: map<Option<int>, nat>, row: ConnRow, k: Connection)
  {
    Linkable(m, row) && k.source == m[Key(row.source)] && k.target == m[Key(row.target)]
  }

  /** Every imported connection comes from a row whose old endpoints map through
      `id_map`, and joins the new ids they map to. */
  lemma {:induction false} ImportConnectionsFromRows(env: Env, m: map<Option<int>, nat>, rows: seq<ConnRow>)
    ensures forall k :: k in ImportConnections(env, m, rows) ==> exists row :: row in rows && JoinedBy(m, row, k)
  {
    if rows != [] {
      var init := rows[..|rows| - 1];
      ImportConnectionsFromRows(env, m, init);
      forall k | k in ImportConnections(env, m, rows) ensures exists row :: row in rows && JoinedBy(m, row, k) {
        if k in ImportConnections(env, m, init) {
          var w :| w in init && JoinedBy(m, w, k);
          assert w in rows;
        } else {
          assert rows[|rows| - 1] in rows;
        }
      }
    }
  }

  /** The connections imported through an `id_map` into numbered clues join
      existing clues and are numbered themselves. */
  lemma ImportedConnectionsValid(env: Env, s: Staged, rows: seq<ConnRow>)
    requires Numbered(s.clues)
    requires forall key :: key in s.idMap ==> 1 <= s.idMap[key] <= |s.clues|
    ensures ValidConnections(ImportConnections(env, s.idMap, rows), ClueIds(s.clues))
  {
    var ks := ImportConnections(env, s.idMap, rows);
    ImportConnectionsFromRows(env, s.idMap, rows);
    assert ConnIds(ks) == seq(|ks|, i => i + 1);
    forall k | k in ks ensures k.source in ClueIds(s.clues) && k.target in ClueIds(s.clues) {
      var row :| row in rows && JoinedBy(s.idMap, row, k);
      assert ClueIds(s.clues)[k.source - 1] == k.source;
      assert ClueIds(s.clues)[k.target - 1] == k.target;
    }
  }

  /** Identical linkable rows each give a connection: nothing is deduplicated. */
  lemma DuplicateRowsKept(env: Env, m: map<Option<int>, nat>, rows: seq<ConnRow>, row: ConnRow)
    requires Linkable(m, row)
    ensures |ImportConnections(env, m, rows + [row, row])| == |ImportConnections(env, m, rows)| + 2
  {
    assert (rows + [row, row])[..|rows| + 1] == rows + [row];
    assert (rows + [row])[..|rows|] == rows;
  }

  /** `import_data`. A missing file part, an empty name or one not ending in
      `.json`, a decode error, a document that is not an object, and a missing or
      non-list `clues` or `connections` are 400s that change nothing. Otherwise
      both tables are emptied and refilled by the two loops, and any exception
      (500) rolls the whole request back. */
  function Import(t: Tables, env: Env, upload: Upload, nows: nat -> Instant, uuids: nat -> string): (r: Outcome)
    ensures r.reply.Failed? ==> r.tables == t
    ensures r.reply.Failed? || r.reply == Done
    ensures (upload.NoFile? || !EndsWith(upload.name, ".json") || upload.payload.BadJson? ||
             (upload.payload.Json? && (upload.payload.doc.NotDict? || !upload.payload.doc.clues.Items? ||
                                       !upload.payload.doc.connections.Items?)))
            ==> r.reply == Failed(BadRequest)
    ensures r.reply == Done ==>
      && upload.File? && upload.payload.Json? && upload.payload.doc.Dict?
      && upload.payload.doc.clues.Items? && upload.payload.doc.connections.Items?
      && var doc := upload.payload.doc;
         ImportClues(env, nows, uuids, doc.clues.items).Returns?
         && var s := ImportClues(env, nows, uuids, doc.clues.items).value;
         r.tables == Tables(s.clues, ImportConnections(env, s.idMap, doc.connections.items))
  {
    match upload
    case NoFile => Outcome(Failed(BadRequest), t)
    case File(name, payload) =>
      if name == "" || !EndsWith(name, ".json") then Outcome(Failed(BadRequest), t)
      else
        match payload
        case BadJson => Outcome(Failed(BadRequest), t)
        case Unreadable => Outcome(Failed(ServerError), t)
        case Json(NotDict) => Outcome(Failed(BadRequest), t)
        case Json(Dict(clues, connections)) =>
          if !clues.Items? || !connections.Items? then Outcome(Failed(BadRequest), t)
          else
            match ImportClues(env, nows, uuids, clues.items)
            case Raises => Outcome(Failed(ServerError), t)
            case Returns(s) => Outcome(Done, Tables(s.clues, ImportConnections(env, s.idMap, connections.items)))
  }

  /** A successful import leaves tables that satisfy every invariant the handlers
      keep. */
  lemma ImportKeepsValid(t: Tables, env: Env, upload: Upload, nows: nat -> Instant, uuids: nat -> string)
    requires ValidTables(t)
    ensures ValidTables(Import(t, env, upload, nows, uuids).tables)
  {
    var r := Import(t, env, upload, nows, uuids);
    if r.reply == Done {
      var doc := upload.payload.doc;
      var s := ImportClues(env, nows, uuids, doc.clues.items).value;
      ImportCluesWell(env, nows, uuids, doc.clues.items);
      ImportedConnectionsValid(env, s, doc.connections.items);
    }
  }

  /** A JSON value that may be null, as `json.load` reads it back. */
  function OptField<T>(o: Option<T>): Field<T>
  {
    match o
    case None => Null
    case Some(v) => Given(v)
  }

  function ClueRowOf(e: ExportedClue): ClueRow
  {
    ClueObject(Given(e.id), Given(e.title), OptField(e.content), OptField(e.image),
      Given(e.posX), Given(e.posY), Given(e.clueId), OptField(e.timestamp))
  }

  function ConnRowOf(e: ExportedConnection): ConnRow
  {
    ConnObject(Given(e.source), Given(e.target), OptField(e.comment))
  }

  /** The document `json.load` returns for the text the export wrote. */
  function AsDocument(e: Exported): Document
  {
    Dict(Items(seq(|e.clues|, i requires 0 <= i < |e.clues| => ClueRowOf(e.clues[i]))),
         Items(seq(|e.connections|, i requires 0 <= i < |e.connections| => ConnRowOf(e.connections[i]))))
  }

  /** Stored values that cleaning and the ISO text round trip leave alone, which
      holds when `clean` is idempotent (every stored text is its output) and
      `isoformat` is non-empty and read back by `fromisoformat`. */
  ghost predicate Stable(env: Env, t: Tables)
  {
    && (forall c :: c in t.clues ==> ClueStable(env, c))
    && (forall k :: k in t.connections ==> k.comment.Some? ==> env.clean(k.comment.value) == k.comment.value)
  }

  ghost predicate ClueStable(env: Env, c: Clue)
  {
    && env.clean(c.title) == c.title
    && (c.content.Some? ==> env.clean(c.content.value) == c.content.value)
    && (c.image.Some? ==> env.clean(c.image.value) == c.image.value)
    && (c.timestamp.Some? ==>
          env.toIso(c.timestamp.value) != "" && env.fromIso(env.toIso(c.timestamp.value)) == c.timestamp)
  }

  /** The clues an import of an export gives back: numbered 1, 2, ... in table
      order, a null timestamp of clue i replaced by the clock reading `nows(i)` of
      its row, all else kept. */
  function RenumberedClues(cs: seq<Clue>, nows: nat -> Instant): (r: seq<Clue>)
    ensures |r| == |cs|
    ensures forall i :: 0 <= i < |cs| ==>
      r[i] == Restored(cs[i], i + 1, nows(i))
  {
    if cs == [] then []
    else
      var c := cs[|cs| - 1];
      RenumberedClues(cs[..|cs| - 1], nows) + [Restored(c, |cs|, nows(|cs| - 1))]
  }

  /** The new id of the clue that had `id`: its position in the table, from 1. */
  function NewIdOf(cs: seq<Clue>, id: nat): nat
    requires id in ClueIds(cs)
  {
    Find(ClueIds(cs), id).value + 1
  }

  /** The connections an import of an export gives back: numbered 1, 2, ... in
      table order, endpoints renamed to the new clue ids, comments kept. */
  function RenumberedConnections(cs: seq<Clue>, ks: seq<Connection>): (r: seq<Connection>)
    requires forall k :: k in ks ==> k.source in ClueIds(cs) && k.target in ClueIds(cs)
    ensures |r| == |ks|
    ensures forall j :: 0 <= j < |ks| ==>
      r[j] == Connection(j + 1, NewIdOf(cs, ks[j].source), NewIdOf(cs, ks[j].target), ks[j].comment)
  {
    if ks == [] then []
    else
      var k := ks[|ks| - 1];
      RenumberedConnections(cs, ks[..|ks| - 1]) +
        [Connection(|ks|, NewIdOf(cs, k.source), NewIdOf(cs, k.target), k.comment)]
  }

  /** The `id_map` the clue loop builds from exported rows. */
  function IdMapOf(cs: seq<Clue>): map<Option<int>, nat>
  {
    if cs == [] then map[] else IdMapOf(cs[..|cs| - 1])[Some(cs[|cs| - 1].id) := |cs|]
  }

  /** With distinct ids, `id_map` sends each old id to its clue's position from 1. */
  lemma {:induction false} IdMapOfDistinct(cs: seq<Clue>)
    requires StrictlyIncreasing(ClueIds(cs))
    ensures forall i :: 0 <= i < |cs| ==> Some(cs[i].id) in IdMapOf(cs) && IdMapOf(cs)[Some(cs[i].id)] == i + 1
  {
    if cs != [] {
      var init := cs[..|cs| - 1];
      assert ClueIds(init) == ClueIds(cs)[..|cs| - 1];
      IdMapOfDistinct(init);
    }
  }

  /** The exported clue rows as `json.load` reads them back. */
  function ClueRows(env: Env, cs: seq<Clue>): (r: seq<ClueRow>)
    ensures |r| == |cs| && forall i :: 0 <= i < |cs| ==> r[i] == ClueRowOf(ExportClue(env, cs[i]))
  {
    if cs == [] then [] else ClueRows(env, cs[..|cs| - 1]) + [ClueRowOf(ExportClue(env, cs[|cs| - 1]))]
  }

  /** The exported connection rows as `json.load` reads them back. */
  function ConnRows(ks: seq<Connection>): (r: seq<ConnRow>)
    ensures |r| == |ks| && forall j :: 0 <= j < |ks| ==>
      r[j] == ConnRowOf(ExportedConnection(ks[j].source, ks[j].target, ks[j].comment))
  {
    if ks == [] then []
    else
      var k := ks[|ks| - 1];
      ConnRows(ks[..|ks| - 1]) + [ConnRowOf(ExportedConnection(k.source, k.target, k.comment))]
  }

  /** The clue c comes back as it was, apart from its id and a null timestamp. */
  function Restored(c: Clue, id: nat, now: Instant): Clue
  {
    c.(id := id, timestamp := if c.timestamp.None? then Some(now) else c.timestamp)
  }

  /** One pass of the clue loop over an exported stable clue whose `clue_id` is
      not yet used re-inserts it with the next number. */
  lemma ImportExportedClue(env: Env, now: Instant, uuid: string, s: Staged, c: Clue)
    requires Numbered(s.clues) && ClueStable(env, c) && c.title != ""
    requires !ClueIdTaken(s.clues, c.clueId)
    ensures ImportClue(env, now, uuid, s, ClueRowOf(ExportClue(env, c))) ==
      Returns(Staged(s.clues + [Restored(c, |s.clues| + 1, now)], s.idMap[Some(c.id) := |s.clues| + 1]))
  {
    ExportedClueFields(env, now, c);
    NextOfNumbered(s.clues);
  }

  /** The fields of an exported stable clue clean and parse back to themselves. */
  lemma ExportedClueFields(env: Env, now: Instant, c: Clue)
    requires ClueStable(env, c)
    ensures var row := ClueRowOf(ExportClue(env, c));
      && CleanField(env, row.title) == Some(c.title)
      && CleanField(env, row.content) == c.content
      && CleanField(env, row.image) == c.image
      && TimestampOf(env, row.timestamp, Some(now)) == Returns(if c.timestamp.None? then Some(now) else c.timestamp)
  {
  }

  /** Dropping the last clue keeps the clue invariants. */
  lemma ValidCluesInit(cs: seq<Clue>)
    requires cs != [] && ValidClues(cs)
    ensures ValidClues(cs[..|cs| - 1])
    ensures forall d :: d in cs[..|cs| - 1] ==> d in cs
  {
    assert ClueIds(cs[..|cs| - 1]) == ClueIds(cs)[..|cs| - 1];
    assert forall d :: d in cs[..|cs| - 1] ==> d in cs;
  }

  /** The last clue's `clue_id` is not among those the loop inserted before it. */
  lemma LastClueIdFree(cs: seq<Clue>, nows: nat -> Instant)
    requires cs != [] && ValidClues(cs)
    ensures !ClueIdTaken(RenumberedClues(cs[..|cs| - 1], nows), cs[|cs| - 1].clueId)
  {
    var r := RenumberedClues(cs[..|cs| - 1], nows);
    forall d | d in r ensures d.clueId != cs[|cs| - 1].clueId {
      var i :| 0 <= i < |r| && r[i] == d;
      assert d.clueId == cs[i].clueId;
    }
  }

  /** Once the clue loop raises, the rest of the rows do not matter. */
  lemma {:induction false} RaisesStays(env: Env, nows: nat -> Instant, uuids: nat -> string, rows: seq<ClueRow>, n: nat)
    requires n <= |rows| && ImportClues(env, nows, uuids, rows[..n]).Raises?
    ensures ImportClues(env, nows, uuids, rows).Raises?
  {
    if n < |rows| {
      assert rows[..|rows| - 1][..n] == rows[..n];
      RaisesStays(env, nows, uuids, rows[..|rows| - 1], n);
    } else {
      assert rows[..n] == rows;
    }
  }

  /** Row i of the clue loop, after the first i rows have been staged as s: the
      first i + 1 rows give that pass's result, and an exception there is the
      result of the whole loop. */
  lemma ImportCluesStep(env: Env, nows: nat -> Instant, uuids: nat -> string, rows: seq<ClueRow>, i: nat, s: Staged)
    requires i < |rows| && ImportClues(env, nows, uuids, rows[..i]) == Returns(s)
    ensures Numbered(s.clues)
    ensures ImportClues(env, nows, uuids, rows[..i + 1]) == ImportClue(env, nows(i), uuids(i), s, rows[i])
    ensures ImportClue(env, nows(i), uuids(i), s, rows[i]).Raises? ==> ImportClues(env, nows, uuids, rows).Raises?
  {
    assert rows[..i + 1][..i] == rows[..i];
    if ImportClue(env, nows(i), uuids(i), s, rows[i]).Raises? {
      RaisesStays(env, nows, uuids, rows, i + 1);
    }
  }

  /** The clue loop over one more row is one more pass. */
  lemma ImportCluesSnoc(env: Env, nows: nat -> Instant, uuids: nat -> string, rows: seq<ClueRow>, row: ClueRow)
    requires ImportClues(env, nows, uuids, rows).Returns?
    ensures ImportClues(env, nows, uuids, rows + [row]) ==
      ImportClue(env, nows(|rows|), uuids(|rows|), ImportClues(env, nows, uuids, rows).value, row)
  {
    assert (rows + [row])[..|rows|] == rows;
  }

  /** The pass over the last exported clue, after the earlier ones are back,
      completes the renumbered clues and the `id_map`. */
  lemma ImportExportedLast(env: Env, nows: nat -> Instant, uuid: string, cs: seq<Clue>)
    requires cs != [] && ValidClues(cs) && ClueStable(env, cs[|cs| - 1])
    ensures var init := cs[..|cs| - 1];
      ImportClue(env, nows(|cs| - 1), uuid, Staged(RenumberedClues(init, nows), IdMapOf(init)), ClueRowOf(ExportClue(env, cs[|cs| - 1])))
        == Returns(Staged(RenumberedClues(cs, nows), IdMapOf(cs)))
  {
    var init := cs[..|cs| - 1];
    var c := cs[|cs| - 1];
    assert c in cs;
    LastClueIdFree(cs, nows);
    ImportExportedClue(env, nows(|cs| - 1), uuid, Staged(RenumberedClues(init, nows), IdMapOf(init)), c);
  }

  /** The clue loop over the exported rows of stable clues with distinct
      `clue_id`s inserts each one again in order and maps each old id to it. */
  lemma {:induction false} ImportExportedClues(env: Env, nows: nat -> Instant, uuids: nat -> string, cs: seq<Clue>)
    requires ValidClues(cs) && forall c :: c in cs ==> ClueStable(env, c)
    ensures ImportClues(env, nows, uuids, ClueRows(env, cs)) == Returns(Staged(RenumberedClues(cs, nows), IdMapOf(cs)))
  {
    if cs != [] {
      var init := cs[..|cs| - 1];
      var c := cs[|cs| - 1];
      ValidCluesInit(cs);
      ImportExportedClues(env, nows, uuids, init);
      assert ClueRows(env, cs) == ClueRows(env, init) + [ClueRowOf(ExportClue(env, c))];
      ImportCluesSnoc(env, nows, uuids, ClueRows(env, init), ClueRowOf(ExportClue(env, c)));
      ImportExportedLast(env, nows, uuids(|cs| - 1), cs);
    }
  }

  /** An exported connection between existing clues passes the truthiness test
      and joins the new ids of its endpoints. */
  lemma ImportExportedConnection(env: Env, cs: seq<Clue>, k: Connection)
    requires StrictlyIncreasing(ClueIds(cs))
    requires k.source in ClueIds(cs) && k.target in ClueIds(cs)
    requires k.comment.Some? ==> env.clean(k.comment.value) == k.comment.value
    ensures var row := ConnRowOf(ExportedConnection(k.source, k.target, k.comment));
      && Linkable(IdMapOf(cs), row)
      && IdMapOf(cs)[Key(row.source)] == NewIdOf(cs, k.source)
      && IdMapOf(cs)[Key(row.target)] == NewIdOf(cs, k.target)
      && CleanField(env, row.comment) == k.comment
  {
    IdMapOfDistinct(cs);
    var a := Find(ClueIds(cs), k.source).value;
    var b := Find(ClueIds(cs), k.target).value;
    assert IdMapOf(cs)[Some(cs[a].id)] == a + 1 && IdMapOf(cs)[Some(cs[b].id)] == b + 1;
  }

  /** The connection loop over the exported rows, with the `id_map` of the
      exported clues, rebuilds every connection between the new ids. */
  lemma {:induction false} ImportExportedConnections(env: Env, cs: seq<Clue>, ks: seq<Connection>)
    requires StrictlyIncreasing(ClueIds(cs))
    requires forall k :: k in ks ==> k.source in ClueIds(cs) && k.target in ClueIds(cs)
    requires forall k :: k in ks ==> k.comment.Some? ==> env.clean(k.comment.value) == k.comment.value
    ensures ImportConnections(env, IdMapOf(cs), ConnRows(ks)) == RenumberedConnections(cs, ks)
  {
    if ks != [] {
      var init := ks[..|ks| - 1];
      var k := ks[|ks| - 1];
      var m := IdMapOf(cs);
      var prev := ImportConnections(env, m, ConnRows(init));
      assert prev == RenumberedConnections(cs, init) by {
        assert forall d :: d in init ==> d in ks;
        ImportExportedConnections(env, cs, init);
      }
      var rows := ConnRows(ks);
      var row := rows[|ks| - 1];
      assert Linkable(m, row) && m[Key(row.source)] == NewIdOf(cs, k.source) &&
        m[Key(row.target)] == NewIdOf(cs, k.target) && CleanField(env, row.comment) == k.comment by {
        assert k in ks;
        ImportExportedConnection(env, cs, k);
      }
      assert rows[..|ks| - 1] == ConnRows(init) by {
        assert rows == ConnRows(init) + [ConnRowOf(ExportedConnection(k.source, k.target, k.comment))];
      }
      assert ImportConnections(env, m, rows) ==
        prev + [Connection(|prev| + 1, m[Key(row.source)], m[Key(row.target)], CleanField(env, row.comment))];
    }
  }

  /** The document the export writes holds exactly the exported rows. */
  lemma ExportedRows(t: Tables, env: Env)
    ensures AsDocument(ExportData(t, env)) == Dict(Items(ClueRows(env, t.clues)), Items(ConnRows(t.connections)))
  {
    var d := AsDocument(ExportData(t, env));
    assert d.clues.items == ClueRows(env, t.clues);
    assert d.connections.items == ConnRows(t.connections);
  }

  /** A well-formed upload is imported whatever the tables held before, unless the
      clue loop raises. */
  lemma ImportOfDocument(before: Tables, env: Env, name: string, clues: seq<ClueRow>, connections: seq<ConnRow>,
                         nows: nat -> Instant, uuids: nat -> string)
    requires EndsWith(name, ".json")
    requires ImportClues(env, nows, uuids, clues).Returns?
    ensures var s := ImportClues(env, nows, uuids, clues).value;
      Import(before, env, File(name, Json(Dict(Items(clues), Items(connections)))), nows, uuids) ==
        Outcome(Done, Tables(s.clues, ImportConnections(env, s.idMap, connections)))
  {
  }

  /** Exporting and importing the file again gives back every clue and every
      connection, in order, up to renumbering: clue ids become positions, a null
      timestamp becomes the clock reading of its row, and connection ids (not
      exported) are renumbered too. What was in the tables before the import does not matter. */
  lemma ExportImportRoundTrip(t: Tables, env: Env, before: Tables, name: string, nows: nat -> Instant, uuids: nat -> string)
    requires ValidTables(t) && Stable(env, t) && EndsWith(name, ".json")
    ensures Import(before, env, File(name, Json(AsDocument(ExportData(t, env)))), nows, uuids) ==
      Outcome(Done, Tables(RenumberedClues(t.clues, nows), RenumberedConnections(t.clues, t.connections)))
  {
    ExportedRows(t, env);
    ImportExportedClues(env, nows, uuids, t.clues);
    ImportExportedConnections(env, t.clues, t.connections);
    ImportOfDocument(before, env, name, ClueRows(env, t.clues), ConnRows(t.connections), nows, uuids);
  }
}
