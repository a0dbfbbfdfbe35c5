/** The server's session over the two tables: each JSON handler of the Flask
    application as a method that changes the rows step by step and commits, or
    returns an error and leaves them as they were. Each method is proved to do
    what the matching function of Store or Exchange specifies. */
module Server {
  import opened Common
  import opened Api
  import opened Store
  import opened Exchange

  /** One pass of the clue loop of `import_data`: skip the row, stage its clue
      and map its old id, or raise. */
  method StageClue(env: Env, now: Instant, uuid: string, staged: seq<Clue>, idMap: map<Option<int>, nat>, row: ClueRow)
    returns (r: Attempt<Staged>)
    requires Numbered(staged)
    ensures r == ImportClue(env, now, uuid, Staged(staged, idMap), row)
  {
    if row.NotClueObject? || row.title.Absent? {
      return Returns(Staged(staged, idMap));
    }
    var title := CleanField(env, row.title);
    if !Truthy(title) {
      return Returns(Staged(staged, idMap));
    }
    var ts := TimestampOf(env, row.timestamp, Some(now));
    var x := GetOr(row.posX, 0.0);
    var y := GetOr(row.posY, 0.0);
    var clueId := GetOr(row.clueId, uuid);
    if ts.Raises? || clueId.None? || ClueIdTaken(staged, clueId.value) || row.id.Absent? {
      return Raises;
    }
    var id := NextId(ClueIds(staged));
    var clue := Clue(id, title.value, CleanField(env, row.content), CleanField(env, row.image),
                     Inserted(x), Inserted(y), clueId.value, ts.value);
    r := Returns(Staged(staged + [clue], idMap[Key(row.id) := id]));
  }

  /** The clue loop of `import_data`: rows are staged one at a time, and an
      exception abandons the loop. */
  method ImportClueRows(env: Env, nows: nat -> Instant, uuids: nat -> string, rows: seq<ClueRow>) returns (r: Attempt<Staged>)
    ensures r == ImportClues(env, nows, uuids, rows)
  {
    var staged: seq<Clue> := [];
    var idMap: map<Option<int>, nat> := map[];
    var i := 0;
    while i < |rows|
      invariant 0 <= i <= |rows|
      invariant ImportClues(env, nows, uuids, rows[..i]) == Returns(Staged(staged, idMap))
    {
      ImportCluesStep(env, nows, uuids, rows, i, Staged(staged, idMap));
      var step := StageClue(env, nows(i), uuids(i), staged, idMap, rows[i]);
      if step.Raises? {
        return Raises;
      }
      staged, idMap := step.value.clues, step.value.idMap;
      i := i + 1;
    }
    assert rows[..i] == rows;
    r := Returns(Staged(staged, idMap));
  }

  /** The connection loop of `import_data`: a row whose old endpoints both map
      through `id_map` becomes a connection between the new ids. */
  method ImportConnectionRows(env: Env, idMap: map<Option<int>, nat>, rows: seq<ConnRow>) returns (ks: seq<Connection>)
    ensures ks == ImportConnections(env, idMap, rows)
  {
    ks := [];
    var j := 0;
    while j < |rows|
      invariant 0 <= j <= |rows|
      invariant ks == ImportConnections(env, idMap, rows[..j])
    {
      assert rows[..j + 1][..j] == rows[..j];
      var row := rows[j];
      if row.ConnObject? && !row.source.Absent? && !row.target.Absent? {
        var newSource := if Key(row.source) in idMap then idMap[Key(row.source)] else 0;
        var newTarget := if Key(row.target) in idMap then idMap[Key(row.target)] else 0;
        if newSource != 0 && newTarget != 0 {
          ks := ks + [Connection(|ks| + 1, newSource, newTarget, CleanField(env, row.comment))];
        }
      }
      j := j + 1;
    }
    assert rows[..j] == rows;
  }

  class Database {
    var clues: seq<Clue>
    var connections: seq<Connection>
    const env: Env

    /** The committed contents of both tables. */
    function Snapshot(): Tables
      reads this
    {
      Tables(clues, connections)
    }

    ghost predicate Valid()
      reads this
    {
      ValidTables(Snapshot()) && EnvOk(env)
    }

    constructor (env: Env)
      requires EnvOk(env)
      ensures Valid() && clues == [] && connections == [] && this.env == env
    {
      clues := [];
      connections := [];
      this.env := env;
    }

    /** `create_clue`; `uuid` is the text `uuid.uuid4()` gives. */
    method CreateClue(body: ClueBody, uuid: string) returns (reply: Reply)
      requires Valid()
      modifies this
      ensures Valid()
      ensures Outcome(reply, Snapshot()) == Store.CreateClue(old(Snapshot()), env, body, uuid)
    {
      CreateClueKeepsValid(Snapshot(), env, body, uuid);
      var title := CleanField(env, body.title);
      if !Truthy(title) {
        return Failed(BadRequest);
      }
      var ts := TimestampOf(env, body.timestamp, None);
      if ts.Raises? || body.posX.Absent? || body.posY.Absent? || ClueIdTaken(clues, uuid) {
        return Failed(ServerError);
      }
      var x := Inserted(GetOr(body.posX, 0.0));
      var y := Inserted(GetOr(body.posY, 0.0));
      var id := NextId(ClueIds(clues));
      clues := clues + [Clue(id, title.value, CleanField(env, body.content), CleanField(env, body.image),
                             x, y, uuid, ts.value)];
      reply := ClueCreated(id, uuid);
    }

    /** `update_clue`: the row is looked up, its fields are overwritten one by one
        as the body says, and the commit fails on a null coordinate. */
    method UpdateClue(id: int, body: ClueBody) returns (reply: Reply)
      requires Valid()
      modifies this
      ensures Valid()
      ensures Outcome(reply, Snapshot()) == Store.UpdateClue(old(Snapshot()), env, id, body)
    {
      UpdateClueKeepsValid(Snapshot(), env, id, body);
      var found := Lookup(ClueIds(clues), id);
      if found.Raises? {
        return Failed(ServerError);
      }
      if found.value.None? {
        return Failed(NotFound);
      }
      var i := found.value.value;
      var clue := clues[i];
      var title := CleanField(env, body.title);
      var content := CleanField(env, body.content);
      var image := CleanField(env, body.image);
      if Truthy(title) {
        clue := clue.(title := title.value);
      }
      if content.Some? {
        clue := clue.(content := content);
      }
      if image.Some? {
        clue := clue.(image := image);
      }
      var x := GetOr(body.posX, clue.posX);
      var y := GetOr(body.posY, clue.posY);
      var ts := TimestampOf(env, body.timestamp, None);
      if x.None? || y.None? || ts.Raises? {
        return Failed(ServerError);
      }
      clue := clue.(posX := x.value, posY := y.value, timestamp := ts.value);
      clues := clues[i := clue];
      reply := Done;
    }

    /** `delete_clue`: the connections touching the clue go, then the clue. */
    method DeleteClue(id: int) returns (reply: Reply)
      requires Valid()
      modifies this
      ensures Valid()
      ensures Outcome(reply, Snapshot()) == Store.DeleteClue(old(Snapshot()), id)
    {
      DeleteClueKeepsValid(Snapshot(), id);
      var found := Lookup(ClueIds(clues), id);
      if found.Raises? {
        return Failed(ServerError);
      }
      if found.value.None? {
        return Failed(NotFound);
      }
      var i := found.value.value;
      connections := Unattached(connections, id);
      clues := clues[..i] + clues[i + 1..];
      reply := Done;
    }

    /** `create_connection`, with its checks in the handler's order. */
    method CreateConnection(body: ConnBody) returns (reply: Reply)
      requires Valid()
      modifies this
      ensures Valid()
      ensures Outcome(reply, Snapshot()) == Store.CreateConnection(old(Snapshot()), env, body)
    {
      CreateConnectionKeepsValid(Snapshot(), env, body);
      var comment := CleanField(env, body.comment);
      var source := IntValue(body.source);
      var target := IntValue(body.target);
      if source.None? || target.None? {
        return Failed(BadRequest);
      }
      var sourceClue := Lookup(ClueIds(clues), source.value);
      var targetClue := Lookup(ClueIds(clues), target.value);
      if sourceClue.Raises? || targetClue.Raises? {
        return Failed(ServerError);
      }
      if sourceClue.value.None? || targetClue.value.None? {
        return Failed(NotFound);
      }
      if Linked(connections, source.value, target.value) {
        return Failed(BadRequest);
      }
      var id := NextId(ConnIds(connections));
      connections := connections + [Connection(id, source.value as nat, target.value as nat, comment)];
      reply := ConnectionCreated(id);
    }

    /** `update_connection`: only the comment of the addressed row is written. */
    method UpdateConnection(id: int, comment: Field<string>) returns (reply: Reply)
      requires Valid()
      modifies this
      ensures Valid()
      ensures Outcome(reply, Snapshot()) == Store.UpdateConnection(old(Snapshot()), env, id, comment)
    {
      UpdateConnectionKeepsValid(Snapshot(), env, id, comment);
      var found := Lookup(ConnIds(connections), id);
      if found.Raises? {
        return Failed(ServerError);
      }
      if found.value.None? {
        return Failed(NotFound);
      }
      var i := found.value.value;
      connections := connections[i := connections[i].(comment := CleanField(env, comment))];
      reply := Done;
    }

    /** `delete_connection`. */
    method DeleteConnection(id: int) returns (reply: Reply)
      requires Valid()
      modifies this
      ensures Valid()
      ensures Outcome(reply, Snapshot()) == Store.DeleteConnection(old(Snapshot()), id)
    {
      DeleteConnectionKeepsValid(Snapshot(), id);
      var found := Lookup(ConnIds(connections), id);
      if found.Raises? {
        return Failed(ServerError);
      }
      if found.value.None? {
        return Failed(NotFound);
      }
      var i := found.value.value;
      connections := connections[..i] + connections[i + 1..];
      reply := Done;
    }

    /** `import_data`: the structural checks, then both loops over the uploaded
        rows; only a run without an exception is committed, so an exception rolls
        everything back. `nows(i)` and `uuids(i)` are the `datetime.utcnow()`
        reading and the `uuid.uuid4()` text evaluated for clue row i. */
    method ImportData(upload: Upload, nows: nat -> Instant, uuids: nat -> string) returns (reply: Reply)
      requires Valid()
      modifies this
      ensures Valid()
      ensures Outcome(reply, Snapshot()) == Import(old(Snapshot()), env, upload, nows, uuids)
    {
      ImportKeepsValid(Snapshot(), env, upload, nows, uuids);
      if upload.NoFile? || upload.name == "" || !EndsWith(upload.name, ".json") {
        return Failed(BadRequest);
      }
      match upload.payload
      case BadJson => return Failed(BadRequest);
      case Unreadable => return Failed(ServerError);
      case Json(doc) =>
        if doc.NotDict? || !doc.clues.Items? || !doc.connections.Items? {
          return Failed(BadRequest);
        }
        var staged := ImportClueRows(env, nows, uuids, doc.clues.items);
        if staged.Raises? {
          return Failed(ServerError);
        }
        var ks := ImportConnectionRows(env, staged.value.idMap, doc.connections.items);
        clues := staged.value.clues;
        connections := ks;
        reply := Done;
    }
  }
}
