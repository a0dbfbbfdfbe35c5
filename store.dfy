/** The server's two tables and the rules its JSON handlers apply to them. Each
    handler is a function from the tables before the request to the reply and the
    tables after the commit; a request that fails leaves the tables as they were. */
module Store {
  import opened Common
  import opened Api

  /** A stored `datetime`; only equality of instants matters here. */
  type Instant = int

  /** A row of the `clue` table. */
  datatype Clue = Clue(
    id: nat, title: string, content: Option<string>, image: Option<string>,
    posX: real, posY: real, clueId: string, timestamp: Option<Instant>)

  /** A row of the `connection` table. */
  datatype Connection = Connection(id: nat, source: nat, target: nat, comment: Option<string>)

  /** Both tables, rows in ascending id order as the queries return them. */
  datatype Tables = Tables(clues: seq<Clue>, connections: seq<Connection>)

  /** The library calls the handlers rely on: bleach's `clean` behind
      `sanitize_input`, `datetime.fromisoformat` (None where it raises) and
      `datetime.isoformat`. */
  datatype Env = Env(clean: string -> string, fromIso: string -> Option<Instant>, toIso: Instant -> string)

  /** Cleaning the empty text gives the empty text. */
  ghost predicate EnvOk(env: Env)
  {
    env.clean("") == ""
  }

  const BadRequest: nat := 400
  const NotFound: nat := 404
  const ServerError: nat := 500

  /** The JSON reply of a handler. */
  datatype Reply = ClueCreated(id: nat, clueId: string) | ConnectionCreated(connId: nat) | Done | Failed(code: nat)

  /** The reply together with the tables after the request. */
  datatype Outcome = Outcome(reply: Reply, tables: Tables)

  /** A Python computation that returns a value or raises. */
  datatype Attempt<+T> = Returns(value: T) | Raises

  /** `sanitize_input`: None stays None, text is cleaned. */
  function Sanitize(env: Env, s: Option<string>): Option<string>
  {
    match s
    case None => None
    case Some(v) => Some(env.clean(v))
  }

  /** `sanitize_input(data.get(key, ''))`. */
  function CleanField(env: Env, f: Field<string>): (r: Option<string>)
    ensures f.Null? <==> r.None?
    ensures EnvOk(env) && f.Absent? ==> r == Some("")
    ensures f.Given? ==> r == Some(env.clean(f.value))
  {
    Sanitize(env, GetOr(f, ""))
  }

  /** Python truthiness of an optional text: present and non-empty. */
  predicate Truthy(s: Option<string>)
  {
    s.Some? && s.value != ""
  }

  /** `fromisoformat(data['timestamp']) if data.get('timestamp') else otherwise`. */
  function TimestampOf(env: Env, f: Field<string>, otherwise: Option<Instant>): (r: Attempt<Option<Instant>>)
    ensures !Truthy(GetOr(f, "")) ==> r == Returns(otherwise)
    ensures Truthy(GetOr(f, "")) ==> (r.Raises? <==> env.fromIso(f.value).None?)
    ensures Truthy(GetOr(f, "")) && r.Returns? ==> r.value == env.fromIso(f.value)
  {
    if f.Given? && f.value != "" then
      match env.fromIso(f.value)
      case None => Raises
      case Some(at) => Returns(Some(at))
    else Returns(otherwise)
  }

  /** A value bound for a NOT NULL column: null fails at the commit. */
  function NotNull<T>(v: Option<T>): (r: Attempt<T>)
    ensures r.Raises? <==> v.None?
    ensures v.Some? ==> r == Returns(v.value)
  {
    match v
    case None => Raises
    case Some(x) => Returns(x)
  }

  /** The value the ORM stores in `pos_x` or `pos_y` (NOT NULL, default 0) of a
      new row: an attribute set to None is left out of the INSERT, so the column
      default applies. */
  function Inserted(v: Option<real>): real
  {
    match v
    case None => 0.0
    case Some(x) => x
  }

  /** `data[key]` bound to `pos_x` or `pos_y` of a new row: a missing key raises
      KeyError, null stores the column default 0. */
  function NewCoordinate(f: Field<real>): (r: Attempt<real>)
    ensures r.Raises? <==> f.Absent?
    ensures f.Null? ==> r == Returns(0.0)
    ensures f.Given? ==> r == Returns(f.value)
  {
    match f
    case Absent => Raises
    case _ => Returns(Inserted(GetOr(f, 0.0)))
  }

  function ClueIds(cs: seq<Clue>): (r: seq<nat>)
    ensures |r| == |cs| && forall i :: 0 <= i < |cs| ==> r[i] == cs[i].id
  {
    seq(|cs|, i requires 0 <= i < |cs| => cs[i].id)
  }

  function ConnIds(ks: seq<Connection>): (r: seq<nat>)
    ensures |r| == |ks| && forall i :: 0 <= i < |ks| ==> r[i] == ks[i].id
  {
    seq(|ks|, i requires 0 <= i < |ks| => ks[i].id)
  }

  /** The largest id in a table, 0 for an empty one. */
  function MaxId(ids: seq<nat>): (r: nat)
    ensures forall i :: 0 <= i < |ids| ==> ids[i] <= r
    ensures ids == [] ==> r == 0
    ensures ids != [] ==> r in ids
  {
    if ids == [] then 0
    else
      var m := MaxId(ids[..|ids| - 1]);
      if ids[|ids| - 1] > m then ids[|ids| - 1] else m
  }

  /** The id SQLite gives a new row of an INTEGER PRIMARY KEY table: one more than
      the largest id present, so 1 for an empty table. */
  function NextId(ids: seq<nat>): (r: nat)
    ensures r > 0 && forall i :: 0 <= i < |ids| ==> ids[i] < r
    ensures ids == [] ==> r == 1
    ensures StrictlyIncreasing(ids) ==> StrictlyIncreasing(ids + [r])
  {
    MaxId(ids) + 1
  }

  /** The position of the row with the given primary key, the way
      `query.get(id)` finds it. */
  function Find(ids: seq<nat>, id: int): (r: Option<nat>)
    ensures r.Some? ==> r.value < |ids| && ids[r.value] == id
    ensures r.None? <==> id !in ids
  {
    if ids == [] then None
    else if ids[0] == id then Some(0)
    else match Find(ids[1..], id)
      case None => None
      case Some(k) => Some(k + 1)
  }

  /** The values SQLite's INTEGER holds: binding a Python int outside the signed
      64-bit range raises OverflowError, which Flask answers with a 500. */
  predicate SqlInteger(i: int)
  {
    -0x8000_0000_0000_0000 <= i < 0x8000_0000_0000_0000
  }

  /** `query.get(id)`, as `get_or_404` also uses it: an id SQLite cannot bind
      raises; otherwise the position of the row with that key, if any. */
  function Lookup(ids: seq<nat>, id: int): (r: Attempt<Option<nat>>)
    ensures r.Raises? <==> !SqlInteger(id)
    ensures r.Returns? ==> (r.value.None? <==> id !in ids)
    ensures r.Returns? && r.value.Some? ==> r.value.value < |ids| && ids[r.value.value] == id
  {
    if SqlInteger(id) then Returns(Find(ids, id)) else Raises
  }

  /** Some clue already carries this `clue_id` (the column is UNIQUE). */
  predicate ClueIdTaken(cs: seq<Clue>, clueId: string)
  {
    exists c :: c in cs && c.clueId == clueId
  }

  /** The invariants the handlers maintain: ascending unique ids, non-empty titles,
      unique `clue_id`s, and connections only between existing clues. */
  ghost predicate ValidTables(t: Tables)
  {
    ValidClues(t.clues) && ValidConnections(t.connections, ClueIds(t.clues))
  }

  ghost predicate ValidClues(cs: seq<Clue>)
  {
    && StrictlyIncreasing(ClueIds(cs))
    && (forall c :: c in cs ==> c.title != "")
    && (forall i, j :: 0 <= i < j < |cs| ==> cs[i].clueId != cs[j].clueId)
  }

  ghost predicate ValidConnections(ks: seq<Connection>, clueIds: seq<nat>)
  {
    && StrictlyIncreasing(ConnIds(ks))
    && (forall k :: k in ks ==> k.source in clueIds && k.target in clueIds)
  }

  /** `POST /api/clues`. `uuid` is the fresh `uuid.uuid4()` text. An empty or null
      title (after cleaning) is a 400; a timestamp `fromisoformat` rejects, a
      missing coordinate, or a `clue_id` clash is a 500; otherwise exactly one
      clue is appended with the next id, a null coordinate stored as 0. */
  function CreateClue(t: Tables, env: Env, body: ClueBody, uuid: string): (r: Outcome)
    ensures r.reply == Failed(BadRequest) <==> !Truthy(CleanField(env, body.title))
    ensures r.reply.Failed? ==> r.tables == t
    ensures r.reply.Failed? || r.reply.ClueCreated?
    ensures r.reply.ClueCreated? <==>
      && Truthy(CleanField(env, body.title))
      && TimestampOf(env, body.timestamp, None).Returns?
      && !body.posX.Absent? && !body.posY.Absent?
      && !ClueIdTaken(t.clues, uuid)
    ensures r.reply.ClueCreated? ==>
      && r.reply.clueId == uuid
      && r.reply.id !in ClueIds(t.clues)
      && r.tables.connections == t.connections
      && |r.tables.clues| == |t.clues| + 1 && r.tables.clues[..|t.clues|] == t.clues
      && var c := r.tables.clues[|t.clues|];
         && c.id == r.reply.id && c.title == CleanField(env, body.title).value
         && c.content == CleanField(env, body.content) && c.image == CleanField(env, body.image)
         && c.clueId == uuid && c.timestamp == TimestampOf(env, body.timestamp, None).value
         && (body.posX.Given? ==> c.posX == body.posX.value) && (body.posX.Null? ==> c.posX == 0.0)
         && (body.posY.Given? ==> c.posY == body.posY.value) && (body.posY.Null? ==> c.posY == 0.0)
  {
    var title := CleanField(env, body.title);
    if !Truthy(title) then Outcome(Failed(BadRequest), t)
    else
      match (TimestampOf(env, body.timestamp, None), NewCoordinate(body.posX), NewCoordinate(body.posY))
      case (Returns(ts), Returns(x), Returns(y)) =>
        if ClueIdTaken(t.clues, uuid) then Outcome(Failed(ServerError), t)
        else
          var id := NextId(ClueIds(t.clues));
          var c := Clue(id, title.value, CleanField(env, body.content), CleanField(env, body.image), x, y, uuid, ts);
          Outcome(ClueCreated(id, uuid), Tables(t.clues + [c], t.connections))
      case _ => Outcome(Failed(ServerError), t)
  }

  /** The row `update_clue` writes back: a non-empty cleaned title replaces the
      old one; content and image are replaced unless the key is null (so a missing
      key clears them); a missing coordinate keeps the old one and a null one fails
      the commit; the timestamp is parsed when given and cleared otherwise. */
  function Merge(env: Env, c: Clue, body: ClueBody): (r: Attempt<Clue>)
    ensures r.Raises? <==>
      body.posX.Null? || body.posY.Null? || TimestampOf(env, body.timestamp, None).Raises?
    ensures r.Returns? ==>
      && r.value.id == c.id && r.value.clueId == c.clueId
      && (if Truthy(CleanField(env, body.title)) then r.value.title == CleanField(env, body.title).value
          else r.value.title == c.title)
      && (body.content.Null? ==> r.value.content == c.content)
      && (!body.content.Null? ==> r.value.content == CleanField(env, body.content))
      && (body.image.Null? ==> r.value.image == c.image)
      && (!body.image.Null? ==> r.value.image == CleanField(env, body.image))
      && (body.posX.Absent? ==> r.value.posX == c.posX)
      && (body.posX.Given? ==> r.value.posX == body.posX.value)
      && (body.posY.Absent? ==> r.value.posY == c.posY)
      && (body.posY.Given? ==> r.value.posY == body.posY.value)
      && (!Truthy(GetOr(body.timestamp, "")) ==> r.value.timestamp == None)
      && (Truthy(GetOr(body.timestamp, "")) ==> r.value.timestamp == env.fromIso(body.timestamp.value))
  {
    var title := CleanField(env, body.title);
    var content := CleanField(env, body.content);
    var image := CleanField(env, body.image);
    var named := c.(
      title := if Truthy(title) then title.value else c.title,
      content := if content.Some? then content else c.content,
      image := if image.Some? then image else c.image);
    match (NotNull(GetOr(body.posX, c.posX)), NotNull(GetOr(body.posY, c.posY)),
           TimestampOf(env, body.timestamp, None))
    case (Returns(x), Returns(y), Returns(ts)) => Returns(named.(posX := x, posY := y, timestamp := ts))
    case _ => Raises
  }

  /** The body the board sends when a drag ends holds only the coordinates, so the
      update keeps the title but clears content, image and timestamp. */
  lemma PositionOnlyUpdate(env: Env, c: Clue, x: real, y: real)
    requires EnvOk(env)
    ensures Merge(env, c, PositionOnly(x, y)) ==
      Returns(c.(content := Some(""), image := Some(""), posX := x, posY := y, timestamp := None))
  {
  }

  /** `PUT /api/clues/<id>`: 500 for an id SQLite cannot bind, 404 for an unknown
      id; otherwise the merged row replaces the old one and nothing else changes,
      or a 500 changes nothing. */
  function UpdateClue(t: Tables, env: Env, id: int, body: ClueBody): (r: Outcome)
    ensures !SqlInteger(id) ==> r == Outcome(Failed(ServerError), t)
    ensures r.reply == Failed(NotFound) <==> SqlInteger(id) && id !in ClueIds(t.clues)
    ensures r.reply.Failed? ==> r.tables == t
    ensures r.reply == Done <==>
      (SqlInteger(id) && id in ClueIds(t.clues) && !body.posX.Null? && !body.posY.Null? &&
       TimestampOf(env, body.timestamp, None).Returns?)
    ensures r.reply.Failed? || r.reply == Done
    ensures r.reply == Done ==>
      exists i, c :: 0 <= i < |t.clues| && t.clues[i].id == id &&
        Merge(env, t.clues[i], body) == Returns(c) &&
        r.tables == Tables(t.clues[i := c], t.connections)
  {
    match Lookup(ClueIds(t.clues), id)
    case Raises => Outcome(Failed(ServerError), t)
    case Returns(None) => Outcome(Failed(NotFound), t)
    case Returns(Some(i)) =>
      match Merge(env, t.clues[i], body)
      case Raises => Outcome(Failed(ServerError), t)
      case Returns(c) => Outcome(Done, Tables(t.clues[i := c], t.connections))
  }

  /** The connections left after deleting every one that touches clue `id`, in
      their original order. */
  function Unattached(ks: seq<Connection>, id: int): (r: seq<Connection>)
    ensures |r| <= |ks|
    ensures forall k :: k in r <==> k in ks && k.source != id && k.target != id
  {
    if ks == [] then []
    else
      var rest := Unattached(ks[..|ks| - 1], id);
      var k := ks[|ks| - 1];
      if k.source != id && k.target != id then rest + [k] else rest
  }

  /** Dropping connections keeps the survivors in ascending id order. */
  lemma {:induction false} UnattachedIncreasing(ks: seq<Connection>, id: int)
    requires StrictlyIncreasing(ConnIds(ks))
    ensures StrictlyIncreasing(ConnIds(Unattached(ks, id)))
  {
    if ks != [] {
      var init := ks[..|ks| - 1];
      var rest := Unattached(init, id);
      var k := ks[|ks| - 1];
      assert ConnIds(init) == ConnIds(ks)[..|ks| - 1];
      UnattachedIncreasing(init, id);
      if k.source != id && k.target != id {
        var r := rest + [k];
        forall a, b | 0 <= a < b < |r| ensures ConnIds(r)[a] < ConnIds(r)[b] {
          if b == |rest| {
            assert r[a] in init;
            var j :| 0 <= j < |init| && init[j] == r[a];
            assert ConnIds(ks)[j] < ConnIds(ks)[|ks| - 1];
          } else {
            assert r[a] == rest[a] && r[b] == rest[b];
          }
        }
      }
    }
  }

  /** `DELETE /api/clues/<id>`: 500 for an id SQLite cannot bind, 404 for an
      unknown id; otherwise the clue goes and so does every connection with it as
      source or target. */
  function DeleteClue(t: Tables, id: int): (r: Outcome)
    ensures !SqlInteger(id) ==> r == Outcome(Failed(ServerError), t)
    ensures r.reply == Failed(NotFound) <==> SqlInteger(id) && id !in ClueIds(t.clues)
    ensures r.reply.Failed? ==> r.tables == t
    ensures r.reply.Failed? || r.reply == Done
    ensures r.reply == Done ==>
      && r.tables.connections == Unattached(t.connections, id)
      && exists i :: 0 <= i < |t.clues| && t.clues[i].id == id &&
           r.tables.clues == t.clues[..i] + t.clues[i + 1..]
  {
    match Lookup(ClueIds(t.clues), id)
    case Raises => Outcome(Failed(ServerError), t)
    case Returns(None) => Outcome(Failed(NotFound), t)
    case Returns(Some(i)) => Outcome(Done, Tables(t.clues[..i] + t.clues[i + 1..], Unattached(t.connections, id)))
  }

  /** What `isinstance(v, int)` accepts, as the integer the query binds: Python's
      booleans are the integers 1 and 0. */
  function IntValue(f: Field<JsonId>): (r: Option<int>)
    ensures r.Some? <==> f.Given? && !f.value.OtherId?
    ensures f.Given? && f.value.IntId? ==> r == Some(f.value.i)
  {
    match f
    case Given(IntId(i)) => Some(i)
    case Given(BoolId(b)) => Some(if b then 1 else 0)
    case _ => None
  }

  /** A connection with exactly this source and target exists. */
  predicate Linked(ks: seq<Connection>, source: int, target: int)
  {
    exists k :: k in ks && k.source == source && k.target == target
  }

  /** `POST /api/connections`, checked in the handler's order: non-integer ids
      (400), then an id SQLite cannot bind (500, raised by either lookup), then a
      missing clue (404), then an existing identical pair (400); otherwise exactly
      one connection is appended. */
  function CreateConnection(t: Tables, env: Env, body: ConnBody): (r: Outcome)
    ensures r.reply.Failed? ==> r.tables == t
    ensures IntValue(body.source).None? || IntValue(body.target).None? ==> r.reply == Failed(BadRequest)
    ensures IntValue(body.source).Some? && IntValue(body.target).Some? ==>
      var s, g := IntValue(body.source).value, IntValue(body.target).value;
      && (!SqlInteger(s) || !SqlInteger(g) <==> r.reply == Failed(ServerError))
      && ((SqlInteger(s) && SqlInteger(g) && (s !in ClueIds(t.clues) || g !in ClueIds(t.clues)))
            <==> r.reply == Failed(NotFound))
      && ((SqlInteger(s) && SqlInteger(g) && s in ClueIds(t.clues) && g in ClueIds(t.clues)
           && Linked(t.connections, s, g)) ==> r.reply == Failed(BadRequest))
      && ((SqlInteger(s) && SqlInteger(g) && s in ClueIds(t.clues) && g in ClueIds(t.clues)
           && !Linked(t.connections, s, g)) <==> r.reply.ConnectionCreated?)
    ensures r.reply.ConnectionCreated? ==>
      && r.reply.connId !in ConnIds(t.connections)
      && r.tables.clues == t.clues
      && r.tables.connections == t.connections + [Connection(r.reply.connId,
           IntValue(body.source).value as nat, IntValue(body.target).value as nat, CleanField(env, body.comment))]
  {
    var comment := CleanField(env, body.comment);
    match (IntValue(body.source), IntValue(body.target))
    case (Some(s), Some(g)) =>
      if Lookup(ClueIds(t.clues), s).Raises? || Lookup(ClueIds(t.clues), g).Raises? then
        Outcome(Failed(ServerError), t)
      else if s !in ClueIds(t.clues) || g !in ClueIds(t.clues) then Outcome(Failed(NotFound), t)
      else if Linked(t.connections, s, g) then Outcome(Failed(BadRequest), t)
      else
        var id := NextId(ConnIds(t.connections));
        Outcome(ConnectionCreated(id), Tables(t.clues, t.connections + [Connection(id, s as nat, g as nat, comment)]))
    case _ => Outcome(Failed(BadRequest), t)
  }

  /** `PUT /api/connections/<id>`: 500 for an id SQLite cannot bind, 404 for an
      unknown id; otherwise only that connection's comment changes, to the
      cleaned text (empty when the key is missing, null when it is null). */
  function UpdateConnection(t: Tables, env: Env, id: int, comment: Field<string>): (r: Outcome)
    ensures !SqlInteger(id) ==> r == Outcome(Failed(ServerError), t)
    ensures r.reply == Failed(NotFound) <==> SqlInteger(id) && id !in ConnIds(t.connections)
    ensures r.reply.Failed? ==> r.tables == t
    ensures r.reply.Failed? || r.reply == Done
    ensures r.reply == Done ==>
      exists i :: 0 <= i < |t.connections| && t.connections[i].id == id &&
        r.tables == Tables(t.clues, t.connections[i := t.connections[i].(comment := CleanField(env, comment))])
  {
    match Lookup(ConnIds(t.connections), id)
    case Raises => Outcome(Failed(ServerError), t)
    case Returns(None) => Outcome(Failed(NotFound), t)
    case Returns(Some(i)) =>
      Outcome(Done, Tables(t.clues, t.connections[i := t.connections[i].(comment := CleanField(env, comment))]))
  }

  /** `DELETE /api/connections/<id>`: 500 for an id SQLite cannot bind, 404 for
      an unknown id; otherwise only that connection goes. */
  function DeleteConnection(t: Tables, id: int): (r: Outcome)
    ensures !SqlInteger(id) ==> r == Outcome(Failed(ServerError), t)
    ensures r.reply == Failed(NotFound) <==> SqlInteger(id) && id !in ConnIds(t.connections)
    ensures r.reply.Failed? ==> r.tables == t
    ensures r.reply.Failed? || r.reply == Done
    ensures r.reply == Done ==>
      exists i :: 0 <= i < |t.connections| && t.connections[i].id == id &&
        r.tables == Tables(t.clues, t.connections[..i] + t.connections[i + 1..])
  {
    match Lookup(ConnIds(t.connections), id)
    case Raises => Outcome(Failed(ServerError), t)
    case Returns(None) => Outcome(Failed(NotFound), t)
    case Returns(Some(i)) => Outcome(Done, Tables(t.clues, t.connections[..i] + t.connections[i + 1..]))
  }

  /** Appending a clue with a fresh, larger id and an unused `clue_id` keeps the
      invariants; so does any handler that succeeds. */
  lemma CreateClueKeepsValid(t: Tables, env: Env, body: ClueBody, uuid: string)
    requires ValidTables(t)
    ensures ValidTables(CreateClue(t, env, body, uuid).tables)
  {
    var r := CreateClue(t, env, body, uuid);
    if r.reply.ClueCreated? {
      var c := r.tables.clues[|t.clues|];
      assert r.tables.clues == t.clues + [c];
      CluesAppend(t.clues, c);
      forall k | k in r.tables.connections
        ensures k.source in ClueIds(r.tables.clues) && k.target in ClueIds(r.tables.clues)
      {
        assert k in t.connections;
      }
    }
  }

  /** Appending a titled clue with a larger id and an unused `clue_id` keeps the
      clue invariants. */
  lemma CluesAppend(cs: seq<Clue>, c: Clue)
    requires ValidClues(cs) && c.title != "" && !ClueIdTaken(cs, c.clueId)
    requires forall i :: 0 <= i < |cs| ==> cs[i].id < c.id
    ensures ValidClues(cs + [c]) && ClueIds(cs + [c]) == ClueIds(cs) + [c.id]
  {
    var r := cs + [c];
    assert ClueIds(r) == ClueIds(cs) + [c.id];
    forall i, j | 0 <= i < j < |r| ensures r[i].clueId != r[j].clueId {
      if j == |cs| {
        assert r[i] in cs;
      }
    }
  }

  /** Rewriting one clue without touching its id or `clue_id`, and with a
      non-empty title, keeps the clue invariants and the set of ids. */
  lemma CluesReplace(cs: seq<Clue>, i: nat, c: Clue)
    requires i < |cs| && ValidClues(cs)
    requires c.id == cs[i].id && c.clueId == cs[i].clueId && c.title != ""
    ensures ValidClues(cs[i := c]) && ClueIds(cs[i := c]) == ClueIds(cs)
  {
    var r := cs[i := c];
    assert ClueIds(r) == ClueIds(cs);
    forall d | d in r ensures d.title != "" {
      var j :| 0 <= j < |r| && r[j] == d;
      if j != i {
        assert d in cs;
      }
    }
  }

  lemma UpdateClueKeepsValid(t: Tables, env: Env, id: int, body: ClueBody)
    requires ValidTables(t)
    ensures ValidTables(UpdateClue(t, env, id, body).tables)
  {
    var r := UpdateClue(t, env, id, body);
    if r.reply == Done {
      var i, c :| 0 <= i < |t.clues| && t.clues[i].id == id &&
        Merge(env, t.clues[i], body) == Returns(c) &&
        r.tables == Tables(t.clues[i := c], t.connections);
      assert t.clues[i] in t.clues;
      CluesReplace(t.clues, i, c);
    }
  }

  /** Removing the row at position i keeps ids ascending. */
  lemma RemoveKeepsIncreasing(ids: seq<nat>, i: nat)
    requires i < |ids| && StrictlyIncreasing(ids)
    ensures StrictlyIncreasing(ids[..i] + ids[i + 1..])
  {
    var r := ids[..i] + ids[i + 1..];
    forall a, b | 0 <= a < b < |r| ensures r[a] < r[b] {
      var a' := if a < i then a else a + 1;
      var b' := if b < i then b else b + 1;
      assert r[a] == ids[a'] && r[b] == ids[b'];
    }
  }

  /** Deleting one clue keeps the clue invariants. */
  lemma CluesRemove(cs: seq<Clue>, i: nat)
    requires i < |cs| && ValidClues(cs)
    ensures ValidClues(cs[..i] + cs[i + 1..])
    ensures forall a :: 0 <= a < |cs| && a != i ==> cs[a].id in ClueIds(cs[..i] + cs[i + 1..])
  {
    var r := cs[..i] + cs[i + 1..];
    assert ClueIds(r) == ClueIds(cs)[..i] + ClueIds(cs)[i + 1..];
    RemoveKeepsIncreasing(ClueIds(cs), i);
    RemoveKeepsDistinctClueIds(cs, i);
    assert forall c :: c in r ==> c in cs;
    forall a | 0 <= a < |cs| && a != i ensures cs[a].id in ClueIds(r) {
      assert ClueIds(r)[if a < i then a else a - 1] == cs[a].id;
    }
  }

  lemma RemoveKeepsDistinctClueIds(cs: seq<Clue>, i: nat)
    requires i < |cs| && forall a, b :: 0 <= a < b < |cs| ==> cs[a].clueId != cs[b].clueId
    ensures var r := cs[..i] + cs[i + 1..];
      forall a, b :: 0 <= a < b < |r| ==> r[a].clueId != r[b].clueId
  {
    var r := cs[..i] + cs[i + 1..];
    forall a, b | 0 <= a < b < |r| ensures r[a].clueId != r[b].clueId {
      var a' := if a < i then a else a + 1;
      var b' := if b < i then b else b + 1;
      assert r[a] == cs[a'] && r[b] == cs[b'];
    }
  }

  /** The connections left by deleting clue i only mention the remaining clues. */
  lemma ConnectionsDetach(ks: seq<Connection>, cs: seq<Clue>, i: nat)
    requires i < |cs| && ValidClues(cs) && ValidConnections(ks, ClueIds(cs))
    ensures ValidConnections(Unattached(ks, cs[i].id), ClueIds(cs[..i] + cs[i + 1..]))
  {
    CluesRemove(cs, i);
    var id := cs[i].id;
    UnattachedIncreasing(ks, id);
    forall k | k in Unattached(ks, id)
      ensures k.source in ClueIds(cs[..i] + cs[i + 1..]) && k.target in ClueIds(cs[..i] + cs[i + 1..])
    {
      assert k in ks && k.source != id && k.target != id;
      var a :| 0 <= a < |cs| && ClueIds(cs)[a] == k.source;
      var b :| 0 <= b < |cs| && ClueIds(cs)[b] == k.target;
    }
  }

  lemma DeleteClueKeepsValid(t: Tables, id: int)
    requires ValidTables(t)
    ensures ValidTables(DeleteClue(t, id).tables)
  {
    var r := DeleteClue(t, id);
    if r.reply == Done {
      var i :| 0 <= i < |t.clues| && t.clues[i].id == id &&
        r.tables.clues == t.clues[..i] + t.clues[i + 1..];
      CluesRemove(t.clues, i);
      ConnectionsDetach(t.connections, t.clues, i);
    }
  }

  lemma CreateConnectionKeepsValid(t: Tables, env: Env, body: ConnBody)
    requires ValidTables(t)
    ensures ValidTables(CreateConnection(t, env, body).tables)
  {
    var r := CreateConnection(t, env, body);
    if r.reply.ConnectionCreated? {
      var k := r.tables.connections[|t.connections|];
      assert ConnIds(r.tables.connections) == ConnIds(t.connections) + [k.id];
    }
  }

  /** Rewriting one connection's comment keeps the connection invariants. */
  lemma ConnectionsRecomment(ks: seq<Connection>, clueIds: seq<nat>, i: nat, comment: Option<string>)
    requires i < |ks| && ValidConnections(ks, clueIds)
    ensures ValidConnections(ks[i := ks[i].(comment := comment)], clueIds)
  {
    var r := ks[i := ks[i].(comment := comment)];
    assert ConnIds(r) == ConnIds(ks);
    forall k | k in r ensures k.source in clueIds && k.target in clueIds {
      var j :| 0 <= j < |r| && r[j] == k;
      assert ks[j] in ks;
    }
  }

  lemma UpdateConnectionKeepsValid(t: Tables, env: Env, id: int, comment: Field<string>)
    requires ValidTables(t)
    ensures ValidTables(UpdateConnection(t, env, id, comment).tables)
  {
    var r := UpdateConnection(t, env, id, comment);
    if r.reply == Done {
      var i :| 0 <= i < |t.connections| && t.connections[i].id == id &&
        r.tables == Tables(t.clues, t.connections[i := t.connections[i].(comment := CleanField(env, comment))]);
      ConnectionsRecomment(t.connections, ClueIds(t.clues), i, CleanField(env, comment));
    }
  }

  /** Deleting one connection keeps the connection invariants. */
  lemma ConnectionsRemove(ks: seq<Connection>, clueIds: seq<nat>, i: nat)
    requires i < |ks| && ValidConnections(ks, clueIds)
    ensures ValidConnections(ks[..i] + ks[i + 1..], clueIds)
  {
    var r := ks[..i] + ks[i + 1..];
    assert ConnIds(r) == ConnIds(ks)[..i] + ConnIds(ks)[i + 1..];
    RemoveKeepsIncreasing(ConnIds(ks), i);
    forall k | k in r ensures k in ks {
      var j :| 0 <= j < |r| && r[j] == k;
      assert k == ks[if j < i then j else j + 1];
    }
  }

  lemma DeleteConnectionKeepsValid(t: Tables, id: int)
    requires ValidTables(t)
    ensures ValidTables(DeleteConnection(t, id).tables)
  {
    var r := DeleteConnection(t, id);
    if r.reply == Done {
      var i :| 0 <= i < |t.connections| && t.connections[i].id == id &&
        r.tables == Tables(t.clues, t.connections[..i] + t.connections[i + 1..]);
      ConnectionsRemove(t.connections, ClueIds(t.clues), i);
    }
  }

  /** Only the identical ordered pair blocks a new connection: the reverse of an
      existing connection is accepted. */
  lemma ReversedPairAccepted(t: Tables, env: Env, a: nat, b: nat, comment: Field<string>)
    requires a in ClueIds(t.clues) && b in ClueIds(t.clues) && SqlInteger(a) && SqlInteger(b)
    requires Linked(t.connections, a, b) && !Linked(t.connections, b, a)
    ensures CreateConnection(t, env, ConnBody(Given(IntId(b)), Given(IntId(a)), comment)).reply.ConnectionCreated?
  {
  }

  /** A connection from a clue to itself is accepted. */
  lemma SelfLoopAccepted(t: Tables, env: Env, a: nat, comment: Field<string>)
    requires a in ClueIds(t.clues) && SqlInteger(a) && !Linked(t.connections, a, a)
    ensures CreateConnection(t, env, ConnBody(Given(IntId(a)), Given(IntId(a)), comment)).reply.ConnectionCreated?
  {
  }
}
