/** The client's board: the clues and lines it has drawn, the analysis and
    search classes on them, and the interaction state of connection mode, the
    context menu, dragging and the line-update frame. DOM nodes, LeaderLine
    objects and the network are not modelled: a fetched list, a measured
    rectangle or the server's answer is passed in as a parameter. */
module Board {
  import opened Common
  import opened Text
  import opened Api
  import opened Geometry
  import opened Format
  import opened Analysis

  /** A drawn clue: its data, its `data-x`/`data-y`, and whether its node carries
      the classes `analysis-highlight`, `analysis-dimmed` and `filtered`. */
  datatype Node = Node(data: ClueJson, pos: Point, highlight: bool, dimmed: bool, filtered: bool)

  /** A line's hitbox: `data-conn-id`, `data-conn-comment` and its placement,
      None until it has been placed. */
  datatype Hitbox = Hitbox(connId: nat, comment: string, at: Option<Point>)

  /** An element of `lines`: the connection, its hitbox and whether the drawn line
      carries the class `filtered`. */
  datatype Line = Line(conn: ConnJson, hitbox: Hitbox, filtered: bool)

  /** What a right-click lands on; a clue node wins over a hitbox. */
  datatype Target = OnClue(id: nat) | OnHitbox(connId: nat, comment: string) | OnBlank

  /** An entry of the context menu with its `data-id` (None where it reads `NaN`). */
  datatype MenuItem =
    | EditClue(clue: Option<nat>) | DeleteClue(clue: Option<nat>) | StartConnection(clue: Option<nat>)
    | EditConn(conn: nat, comment: string) | DeleteConn(conn: nat)
    | AddClue | Import | Export

  /** The body of the PUT the drag-end listener sends, with the id it is sent to. */
  datatype PositionUpdate = PositionUpdate(id: nat, body: ClueBody)

  /** The connections of some lines, in order. */
  function Conns(ls: seq<Line>): (cs: seq<ConnJson>)
    ensures |cs| == |ls|
    ensures forall i :: 0 <= i < |ls| ==> cs[i] == ls[i].conn
  {
    seq(|ls|, i requires 0 <= i < |ls| => ls[i].conn)
  }

  /** `conn.comment || ''`. */
  function CommentText(c: Option<string>): string
  {
    if c.Some? then c.value else ""
  }

  /** A line as `renderAllLines` creates it: its hitbox tagged with the connection's
      id and comment, not yet placed, not filtered. */
  function NewLine(c: ConnJson): Line
  {
    Line(c, Hitbox(c.id, CommentText(c.comment), None), false)
  }

  /** The fetched connections that get a line: both endpoints are loaded clues.
      Fetched order is kept. */
  function Renderable(fetched: seq<ConnJson>, loaded: set<nat>): seq<ConnJson>
  {
    if fetched == [] then []
    else
      var c := fetched[|fetched| - 1];
      Renderable(fetched[..|fetched| - 1], loaded) + (if c.source in loaded && c.target in loaded then [c] else [])
  }

  /** A connection is drawn exactly when it was fetched and both its endpoints are loaded. */
  lemma {:induction false} RenderableMembership(fetched: seq<ConnJson>, loaded: set<nat>, c: ConnJson)
    ensures c in Renderable(fetched, loaded) <==> c in fetched && c.source in loaded && c.target in loaded
  {
    if fetched != [] {
      var front := fetched[..|fetched| - 1];
      assert fetched == front + [fetched[|fetched| - 1]];
      RenderableMembership(front, loaded, c);
    }
  }

  /** Nothing is dropped or reordered when every endpoint is loaded. */
  lemma {:induction false} RenderableAllLoaded(fetched: seq<ConnJson>, loaded: set<nat>)
    requires forall c :: c in fetched ==> c.source in loaded && c.target in loaded
    ensures Renderable(fetched, loaded) == fetched
  {
    if fetched != [] {
      var front := fetched[..|fetched| - 1];
      assert fetched == front + [fetched[|fetched| - 1]];
      RenderableAllLoaded(front, loaded);
    }
  }

  /** The rebuild loop of `renderAllLines` with `createLineHitbox`. */
  method BuildLines(fetched: seq<ConnJson>, loaded: set<nat>) returns (ls: seq<Line>)
    ensures Conns(ls) == Renderable(fetched, loaded)
    ensures forall i :: 0 <= i < |ls| ==> ls[i] == NewLine(ls[i].conn)
  {
    ls := [];
    var i := 0;
    while i < |fetched|
      invariant 0 <= i <= |fetched|
      invariant Conns(ls) == Renderable(fetched[..i], loaded)
      invariant forall j :: 0 <= j < |ls| ==> ls[j] == NewLine(ls[j].conn)
    {
      var c := fetched[i];
      assert fetched[..i + 1][..i] == fetched[..i];
      if c.source in loaded && c.target in loaded {
        assert Conns(ls + [NewLine(c)]) == Conns(ls) + [c];
        ls := ls + [NewLine(c)];
      }
      i := i + 1;
    }
    assert fetched[..i] == fetched;
  }

  /** One iteration of `updateAllHitboxPositions`: the hitbox goes to the labelled
      midpoint of the two nodes' rectangles, relative to the board. */
  function Placed(l: Line, rectOf: nat -> Rect, board: Rect): Line
  {
    l.(hitbox := l.hitbox.(at := Some(HitboxPosition(rectOf(l.conn.source), rectOf(l.conn.target), board))))
  }

  /** Every clue is keyed by its own id, and no node is both highlighted and dimmed. */
  ghost predicate CluesKeyed(m: map<nat, Node>)
  {
    forall id :: id in m ==> m[id].data.id == id && !(m[id].highlight && m[id].dimmed)
  }

  /** Every line joins two loaded clues and its hitbox carries the line's connection id. */
  ghost predicate LinesDrawable(ls: seq<Line>, loaded: set<nat>)
  {
    forall l :: l in ls ==> l.conn.source in loaded && l.conn.target in loaded && l.hitbox.connId == l.conn.id
  }

  /** `renderClue` on the clue map: the node of that id gets the new data and
      position; an existing node keeps its classes, a new one has none. */
  function Redrawn(m: map<nat, Node>, c: ClueJson): (r: map<nat, Node>)
    ensures r.Keys == m.Keys + {c.id}
    ensures r[c.id].data == c && r[c.id].pos == Point(c.posX, c.posY)
    ensures c.id in m ==>
      r[c.id].highlight == m[c.id].highlight && r[c.id].dimmed == m[c.id].dimmed
      && r[c.id].filtered == m[c.id].filtered
    ensures c.id !in m ==> !r[c.id].highlight && !r[c.id].dimmed && !r[c.id].filtered
    ensures forall id :: id in m && id != c.id ==> r[id] == m[id]
  {
    var at := Point(c.posX, c.posY);
    if c.id in m then m[c.id := m[c.id].(data := c, pos := at)]
    else m[c.id := Node(c, at, false, false, false)]
  }

  lemma RedrawnKeyed(m: map<nat, Node>, c: ClueJson)
    requires CluesKeyed(m)
    ensures CluesKeyed(Redrawn(m, c))
  {
  }

  /** `allClues.forEach(renderClue)` on an emptied canvas: one fresh node per id,
      holding one of the fetched clues of that id. */
  method DrawAll(all: seq<ClueJson>) returns (m: map<nat, Node>)
    ensures CluesKeyed(m)
    ensures forall id :: id in m <==> exists c :: c in all && c.id == id
    ensures forall id :: id in m ==> m[id].data in all && !m[id].highlight && !m[id].dimmed && !m[id].filtered
  {
    m := map[];
    for i := 0 to |all|
      invariant CluesKeyed(m)
      invariant forall id :: id in m <==> exists c :: c in all[..i] && c.id == id
      invariant forall id :: id in m ==>
        m[id].data in all[..i] && !m[id].highlight && !m[id].dimmed && !m[id].filtered
    {
      assert all[..i + 1] == all[..i] + [all[i]];
      RedrawnKeyed(m, all[i]);
      m := Redrawn(m, all[i]);
    }
    assert all[..|all|] == all;
  }

  /** The same connections in the same order with the same hitbox ids. */
  ghost predicate SameConnections(ls: seq<Line>, r: seq<Line>)
  {
    |r| == |ls| && forall i :: 0 <= i < |ls| ==> r[i].conn == ls[i].conn && r[i].hitbox.connId == ls[i].hitbox.connId
  }

  lemma DrawableKept(ls: seq<Line>, r: seq<Line>, loaded: set<nat>)
    requires LinesDrawable(ls, loaded) && SameConnections(ls, r)
    ensures LinesDrawable(r, loaded)
  {
    forall l | l in r
      ensures l.conn.source in loaded && l.conn.target in loaded && l.hitbox.connId == l.conn.id
    {
      var j :| 0 <= j < |r| && r[j] == l;
      assert ls[j] in ls;
    }
  }

  lemma BuiltLinesDrawable(fetched: seq<ConnJson>, loaded: set<nat>, ls: seq<Line>)
    requires Conns(ls) == Renderable(fetched, loaded)
    requires forall i :: 0 <= i < |ls| ==> ls[i] == NewLine(ls[i].conn)
    ensures LinesDrawable(ls, loaded)
  {
    forall l | l in ls
      ensures l.conn.source in loaded && l.conn.target in loaded && l.hitbox.connId == l.conn.id
    {
      var i :| 0 <= i < |ls| && ls[i] == l;
      assert Conns(ls)[i] == l.conn;
      RenderableMembership(fetched, loaded, l.conn);
    }
  }

  /** The loop of `updateAllHitboxPositions`. */
  method PlaceHitboxes(ls: seq<Line>, rectOf: nat -> Rect, board: Rect) returns (r: seq<Line>)
    ensures SameConnections(ls, r)
    ensures forall i :: 0 <= i < |r| ==> r[i] == Placed(ls[i], rectOf, board)
  {
    r := ls;
    for i := 0 to |r|
      invariant |r| == |ls|
      invariant forall j :: 0 <= j < i ==> r[j] == Placed(ls[j], rectOf, board)
      invariant forall j :: i <= j < |r| ==> r[j] == ls[j]
    {
      r := r[i := Placed(r[i], rectOf, board)];
    }
  }

  /** The body of `identifyIsolatedNodes` after clearing: the endpoints of the
      lines are collected and their nodes dimmed. */
  method IsolationClasses(m: map<nat, Node>, ls: seq<Line>) returns (r: map<nat, Node>)
    ensures SameData(m, r)
    ensures forall id :: id in r ==> r[id].highlight == m[id].highlight && (r[id].dimmed <==> Touches(ls, id))
  {
    var connected := CollectEndpoints(Conns(ls));
    r := map id | id in m :: m[id].(dimmed := id in connected);
    forall id | id in r ensures r[id].dimmed <==> Touches(ls, id) {
      TouchesIffEndpoint(ls, id);
    }
  }

  lemma IsolationKeepsKeyed(m0: map<nat, Node>, m1: map<nat, Node>, m2: map<nat, Node>)
    requires CluesKeyed(m0) && SameData(m0, m1) && SameData(m1, m2)
    requires forall id :: id in m1 ==> !m1[id].highlight
    requires forall id :: id in m2 ==> m2[id].highlight == m1[id].highlight
    ensures SameData(m0, m2) && CluesKeyed(m2)
  {
  }

  /** `clearAnalysis`: both analysis classes removed from every node. */
  function Cleared(m: map<nat, Node>): (r: map<nat, Node>)
    ensures r.Keys == m.Keys
    ensures forall id :: id in r ==> !r[id].highlight && !r[id].dimmed
    ensures forall id :: id in r ==> r[id].data == m[id].data && r[id].pos == m[id].pos && r[id].filtered == m[id].filtered
  {
    map id | id in m :: m[id].(highlight := false, dimmed := false)
  }

  /** Clearing twice is clearing once. */
  lemma ClearedIdempotent(m: map<nat, Node>)
    ensures Cleared(Cleared(m)) == Cleared(m)
  {
  }

  /** The order of the key-node selection, stated on the lines themselves: more
      lines at a, or as many and a smaller id. */
  predicate Outranks(conns: seq<ConnJson>, a: nat, b: nat)
  {
    Degree(conns, a) > Degree(conns, b) || (Degree(conns, a) == Degree(conns, b) && a < b)
  }

  /** The classes `highlightKeyNodes` puts on the nodes, given the key set. */
  function MarkKeys(m: map<nat, Node>, keys: set<nat>): map<nat, Node>
  {
    map id | id in m :: m[id].(highlight := id in keys, dimmed := id !in keys)
  }

  lemma MarkingKeepsKeyed(m0: map<nat, Node>, m1: map<nat, Node>, m2: map<nat, Node>, conns: seq<ConnJson>)
    requires CluesKeyed(m0) && SameData(m0, m1) && SameData(m1, m2) && KeyClasses(m2, conns)
    ensures SameData(m0, m2) && CluesKeyed(m2)
  {
  }

  /** The clues whose node carries `analysis-highlight`. */
  function Highlighted(m: map<nat, Node>): (r: set<nat>)
    ensures forall id :: id in r <==> id in m && m[id].highlight
  {
    set id | id in m && m[id].highlight
  }

  /** The same clues with the same data, position and search class: only the
      analysis classes may differ. */
  ghost predicate SameData(before: map<nat, Node>, after: map<nat, Node>)
  {
    after.Keys == before.Keys
    && forall id :: id in after ==>
         after[id].data == before[id].data && after[id].pos == before[id].pos
         && after[id].filtered == before[id].filtered
  }

  /** The classes `highlightKeyNodes` promises: each clue either highlighted or
      dimmed, a tenth of them (rounded up) highlighted, and every highlighted clue
      outranking every dimmed one. */
  ghost predicate KeyClasses(after: map<nat, Node>, conns: seq<ConnJson>)
  {
    (forall id :: id in after ==> after[id].highlight != after[id].dimmed)
    && |Highlighted(after)| == KeyCount(|after|)
    && (forall a, b :: a in after && b in after && after[a].highlight && !after[b].highlight ==>
          Outranks(conns, a, b))
  }

  /** Marking the key set that the degree map of the lines selects gives the
      promised classes. */
  lemma MarkKeysGivesKeyClasses(m: map<nat, Node>, ids: seq<nat>, conns: seq<ConnJson>, degree: map<nat, nat>)
    requires StrictlyIncreasing(ids) && Elems(ids) == m.Keys
    requires degree.Keys == m.Keys && forall id :: id in degree ==> degree[id] == Degree(conns, id)
    ensures KeyClasses(MarkKeys(m, KeyNodes(degree, ids)), conns)
  {
    var keys := KeyNodes(degree, ids);
    KeyNodesAreTop(degree, ids);
    MarkKeysCount(m, ids, keys);
    MarkKeysOrder(m, ids, conns, degree);
  }

  lemma MarkKeysSize(m: map<nat, Node>, keys: set<nat>)
    ensures |MarkKeys(m, keys)| == |m.Keys|
  {
    assert MarkKeys(m, keys).Keys == m.Keys;
  }

  lemma MarkKeysCount(m: map<nat, Node>, ids: seq<nat>, keys: set<nat>)
    requires StrictlyIncreasing(ids) && Elems(ids) == m.Keys
    requires keys <= m.Keys && |keys| == KeyCount(|ids|)
    ensures |Highlighted(MarkKeys(m, keys))| == KeyCount(|MarkKeys(m, keys)|)
  {
    var after := MarkKeys(m, keys);
    assert Highlighted(after) == keys;
    assert NoDuplicates(ids);
    DistinctCard(ids);
    assert Elems(ids) == m.Keys;
    MarkKeysSize(m, keys);
    assert after.Keys == m.Keys;
    assert |after| == |after.Keys|;
  }

  lemma MarkKeysOrder(m: map<nat, Node>, ids: seq<nat>, conns: seq<ConnJson>, degree: map<nat, nat>)
    requires Elems(ids) == m.Keys
    requires degree.Keys == m.Keys && forall id :: id in degree ==> degree[id] == Degree(conns, id)
    requires forall x, y :: x in KeyNodes(degree, ids) && y in ids && y !in KeyNodes(degree, ids)
               ==> Before(degree, x, y)
    ensures var after := MarkKeys(m, KeyNodes(degree, ids));
      forall a, b :: a in after && b in after && after[a].highlight && !after[b].highlight ==>
        Outranks(conns, a, b)
  {
    var keys := KeyNodes(degree, ids);
    var after := MarkKeys(m, keys);
    forall a, b | a in after && b in after && after[a].highlight && !after[b].highlight
      ensures Outranks(conns, a, b)
    {
      assert b in ids;
      assert Before(degree, a, b);
    }
  }

  /** The body of `highlightKeyNodes` after clearing: degrees of the clues in
      ascending id order, the key set, and the classes it gives. */
  method KeyNodeClasses(m: map<nat, Node>, ls: seq<Line>) returns (r: map<nat, Node>)
    requires LinesDrawable(ls, m.Keys)
    ensures SameData(m, r) && KeyClasses(r, Conns(ls))
  {
    var ids := AscendingKeys(m.Keys);
    var conns := Conns(ls);
    assert Elems(ids) == m.Keys;
    forall c | c in conns ensures c.source in m && c.target in m {
      var i :| 0 <= i < |conns| && conns[i] == c;
      assert ls[i] in ls;
    }
    var degree := ComputeDegrees(ids, conns);
    var keys := KeyNodes(degree, ids);
    MarkKeysGivesKeyClasses(m, ids, conns, degree);
    r := MarkKeys(m, keys);
  }

  /** Some line starts or ends at the clue. */
  ghost predicate Touches(ls: seq<Line>, id: nat)
  {
    exists l :: l in ls && (l.conn.source == id || l.conn.target == id)
  }

  lemma TouchesIffEndpoint(ls: seq<Line>, id: nat)
    ensures Touches(ls, id) <==> id in Endpoints(Conns(ls))
  {
    var cs := Conns(ls);
    EndpointsMembership(cs, id);
    if Touches(ls, id) {
      var l :| l in ls && (l.conn.source == id || l.conn.target == id);
      var i :| 0 <= i < |ls| && ls[i] == l;
      assert cs[i] in cs;
    }
    if id in Endpoints(cs) {
      var c :| c in cs && (c.source == id || c.target == id);
      var i :| 0 <= i < |cs| && cs[i] == c;
      assert ls[i] in ls;
    }
  }

  /** The search rule: the lower-cased title contains the lower-cased term, or the
      content is non-empty and its lower-cased text contains it. */
  predicate ClueMatches(d: ClueJson, term: string)
  {
    Contains(Lower(d.title), Lower(term))
    || (d.content.Some? && d.content.value != "" && Contains(Lower(d.content.value), Lower(term)))
  }

  /** The rule in terms of positions: the term occurs, ignoring ASCII case, at some
      index of the title or of the non-empty content. */
  lemma ClueMatchesIffOccurs(d: ClueJson, term: string)
    ensures ClueMatches(d, term) <==>
      (exists k :: OccursAt(Lower(d.title), Lower(term), k))
      || (d.content.Some? && d.content.value != "" && exists k :: OccursAt(Lower(d.content.value), Lower(term), k))
  {
    ContainsIffOccurs(Lower(d.title), Lower(term));
    if d.content.Some? {
      ContainsIffOccurs(Lower(d.content.value), Lower(term));
    }
  }

  /** An empty search box shows every clue. */
  lemma EmptyTermMatchesAll(d: ClueJson)
    ensures ClueMatches(d, "")
  {
    assert Lower("") == "";
    ContainsEmpty(Lower(d.title));
  }

  /** The node classes after a search: filtered exactly when the term does not match. */
  function Refiltered(m: map<nat, Node>, term: string): (r: map<nat, Node>)
    ensures r.Keys == m.Keys
    ensures forall id :: id in r ==>
      (r[id].filtered <==> !ClueMatches(m[id].data, term)) && r[id] == m[id].(filtered := r[id].filtered)
  {
    map id | id in m :: m[id].(filtered := !ClueMatches(m[id].data, term))
  }

  /** After a search a node stays visible exactly when the term occurs, ignoring
      ASCII case, in its title or its non-empty content. */
  lemma RefilteredIffOccurs(m: map<nat, Node>, term: string, id: nat)
    requires id in m
    ensures id in Refiltered(m, term)
    ensures !Refiltered(m, term)[id].filtered <==>
      (exists k :: OccursAt(Lower(m[id].data.title), Lower(term), k))
      || (m[id].data.content.Some? && m[id].data.content.value != ""
          && exists k :: OccursAt(Lower(m[id].data.content.value), Lower(term), k))
  {
    ClueMatchesIffOccurs(m[id].data, term);
  }

  /** The line loop of the search listener: a line stays visible only when both
      its ends matched. */
  method FilterLines(ls: seq<Line>, matched: set<nat>) returns (r: seq<Line>)
    ensures SameConnections(ls, r)
    ensures forall i :: 0 <= i < |r| ==>
      r[i] == ls[i].(filtered := !(ls[i].conn.source in matched && ls[i].conn.target in matched))
  {
    r := ls;
    for i := 0 to |r|
      invariant |r| == |ls|
      invariant forall j :: 0 <= j < i ==>
        r[j] == ls[j].(filtered := !(ls[j].conn.source in matched && ls[j].conn.target in matched))
      invariant forall j :: i <= j < |r| ==> r[j] == ls[j]
    {
      var c := r[i].conn;
      r := r[i := r[i].(filtered := !(c.source in matched && c.target in matched))];
    }
  }

  /** The ids of the clues the search term matches: `matchedClueIds`. */
  function MatchedIds(m: map<nat, Node>, term: string): (r: set<nat>)
    ensures forall id :: id in r <==> id in m && ClueMatches(m[id].data, term)
  {
    set id | id in m && ClueMatches(m[id].data, term)
  }

  /** The items `showContextMenu` lists for what was right-clicked; a clue's
      items carry the id parsed back from its node's DOM id. */
  function MenuItems(t: Target): seq<MenuItem>
  {
    match t
    case OnClue(id) =>
      var cid := ParseElementId(ElementId(id));
      [EditClue(cid), DeleteClue(cid), StartConnection(cid)]
    case OnHitbox(c, comment) => [EditConn(c, comment), DeleteConn(c)]
    case OnBlank => [AddClue, Import, Export]
  }

  /** The clue menu acts on the clue that was right-clicked. */
  lemma ClueMenuNamesClickedClue(id: nat)
    ensures MenuItems(OnClue(id)) == [EditClue(Some(id)), DeleteClue(Some(id)), StartConnection(Some(id))]
  {
    ElementIdRoundTrip(id);
  }

  /** The JSON value of a parsed id: a number, or null for NaN. */
  function IdField(n: Option<nat>): Field<JsonId>
  {
    if n.Some? then Given(IntId(n.value)) else Null
  }

  /** The reply of `prompt`: the text, or null when dismissed. */
  function PromptField(s: Option<string>): Field<string>
  {
    if s.Some? then Given(s.value) else Null
  }

  class Board {
    var clues: map<nat, Node>
    var lines: seq<Line>
    var isAdmin: bool
    var menu: seq<MenuItem>
    var menuVisible: bool
    var lastMousePos: Point
    var isConnecting: bool
    /** The clue id of `connectionStartNode`. */
    var connectionStart: Option<nat>
    var tempLine: bool
    var mouseFollower: bool
    var followerPos: Point
    var panZoomPaused: bool
    var updateScheduled: bool
    /** Animation frames requested and not yet run. */
    var pendingFrames: nat

    /** Clues are keyed by their id, lines join loaded clues, no node is both
        highlighted and dimmed, the connection-mode variables are all set or all
        cleared, and at most one line-update frame is pending. */
    ghost predicate Valid()
      reads this
    {
      CluesKeyed(clues) && LinesDrawable(lines, clues.Keys)
      && (isConnecting ==> connectionStart.Some? && tempLine && mouseFollower)
      && (!isConnecting ==> connectionStart == None && !tempLine && !mouseFollower)
      && pendingFrames == (if updateScheduled then 1 else 0)
    }

    twostate predicate SameDrawing()
      reads this
    {
      clues == old(clues) && lines == old(lines)
    }

    twostate predicate SameConnectionMode()
      reads this
    {
      isConnecting == old(isConnecting) && connectionStart == old(connectionStart)
      && tempLine == old(tempLine) && mouseFollower == old(mouseFollower) && followerPos == old(followerPos)
    }

    twostate predicate SameMenu()
      reads this
    {
      isAdmin == old(isAdmin) && menu == old(menu) && menuVisible == old(menuVisible)
      && lastMousePos == old(lastMousePos)
    }

    twostate predicate SameDragState()
      reads this
    {
      panZoomPaused == old(panZoomPaused) && updateScheduled == old(updateScheduled)
      && pendingFrames == old(pendingFrames)
    }

    /** The empty board of a freshly loaded page; `isAdmin` comes from `/status`. */
    constructor(admin: bool)
      ensures Valid()
      ensures clues == map[] && lines == [] && isAdmin == admin
      ensures !isConnecting && !menuVisible && !panZoomPaused && !updateScheduled
    {
      clues := map[];
      lines := [];
      isAdmin := admin;
      menu := [];
      menuVisible := false;
      lastMousePos := Point(0.0, 0.0);
      isConnecting := false;
      connectionStart := None;
      tempLine := false;
      mouseFollower := false;
      followerPos := Point(0.0, 0.0);
      panZoomPaused := false;
      updateScheduled := false;
      pendingFrames := 0;
    }

    /** `renderClue`. */
    method RenderClue(c: ClueJson)
      requires Valid()
      modifies this
      ensures Valid()
      ensures clues == Redrawn(old(clues), c)
      ensures lines == old(lines) && SameConnectionMode() && SameMenu() && SameDragState()
    {
      RedrawnKeyed(clues, c);
      clues := Redrawn(clues, c);
    }

    /** `renderAllLines` as one step: the old lines go, the fetched connections
        between loaded clues come back in fetched order, each with its hitbox
        tagged and placed by `updateAllHitboxPositions`. */
    method RenderAllLines(fetched: seq<ConnJson>, rectOf: nat -> Rect, board: Rect)
      requires Valid()
      modifies this
      ensures Valid()
      ensures Conns(lines) == Renderable(fetched, clues.Keys)
      ensures forall i :: 0 <= i < |lines| ==> lines[i] == Placed(NewLine(lines[i].conn), rectOf, board)
      ensures clues == old(clues) && SameConnectionMode() && SameMenu() && SameDragState()
    {
      var ls := BuildLines(fetched, clues.Keys);
      BuiltLinesDrawable(fetched, clues.Keys, ls);
      lines := ls;
      UpdateAllHitboxPositions(rectOf, board);
    }

    /** `updateAllHitboxPositions`: every hitbox is placed; nothing else changes. */
    method UpdateAllHitboxPositions(rectOf: nat -> Rect, board: Rect)
      requires Valid()
      modifies this
      ensures Valid()
      ensures |lines| == |old(lines)|
      ensures forall i :: 0 <= i < |lines| ==> lines[i] == Placed(old(lines)[i], rectOf, board)
      ensures clues == old(clues) && SameConnectionMode() && SameMenu() && SameDragState()
    {
      var ls := PlaceHitboxes(lines, rectOf, board);
      DrawableKept(lines, ls, clues.Keys);
      lines := ls;
    }

    /** The page load and the reload after a clue is created: the canvas is
        emptied, every fetched clue is drawn afresh, then the lines are rebuilt. */
    method ReloadAll(all: seq<ClueJson>, fetched: seq<ConnJson>, rectOf: nat -> Rect, board: Rect)
      requires Valid()
      modifies this
      ensures Valid()
      ensures forall id :: id in clues <==> exists c :: c in all && c.id == id
      ensures forall id :: id in clues ==>
        clues[id].data in all && !clues[id].highlight && !clues[id].dimmed && !clues[id].filtered
      ensures Conns(lines) == Renderable(fetched, clues.Keys)
      ensures forall i :: 0 <= i < |lines| ==> lines[i] == Placed(NewLine(lines[i].conn), rectOf, board)
      ensures SameConnectionMode() && SameMenu() && SameDragState()
    {
      clues := DrawAll(all);
      lines := [];
      RenderAllLines(fetched, rectOf, board);
    }

    /** The delete-clue menu action once the server has deleted it: the node goes,
        then the lines are rebuilt, so none of them ends at the deleted clue. */
    method RemoveClue(id: nat, fetched: seq<ConnJson>, rectOf: nat -> Rect, board: Rect)
      requires Valid() && id in clues
      modifies this
      ensures Valid()
      ensures clues == old(clues) - {id}
      ensures Conns(lines) == Renderable(fetched, clues.Keys)
      ensures forall l :: l in lines ==> l.conn.source != id && l.conn.target != id
      ensures SameConnectionMode() && SameMenu() && SameDragState()
    {
      clues := clues - {id};
      lines := [];
      RenderAllLines(fetched, rectOf, board);
    }

    /** `clearAnalysis`. */
    method ClearAnalysis()
      requires Valid()
      modifies this
      ensures Valid()
      ensures clues == Cleared(old(clues)) && SameData(old(clues), clues)
      ensures lines == old(lines) && SameConnectionMode() && SameMenu() && SameDragState()
    {
      clues := Cleared(clues);
    }

    /** `highlightKeyNodes`: the top tenth of the clues, rounded up, by the number
        of lines at them (ties to the smaller id) are highlighted, all others dimmed. */
    method HighlightKeyNodes()
      requires Valid()
      modifies this
      ensures Valid()
      ensures SameData(old(clues), clues) && KeyClasses(clues, Conns(lines))
      ensures lines == old(lines) && SameConnectionMode() && SameMenu() && SameDragState()
    {
      var cleared := Cleared(clues);
      var marked := KeyNodeClasses(cleared, lines);
      MarkingKeepsKeyed(clues, cleared, marked, Conns(lines));
      clues := marked;
    }

    /** `identifyIsolatedNodes`: no clue is highlighted, and exactly the clues some
        line touches are dimmed, so the isolated ones stand out. */
    method IdentifyIsolatedNodes()
      requires Valid()
      modifies this
      ensures Valid()
      ensures SameData(old(clues), clues)
      ensures forall id :: id in clues ==> !clues[id].highlight && (clues[id].dimmed <==> Touches(lines, id))
      ensures lines == old(lines) && SameConnectionMode() && SameMenu() && SameDragState()
    {
      var cleared := Cleared(clues);
      var marked := IsolationClasses(cleared, lines);
      IsolationKeepsKeyed(clues, cleared, marked);
      clues := marked;
    }

    /** The search box's input listener: a clue is filtered unless the term matches
        it, a line unless the term matches both its ends. */
    method Search(term: string)
      requires Valid()
      modifies this
      ensures Valid()
      ensures clues == Refiltered(old(clues), term)
      ensures |lines| == |old(lines)|
      ensures forall i :: 0 <= i < |lines| ==>
        var c := lines[i].conn;
        lines[i] == old(lines)[i].(filtered := !(c.source in MatchedIds(old(clues), term)
                                                 && c.target in MatchedIds(old(clues), term)))
      ensures SameConnectionMode() && SameMenu() && SameDragState()
    {
      var matched := MatchedIds(clues, term);
      var ls := FilterLines(lines, matched);
      DrawableKept(lines, ls, clues.Keys);
      clues := Refiltered(clues, term);
      lines := ls;
    }

    /** `startConnectionMode` on the node of clue `id`. */
    method StartConnectionMode(id: nat)
      requires Valid() && id in clues
      modifies this
      ensures Valid()
      ensures isConnecting && connectionStart == Some(id) && tempLine && mouseFollower
      ensures SameDrawing() && SameMenu() && SameDragState() && followerPos == old(followerPos)
    {
      isConnecting := true;
      connectionStart := Some(id);
      mouseFollower := true;
      tempLine := true;
    }

    /** `cancelConnectionMode`: nothing happens unless connecting; otherwise the
        flag, start node, temporary line and follower are all cleared. */
    method CancelConnectionMode()
      requires Valid()
      modifies this
      ensures Valid()
      ensures !isConnecting && connectionStart == None && !tempLine && !mouseFollower
      ensures !old(isConnecting) ==> SameConnectionMode()
      ensures SameDrawing() && SameMenu() && SameDragState() && followerPos == old(followerPos)
    {
      if !isConnecting {
        return;
      }
      isConnecting := false;
      connectionStart := None;
      tempLine := false;
      mouseFollower := false;
    }

    /** `completeConnection` on the node of clue `target`, with the reply to the
        comment prompt and whether the server accepted the new connection (then
        `fetched` is what the rebuild reads). Clicking the start node again only
        cancels; otherwise the request is sent, and both outcomes end connection
        mode, the accepted one after rebuilding the lines. */
    method CompleteConnection(target: nat, comment: Option<string>, accepted: bool,
                              fetched: seq<ConnJson>, rectOf: nat -> Rect, board: Rect)
      returns (request: Option<ConnBody>)
      requires Valid() && isConnecting
      modifies this
      ensures Valid()
      ensures !isConnecting && connectionStart == None && !tempLine && !mouseFollower
      ensures request.None? <==> old(connectionStart) == Some(target)
      ensures request.Some? ==>
        request.value == ConnBody(Given(IntId(old(connectionStart).value)), Given(IntId(target)), PromptField(comment))
      ensures request.Some? && accepted ==>
        Conns(lines) == Renderable(fetched, clues.Keys)
        && forall i :: 0 <= i < |lines| ==> lines[i] == Placed(NewLine(lines[i].conn), rectOf, board)
      ensures !(request.Some? && accepted) ==> lines == old(lines)
      ensures clues == old(clues) && SameMenu() && SameDragState() && followerPos == old(followerPos)
    {
      var start := connectionStart.value;
      var sourceId := ParseElementId(ElementId(start));
      var targetId := ParseElementId(ElementId(target));
      ElementIdRoundTrip(start);
      ElementIdRoundTrip(target);
      if sourceId == targetId {
        CancelConnectionMode();
        return None;
      }
      request := Some(ConnBody(IdField(sourceId), IdField(targetId), PromptField(comment)));
      if accepted {
        RenderAllLines(fetched, rectOf, board);
      }
      CancelConnectionMode();
    }

    /** A click on the node of clue `id`: while connecting it completes the
        connection; otherwise the listener does nothing. */
    method NodeClick(id: nat, comment: Option<string>, accepted: bool,
                     fetched: seq<ConnJson>, rectOf: nat -> Rect, board: Rect)
      returns (request: Option<ConnBody>)
      requires Valid()
      modifies this
      ensures Valid()
      ensures !old(isConnecting) ==> request == None && SameDrawing() && SameConnectionMode()
      ensures old(isConnecting) ==> !isConnecting && (request.None? <==> old(connectionStart) == Some(id))
      ensures SameMenu() && SameDragState()
    {
      request := None;
      if isConnecting {
        request := CompleteConnection(id, comment, accepted, fetched, rectOf, board);
      }
    }

    /** `handleBoardRightClick` at screen point `p`: while connecting it only
        cancels; a visitor gets nothing; an administrator gets the menu for the
        target and the board point under the cursor is remembered for a new clue. */
    method RightClick(p: Point, t: Transform, target: Target)
      requires Valid() && ValidTransform(t)
      modifies this
      ensures Valid()
      ensures old(isConnecting) ==> !isConnecting && connectionStart == None && SameMenu()
      ensures !old(isConnecting) && !isAdmin ==> SameConnectionMode() && SameMenu()
      ensures !old(isConnecting) && isAdmin ==>
        SameConnectionMode() && isAdmin == old(isAdmin)
        && menuVisible && menu == MenuItems(target)
        && lastMousePos == ToBoard(t, p) && ToScreen(t, lastMousePos) == p
      ensures SameDrawing() && SameDragState()
    {
      if isConnecting {
        CancelConnectionMode();
        return;
      }
      if !isAdmin {
        return;
      }
      lastMousePos := ToBoard(t, p);
      BoardScreenRoundTrip(t, p);
      menu := MenuItems(target);
      menuVisible := true;
    }

    /** `handleBoardMouseMove`: the follower the temporary line ends at moves to
        the board point under the cursor. */
    method MouseMove(p: Point, t: Transform)
      requires Valid() && ValidTransform(t)
      modifies this
      ensures Valid()
      ensures old(isConnecting) ==> followerPos == ToBoard(t, p) && ToScreen(t, followerPos) == p
      ensures !old(isConnecting) ==> followerPos == old(followerPos)
      ensures isConnecting == old(isConnecting) && connectionStart == old(connectionStart)
      ensures SameDrawing() && SameMenu() && SameDragState()
    {
      if isConnecting && mouseFollower {
        followerPos := ToBoard(t, p);
        BoardScreenRoundTrip(t, p);
      }
    }

    /** The drag `start` listener: pan and zoom pause, whatever the mode. */
    method DragStart()
      requires Valid()
      modifies this
      ensures Valid()
      ensures panZoomPaused
      ensures SameDrawing() && SameConnectionMode() && SameMenu()
      ensures updateScheduled == old(updateScheduled) && pendingFrames == old(pendingFrames)
    {
      panZoomPaused := true;
    }

    /** The drag `move` listener on the node of clue `id`, the cursor having moved
        by `delta` on screen: nothing while connecting; otherwise the node moves by
        `delta` divided by the zoom and a line update is scheduled. */
    method DragMove(id: nat, delta: Point, t: Transform)
      requires Valid() && id in clues && ValidTransform(t)
      modifies this
      ensures Valid()
      ensures old(isConnecting) ==> SameDrawing() && SameDragState()
      ensures !old(isConnecting) ==>
        clues == old(clues)[id := old(clues)[id].(pos := DragTo(old(clues)[id].pos, delta, t))]
        && ToScreen(t, clues[id].pos) == Add(ToScreen(t, old(clues)[id].pos), delta)
        && updateScheduled && pendingFrames == 1
      ensures lines == old(lines) && panZoomPaused == old(panZoomPaused)
      ensures SameConnectionMode() && SameMenu()
    {
      if isConnecting {
        return;
      }
      var n := clues[id];
      clues := clues[id := n.(pos := DragTo(n.pos, delta, t))];
      DragFollowsCursor(n.pos, delta, t);
      ScheduleLineUpdate();
    }

    /** The drag `end` listener on the node of clue `id`: while connecting it
        returns at once, before pan and zoom resume; otherwise they resume and the
        node's position is sent to the server as a PUT with only the coordinates. */
    method DragEnd(id: nat) returns (put: Option<PositionUpdate>)
      requires Valid() && id in clues
      modifies this
      ensures Valid()
      ensures old(isConnecting) ==> put == None && panZoomPaused == old(panZoomPaused)
      ensures !old(isConnecting) ==>
        !panZoomPaused && put == Some(PositionUpdate(id, PositionOnly(old(clues)[id].pos.x, old(clues)[id].pos.y)))
      ensures SameDrawing() && SameConnectionMode() && SameMenu()
      ensures updateScheduled == old(updateScheduled) && pendingFrames == old(pendingFrames)
    {
      if isConnecting {
        return None;
      }
      panZoomPaused := false;
      var parsed := ParseElementId(ElementId(id));
      ElementIdRoundTrip(id);
      var at := clues[id].pos;
      put := Some(PositionUpdate(parsed.value, PositionOnly(at.x, at.y)));
    }

    /** `scheduleLineUpdate`: a frame is requested only when none is pending. */
    method ScheduleLineUpdate()
      requires Valid()
      modifies this
      ensures Valid()
      ensures updateScheduled && pendingFrames == 1
      ensures old(updateScheduled) ==> pendingFrames == old(pendingFrames)
      ensures SameDrawing() && SameConnectionMode() && SameMenu() && panZoomPaused == old(panZoomPaused)
    {
      if !updateScheduled {
        updateScheduled := true;
        pendingFrames := pendingFrames + 1;
      }
    }

    /** The requested frame runs: the lines and hitboxes are re-placed and the flag
        is cleared, so the next move may request another frame. */
    method RunLineUpdateFrame(rectOf: nat -> Rect, board: Rect)
      requires Valid() && pendingFrames > 0
      modifies this
      ensures Valid()
      ensures !updateScheduled && pendingFrames == old(pendingFrames) - 1
      ensures |lines| == |old(lines)|
      ensures forall i :: 0 <= i < |lines| ==> lines[i] == Placed(old(lines)[i], rectOf, board)
      ensures clues == old(clues) && SameConnectionMode() && SameMenu() && panZoomPaused == old(panZoomPaused)
    {
      UpdateAllHitboxPositions(rectOf, board);
      updateScheduled := false;
      pendingFrames := pendingFrames - 1;
    }
  }
}
