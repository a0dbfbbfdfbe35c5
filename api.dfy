/** The JSON records the board script and the server exchange: the rows that
    `GET /api/clues` and `GET /api/connections` return and the bodies of the
    POST and PUT requests. */
module Api {
  import opened Common

  /** One element of `GET /api/clues`; `timestamp` is the ISO text or null. */
  datatype ClueJson = ClueJson(
    id: nat, title: string, content: Option<string>, image: Option<string>,
    posX: real, posY: real, clueId: string, timestamp: Option<string>)

  /** One element of `GET /api/connections`. */
  datatype ConnJson = ConnJson(id: nat, source: nat, target: nat, comment: Option<string>)

  /** A JSON value where the server expects a clue id. Python counts `true` and
      `false` as integers; every other non-integer value is OtherId. */
  datatype JsonId = IntId(i: int) | BoolId(b: bool) | OtherId

  /** Body of `POST /api/clues` and `PUT /api/clues/<id>`. */
  datatype ClueBody = ClueBody(
    title: Field<string>, content: Field<string>, image: Field<string>,
    posX: Field<real>, posY: Field<real>, timestamp: Field<string>)

  /** Body of `POST /api/connections` (and, through `comment`, of the PUT). */
  datatype ConnBody = ConnBody(source: Field<JsonId>, target: Field<JsonId>, comment: Field<string>)

  /** The body the drag-end listener sends: only the two coordinates. */
  function PositionOnly(x: real, y: real): ClueBody
  {
    ClueBody(Absent, Absent, Absent, Given(x), Given(y), Absent)
  }
}
