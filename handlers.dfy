/** The four request handlers, each as one atomic step from the table and the
    request to the table afterwards and the response sent. A `fault` argument
    stands for any error the database reports other than the UNIQUE
    constraint (I/O, a busy or closed database); the statement then changes
    nothing. */
module Handlers {
  import opened Wrappers
  import opened Schema
  import opened LookupQuery
  import opened SelectEngine

  const MissingFields: string := "Bad Request - Missing required fields"
  const MissingUserId: string := "Bad Request - Missing user ID"
  const InternalServerError: string := "Internal Server Error"
  const UserNotFound: string := "Not Found - User not found"
  const UserDeleted: string := "User deleted successfully"

  /** The JSON bodies the handlers send. */
  datatype Body =
    | ErrorBody(error: string)
    | Results(results: set<Row>)
    | UserBody(id: Id, firstName: string, lastName: string)
    | DeletedBody(message: string, id: Id)

  datatype Response = Response(status: int, body: Body)

  /** The table after a request, and the response to it. */
  datatype Outcome = Outcome(table: Table, response: Response)

  /** What every storage-error path sends. */
  function ServerError(): (r: Response)
    ensures r.status == 500 && r.body.ErrorBody? && r.body.error == InternalServerError
  {
    Response(500, ErrorBody(InternalServerError))
  }

  /** `GET /get?firstName=..&lastName=..`: runs the built query against the
      table; it has no table in its outcome because it never changes it. */
  function Lookup(t: Table, firstName: Option<string>, lastName: Option<string>, fault: bool): (r: Response)
    ensures r.status == 200 || r == ServerError()
  {
    var q := BuildQuery(firstName, lastName);
    if fault then ServerError()
    else
      match Execute(q.text, q.params, t)
      case Err(_) => ServerError()
      case Ok(rows) => Response(200, Results(rows))
  }

  /** A lookup succeeds exactly when the engine does not fail and at least one
      criterion is truthy, and then it returns exactly the rows matching all
      truthy criteria. With no criterion it fails like a storage error. */
  lemma LookupResults(t: Table, firstName: Option<string>, lastName: Option<string>, fault: bool)
    ensures Lookup(t, firstName, lastName, fault).status == 200 <==>
      !fault && (Truthy(firstName) || Truthy(lastName))
    ensures Lookup(t, firstName, lastName, fault).status == 200 ==>
      Lookup(t, firstName, lastName, fault).body == Results(MatchingRows(t, firstName, lastName))
  {
    if Truthy(firstName) || Truthy(lastName) {
      BuiltQueryFindsMatches(t, firstName, lastName);
    } else {
      NoCriteriaIsSyntaxError(t, firstName, lastName);
    }
  }

  /** `POST /add` with body `{firstName, lastName}`; `newId` is the positive
      rowid the engine gives the inserted row. */
  function Add(t: Table, firstName: Option<string>, lastName: Option<string>, fault: bool, newId: Id): (r: Outcome)
    requires newId > 0 && newId !in t
    ensures Unique(t) ==> Unique(r.table)
    ensures r.response.status == 400 <==> !Truthy(firstName) || !Truthy(lastName)
    ensures r.response.status == 400 ==> r.response.body == ErrorBody(MissingFields)
    ensures r.response.status != 200 ==> r.table == t
    ensures r.response.status == 200 || r.response.status == 400 || r.response == ServerError()
    ensures Truthy(firstName) && Truthy(lastName) ==>
      (r.response.status == 500 <==> fault || Name(firstName.value, lastName.value) in t.Values)
    ensures r.response.status == 200 ==>
      && r.table == t[newId := Name(firstName.value, lastName.value)]
      && r.response.body == UserBody(newId, firstName.value, lastName.value)
  {
    if !Truthy(firstName) || !Truthy(lastName) then
      Outcome(t, Response(400, ErrorBody(MissingFields)))
    else
      var n := Name(firstName.value, lastName.value);
      if fault || n in t.Values then Outcome(t, ServerError())
      else Outcome(t[newId := n], Response(200, UserBody(newId, firstName.value, lastName.value)))
  }

  /** `PUT /update/:id` with body `{firstName, lastName}`. */
  function Update(t: Table, id: Option<Id>, firstName: Option<string>, lastName: Option<string>, fault: bool): (r: Outcome)
    ensures Unique(t) ==> Unique(r.table)
    ensures r.response.status == 400 <==> id.None? || !Truthy(firstName) || !Truthy(lastName)
    ensures r.response.status == 400 ==> r.response.body == ErrorBody(MissingFields)
    ensures r.response.status != 200 ==> r.table == t
    ensures r.response.status == 200 || r.response.status == 400 || r.response.status == 404 || r.response == ServerError()
    ensures id.Some? && Truthy(firstName) && Truthy(lastName) ==>
      && (r.response.status == 404 <==> !fault && id.value !in t)
      && (r.response.status == 500 <==>
            fault || (id.value in t && TakenByOther(t, id.value, Name(firstName.value, lastName.value))))
    ensures r.response.status == 404 ==> r.response.body == ErrorBody(UserNotFound)
    ensures r.response.status == 200 ==>
      && id.value in t
      && r.table == t[id.value := Name(firstName.value, lastName.value)]
      && r.response.body == UserBody(id.value, firstName.value, lastName.value)
  {
    if id.None? || !Truthy(firstName) || !Truthy(lastName) then
      Outcome(t, Response(400, ErrorBody(MissingFields)))
    else
      var n := Name(firstName.value, lastName.value);
      if fault then Outcome(t, ServerError())
      else if id.value !in t then Outcome(t, Response(404, ErrorBody(UserNotFound)))
      else if TakenByOther(t, id.value, n) then Outcome(t, ServerError())
      else Outcome(t[id.value := n], Response(200, UserBody(id.value, firstName.value, lastName.value)))
  }

  /** `DELETE /delete/:id`. */
  function Delete(t: Table, id: Option<Id>, fault: bool): (r: Outcome)
    ensures Unique(t) ==> Unique(r.table)
    ensures r.response.status == 400 <==> id.None?
    ensures r.response.status == 400 ==> r.response.body == ErrorBody(MissingUserId)
    ensures r.response.status != 200 ==> r.table == t
    ensures r.response.status == 200 || r.response.status == 400 || r.response.status == 404 || r.response == ServerError()
    ensures id.Some? ==> (r.response.status == 500 <==> fault)
    ensures id.Some? ==> (r.response.status == 404 <==> !fault && id.value !in t)
    ensures r.response.status == 404 ==> r.response.body == ErrorBody(UserNotFound)
    ensures r.response.status == 200 ==>
      && id.value in t
      && r.table == t - {id.value}
      && r.response.body == DeletedBody(UserDeleted, id.value)
  {
    if id.None? then Outcome(t, Response(400, ErrorBody(MissingUserId)))
    else if fault then Outcome(t, ServerError())
    else if id.value !in t then Outcome(t, Response(404, ErrorBody(UserNotFound)))
    else Outcome(t - {id.value}, Response(200, DeletedBody(UserDeleted, id.value)))
  }
}
