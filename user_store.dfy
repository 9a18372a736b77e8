/** The service's single database handle: the `users` table it holds, and one
    method per route that validates the request, runs one statement against
    the table in place and maps the engine's report to a response. */
module Store {
  import opened Wrappers
  import opened Schema
  import opened LookupQuery
  import opened SelectEngine
  import Handlers

  class UserStore {
    /** The rows of the `users` table, by primary key. */
    var rows: Table

    /** The UNIQUE (first_name, last_name) constraint holds. */
    ghost predicate Valid()
      reads this
    {
      Unique(rows)
    }

    /** A freshly created, empty table. */
    constructor ()
      ensures Valid() && rows == map[]
    {
      rows := map[];
    }

    /** `GET /get`: the built SELECT, run without changing the table. */
    method Get(firstName: Option<string>, lastName: Option<string>, fault: bool) returns (resp: Handlers.Response)
      ensures resp == Handlers.Lookup(rows, firstName, lastName, fault)
    {
      var q := BuildQuery(firstName, lastName);
      if fault {
        return Handlers.ServerError();
      }
      var result := Execute(q.text, q.params, rows);
      if result.Err? {
        return Handlers.ServerError();
      }
      resp := Handlers.Response(200, Handlers.Results(result.value));
    }

    /** `POST /add`: INSERT a row under a rowid the engine picks. */
    method Add(firstName: Option<string>, lastName: Option<string>, fault: bool) returns (resp: Handlers.Response)
      requires Valid()
      modifies this
      ensures Valid()
      ensures exists newId ::
        (newId > 0 && newId !in old(rows) && Handlers.Add(old(rows), firstName, lastName, fault, newId) == Handlers.Outcome(rows, resp))
    {
      FreshIdExists(rows.Keys);
      ghost var unused :| unused > 0 && unused !in rows;
      if !Truthy(firstName) || !Truthy(lastName) {
        resp := Handlers.Response(400, Handlers.ErrorBody(Handlers.MissingFields));
        assert Handlers.Add(rows, firstName, lastName, fault, unused) == Handlers.Outcome(rows, resp);
        return;
      }
      var n := Name(firstName.value, lastName.value);
      if fault || n in rows.Values {
        resp := Handlers.ServerError();
        assert Handlers.Add(rows, firstName, lastName, fault, unused) == Handlers.Outcome(rows, resp);
        return;
      }
      var newId :| newId > 0 && newId !in rows;
      ghost var before := rows;
      rows := rows[newId := n];
      resp := Handlers.Response(200, Handlers.UserBody(newId, firstName.value, lastName.value));
      assert Handlers.Add(before, firstName, lastName, fault, newId) == Handlers.Outcome(rows, resp);
    }

    /** `PUT /update/:id`: UPDATE both names of the row with that key. */
    method Update(id: Option<Id>, firstName: Option<string>, lastName: Option<string>, fault: bool)
      returns (resp: Handlers.Response)
      requires Valid()
      modifies this
      ensures Valid()
      ensures Handlers.Update(old(rows), id, firstName, lastName, fault) == Handlers.Outcome(rows, resp)
    {
      if id.None? || !Truthy(firstName) || !Truthy(lastName) {
        return Handlers.Response(400, Handlers.ErrorBody(Handlers.MissingFields));
      }
      if fault {
        return Handlers.ServerError();
      }
      var key := id.value;
      if key !in rows {
        // the statement changed no row
        return Handlers.Response(404, Handlers.ErrorBody(Handlers.UserNotFound));
      }
      var n := Name(firstName.value, lastName.value);
      if TakenByOther(rows, key, n) {
        // UNIQUE constraint failed
        return Handlers.ServerError();
      }
      rows := rows[key := n];
      resp := Handlers.Response(200, Handlers.UserBody(key, firstName.value, lastName.value));
    }

    /** `DELETE /delete/:id`: DELETE the row with that key. */
    method Delete(id: Option<Id>, fault: bool) returns (resp: Handlers.Response)
      requires Valid()
      modifies this
      ensures Valid()
      ensures Handlers.Delete(old(rows), id, fault) == Handlers.Outcome(rows, resp)
    {
      if id.None? {
        return Handlers.Response(400, Handlers.ErrorBody(Handlers.MissingUserId));
      }
      if fault {
        return Handlers.ServerError();
      }
      var key := id.value;
      if key !in rows {
        // the statement changed no row
        return Handlers.Response(404, Handlers.ErrorBody(Handlers.UserNotFound));
      }
      rows := rows - {key};
      resp := Handlers.Response(200, Handlers.DeletedBody(Handlers.UserDeleted, key));
    }
  }
}
