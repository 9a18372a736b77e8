/** Properties that relate several requests to one another. */
module Scenarios {
  import opened Wrappers
  import opened Schema
  import opened SelectEngine
  import opened Handlers

  /** Under the UNIQUE constraint, looking a row up by both of its names finds
      that row and no other. */
  lemma LookupByBothNames(t: Table, id: Id, first: string, last: string)
    requires Unique(t) && id in t && t[id] == Name(first, last)
    requires first != "" && last != ""
    ensures Lookup(t, Some(first), Some(last), false) == Response(200, Results({Row(id, first, last)}))
  {
    LookupResults(t, Some(first), Some(last), false);
    var found := MatchingRows(t, Some(first), Some(last));
    assert RowOf(t, id) == Row(id, first, last);
    forall row | row in found
      ensures row == Row(id, first, last)
    {
      assert t[row.id] == Name(first, last);
    }
    assert found == {Row(id, first, last)};
  }

  /** A row just added is found by a lookup on its two names, as the only result. */
  lemma AddThenLookup(t: Table, first: string, last: string, newId: Id)
    requires Unique(t) && newId > 0 && newId !in t
    requires Add(t, Some(first), Some(last), false, newId).response.status == 200
    ensures Lookup(Add(t, Some(first), Some(last), false, newId).table, Some(first), Some(last), false)
      == Response(200, Results({Row(newId, first, last)}))
  {
    var after := Add(t, Some(first), Some(last), false, newId).table;
    LookupByBothNames(after, newId, first, last);
  }

  /** Adding a row and then deleting it by the id the add returned restores the table. */
  lemma AddThenDelete(t: Table, first: string, last: string, newId: Id)
    requires newId > 0 && newId !in t
    requires Add(t, Some(first), Some(last), false, newId).response.status == 200
    ensures Delete(Add(t, Some(first), Some(last), false, newId).table, Some(newId), false)
      == Outcome(t, Response(200, DeletedBody(UserDeleted, newId)))
  {
    var after := Add(t, Some(first), Some(last), false, newId).table;
    assert after - {newId} == t;
  }

  /** A second add of the same name pair fails like a storage error and leaves
      the table as the first add left it. */
  lemma AddTwice(t: Table, first: string, last: string, newId: Id, otherId: Id)
    requires newId > 0 && newId !in t
    requires Add(t, Some(first), Some(last), false, newId).response.status == 200
    requires otherId > 0 && otherId !in Add(t, Some(first), Some(last), false, newId).table
    ensures var after := Add(t, Some(first), Some(last), false, newId).table;
      Add(after, Some(first), Some(last), false, otherId) == Outcome(after, ServerError())
  {
    var after := Add(t, Some(first), Some(last), false, newId).table;
    assert after[newId] == Name(first, last);
  }

  /** Deleting a row a second time finds nothing to delete. */
  lemma DeleteTwice(t: Table, id: Id)
    requires Delete(t, Some(id), false).response.status == 200
    ensures var after := Delete(t, Some(id), false).table;
      Delete(after, Some(id), false) == Outcome(after, Response(404, ErrorBody(UserNotFound)))
  {
  }

  /** No lookup after a successful delete returns the deleted row's id. */
  lemma DeletedRowNotFound(t: Table, id: Id, firstName: Option<string>, lastName: Option<string>)
    requires Delete(t, Some(id), false).response.status == 200
    ensures var r := Lookup(Delete(t, Some(id), false).table, firstName, lastName, false);
      r.status == 200 ==> forall row :: row in r.body.results ==> row.id != id
  {
    LookupResults(Delete(t, Some(id), false).table, firstName, lastName, false);
  }

  /** After a successful update the row is found by its new names, as the only result. */
  lemma UpdateThenLookup(t: Table, id: Id, first: string, last: string)
    requires Unique(t)
    requires Update(t, Some(id), Some(first), Some(last), false).response.status == 200
    ensures Lookup(Update(t, Some(id), Some(first), Some(last), false).table, Some(first), Some(last), false)
      == Response(200, Results({Row(id, first, last)}))
  {
    var after := Update(t, Some(id), Some(first), Some(last), false).table;
    LookupByBothNames(after, id, first, last);
  }

  /** Updating a row to the names it already has succeeds and changes nothing:
      the UNIQUE constraint compares a row only with the other rows. */
  lemma UpdateToSameNames(t: Table, id: Id)
    requires Unique(t) && id in t && t[id].first != "" && t[id].last != ""
    ensures Update(t, Some(id), Some(t[id].first), Some(t[id].last), false)
      == Outcome(t, Response(200, UserBody(id, t[id].first, t[id].last)))
  {
    assert !TakenByOther(t, id, t[id]);
    assert t[id := Name(t[id].first, t[id].last)] == t;
  }

  /** A successful add adds exactly one row. */
  lemma AddCount(t: Table, first: Option<string>, last: Option<string>, newId: Id)
    requires newId > 0 && newId !in t
    requires Add(t, first, last, false, newId).response.status == 200
    ensures |Add(t, first, last, false, newId).table| == |t| + 1
  {
  }

  /** A successful delete removes exactly one row. */
  lemma DeleteCount(t: Table, id: Id)
    requires Delete(t, Some(id), false).response.status == 200
    ensures |Delete(t, Some(id), false).table| == |t| - 1
  {
    var after := t - {id};
    assert after.Keys == t.Keys - {id};
    assert |after.Keys| == |t.Keys| - 1;
  }

  /** An update never changes the number of rows. */
  lemma UpdateCount(t: Table, id: Option<Id>, first: Option<string>, last: Option<string>, fault: bool)
    ensures |Update(t, id, first, last, fault).table| == |t|
  {
    var after := Update(t, id, first, last, fault).table;
    assert after.Keys == t.Keys;
  }

  /** The lookup step of the session: a search by first name on the one-row table. */
  lemma SessionLookup()
    ensures Lookup(map[1 := Name("Ada", "Lovelace")], Some("Ada"), None, false)
      == Response(200, Results({Row(1, "Ada", "Lovelace")}))
  {
    var t1 := map[1 := Name("Ada", "Lovelace")];
    LookupResults(t1, Some("Ada"), None, false);
    var found := MatchingRows(t1, Some("Ada"), None);
    assert Matches(t1[1], Some("Ada"), None);
    assert RowOf(t1, 1) in found;
    forall row | row in found
      ensures row == Row(1, "Ada", "Lovelace")
    {
      assert row.id == 1;
    }
    assert found == {Row(1, "Ada", "Lovelace")};
  }

  /** The rename step of the session: the only row may take any new name pair. */
  lemma SessionRename()
    ensures Update(map[1 := Name("Ada", "Lovelace")], Some(1), Some("Ada"), Some("Byron"), false)
      == Outcome(map[1 := Name("Ada", "Byron")], Response(200, UserBody(1, "Ada", "Byron")))
  {
    assert !TakenByOther(map[1 := Name("Ada", "Lovelace")], 1, Name("Ada", "Byron"));
  }

  /** One session against a fresh table: add, look up by first name, rename,
      delete, and delete again. */
  lemma SessionExample()
    ensures var t0: Table := map[];
      var added := Add(t0, Some("Ada"), Some("Lovelace"), false, 1);
      && added == Outcome(map[1 := Name("Ada", "Lovelace")], Response(200, UserBody(1, "Ada", "Lovelace")))
      && Lookup(added.table, Some("Ada"), None, false) == Response(200, Results({Row(1, "Ada", "Lovelace")}))
      && var renamed := Update(added.table, Some(1), Some("Ada"), Some("Byron"), false);
      && renamed == Outcome(map[1 := Name("Ada", "Byron")], Response(200, UserBody(1, "Ada", "Byron")))
      && var deleted := Delete(renamed.table, Some(1), false);
      && deleted == Outcome(map[], Response(200, DeletedBody(UserDeleted, 1)))
      && Delete(deleted.table, Some(1), false) == Outcome(map[], Response(404, ErrorBody(UserNotFound)))
  {
    var t0: Table := map[];
    assert t0[1 := Name("Ada", "Lovelace")] == map[1 := Name("Ada", "Lovelace")];
    SessionLookup();
    SessionRename();
    assert map[1 := Name("Ada", "Byron")] - {1} == map[];
  }
}
