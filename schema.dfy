/** The `users` table: an integer primary key and two text columns with a
    UNIQUE constraint over the (first_name, last_name) pair. */
module Schema {

  type Id = int

  /** The two name columns of one row. */
  datatype Name = Name(first: string, last: string)

  /** A row as a SELECT returns it. */
  datatype Row = Row(id: Id, first_name: string, last_name: string)

  /** The table: each primary key maps to its row's names. */
  type Table = map<Id, Name>

  function RowOf(t: Table, id: Id): (r: Row)
    requires id in t
    ensures r.id == id && Name(r.first_name, r.last_name) == t[id]
  {
    Row(id, t[id].first, t[id].last)
  }

  /** The UNIQUE (first_name, last_name) constraint: no two rows share a name pair. */
  ghost predicate Unique(t: Table) {
    forall i, j :: i in t && j in t && i != j ==> t[i] != t[j]
  }

  /** Some other row than `id` already holds the name pair `n`. */
  predicate TakenByOther(t: Table, id: Id, n: Name) {
    exists k :: k in t && k != id && t[k] == n
  }

  /** Every finite table leaves some positive key unused, so an insert can
      always be given a fresh rowid. */
  lemma FreshIdExists(keys: set<Id>)
    ensures exists id :: id > 0 && id !in keys
  {
    var b := UpperBound(keys);
    assert b + 1 > 0 && b + 1 !in keys;
  }

  /** A non-negative number at least as large as every key. */
  lemma {:induction false} UpperBound(keys: set<Id>) returns (b: int)
    ensures b >= 0 && forall k :: k in keys ==> k <= b
    decreases |keys|
  {
    EmptyOrHasElement(keys);
    if keys == {} {
      b := 0;
    } else {
      var k :| k in keys;
      var rest := UpperBound(keys - {k});
      b := if k > rest then k else rest;
      assert forall j :: j in keys ==> j == k || j in keys - {k};
    }
  }

  /** A set is empty or has an element (stated without a precondition so that
      callers can split on emptiness afterwards). */
  lemma EmptyOrHasElement(keys: set<Id>)
    ensures keys == {} || exists k :: k in keys
  {
    if forall k :: k !in keys {
      assert keys == {};
    }
  }
}
