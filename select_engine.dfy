/** The part of the SQL engine that the `/get` handler relies on: it parses a
    `SELECT * FROM users WHERE` statement whose condition is a conjunction of
    `first_name = ?` and `last_name = ?` terms, binds the positional
    parameters and returns the matching rows. Any other text is a syntax
    error; in particular a `WHERE` with no condition after it is one. */
module SelectEngine {
  import opened Wrappers
  import opened Schema
  import opened LookupQuery

  datatype Column = FirstNameColumn | LastNameColumn

  /** The errors the engine reports for such a statement: text it cannot
      parse, and more parameters than placeholders. */
  datatype SqlError = SyntaxError | RangeError

  function TermOf(c: Column): (term: string) {
    match c
    case FirstNameColumn => FirstNameTerm
    case LastNameColumn => LastNameTerm
  }

  function Field(n: Name, c: Column): (value: string) {
    match c
    case FirstNameColumn => n.first
    case LastNameColumn => n.last
  }

  /** The column compared by the equality term at the start of `s`. */
  function ParseTerm(s: string): (c: Option<Column>)
    ensures c.Some? ==> HasPrefix(s, TermOf(c.value))
  {
    if HasPrefix(s, FirstNameTerm) then Some(FirstNameColumn)
    else if HasPrefix(s, LastNameTerm) then Some(LastNameColumn)
    else None
  }

  /** The columns of a non-empty ` AND`-separated list of equality terms that
      makes up the whole of `s`, in order. */
  function ParseConditions(s: string): (r: Option<seq<Column>>)
    ensures r.Some? ==> |r.value| > 0
    decreases |s|
  {
    match ParseTerm(s)
    case None => None
    case Some(c) =>
      var rest := s[|TermOf(c)|..];
      if rest == [] then Some([c])
      else if HasPrefix(rest, AndJoiner) then
        match ParseConditions(rest[|AndJoiner|..])
        case None => None
        case Some(cs) => Some([c] + cs)
      else None
  }

  /** The columns compared by a `SELECT * FROM users WHERE ...` statement, one
      per `?` placeholder, in order. */
  function ParseSelect(text: string): (r: Result<seq<Column>, SqlError>)
    ensures r.Ok? ==> |r.value| > 0
  {
    if HasPrefix(text, SelectUsers) then
      match ParseConditions(text[|SelectUsers|..])
      case None => Err(SyntaxError)
      case Some(cols) => Ok(cols)
    else Err(SyntaxError)
  }

  /** A row satisfies the WHERE clause when each compared column equals the
      parameter bound to its placeholder; an unbound placeholder is NULL and
      no comparison with it holds. */
  predicate Satisfies(n: Name, cols: seq<Column>, params: seq<string>) {
    forall k :: 0 <= k < |cols| ==> k < |params| && Field(n, cols[k]) == params[k]
  }

  /** `db.all(text, params)` on table `t`. */
  function Execute(text: string, params: seq<string>, t: Table): (r: Result<set<Row>, SqlError>)
    ensures r.Ok? ==> forall row :: row in r.value ==> row.id in t && RowOf(t, row.id) == row
    ensures ParseSelect(text).Err? ==> r == Err(SyntaxError)
  {
    match ParseSelect(text)
    case Err(e) => Err(e)
    case Ok(cols) =>
      if |params| > |cols| then Err(RangeError)
      else Ok(set id | id in t && Satisfies(t[id], cols, params) :: RowOf(t, id))
  }

  // ---------------------------------------------------------------------
  // What the lookup handler asks for

  /** A row's names agree with every truthy criterion. */
  predicate Matches(n: Name, firstName: Option<string>, lastName: Option<string>) {
    && (Truthy(firstName) ==> n.first == firstName.value)
    && (Truthy(lastName) ==> n.last == lastName.value)
  }

  /** The rows of `t` that match the conjunction of the truthy criteria. */
  function MatchingRows(t: Table, firstName: Option<string>, lastName: Option<string>): (rows: set<Row>)
    ensures forall id :: id in t && Matches(t[id], firstName, lastName) ==> RowOf(t, id) in rows
    ensures forall row :: row in rows ==>
      (row.id in t && RowOf(t, row.id) == row && Matches(t[row.id], firstName, lastName))
  {
    set id | id in t && Matches(t[id], firstName, lastName) :: RowOf(t, id)
  }

  // ---------------------------------------------------------------------
  // Parsing the texts the builder produces

  lemma PrefixOfConcat(a: string, b: string)
    ensures HasPrefix(a + b, a) && (a + b)[|a|..] == b
  {
    assert (a + b)[..|a|] == a;
  }

  lemma ParseLastNameTerm()
    ensures ParseConditions(LastNameTerm) == Some([LastNameColumn])
  {
    PrefixOfConcat(LastNameTerm, "");
    assert LastNameTerm + "" == LastNameTerm;
  }

  lemma ParseFirstNameTerm()
    ensures ParseConditions(FirstNameTerm) == Some([FirstNameColumn])
  {
    PrefixOfConcat(FirstNameTerm, "");
    assert FirstNameTerm + "" == FirstNameTerm;
  }

  lemma ParseBothTerms()
    ensures ParseConditions(FirstNameTerm + AndJoiner + LastNameTerm) == Some([FirstNameColumn, LastNameColumn])
  {
    var s := FirstNameTerm + AndJoiner + LastNameTerm;
    assert s == FirstNameTerm + (AndJoiner + LastNameTerm);
    PrefixOfConcat(FirstNameTerm, AndJoiner + LastNameTerm);
    PrefixOfConcat(AndJoiner, LastNameTerm);
    ParseLastNameTerm();
    assert ParseTerm(s) == Some(FirstNameColumn);
    var rest := s[|FirstNameTerm|..];
    assert rest == AndJoiner + LastNameTerm;
    assert rest[|AndJoiner|..] == LastNameTerm;
    assert rest != [] && HasPrefix(rest, AndJoiner);
    assert ParseConditions(rest[|AndJoiner|..]) == Some([LastNameColumn]);
    assert ParseConditions(s) == Some([FirstNameColumn] + [LastNameColumn]);
    assert [FirstNameColumn] + [LastNameColumn] == [FirstNameColumn, LastNameColumn];
  }

  lemma ParseSelectAfterHead(rest: string)
    ensures ParseSelect(SelectUsers + rest) == match ParseConditions(rest)
      case None => Err(SyntaxError)
      case Some(cols) => Ok(cols)
  {
    PrefixOfConcat(SelectUsers, rest);
  }

  lemma ParseBothCriteriaText()
    ensures ParseSelect(SelectUsers + FirstNameTerm + AndJoiner + LastNameTerm)
      == Ok([FirstNameColumn, LastNameColumn])
  {
    assert SelectUsers + FirstNameTerm + AndJoiner + LastNameTerm
      == SelectUsers + (FirstNameTerm + AndJoiner + LastNameTerm);
    ParseSelectAfterHead(FirstNameTerm + AndJoiner + LastNameTerm);
    ParseBothTerms();
  }

  lemma ParseFirstNameText()
    ensures ParseSelect(SelectUsers + FirstNameTerm) == Ok([FirstNameColumn])
  {
    ParseSelectAfterHead(FirstNameTerm);
    ParseFirstNameTerm();
  }

  lemma ParseLastNameText()
    ensures ParseSelect(SelectUsers + LastNameTerm) == Ok([LastNameColumn])
  {
    ParseSelectAfterHead(LastNameTerm);
    ParseLastNameTerm();
  }

  /** The columns compared by the terms for the truthy criteria, in order. */
  function CriteriaColumns(firstName: Option<string>, lastName: Option<string>): (cols: seq<Column>) {
    (if Truthy(firstName) then [FirstNameColumn] else []) + (if Truthy(lastName) then [LastNameColumn] else [])
  }

  /** The columns the builder's text compares, one per pushed parameter. */
  lemma {:induction false} BuiltQueryParses(firstName: Option<string>, lastName: Option<string>)
    requires Truthy(firstName) || Truthy(lastName)
    ensures ParseSelect(BuildQuery(firstName, lastName).text) == Ok(CriteriaColumns(firstName, lastName))
  {
    TextShape(firstName, lastName);
    var text := BuildQuery(firstName, lastName).text;
    var cols := CriteriaColumns(firstName, lastName);
    if Truthy(firstName) && Truthy(lastName) {
      assert text == SelectUsers + FirstNameTerm + AndJoiner + LastNameTerm;
      assert cols == [FirstNameColumn, LastNameColumn];
      ParseBothCriteriaText();
    } else if Truthy(firstName) {
      assert text == SelectUsers + FirstNameTerm;
      assert cols == [FirstNameColumn];
      ParseFirstNameText();
    } else {
      assert text == SelectUsers + LastNameTerm;
      assert cols == [LastNameColumn];
      ParseLastNameText();
    }
  }

  // ---------------------------------------------------------------------
  // The lookup statement against the table

  /** With at least one truthy criterion the built statement runs and returns
      exactly the rows matching the conjunction of the truthy criteria. */
  lemma {:induction false} BuiltQueryFindsMatches(t: Table, firstName: Option<string>, lastName: Option<string>)
    requires Truthy(firstName) || Truthy(lastName)
    ensures Execute(BuildQuery(firstName, lastName).text, BuildQuery(firstName, lastName).params, t)
      == Ok(MatchingRows(t, firstName, lastName))
  {
    var q := BuildQuery(firstName, lastName);
    BuiltQueryParses(firstName, lastName);
    var cols := CriteriaColumns(firstName, lastName);
    forall n: Name
      ensures Satisfies(n, cols, q.params) <==> Matches(n, firstName, lastName)
    {
      if Truthy(firstName) && Truthy(lastName) {
        assert cols == [FirstNameColumn, LastNameColumn];
      }
    }
    var found := set id | id in t && Satisfies(t[id], cols, q.params) :: RowOf(t, id);
    assert Execute(q.text, q.params, t) == Ok(found);
    assert found == MatchingRows(t, firstName, lastName);
  }

  /** With no truthy criterion the statement is the bare `WHERE` head, which
      the engine rejects: the lookup never reaches the table. */
  lemma NoCriteriaIsSyntaxError(t: Table, firstName: Option<string>, lastName: Option<string>)
    requires !Truthy(firstName) && !Truthy(lastName)
    ensures Execute(BuildQuery(firstName, lastName).text, BuildQuery(firstName, lastName).params, t)
      == Err(SyntaxError)
  {
    ParseSelectAfterHead("");
    assert SelectUsers + "" == SelectUsers;
  }
}
