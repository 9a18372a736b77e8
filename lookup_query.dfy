/** The SQL text and positional parameters that the `/get` handler builds from
    its two optional criteria. */
module LookupQuery {
  import opened Wrappers
  import opened Schema

  /** The fixed head of the statement, and the three fragments appended to it. */
  const SelectUsers: string := "SELECT * FROM users WHERE"
  const FirstNameTerm: string := " first_name = ?"
  const LastNameTerm: string := " last_name = ?"
  const AndJoiner: string := " AND"

  /** A statement text with its positional parameters. */
  datatype Query = Query(text: string, params: seq<string>)

  /** The query built by the `/get` handler: one `first_name = ?` term when
      `firstName` is truthy, one `last_name = ?` term when `lastName` is truthy,
      joined by ` AND` when both are, and the truthy values pushed in that order. */
  function BuildQuery(firstName: Option<string>, lastName: Option<string>): (q: Query)
    ensures |q.params| == (if Truthy(firstName) then 1 else 0) + (if Truthy(lastName) then 1 else 0)
    ensures Truthy(firstName) ==> q.params[0] == firstName.value
    ensures Truthy(lastName) ==> q.params[|q.params| - 1] == lastName.value
    ensures forall k :: 0 <= k < |q.params| ==> q.params[k] != ""
    ensures HasPrefix(q.text, SelectUsers)
  {
    var text := SelectUsers
      + (if Truthy(firstName) then FirstNameTerm else "")
      + (if Truthy(lastName) then (if Truthy(firstName) then AndJoiner else "") + LastNameTerm else "");
    var params := [];
    var params := if Truthy(firstName) then params + [firstName.value] else params;
    var params := if Truthy(lastName) then params + [lastName.value] else params;
    Query(text, params)
  }

  // ---------------------------------------------------------------------
  // Text helpers

  predicate HasPrefix(s: string, p: string) {
    |p| <= |s| && s[..|p|] == p
  }

  /** `p` occurs somewhere in `s` as a contiguous piece. */
  ghost predicate Occurs(p: string, s: string) {
    exists i :: OccursAt(p, s, i)
  }

  ghost predicate OccursAt(p: string, s: string, i: int) {
    0 <= i && i + |p| <= |s| && s[i..i + |p|] == p
  }

  /** Number of occurrences of the character `c` in `s`. */
  function Count(s: string, c: char): (n: nat)
  {
    if s == [] then 0 else (if s[0] == c then 1 else 0) + Count(s[1..], c)
  }

  /** The number of `?` placeholders in a statement text. */
  function Placeholders(s: string): (n: nat) {
    Count(s, '?')
  }

  lemma {:induction false} CountConcat(a: string, b: string, c: char)
    ensures Count(a + b, c) == Count(a, c) + Count(b, c)
  {
    if a == [] {
      assert a + b == b;
    } else {
      assert (a + b)[1..] == a[1..] + b;
      CountConcat(a[1..], b, c);
    }
  }

  lemma {:induction false} CountAbsent(s: string, c: char)
    requires c !in s
    ensures Count(s, c) == 0
  {
    if s != [] {
      CountAbsent(s[1..], c);
    }
  }

  lemma OnePlaceholderAtEnd(head: string)
    requires '?' !in head
    ensures Placeholders(head + ['?']) == 1
  {
    CountAbsent(head, '?');
    CountConcat(head, ['?'], '?');
  }

  lemma SelectUsersPlaceholders()
    ensures Placeholders(SelectUsers) == 0
  {
    CountAbsent(SelectUsers, '?');
  }

  lemma AndJoinerPlaceholders()
    ensures Placeholders(AndJoiner) == 0
  {
    CountAbsent(AndJoiner, '?');
  }

  lemma FirstNameTermPlaceholders()
    ensures Placeholders(FirstNameTerm) == 1
  {
    OnePlaceholderAtEnd(" first_name = ");
    assert FirstNameTerm == " first_name = " + ['?'];
  }

  lemma LastNameTermPlaceholders()
    ensures Placeholders(LastNameTerm) == 1
  {
    OnePlaceholderAtEnd(" last_name = ");
    assert LastNameTerm == " last_name = " + ['?'];
  }

  lemma OccursBetween(a: string, p: string, b: string)
    ensures Occurs(p, a + p + b)
  {
    var s := a + p + b;
    assert s[|a|..|a| + |p|] == p;
    assert OccursAt(p, s, |a|);
  }

  lemma OccursExtended(p: string, s: string, t: string)
    requires Occurs(p, s)
    ensures Occurs(p, s + t)
  {
    var i :| OccursAt(p, s, i);
    assert (s + t)[i..i + |p|] == s[i..i + |p|];
    assert OccursAt(p, s + t, i);
  }

  /** A piece containing a character that `s` lacks does not occur in `s`. */
  lemma {:induction false} MissingCharacter(p: string, s: string, c: char)
    requires c in p && c !in s
    ensures !Occurs(p, s)
  {
    var j :| 0 <= j < |p| && p[j] == c;
    forall i | 0 <= i && i + |p| <= |s|
      ensures !OccursAt(p, s, i)
    {
      assert s[i..i + |p|][j] == s[i + j];
    }
  }

  // ---------------------------------------------------------------------
  // Properties of the built query

  /** The four texts the builder can produce. */
  lemma TextShape(firstName: Option<string>, lastName: Option<string>)
    ensures var text := BuildQuery(firstName, lastName).text;
      && (Truthy(firstName) && Truthy(lastName) ==> text == SelectUsers + FirstNameTerm + AndJoiner + LastNameTerm)
      && (Truthy(firstName) && !Truthy(lastName) ==> text == SelectUsers + FirstNameTerm)
      && (!Truthy(firstName) && Truthy(lastName) ==> text == SelectUsers + LastNameTerm)
      && (!Truthy(firstName) && !Truthy(lastName) ==> text == SelectUsers)
  {
  }

  lemma BothTermsPlaceholders()
    ensures Placeholders(SelectUsers + FirstNameTerm + AndJoiner + LastNameTerm) == 2
  {
    SelectUsersPlaceholders();
    FirstNameTermPlaceholders();
    AndJoinerPlaceholders();
    LastNameTermPlaceholders();
    CountConcat(SelectUsers, FirstNameTerm, '?');
    CountConcat(SelectUsers + FirstNameTerm, AndJoiner, '?');
    CountConcat(SelectUsers + FirstNameTerm + AndJoiner, LastNameTerm, '?');
  }

  lemma FirstTermPlaceholders()
    ensures Placeholders(SelectUsers + FirstNameTerm) == 1
  {
    SelectUsersPlaceholders();
    FirstNameTermPlaceholders();
    CountConcat(SelectUsers, FirstNameTerm, '?');
  }

  lemma LastTermPlaceholders()
    ensures Placeholders(SelectUsers + LastNameTerm) == 1
  {
    SelectUsersPlaceholders();
    LastNameTermPlaceholders();
    CountConcat(SelectUsers, LastNameTerm, '?');
  }

  /** The statement has exactly as many placeholders as parameters. */
  lemma PlaceholdersMatchParams(firstName: Option<string>, lastName: Option<string>)
    ensures Placeholders(BuildQuery(firstName, lastName).text) == |BuildQuery(firstName, lastName).params|
  {
    TextShape(firstName, lastName);
    SelectUsersPlaceholders();
    FirstTermPlaceholders();
    LastTermPlaceholders();
    BothTermsPlaceholders();
  }

  /** A piece that needs a character which neither the head nor either
      possible tail has occurs in none of the three texts. */
  lemma MissingFromAll(p: string, head: string, x: string, y: string, c: char)
    requires c in p && c !in head && c !in x && c !in y
    ensures !Occurs(p, head) && !Occurs(p, head + x) && !Occurs(p, head + y)
  {
    MissingCharacter(p, head, c);
    MissingCharacter(p, head + x, c);
    MissingCharacter(p, head + y, c);
  }

  lemma LowerFFacts()
    ensures 'f' in FirstNameTerm && 'f' !in SelectUsers && 'f' !in LastNameTerm
  {
    assert FirstNameTerm[1] == 'f';
  }

  lemma LowerLFacts()
    ensures 'l' in LastNameTerm && 'l' !in SelectUsers && 'l' !in FirstNameTerm
  {
    assert LastNameTerm[1] == 'l';
  }

  lemma UpperNFacts()
    ensures 'N' in AndJoiner && 'N' !in SelectUsers && 'N' !in FirstNameTerm && 'N' !in LastNameTerm
  {
    assert AndJoiner[2] == 'N';
  }

  /** A `first_name` term is in the text exactly when `firstName` is truthy. */
  lemma FirstNameTermIffTruthy(firstName: Option<string>, lastName: Option<string>)
    ensures Occurs(FirstNameTerm, BuildQuery(firstName, lastName).text) <==> Truthy(firstName)
  {
    TextShape(firstName, lastName);
    if Truthy(firstName) {
      OccursBetween(SelectUsers, FirstNameTerm, "");
      assert SelectUsers + FirstNameTerm + "" == SelectUsers + FirstNameTerm;
      OccursExtended(FirstNameTerm, SelectUsers + FirstNameTerm, AndJoiner);
      OccursExtended(FirstNameTerm, SelectUsers + FirstNameTerm + AndJoiner, LastNameTerm);
    } else {
      LowerFFacts();
      MissingFromAll(FirstNameTerm, SelectUsers, LastNameTerm, LastNameTerm, 'f');
    }
  }

  /** A `last_name` term is in the text exactly when `lastName` is truthy. */
  lemma LastNameTermIffTruthy(firstName: Option<string>, lastName: Option<string>)
    ensures Occurs(LastNameTerm, BuildQuery(firstName, lastName).text) <==> Truthy(lastName)
  {
    TextShape(firstName, lastName);
    if Truthy(lastName) {
      OccursBetween(SelectUsers + FirstNameTerm + AndJoiner, LastNameTerm, "");
      assert SelectUsers + FirstNameTerm + AndJoiner + LastNameTerm + ""
        == SelectUsers + FirstNameTerm + AndJoiner + LastNameTerm;
      OccursBetween(SelectUsers, LastNameTerm, "");
      assert SelectUsers + LastNameTerm + "" == SelectUsers + LastNameTerm;
    } else {
      LowerLFacts();
      MissingFromAll(LastNameTerm, SelectUsers, FirstNameTerm, FirstNameTerm, 'l');
    }
  }

  /** The ` AND` joiner is in the text exactly when both criteria are truthy. */
  lemma AndIffBoth(firstName: Option<string>, lastName: Option<string>)
    ensures Occurs(AndJoiner, BuildQuery(firstName, lastName).text) <==> Truthy(firstName) && Truthy(lastName)
  {
    TextShape(firstName, lastName);
    if Truthy(firstName) && Truthy(lastName) {
      OccursBetween(SelectUsers + FirstNameTerm, AndJoiner, LastNameTerm);
    } else {
      UpperNFacts();
      MissingFromAll(AndJoiner, SelectUsers, FirstNameTerm, LastNameTerm, 'N');
    }
  }

  /** With both criteria truthy the parameters are the two values, first name first. */
  lemma BothCriteriaOrder(firstName: Option<string>, lastName: Option<string>)
    requires Truthy(firstName) && Truthy(lastName)
    ensures BuildQuery(firstName, lastName).params == [firstName.value, lastName.value]
  {
  }

  /** With neither criterion the text is the bare, dangling `WHERE` head. */
  lemma NoCriteriaText(firstName: Option<string>, lastName: Option<string>)
    requires !Truthy(firstName) && !Truthy(lastName)
    ensures BuildQuery(firstName, lastName) == Query(SelectUsers, [])
  {
  }
}
