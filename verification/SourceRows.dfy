/**
  The table of known authors built from exported rows. A row is given with its note, the
  profiles it names, and its account and author texts; rows without a valid note address
  are not part of it.
 */
module SourceRows {
  import opened Wrappers

  datatype Row = Row(note: string, profiles: set<string>, account: string, name: string) {
    /** The row contradicts itself. */
    predicate Torn() { |profiles| > 1 }

    /** The account the row claims: its one profile if it names one, else its account text. */
    predicate Claims(a: string) {
      !Torn() && a == (if profiles != {} then Only(profiles) else account) && (a != "" || profiles != {})
    }

    predicate OnlyNames() { profiles == {} && account == "" && name != "" }
  }

  lemma TheOne(s: set<string>, x: string)
    requires x in s && |s| <= 1
    ensures s == {x}
  {
    var rest := s - {x};
    assert |rest| == |s| - 1;
    assert s == rest + {x};
  }

  /** `next(iter(profiles))`. */
  function Only(s: set<string>): (x: string)
    requires 0 < |s| <= 1
    ensures s == {x}
  {
    assert exists x :: s == {x} by {
      var x :| x in s;
      TheOne(s, x);
    }
    var x :| s == {x};
    x
  }

  datatype Known = Known(authors: map<string, string>, names: map<string, string>, conflicts: set<string>)

  const NOTHING := Known(map[], map[], {})

  // ---------------------------------------------------------------- row by row

  function Drop(k: Known, note: string): Known {
    Known(k.authors - {note}, k.names - {note}, k.conflicts + {note})
  }

  /** The account used for the row; no profile and no account text give `""`. */
  function Account(r: Row): string
    requires !r.Torn()
  {
    if r.profiles != {} then Only(r.profiles) else r.account
  }

  function LoadRow(k: Known, r: Row): Known {
    if r.Torn() then Drop(k, r.note)
    else if r.note in k.conflicts then k
    else if Account(r) == "" then
      if r.name != "" then k.(names := k.names[r.note := r.name]) else k
    else if r.note in k.authors && k.authors[r.note] != Account(r) then Drop(k, r.note)
    else k.(authors := k.authors[r.note := Account(r)])
  }

  function Load(k: Known, rows: seq<Row>): Known {
    if |rows| == 0 then k else LoadRow(Load(k, rows[..|rows| - 1]), rows[|rows| - 1])
  }

  // ----------------------------------------------------------- as a set of rows

  /** Every profile a row names is a proper identifier. */
  predicate WellFormed(rows: set<Row>) { forall r :: r in rows ==> "" !in r.profiles }

  ghost predicate ClaimedBy(rows: set<Row>, note: string, a: string) {
    exists r :: r in rows && r.note == note && r.Claims(a)
  }

  ghost predicate TornIn(rows: set<Row>, note: string) {
    exists r :: r in rows && r.note == note && r.Torn()
  }

  /** One row names several profiles, or two rows name different accounts. */
  ghost predicate Conflicted(rows: set<Row>, note: string) {
    || TornIn(rows, note)
    || exists a, b :: a != b && ClaimedBy(rows, note, a) && ClaimedBy(rows, note, b)
  }

  ghost predicate NamedIn(rows: set<Row>, note: string) {
    exists r :: r in rows && r.note == note && r.OnlyNames()
  }

  /** What the table must be, whatever order the rows came in. */
  ghost predicate Meets(k: Known, rows: set<Row>) {
    && (forall n :: n in k.conflicts <==> Conflicted(rows, n))
    && (forall n :: n in k.authors <==> !Conflicted(rows, n) && exists a :: ClaimedBy(rows, n, a))
    && (forall n :: n in k.authors ==> ClaimedBy(rows, n, k.authors[n]))
    && (forall n :: n in k.names <==> !Conflicted(rows, n) && NamedIn(rows, n))
  }

  // ---------------------------------------------------------------------- one more

  lemma ClaimedMore(rows: set<Row>, r: Row, note: string, a: string)
    ensures ClaimedBy(rows + {r}, note, a) <==> ClaimedBy(rows, note, a) || (r.note == note && r.Claims(a))
  {
    if ClaimedBy(rows, note, a) {
      var s :| s in rows && s.note == note && s.Claims(a);
      assert s in rows + {r};
    }
    if r.note == note && r.Claims(a) {
      assert r in rows + {r};
    }
  }

  lemma TornMore(rows: set<Row>, r: Row, note: string)
    ensures TornIn(rows + {r}, note) <==> TornIn(rows, note) || (r.note == note && r.Torn())
    ensures NamedIn(rows + {r}, note) <==> NamedIn(rows, note) || (r.note == note && r.OnlyNames())
  {
    if TornIn(rows, note) {
      var s :| s in rows && s.note == note && s.Torn();
      assert s in rows + {r};
    }
    if NamedIn(rows, note) {
      var s :| s in rows && s.note == note && s.OnlyNames();
      assert s in rows + {r};
    }
    assert r in rows + {r};
  }

  /** A note the row is not about is judged as before. */
  lemma OtherNote(rows: set<Row>, r: Row, note: string)
    requires r.note != note
    ensures Conflicted(rows + {r}, note) <==> Conflicted(rows, note)
    ensures NamedIn(rows + {r}, note) <==> NamedIn(rows, note)
    ensures forall a :: ClaimedBy(rows + {r}, note, a) <==> ClaimedBy(rows, note, a)
  {
    hide ClaimedBy, TornIn, NamedIn;
    TornMore(rows, r, note);
    forall a
      ensures ClaimedBy(rows + {r}, note, a) <==> ClaimedBy(rows, note, a)
    {
      ClaimedMore(rows, r, note, a);
    }
  }

  /** What the row's own note becomes. */
  lemma OwnNote(rows: set<Row>, r: Row)
    ensures Conflicted(rows + {r}, r.note) <==>
            || Conflicted(rows, r.note) || r.Torn()
            || exists a, b :: a != b && ClaimedBy(rows, r.note, a) && r.Claims(b)
    ensures NamedIn(rows + {r}, r.note) <==> NamedIn(rows, r.note) || r.OnlyNames()
    ensures forall a :: ClaimedBy(rows + {r}, r.note, a) <==> ClaimedBy(rows, r.note, a) || r.Claims(a)
  {
    hide ClaimedBy, TornIn, NamedIn;
    TornMore(rows, r, r.note);
    forall a
      ensures ClaimedBy(rows + {r}, r.note, a) <==> ClaimedBy(rows, r.note, a) || r.Claims(a)
    {
      ClaimedMore(rows, r, r.note, a);
    }
  }

  lemma ClaimsAccount(r: Row, a: string)
    requires "" !in r.profiles
    ensures r.Claims(a) <==> !r.Torn() && Account(r) != "" && a == Account(r)
  {
  }

  lemma RowMeets(k: Known, rows: set<Row>, r: Row)
    requires Meets(k, rows) && "" !in r.profiles
    ensures Meets(LoadRow(k, r), rows + {r})
  {
    hide Conflicted, ClaimedBy, TornIn, NamedIn;
    var after := LoadRow(k, r);
    OwnNote(rows, r);
    forall n | n != r.note
      ensures Conflicted(rows + {r}, n) <==> Conflicted(rows, n)
      ensures NamedIn(rows + {r}, n) <==> NamedIn(rows, n)
      ensures forall a :: ClaimedBy(rows + {r}, n, a) <==> ClaimedBy(rows, n, a)
    {
      OtherNote(rows, r, n);
    }
    forall a
      ensures r.Claims(a) <==> !r.Torn() && Account(r) != "" && a == Account(r)
    {
      ClaimsAccount(r, a);
    }
    OneClaim(rows, r.note);
    if !r.Torn() && Account(r) != "" {
      assert ClaimedBy(rows + {r}, r.note, Account(r));
    }
  }

  /** A note without conflict is claimed by one account at most. */
  lemma OneClaim(rows: set<Row>, note: string)
    ensures !Conflicted(rows, note) ==>
              forall a, b :: ClaimedBy(rows, note, a) && ClaimedBy(rows, note, b) ==> a == b
  {
  }

  function RowSet(rows: seq<Row>): set<Row> { set r | r in rows }

  lemma NothingMeets()
    ensures Meets(NOTHING, {})
  {
  }

  /** The loaded table is the one the set of rows calls for. */
  lemma {:induction false} LoadMeets(rows: seq<Row>)
    requires WellFormed(RowSet(rows))
    ensures Meets(Load(NOTHING, rows), RowSet(rows))
    decreases |rows|
  {
    hide Meets, LoadRow;
    if |rows| == 0 {
      assert RowSet(rows) == {};
      NothingMeets();
    } else {
      var n := |rows| - 1;
      assert rows == rows[..n] + [rows[n]];
      assert RowSet(rows) == RowSet(rows[..n]) + {rows[n]};
      LoadMeets(rows[..n]);
      RowMeets(Load(NOTHING, rows[..n]), RowSet(rows[..n]), rows[n]);
    }
  }

  /** Order and repetition do not matter to the conflicts, to the authors, or to which
      notes have a name. */
  lemma OrderInsensitive(rows: seq<Row>, others: seq<Row>)
    requires RowSet(rows) == RowSet(others) && WellFormed(RowSet(rows))
    ensures Load(NOTHING, rows).conflicts == Load(NOTHING, others).conflicts
    ensures Load(NOTHING, rows).authors == Load(NOTHING, others).authors
    ensures Load(NOTHING, rows).names.Keys == Load(NOTHING, others).names.Keys
  {
    hide Load, Conflicted, ClaimedBy, NamedIn;
    var k, m := Load(NOTHING, rows), Load(NOTHING, others);
    LoadMeets(rows);
    LoadMeets(others);
    assert k.authors.Keys == m.authors.Keys;
    forall n | n in k.authors
      ensures k.authors[n] == m.authors[n]
    {
      OneClaim(RowSet(rows), n);
    }
  }

  /** Batches load like one list. */
  lemma {:induction false} BatchesJoin(k: Known, first: seq<Row>, second: seq<Row>)
    ensures Load(Load(k, first), second) == Load(k, first + second)
    decreases |second|
  {
    if |second| == 0 {
      assert first + second == first;
    } else {
      var n := |second| - 1;
      assert (first + second)[..|first| + n] == first + second[..n];
      BatchesJoin(k, first, second[..n]);
    }
  }

  /** A note in conflict has neither an author nor a name. */
  lemma ConflictsStandAlone(rows: seq<Row>)
    requires WellFormed(RowSet(rows))
    ensures Load(NOTHING, rows).conflicts !! Load(NOTHING, rows).authors.Keys
    ensures Load(NOTHING, rows).conflicts !! Load(NOTHING, rows).names.Keys
  {
    hide Load, Conflicted, ClaimedBy, NamedIn;
    LoadMeets(rows);
  }

  // ------------------------------------------------------------------------- names

  /** The name in the last row that gives the note nothing but a name. */
  function LastName(rows: seq<Row>, note: string): Option<string> {
    if |rows| == 0 then None
    else
      var r := rows[|rows| - 1];
      if r.note == note && r.OnlyNames() then Some(r.name) else LastName(rows[..|rows| - 1], note)
  }

  /** A name in the table is the last one loaded for its note. */
  lemma {:induction false} NamesAreLast(rows: seq<Row>, note: string)
    requires WellFormed(RowSet(rows)) && note in Load(NOTHING, rows).names
    ensures LastName(rows, note) == Some(Load(NOTHING, rows).names[note])
    decreases |rows|
  {
    var n := |rows| - 1;
    var front, r := rows[..n], rows[n];
    assert rows == front + [r];
    assert r in RowSet(rows) && forall x :: x in RowSet(front) ==> x in RowSet(rows);
    ConflictsStandAlone(front);
    if note in Load(NOTHING, front).names {
      NamesAreLast(front, note);
    }
  }

  lemma {:induction false} LastNameIsGiven(rows: seq<Row>, note: string)
    requires LastName(rows, note).Some?
    ensures exists r :: r in rows && r.note == note && r.OnlyNames() && r.name == LastName(rows, note).value
    decreases |rows|
  {
    var n := |rows| - 1;
    assert rows == rows[..n] + [rows[n]];
    if !(rows[n].note == note && rows[n].OnlyNames()) {
      LastNameIsGiven(rows[..n], note);
    }
  }

  predicate OneName(rows: set<Row>, note: string) {
    forall r, s :: r in rows && s in rows && r.note == note && s.note == note && r.OnlyNames() && s.OnlyNames() ==>
      r.name == s.name
  }

  lemma SameRows(rows: seq<Row>, others: seq<Row>)
    requires multiset(rows) == multiset(others)
    ensures RowSet(rows) == RowSet(others)
  {
    forall r
      ensures r in rows <==> r in others
    {
      assert r in rows <==> r in multiset(rows);
      assert r in others <==> r in multiset(others);
    }
  }

  /** One row is moved to the end. */
  lemma MovedLast(rows: seq<Row>, x: Row) returns (others: seq<Row>)
    requires x in rows
    ensures multiset(others) == multiset(rows)
    ensures |others| > 0 && others[|others| - 1] == x
  {
    var i :| 0 <= i < |rows| && rows[i] == x;
    others := rows[..i] + rows[i + 1..] + [x];
    assert rows == rows[..i] + [x] + rows[i + 1..];
  }

  /** A note that has a name keeps it in the reordering. */
  lemma StillNamed(rows: seq<Row>, others: seq<Row>, note: string)
    requires multiset(rows) == multiset(others)
    requires WellFormed(RowSet(rows)) && note in Load(NOTHING, rows).names
    ensures note in Load(NOTHING, others).names
    ensures LastName(others, note) == Some(Load(NOTHING, others).names[note])
  {
    hide Load, LastName;
    SameRows(rows, others);
    OrderInsensitive(rows, others);
    assert note in Load(NOTHING, rows).names.Keys;
    NamesAreLast(others, note);
  }

  predicate SameName(k: Known, m: Known, note: string) {
    note in k.names && note in m.names && k.names[note] == m.names[note]
  }

  /** Every order of the rows gives a note the same name exactly when all rows that give it
      nothing but a name agree on it. */
  lemma NameIsStableExactly(rows: seq<Row>, note: string)
    requires WellFormed(RowSet(rows)) && note in Load(NOTHING, rows).names
    ensures OneName(RowSet(rows), note) <==>
            forall others: seq<Row> :: multiset(others) == multiset(rows) ==>
              SameName(Load(NOTHING, rows), Load(NOTHING, others), note)
  {
    hide Load, LastName, WellFormed;
    NamesAreLast(rows, note);
    LastNameIsGiven(rows, note);
    if OneName(RowSet(rows), note) {
      forall others: seq<Row> | multiset(others) == multiset(rows)
        ensures SameName(Load(NOTHING, rows), Load(NOTHING, others), note)
      {
        SameRows(rows, others);
        StillNamed(rows, others, note);
        LastNameIsGiven(others, note);
      }
    } else {
      var x :| x in rows && x.note == note && x.OnlyNames() && Some(x.name) != LastName(rows, note);
      var others := MovedLast(rows, x);
      StillNamed(rows, others, note);
      assert LastName(others, note) == Some(x.name) by { LastNameAtEnd(others, note); }
      assert !SameName(Load(NOTHING, rows), Load(NOTHING, others), note);
    }
  }

  lemma LastNameAtEnd(rows: seq<Row>, note: string)
    requires |rows| > 0 && rows[|rows| - 1].note == note && rows[|rows| - 1].OnlyNames()
    ensures LastName(rows, note) == Some(rows[|rows| - 1].name)
  {
  }

  /** Two rows that give one note different names. */
  lemma NamesDependOnOrder(note: string)
    ensures var a, b := Row(note, {}, "", "a"), Row(note, {}, "", "b");
            && multiset([a, b]) == multiset([b, a])
            && Load(NOTHING, [a, b]).names == map[note := "b"]
            && Load(NOTHING, [b, a]).names == map[note := "a"]
  {
    var a, b := Row(note, {}, "", "a"), Row(note, {}, "", "b");
    LoadTwo(a, b);
    LoadTwo(b, a);
    assert multiset([a, b]) == multiset{a, b} == multiset([b, a]);
  }

  lemma LoadTwo(a: Row, b: Row)
    ensures Load(NOTHING, [a, b]) == LoadRow(LoadRow(NOTHING, a), b)
  {
    hide LoadRow;
    assert [a, b][..1] == [a] && [a][..0] == [];
    assert Load(NOTHING, [a]) == LoadRow(Load(NOTHING, []), a);
  }

  // ------------------------------------------------------------------- the resolver

  class XiaohongshuUrlResolver {
    var authors: map<string, string>
    var names: map<string, string>
    var conflicts: set<string>

    function State(): Known
      reads this
    {
      Known(authors, names, conflicts)
    }

    constructor ()
      ensures State() == NOTHING
    {
      authors, names, conflicts := map[], map[], {};
    }

    method Forget(note: string)
      modifies this
      ensures State() == Drop(old(State()), note)
    {
      conflicts := conflicts + {note};
      authors := authors - {note};
      names := names - {note};
    }

    method LoadOne(row: Row)
      modifies this
      ensures State() == LoadRow(old(State()), row)
    {
      if |row.profiles| > 1 {
        Forget(row.note);
      }
      if row.note in conflicts {
        return;
      }
      var account := row.account;
      if row.profiles != {} {
        account := Only(row.profiles);
      }
      if account == "" {
        if row.name != "" {
          names := names[row.note := row.name];
        }
        return;
      }
      if row.note in authors && authors[row.note] != account {
        Forget(row.note);
      } else {
        authors := authors[row.note := account];
      }
    }

    method LoadRows(rows: seq<Row>)
      modifies this
      ensures State() == Load(old(State()), rows)
    {
      var i := 0;
      while i < |rows|
        invariant 0 <= i <= |rows|
        invariant State() == Load(old(State()), rows[..i])
      {
        assert rows[..i + 1][..i] == rows[..i];
        LoadOne(rows[i]);
        i := i + 1;
      }
      assert rows[..i] == rows;
    }
  }
}
