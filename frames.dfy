/**
 * The one-row table the classifier is given: named columns in order, each
 * holding one integer. Setting a column (`frame[name] = v`) works like
 * assigning a dictionary key.
 */
module Frames {
  import opened Dicts

  /** A one-row table: the column names in order, and the value of each column. */
  type Frame = Dict<string, int>

  /** One named value of the row, as handed to the classifier. */
  datatype Cell = Cell(name: string, value: int)

  /**
   * `pd.DataFrame([d])` for a dict `d` whose entries, in insertion order,
   * are `entries`: the columns are set one after another.
   */
  function FromEntries(entries: seq<Cell>): Frame
    decreases |entries|
  {
    if entries == [] then Empty()
    else Assign(FromEntries(entries[..|entries| - 1]), entries[|entries| - 1].name,
                   entries[|entries| - 1].value)
  }

  /**
   * The table built from the entries is well formed, has a column for each
   * entry name and no other, and every cell holds the value of an entry of
   * that name.
   */
  lemma {:induction false} FromEntriesCells(entries: seq<Cell>)
    ensures Valid(FromEntries(entries))
    ensures forall c :: c in FromEntries(entries).values <==> exists e | e in entries :: e.name == c
    ensures forall c | c in FromEntries(entries).values ::
              exists e | e in entries :: e.name == c && e.value == FromEntries(entries).values[c]
    decreases |entries|
  {
    if entries != [] {
      var init := entries[..|entries| - 1];
      var last := entries[|entries| - 1];
      FromEntriesCells(init);
      AssignValid(FromEntries(init), last.name, last.value);
      assert forall e | e in entries :: e in init || e == last;
      assert forall e | e in init :: e in entries;
    }
  }

  /** The table built from any entries is well formed. */
  lemma {:induction false} FromEntriesValid(entries: seq<Cell>)
    ensures Valid(FromEntries(entries))
    decreases |entries|
  {
    if entries != [] {
      var init := entries[..|entries| - 1];
      FromEntriesValid(init);
      AssignValid(FromEntries(init), entries[|entries| - 1].name, entries[|entries| - 1].value);
    }
  }

  /** The names of a row with one more cell. */
  lemma NamesSnoc(entries: seq<Cell>)
    requires entries != []
    ensures Names(entries[..|entries| - 1]) == Names(entries)[..|entries| - 1]
    ensures Names(entries) == Names(entries[..|entries| - 1]) + [entries[|entries| - 1].name]
  {
  }

  /** Setting a new column keeps the earlier cells and appends the new name. */
  lemma AssignNew(d: Frame, names: seq<string>, cells: seq<Cell>, last: Cell)
    requires Valid(d) && d.keys == names && last.name !in names
    requires forall i | 0 <= i < |cells| :: cells[i].name in d.values && d.values[cells[i].name] == cells[i].value
    ensures Assign(d, last.name, last.value).keys == names + [last.name]
    ensures forall i | 0 <= i < |cells + [last]| ::
              (cells + [last])[i].name in Assign(d, last.name, last.value).values &&
              Assign(d, last.name, last.value).values[(cells + [last])[i].name] == (cells + [last])[i].value
  {
    forall i | 0 <= i < |cells + [last]|
      ensures (cells + [last])[i].name in Assign(d, last.name, last.value).values
      ensures Assign(d, last.name, last.value).values[(cells + [last])[i].name] == (cells + [last])[i].value
    {
      if i < |cells| {
        assert (cells + [last])[i] == cells[i];
      }
    }
  }

  /**
   * When the entry names are distinct, the columns are the entry names in
   * entry order, and each column holds its entry's value.
   */
  lemma {:induction false} FromDistinctEntries(entries: seq<Cell>)
    requires Distinct(Names(entries))
    ensures FromEntries(entries).keys == Names(entries)
    ensures forall i | 0 <= i < |entries| ::
              entries[i].name in FromEntries(entries).values &&
              FromEntries(entries).values[entries[i].name] == entries[i].value
    decreases |entries|
  {
    if entries != [] {
      var n := |entries| - 1;
      var init := entries[..n];
      NamesSnoc(entries);
      DistinctNotBefore(Names(entries), n);
      assert Distinct(Names(init));
      FromDistinctEntries(init);
      FromEntriesValid(init);
      AssignNew(FromEntries(init), Names(init), init, entries[n]);
      assert init + [entries[n]] == entries;
    }
  }

  // ---------------------------------------------------------------------
  // Column selection
  // ---------------------------------------------------------------------

  /** `a` is `b` with some elements left out, in `b`'s order. */
  predicate Subsequence(a: seq<string>, b: seq<string>)
    decreases |b|
  {
    a == [] ||
    (b != [] && ((a[0] == b[0] && Subsequence(a[1..], b[1..])) || Subsequence(a, b[1..])))
  }

  /** `[col for col in names if col in frame.columns]` */
  function PresentColumns(f: Frame, names: seq<string>): seq<string>
    decreases |names|
  {
    if names == [] then []
    else (if names[0] in f.keys then [names[0]] else []) + PresentColumns(f, names[1..])
  }

  /**
   * The kept names are, in their original order, exactly the listed names
   * the table has; with every name present nothing is dropped.
   */
  lemma {:induction false} PresentColumnsKeeps(f: Frame, names: seq<string>)
    requires Valid(f)
    ensures |PresentColumns(f, names)| <= |names|
    ensures Subsequence(PresentColumns(f, names), names)
    ensures forall c | c in PresentColumns(f, names) :: c in names && c in f.values
    ensures forall c | c in names && c in f.values :: c in PresentColumns(f, names)
    ensures (forall c | c in names :: c in f.values) ==> PresentColumns(f, names) == names
    decreases |names|
  {
    if names != [] {
      PresentColumnsKeeps(f, names[1..]);
      var rest := PresentColumns(f, names[1..]);
      if names[0] in f.keys {
        assert ([names[0]] + rest)[1..] == rest;
      } else {
        assert [] + rest == rest;
      }
      assert forall c | c in names :: c == names[0] || c in names[1..];
    }
  }

  /** Selection is a filter: it distributes over concatenation of the name list. */
  lemma {:induction false} PresentColumnsAppend(f: Frame, a: seq<string>, b: seq<string>)
    ensures PresentColumns(f, a + b) == PresentColumns(f, a) + PresentColumns(f, b)
    decreases |a|
  {
    if a == [] {
      assert a + b == b;
    } else {
      assert (a + b)[0] == a[0];
      assert (a + b)[1..] == a[1..] + b;
      PresentColumnsAppend(f, a[1..], b);
    }
  }

  /** A single name is kept exactly when the table has that column. */
  lemma PresentColumnsSingle(f: Frame, c: string)
    requires Valid(f)
    ensures PresentColumns(f, [c]) == if c in f.values then [c] else []
  {
  }

  /** `frame[cols]` for columns that all exist: those cells, in the order of `cols`. */
  function Project(f: Frame, cols: seq<string>): (row: seq<Cell>)
    requires forall c | c in cols :: c in f.values
  {
    seq(|cols|, i requires 0 <= i < |cols| => Cell(cols[i], f.values[cols[i]]))
  }

  /** The names of the cells of a row, in order. */
  function Names(row: seq<Cell>): (names: seq<string>)
    ensures |names| == |row| && forall i | 0 <= i < |row| :: names[i] == row[i].name
  {
    seq(|row|, i requires 0 <= i < |row| => row[i].name)
  }

  /**
   * `frame[[col for col in names if col in frame.columns]]`: the columns of
   * `names` that the table has, in the order of `names`, with their values;
   * names the table lacks are skipped without error.
   */
  function SelectColumns(f: Frame, names: seq<string>): (row: seq<Cell>)
    requires Valid(f)
    ensures Names(row) == PresentColumns(f, names)
    ensures |row| <= |names|
    ensures Subsequence(Names(row), names)
    ensures forall i | 0 <= i < |row| :: row[i].name in f.values && row[i].value == f.values[row[i].name]
    ensures forall c | c in names && c in f.values :: c in Names(row)
    ensures forall c | c in Names(row) :: c in names
    ensures (forall c | c in names :: c in f.values) ==> Names(row) == names
  {
    PresentColumnsKeeps(f, names);
    var cols := PresentColumns(f, names);
    var row := Project(f, cols);
    assert Names(row) == cols;
    row
  }

  /** Selecting a table's own columns gives the whole row, in column order. */
  lemma SelectAllColumns(f: Frame)
    requires Valid(f)
    ensures Names(SelectColumns(f, f.keys)) == f.keys
  {
  }

  /**
   * A table whose columns and values are those of `entries`, in order,
   * gives back exactly `entries` when all its columns are selected.
   */
  lemma SelectAllCells(f: Frame, entries: seq<Cell>)
    requires Valid(f) && f.keys == Names(entries)
    requires forall i | 0 <= i < |entries| :: f.values[entries[i].name] == entries[i].value
    ensures SelectColumns(f, f.keys) == entries
  {
    SelectAllColumns(f);
    var row := SelectColumns(f, f.keys);
    forall i | 0 <= i < |row|
      ensures row[i] == entries[i]
    {
      assert row[i].name == Names(row)[i] == Names(entries)[i];
    }
  }
}
