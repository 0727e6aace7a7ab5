/**
Reading a row with the names of this version: its columns renamed, then the words stored in them. A table without
renamed columns has its row changed in place, so that comparing what comes out with the row tells nothing.
*/
module NameUpgrade {

  type Fields = map<string, string>

  /** Per table, the new name of each old column; per table and column, the new word for each old one. */
  datatype Schema = Schema(
    columns: map<string, map<string, string>>, values: map<(string, string), map<string, string>>)

  function Renames(s: Schema, table: string): map<string, string>
  {
    if table in s.columns then s.columns[table] else map[]
  }

  predicate RenamesColumns(s: Schema, table: string)
  {
    Renames(s, table) != map[]
  }

  function NewName(renames: map<string, string>, name: string): string
  {
    if name in renames then renames[name] else name
  }

  function Word(s: Schema, table: string, column: string, word: string): string
  {
    if (table, column) in s.values && word in s.values[(table, column)] then s.values[(table, column)][word] else word
  }

  /** The row holds an old column name, or an old word where a word was renamed. */
  predicate IsOld(s: Schema, table: string, row: Fields)
  {
    exists k | k in row :: k in Renames(s, table) || Word(s, table, k, row[k]) != row[k]
  }

  /** `k` holds what some column of the row of that name, old or new, held. */
  ghost predicate ComesFrom(s: Schema, table: string, row: Fields, k: string, value: string)
  {
    exists o | o in row :: NewName(Renames(s, table), o) == k && value == Word(s, table, k, row[o])
  }

  /** `out` is the row in the new names and words. When an old and a new name meet, either one's value. */
  ghost predicate Upgraded(s: Schema, table: string, row: Fields, out: Fields)
  {
    && (forall o | o in row :: NewName(Renames(s, table), o) in out)
    && (forall k | k in out :: ComesFrom(s, table, row, k, out[k]))
  }

  /** No new name is an old one too. */
  ghost predicate Clean(s: Schema)
  {
    && (forall t, k | t in s.columns && k in s.columns[t] :: s.columns[t][k] !in s.columns[t])
    && (forall c, w | c in s.values && w in s.values[c] :: s.values[c][w] !in s.values[c])
  }

  /** What comes out is not old, and is the row itself exactly when the row was not. */
  lemma UpgradedIsNew(s: Schema, table: string, row: Fields, out: Fields)
    requires Clean(s) && Upgraded(s, table, row, out)
    ensures !IsOld(s, table, out) && (out == row <==> !IsOld(s, table, row))
  {
    forall k | k in out
      ensures k !in Renames(s, table) && Word(s, table, k, out[k]) == out[k]
    {
      assert ComesFrom(s, table, row, k, out[k]);
    }
    if !IsOld(s, table, row) {
      forall k
        ensures k in out <==> k in row
        ensures k in row ==> out[k] == row[k]
      {
        assert k in out ==> ComesFrom(s, table, row, k, out[k]);
        assert k in row ==> NewName(Renames(s, table), k) in out;
      }
    }
  }

  // ---- In place ----

  /** A dictionary, shared by whoever holds it. */
  class Dict {
    var items: Fields

    constructor (items: Fields)
      ensures this.items == items
    {
      this.items := items;
    }
  }

  /** The row's columns under their new names. */
  ghost predicate Renamed(renames: map<string, string>, row: Fields, done: set<string>, out: Fields)
  {
    && (forall o | o in row && o in done :: NewName(renames, o) in out)
    && (forall k | k in out :: exists o | o in row && o in done :: NewName(renames, o) == k && out[k] == row[o])
  }

  method RenameColumns(renames: map<string, string>, row: Fields) returns (out: Fields)
    ensures Renamed(renames, row, row.Keys, out)
  {
    out := map[];
    var todo := row.Keys;
    while todo != {}
      invariant todo <= row.Keys && Renamed(renames, row, row.Keys - todo, out)
    {
      var o :| o in todo;
      ghost var done := row.Keys - todo;
      RenameOne(renames, row, done, out, o);
      out := out[NewName(renames, o) := row[o]];
      todo := todo - {o};
      assert row.Keys - todo == done + {o};
    }
    assert row.Keys - {} == row.Keys;
  }

  lemma RenameOne(renames: map<string, string>, row: Fields, done: set<string>, out: Fields, o: string)
    requires Renamed(renames, row, done, out) && o in row
    ensures Renamed(renames, row, done + {o}, out[NewName(renames, o) := row[o]])
  {
    var more := out[NewName(renames, o) := row[o]];
    forall k | k in more
      ensures exists q | q in row && q in done + {o} :: NewName(renames, q) == k && more[k] == row[q]
    {
      if k == NewName(renames, o) {
        assert o in done + {o};
      } else {
        var q :| q in row && q in done && NewName(renames, q) == k && out[k] == row[q];
        assert q in done + {o};
      }
    }
  }

  function Worded(s: Schema, table: string, row: Fields, todo: set<(string, string)>): Fields
  {
    map k | k in row :: if (table, k) in todo then row[k] else Word(s, table, k, row[k])
  }

  method RenameWords(s: Schema, table: string, d: Dict)
    modifies d
    ensures d.items == Worded(s, table, old(d.items), {})
  {
    ghost var was := d.items;
    var todo := s.values.Keys;
    while todo != {}
      invariant todo <= s.values.Keys && d.items == Worded(s, table, was, todo)
    {
      var key :| key in todo;
      var (t, column) := key;
      if t == table && column in d.items && d.items[column] in s.values[key] {
        d.items := d.items[column := s.values[key][d.items[column]]];
      }
      todo := todo - {key};
    }
  }

  /** With renamed columns the row comes out as a new dictionary; without, as the one given, changed. */
  method ReadRow(s: Schema, table: string, data: Dict) returns (r: Dict)
    modifies data
    ensures Upgraded(s, table, old(data.items), r.items)
    ensures if RenamesColumns(s, table) then fresh(r) && data.items == old(data.items) else r == data
  {
    ghost var was := data.items;
    var renames := Renames(s, table);
    r := data;
    if renames != map[] {
      var out := RenameColumns(renames, data.items);
      r := new Dict(out);
    }
    ghost var named := r.items;
    RenameWords(s, table, r);
    if renames != map[] {
      RenamedThenWorded(s, table, was, named);
    } else {
      OnlyWorded(s, table, was);
    }
  }

  lemma RenamedThenWorded(s: Schema, table: string, was: Fields, named: Fields)
    requires Renamed(Renames(s, table), was, was.Keys, named)
    ensures Upgraded(s, table, was, Worded(s, table, named, {}))
  {
    var out, renames := Worded(s, table, named, {}), Renames(s, table);
    forall k | k in out
      ensures ComesFrom(s, table, was, k, out[k])
    {
      var o :| o in was && NewName(renames, o) == k && named[k] == was[o];
      assert out[k] == Word(s, table, k, was[o]);
    }
  }

  lemma OnlyWorded(s: Schema, table: string, was: Fields)
    requires !RenamesColumns(s, table)
    ensures Upgraded(s, table, was, Worded(s, table, was, {}))
  {
    var out := Worded(s, table, was, {});
    forall k | k in out
      ensures ComesFrom(s, table, was, k, out[k])
    {
      assert NewName(Renames(s, table), k) == k;
    }
  }

  /** What the rewrite asks of a row. It is told, as long as some column of the table was renamed, and never else. */
  ghost predicate Detected(s: Schema, table: string, row: Fields)
  {
    RenamesColumns(s, table) && IsOld(s, table, row)
  }

  method ComesOutDifferent(s: Schema, table: string, row: Dict) returns (different: bool, out: Fields)
    requires Clean(s)
    modifies row
    ensures different == Detected(s, table, old(row.items)) && Upgraded(s, table, old(row.items), out)
  {
    var r := ReadRow(s, table, row);
    UpgradedIsNew(s, table, old(row.items), r.items);
    out := r.items;
    different := r.items != row.items;
  }
}
