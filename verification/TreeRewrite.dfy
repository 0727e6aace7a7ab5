/**
The rewrite of the replicated tree in the names of this version: rounds of listing, reading and compare-and-set, beside
writers that change the tree at any moment, and beside other nodes that believe they lead and run rounds of their own.
*/
module TreeRewrite {
  import opened NameUpgrade

  type Path = string
  type Node = int

  /** What a file of the tree holds: a row, or something that is not one. */
  datatype Data = Row(fields: Fields) | Garbled

  datatype Entry = Entry(data: Data, version: nat)

  /** A node's round: the tables not yet listed, the files listed and not yet read, those read and not yet treated, and
  how many were rewritten. */
  datatype Scan = Scan(tables: set<string>, listed: set<Path>, got: map<Path, Entry>, count: nat)

  datatype State = State(tree: map<Path, Entry>, next: nat, done: bool, scans: map<Node, Scan>)

  /** The names, the mirrored tables, and the table a file belongs to. */
  datatype Setting = Setting(schema: Schema, tables: set<string>, tableOf: Path -> string)

  datatype Step =
    | Begin(n: Node)
    | List(n: Node, table: string)
    | Get(n: Node, path: Path)
    | Treat(n: Node, path: Path, out: Fields)
    | Finish(n: Node)
    | Stop(n: Node)  // an error, or the node goes down
    | Write(path: Path, data: Data)  // another writer
    | Remove(path: Path)

  ghost predicate OldAt(c: Setting, path: Path, data: Data)
  {
    data.Row? && IsOld(c.schema, c.tableOf(path), data.fields)
  }

  /** The rewrite takes the file for one to rewrite. */
  ghost predicate Seen(c: Setting, path: Path, data: Data)
  {
    data.Row? && Detected(c.schema, c.tableOf(path), data.fields)
  }

  ghost predicate Enabled(c: Setting, st: State, step: Step)
  {
    match step
    case Begin(n) => !st.done && n !in st.scans
    case List(n, t) => n in st.scans && t in st.scans[n].tables
    case Get(n, p) => n in st.scans && p in st.scans[n].listed
    case Treat(n, p, out) =>
      && n in st.scans && p in st.scans[n].got
      && (st.scans[n].got[p].data.Row? ==> Upgraded(c.schema, c.tableOf(p), st.scans[n].got[p].data.fields, out))
    case Finish(n) => n in st.scans && st.scans[n].tables == {} && st.scans[n].listed == {} && st.scans[n].got == map[]
    case Stop(n) => n in st.scans
    case Write(p, data) => !OldAt(c, p, data)
    case Remove(p) => true
  }

  /** Compare and set: nothing changes unless the file is still at the version read. */
  function Put(st: State, p: Path, data: Data, version: nat): State
  {
    if p in st.tree && st.tree[p].version == version
    then st.(tree := st.tree[p := Entry(data, st.next)], next := st.next + 1)
    else st
  }

  ghost function Apply(c: Setting, st: State, step: Step): State
    requires Enabled(c, st, step)
  {
    match step
    case Begin(n) => st.(scans := st.scans[n := Scan(c.tables, {}, map[], 0)])
    case List(n, t) =>
      var scan := st.scans[n];
      var files := set p | p in st.tree && c.tableOf(p) == t;
      st.(scans := st.scans[n := scan.(tables := scan.tables - {t}, listed := scan.listed + files)])
    case Get(n, p) =>
      var scan := st.scans[n].(listed := st.scans[n].listed - {p});
      st.(scans := st.scans[n := if p in st.tree then scan.(got := scan.got[p := st.tree[p]]) else scan])
    case Treat(n, p, out) =>
      var scan := st.scans[n].(got := st.scans[n].got - {p});
      var read := st.scans[n].got[p];
      if !Seen(c, p, read.data) then st.(scans := st.scans[n := scan])
      else
        var after := Put(st, p, Row(out), read.version);
        after.(scans := st.scans[n := scan.(count := scan.count + after.next - st.next)])
    case Finish(n) => st.(done := st.done || st.scans[n].count == 0, scans := st.scans - {n})
    case Stop(n) => st.(scans := st.scans - {n})
    case Write(p, data) => st.(tree := st.tree[p := Entry(data, st.next)], next := st.next + 1)
    case Remove(p) => st.(tree := st.tree - {p})
  }

  ghost predicate Runs(c: Setting, st: State, steps: seq<Step>, end: State)
    decreases |steps|
  {
    if steps == [] then st == end
    else Enabled(c, st, steps[0]) && Runs(c, Apply(c, st, steps[0]), steps[1..], end)
  }

  // ---- The invariant ----

  /** A file to rewrite is still ahead of a round that has rewritten nothing. */
  ghost predicate Ahead(c: Setting, st: State, scan: Scan, p: Path)
  {
    scan.count == 0 && p in st.tree && c.tableOf(p) in c.tables && Seen(c, p, st.tree[p].data) ==>
      || c.tableOf(p) in scan.tables || p in scan.listed
      || (p in scan.got && scan.got[p] == st.tree[p])
  }

  /** Versions tell writes apart. */
  ghost predicate Versioned(st: State, scan: Scan, p: Path)
  {
    p in scan.got ==>
      && scan.got[p].version < st.next
      && (p in st.tree && st.tree[p].version == scan.got[p].version ==> st.tree[p] == scan.got[p])
  }

  ghost predicate ScanHolds(c: Setting, st: State, n: Node, p: Path)
  {
    n in st.scans ==> Ahead(c, st, st.scans[n], p) && Versioned(st, st.scans[n], p)
  }

  ghost predicate FileHolds(c: Setting, st: State, p: Path)
  {
    p in st.tree ==>
      && st.tree[p].version < st.next
      && (st.done && c.tableOf(p) in c.tables ==> !Seen(c, p, st.tree[p].data))
  }

  ghost predicate Invariant(c: Setting, st: State)
  {
    (forall n, p :: ScanHolds(c, st, n, p)) && (forall p :: FileHolds(c, st, p))
  }

  lemma TreatKeepsAhead(c: Setting, st: State, step: Step, n: Node, p: Path)
    requires Clean(c.schema) && Invariant(c, st) && Enabled(c, st, step) && step.Treat? && n in st.scans
    ensures var after := Apply(c, st, step); Ahead(c, after, after.scans[n], p)
  {
    assert ScanHolds(c, st, n, p) && FileHolds(c, st, p) && ScanHolds(c, st, step.n, step.path);
    if st.scans[step.n].got[step.path].data.Row? {
      UpgradedIsNew(c.schema, c.tableOf(step.path), st.scans[step.n].got[step.path].data.fields, step.out);
    }
  }

  lemma TreatKeepsVersions(c: Setting, st: State, step: Step, n: Node, p: Path)
    requires Invariant(c, st) && Enabled(c, st, step) && step.Treat? && n in st.scans
    ensures var after := Apply(c, st, step); Versioned(after, after.scans[n], p)
  {
    assert ScanHolds(c, st, n, p) && FileHolds(c, st, p);
  }

  lemma StepKeepsScan(c: Setting, st: State, step: Step, n: Node, p: Path)
    requires Clean(c.schema) && Invariant(c, st) && Enabled(c, st, step)
    ensures ScanHolds(c, Apply(c, st, step), n, p)
  {
    if step.Treat? {
      if n in st.scans {
        TreatKeepsAhead(c, st, step, n, p);
        TreatKeepsVersions(c, st, step, n, p);
      }
    } else {
      assert ScanHolds(c, st, n, p) && FileHolds(c, st, p);
    }
  }

  lemma StepKeepsFile(c: Setting, st: State, step: Step, p: Path)
    requires Clean(c.schema) && Invariant(c, st) && Enabled(c, st, step)
    ensures FileHolds(c, Apply(c, st, step), p)
  {
    assert FileHolds(c, st, p);
    if step.Treat? && st.scans[step.n].got[step.path].data.Row? {
      var read := st.scans[step.n].got[step.path];
      UpgradedIsNew(c.schema, c.tableOf(step.path), read.data.fields, step.out);
    } else if step.Finish? {
      assert ScanHolds(c, st, step.n, p);
    }
  }

  lemma {:induction false} RunKeepsInvariant(c: Setting, st: State, steps: seq<Step>, end: State)
    requires Clean(c.schema) && Invariant(c, st) && Runs(c, st, steps, end)
    ensures Invariant(c, end)
    decreases |steps|
  {
    if steps != [] {
      var next := Apply(c, st, steps[0]);
      forall n, p
        ensures ScanHolds(c, next, n, p)
      {
        StepKeepsScan(c, st, steps[0], n, p);
      }
      forall p
        ensures FileHolds(c, next, p)
      {
        StepKeepsFile(c, st, steps[0], p);
      }
      RunKeepsInvariant(c, next, steps[1..], end);
    }
  }

  /** A node makes one round at a time, and once done is recorded it stays so and no round begins. */
  lemma NoRoundOnceDone(c: Setting, st: State, step: Step)
    requires Enabled(c, st, step)
    ensures step.Begin? ==> !st.done && step.n !in st.scans
    ensures st.done ==> Apply(c, st, step).done
  {
  }

  /** A tree nobody has begun to rewrite. */
  ghost predicate Start(st: State)
  {
    !st.done && st.scans == map[] && forall p | p in st.tree :: st.tree[p].version < st.next
  }

  /**
  Once the rewrite is recorded as done, and from then on, no row of a mirrored table with renamed columns is in old
  names, in whatever order listings, reads, compare-and-sets and other writers' changes came.
  */
  lemma DoneMeansRewritten(c: Setting, st: State, steps: seq<Step>, end: State, p: Path)
    requires Clean(c.schema) && Start(st) && Runs(c, st, steps, end)
    requires end.done && p in end.tree && c.tableOf(p) in c.tables && RenamesColumns(c.schema, c.tableOf(p))
    ensures !OldAt(c, p, end.tree[p].data)
  {
    RunKeepsInvariant(c, st, steps, end);
    assert FileHolds(c, end, p);
  }

  /** A round's change replaces exactly what the round read, by the same row in the new names: no other node's change is
  overwritten. */
  lemma OnlyWhatWasRead(c: Setting, st: State, n: Node, path: Path, out: Fields, p: Path)
    requires Invariant(c, st) && Enabled(c, st, Treat(n, path, out)) && p in st.tree
    ensures var after := Apply(c, st, Treat(n, path, out));
      && p in after.tree
      && (after.tree[p] != st.tree[p] ==>
           && p == path && st.tree[p] == st.scans[n].got[p] && st.tree[p].data.Row?
           && after.tree[p].data == Row(out) && Upgraded(c.schema, c.tableOf(p), st.tree[p].data.fields, out))
  {
    assert ScanHolds(c, st, n, path);
  }

  // ---- Tables without renamed columns ----

  /** Another writer writes or removes the file. */
  predicate Changes(step: Step, p: Path)
  {
    (step.Write? || step.Remove?) && step.path == p
  }

  ghost predicate Changed(steps: seq<Step>, p: Path)
  {
    exists i | 0 <= i < |steps| :: Changes(steps[i], p)
  }

  ghost predicate OldRow(c: Setting, st: State, p: Path)
  {
    p in st.tree && c.tableOf(p) in c.tables && OldAt(c, p, st.tree[p].data)
  }

  ghost predicate OldBlindRow(c: Setting, st: State, p: Path)
  {
    OldRow(c, st, p) && !RenamesColumns(c.schema, c.tableOf(p))
  }

  /** A round leaves the files of these tables as they are, and another writer leaves no old row. */
  lemma BlindFileAfter(c: Setting, st: State, step: Step, p: Path)
    requires Enabled(c, st, step) && !RenamesColumns(c.schema, c.tableOf(p))
    ensures OldRow(c, Apply(c, st, step), p) <==> OldRow(c, st, p) && !Changes(step, p)
  {
  }

  lemma ChangedFirstOrLater(steps: seq<Step>, p: Path)
    requires steps != []
    ensures Changed(steps, p) <==> Changes(steps[0], p) || Changed(steps[1..], p)
  {
    if i :| 0 <= i < |steps| && Changes(steps[i], p) {
      assert i > 0 ==> Changes(steps[1..][i - 1], p);
    }
    if i :| 0 <= i < |steps[1..]| && Changes(steps[1..][i], p) {
      assert Changes(steps[i + 1], p);
    }
  }

  lemma {:induction false} BlindFileThrough(c: Setting, st: State, steps: seq<Step>, end: State, p: Path)
    requires Runs(c, st, steps, end) && !RenamesColumns(c.schema, c.tableOf(p))
    ensures OldRow(c, end, p) <==> OldRow(c, st, p) && !Changed(steps, p)
    decreases |steps|
  {
    if steps != [] {
      BlindFileAfter(c, st, steps[0], p);
      BlindFileThrough(c, Apply(c, st, steps[0]), steps[1..], end, p);
      ChangedFirstOrLater(steps, p);
    }
  }

  /** Once the rewrite is recorded as done, the rows in old names are those that were there before it, in a table
  without renamed columns, and that no other writer has changed since. */
  lemma OldRowsOnceDone(c: Setting, st: State, steps: seq<Step>, end: State, p: Path)
    requires Clean(c.schema) && Start(st) && Runs(c, st, steps, end) && end.done
    ensures OldRow(c, end, p) <==> OldBlindRow(c, st, p) && !Changed(steps, p)
  {
    if RenamesColumns(c.schema, c.tableOf(p)) {
      if OldRow(c, end, p) {
        DoneMeansRewritten(c, st, steps, end, p);
      }
    } else {
      BlindFileThrough(c, st, steps, end, p);
    }
  }

  /** So there is none if and only if other writers have changed every old row of the tables without renamed columns. */
  lemma DoneLeavesNoOldRowIff(c: Setting, st: State, steps: seq<Step>, end: State)
    requires Clean(c.schema) && Start(st) && Runs(c, st, steps, end) && end.done
    ensures (forall p :: !OldRow(c, end, p)) <==> (forall p | OldBlindRow(c, st, p) :: Changed(steps, p))
  {
    forall p
      ensures OldRow(c, end, p) <==> OldBlindRow(c, st, p) && !Changed(steps, p)
    {
      OldRowsOnceDone(c, st, steps, end, p);
    }
  }

  /** With no other writer, none is left if and only if, before it, no table without renamed columns held one. */
  lemma AloneLeavesNoOldRowIff(c: Setting, st: State, steps: seq<Step>, end: State)
    requires Clean(c.schema) && Start(st) && Runs(c, st, steps, end) && end.done
    requires forall i | 0 <= i < |steps| :: !steps[i].Write? && !steps[i].Remove?
    ensures (forall p :: !OldRow(c, end, p)) <==> (forall p :: !OldBlindRow(c, st, p))
  {
    DoneLeavesNoOldRowIff(c, st, steps, end);
    forall p
      ensures !Changed(steps, p)
    {
    }
  }

  const ROLES := Schema(map[], map[("users", "role") := map["observateur" := "viewer"]])
  const USERS := Setting(ROLES, {"users"}, _ => "users")
  const USER: Path := "/users/1"
  const OLD_ROLE: Fields := map["role" := "observateur"]
  const ONE_USER := State(map[USER := Entry(Row(OLD_ROLE), 0)], 1, false, map[])

  function During(scan: Scan): State
  {
    ONE_USER.(scans := map[0 := scan])
  }

  lemma ListAndGet()
    ensures Enabled(USERS, During(Scan({"users"}, {}, map[], 0)), List(0, "users"))
    ensures Apply(USERS, During(Scan({"users"}, {}, map[], 0)), List(0, "users")) == During(Scan({}, {USER}, map[], 0))
    ensures Enabled(USERS, During(Scan({}, {USER}, map[], 0)), Get(0, USER))
    ensures Apply(USERS, During(Scan({}, {USER}, map[], 0)), Get(0, USER))
         == During(Scan({}, {}, map[USER := ONE_USER.tree[USER]], 0))
  {
    var files := set p | p in ONE_USER.tree && USERS.tableOf(p) == "users";
    assert files == {USER};
    assert {"users"} - {"users"} == {} && {} + files == {USER} && {USER} - {USER} == {};
  }

  lemma TreatAndFinish(out: Fields)
    requires Upgraded(ROLES, "users", OLD_ROLE, out)
    ensures var got := During(Scan({}, {}, map[USER := ONE_USER.tree[USER]], 0));
      && Enabled(USERS, got, Treat(0, USER, out))
      && Apply(USERS, got, Treat(0, USER, out)) == During(Scan({}, {}, map[], 0))
    ensures Enabled(USERS, During(Scan({}, {}, map[], 0)), Finish(0))
    ensures Apply(USERS, During(Scan({}, {}, map[], 0)), Finish(0)) == ONE_USER.(done := true)
  {
    assert map[USER := ONE_USER.tree[USER]] - {USER} == map[];
    assert During(Scan({}, {}, map[], 0)).scans - {0} == map[];
  }

  lemma OneRound(out: Fields, steps: seq<Step>)
    requires Upgraded(ROLES, "users", OLD_ROLE, out)
    requires steps == [Begin(0), List(0, "users"), Get(0, USER), Treat(0, USER, out), Finish(0)]
    ensures Runs(USERS, ONE_USER, steps, ONE_USER.(done := true))
  {
    ListAndGet();
    TreatAndFinish(out);
    RunOfFive(USERS, ONE_USER, During(Scan({"users"}, {}, map[], 0)), During(Scan({}, {USER}, map[], 0)),
              During(Scan({}, {}, map[USER := ONE_USER.tree[USER]], 0)), During(Scan({}, {}, map[], 0)),
              ONE_USER.(done := true), steps);
  }

  /** A user's role in its old word, in a table with no renamed column: the round sees nothing to do, and is recorded as
  done. */
  lemma OldRoleStays(steps: seq<Step>)
    requires steps == [Begin(0), List(0, "users"), Get(0, USER), Treat(0, USER, Worded(ROLES, "users", OLD_ROLE, {})),
                       Finish(0)]
    ensures Runs(USERS, ONE_USER, steps, ONE_USER.(done := true)) && OldRow(USERS, ONE_USER.(done := true), USER)
  {
    OnlyWorded(ROLES, "users", OLD_ROLE);
    OneRound(Worded(ROLES, "users", OLD_ROLE, {}), steps);
    assert "role" in OLD_ROLE && Word(ROLES, "users", "role", OLD_ROLE["role"]) != OLD_ROLE["role"];
  }

  lemma RunOfFive(
    c: Setting, st: State, s1: State, s2: State, s3: State, s4: State, end: State, steps: seq<Step>)
    requires |steps| == 5
    requires Enabled(c, st, steps[0]) && Apply(c, st, steps[0]) == s1
    requires Enabled(c, s1, steps[1]) && Apply(c, s1, steps[1]) == s2
    requires Enabled(c, s2, steps[2]) && Apply(c, s2, steps[2]) == s3
    requires Enabled(c, s3, steps[3]) && Apply(c, s3, steps[3]) == s4
    requires Enabled(c, s4, steps[4]) && Apply(c, s4, steps[4]) == end
    ensures Runs(c, st, steps, end)
  {
    assert Runs(c, end, steps[1..][1..][1..][1..][1..], end);
    assert Runs(c, s4, steps[1..][1..][1..][1..], end);
    assert Runs(c, s3, steps[1..][1..][1..], end);
    assert Runs(c, s2, steps[1..][1..], end);
    assert Runs(c, s1, steps[1..], end);
  }
}
