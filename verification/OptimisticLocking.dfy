/** Compare-and-set on row versions, and what it buys clients that read, compute and write. */
module OptimisticLocking {
  import opened Sums
  import opened Tables

  type Id = nat
  type Client = nat

  datatype Row<V> = Row(columns: map<string, V>, version: int)

  datatype UpdateResult<V> = Updated(row: Row<V>) | ConcurrencyError

  /** The row after writing `values` over it at version `expected`. */
  function Written<V>(row: Row<V>, values: map<string, V>, expected: int): Row<V> {
    Row(row.columns + values, expected + 1)
  }

  predicate Matches<V>(rows: map<Id, Row<V>>, id: Id, expected: int) {
    id in rows && rows[id].version == expected
  }

  class VersionedRepository<V> {
    var rows: map<Id, Row<V>>

    constructor (rows: map<Id, Row<V>>)
      ensures this.rows == rows
    {
      this.rows := rows;
    }

    /** One statement: update where id and version match. */
    method UpdateWithVersion(id: Id, expected: int, values: map<string, V>) returns (result: UpdateResult<V>)
      modifies this
      ensures result.Updated? <==> id in old(rows) && old(rows)[id].version == expected
      ensures result.ConcurrencyError? ==> rows == old(rows)
      ensures result.Updated? ==>
                && rows == old(rows)[id := Written(old(rows)[id], values, expected)]
                && result.row == rows[id] && rows[id].version == old(rows)[id].version + 1
                && (forall c :: c in values ==> c in rows[id].columns && rows[id].columns[c] == values[c])
                && (forall c :: c in old(rows)[id].columns && c !in values ==>
                      c in rows[id].columns && rows[id].columns[c] == old(rows)[id].columns[c])
    {
      if id in rows && rows[id].version == expected {
        rows := rows[id := Written(rows[id], values, expected)];
        result := Updated(rows[id]);
      } else {
        result := ConcurrencyError;
      }
    }
  }

  // ----- clients that read a row, compute from what they read, and write with the version they read

  /** `change` computes the values to write from the columns as the client read them. */
  datatype Action<!V> =
    | Read(client: Client, id: Id)
    | Update(client: Client, id: Id, change: map<string, V> -> map<string, V>)

  /** A successful update, in the order in which the database took them. */
  datatype Commit<!V> = Commit(client: Client, id: Id, change: map<string, V> -> map<string, V>, expected: int)

  datatype World<!V> = World(rows: map<Id, Row<V>>, views: map<(Client, Id), Row<V>>, commits: seq<Commit<V>>)

  function Step<V>(w: World<V>, a: Action<V>): World<V> {
    match a
    case Read(c, id) => if id in w.rows then w.(views := w.views[(c, id) := w.rows[id]]) else w
    case Update(c, id, change) =>
      if (c, id) !in w.views || !Matches(w.rows, id, w.views[(c, id)].version) then w
      else
        var view := w.views[(c, id)];
        var row := Written(w.rows[id], change(view.columns), view.version);
        World(w.rows[id := row], w.views[(c, id) := row], w.commits + [Commit(c, id, change, view.version)])
  }

  function Run<V>(rows: map<Id, Row<V>>, actions: seq<Action<V>>): World<V> {
    if actions == [] then World(rows, map[], [])
    else Step(Run(rows, actions[..|actions| - 1]), actions[|actions| - 1])
  }

  /** The commits applied one after another, each computed from its predecessor's result. */
  function Serial<V>(rows: map<Id, Row<V>>, commits: seq<Commit<V>>): map<Id, Row<V>> {
    if commits == [] then rows
    else
      var before, last := Serial(rows, commits[..|commits| - 1]), commits[|commits| - 1];
      if last.id !in before then before
      else
        var row := before[last.id];
        before[last.id := Written(row, last.change(row.columns), row.version)]
  }

  function CommitsOn<V>(commits: seq<Commit<V>>, id: Id): nat {
    if commits == [] then 0
    else CommitsOn(commits[..|commits| - 1], id) + if commits[|commits| - 1].id == id then 1 else 0
  }

  /** A view is never ahead of its row, and at the row's own version it is the row. */
  ghost predicate ViewsTrail<V>(w: World<V>) {
    forall c, id :: (c, id) in w.views ==>
      && id in w.rows && w.views[(c, id)].version <= w.rows[id].version
      && (w.views[(c, id)].version == w.rows[id].version ==> w.views[(c, id)] == w.rows[id])
  }

  /** Each commit was made at the version its row had reached through the earlier commits on it. */
  ghost predicate Contiguous<V>(rows: map<Id, Row<V>>, commits: seq<Commit<V>>) {
    forall i :: 0 <= i < |commits| ==>
      commits[i].id in rows &&
        commits[i].expected == rows[commits[i].id].version + CommitsOn(commits[..i], commits[i].id)
  }

  ghost predicate VersionsCount<V>(rows: map<Id, Row<V>>, w: World<V>) {
    && w.rows.Keys == rows.Keys
    && forall id :: id in rows ==> w.rows[id].version == rows[id].version + CommitsOn(w.commits, id)
  }

  lemma StepKeepsViews<V>(w: World<V>, a: Action<V>)
    requires ViewsTrail(w)
    ensures ViewsTrail(Step(w, a))
  {
  }

  lemma StepSerial<V>(rows: map<Id, Row<V>>, w: World<V>, a: Action<V>)
    requires ViewsTrail(w) && w.rows == Serial(rows, w.commits)
    ensures Step(w, a).rows == Serial(rows, Step(w, a).commits)
  {
    var next := Step(w, a);
    if next.commits != w.commits {
      assert next.commits[..|w.commits|] == w.commits;
    }
  }

  lemma ContiguousSnoc<V>(rows: map<Id, Row<V>>, commits: seq<Commit<V>>, c: Commit<V>)
    requires Contiguous(rows, commits) && c.id in rows && c.expected == rows[c.id].version + CommitsOn(commits, c.id)
    ensures Contiguous(rows, commits + [c])
    ensures forall id :: CommitsOn(commits + [c], id) == CommitsOn(commits, id) + if c.id == id then 1 else 0
  {
    var longer := commits + [c];
    assert longer[..|commits|] == commits;
    forall i | 0 <= i < |longer|
      ensures longer[i].id in rows
      ensures longer[i].expected == rows[longer[i].id].version + CommitsOn(longer[..i], longer[i].id)
    {
      if i < |commits| {
        assert longer[..i] == commits[..i] && longer[i] == commits[i];
      }
    }
  }

  lemma StepCounts<V>(rows: map<Id, Row<V>>, w: World<V>, a: Action<V>)
    requires VersionsCount(rows, w) && Contiguous(rows, w.commits)
    ensures VersionsCount(rows, Step(w, a)) && Contiguous(rows, Step(w, a).commits)
  {
    hide Contiguous, CommitsOn;
    var next := Step(w, a);
    if next.commits != w.commits {
      ContiguousSnoc(rows, w.commits, next.commits[|w.commits|]);
    }
  }

  /** No lost update: every interleaving ends in the state its successful updates reach one after another. */
  lemma {:induction false} NoLostUpdate<V>(rows: map<Id, Row<V>>, actions: seq<Action<V>>)
    ensures ViewsTrail(Run(rows, actions))
    ensures Run(rows, actions).rows == Serial(rows, Run(rows, actions).commits)
    decreases |actions|
  {
    if actions != [] {
      var n := |actions| - 1;
      NoLostUpdate(rows, actions[..n]);
      StepKeepsViews(Run(rows, actions[..n]), actions[n]);
      StepSerial(rows, Run(rows, actions[..n]), actions[n]);
    }
  }

  /** A row's version has grown by exactly the number of successful updates to it. */
  lemma {:induction false} VersionsContiguous<V>(rows: map<Id, Row<V>>, actions: seq<Action<V>>)
    ensures VersionsCount(rows, Run(rows, actions)) && Contiguous(rows, Run(rows, actions).commits)
    decreases |actions|
  {
    if actions != [] {
      var n := |actions| - 1;
      VersionsContiguous(rows, actions[..n]);
      StepCounts(rows, Run(rows, actions[..n]), actions[n]);
    }
  }

  lemma {:induction false} CommitsGrow<V>(commits: seq<Commit<V>>, i: nat, j: nat, id: Id)
    requires i < j <= |commits| && commits[i].id == id
    ensures CommitsOn(commits[..i], id) < CommitsOn(commits[..j], id)
    decreases j
  {
    assert commits[..j][..j - 1] == commits[..j - 1];
    if i < j - 1 {
      CommitsGrow(commits, i, j - 1, id);
    }
  }

  /** At most one update succeeds per version of a row. */
  lemma OneWinnerPerVersion<V>(rows: map<Id, Row<V>>, actions: seq<Action<V>>, i: nat, j: nat)
    requires i < j < |Run(rows, actions).commits|
    requires Run(rows, actions).commits[i].id == Run(rows, actions).commits[j].id
    ensures Run(rows, actions).commits[i].expected < Run(rows, actions).commits[j].expected
  {
    VersionsContiguous(rows, actions);
    CommitsGrow(Run(rows, actions).commits, i, j, Run(rows, actions).commits[i].id);
  }

  // ----- writers that bump the version in place instead of comparing it

  /** What a client writes that computes from its view and increments the version it read, unchecked. */
  function Blind<V>(row: Row<V>, view: Row<V>, change: map<string, V> -> map<string, V>): Row<V> {
    Written(row, change(view.columns), view.version)
  }

  /** An unchecked write agrees with the serial update exactly when the view is still at the row's version. */
  lemma BlindWriteSafeIff<V>(w: World<V>, c: Client, id: Id, change: map<string, V> -> map<string, V>)
    requires ViewsTrail(w) && (c, id) in w.views
    ensures
      var row, view := w.rows[id], w.views[(c, id)];
      Blind(row, view, change) == Written(row, change(row.columns), row.version) <==> view.version == row.version
  {
  }

  /** A relative change of one counter, such as reserving units. */
  function AddTo(column: string, delta: int): map<string, int> -> map<string, int> {
    (m: map<string, int>) => if column in m then map[column := m[column] + delta] else map[]
  }

  /** An unchecked relative write takes back exactly what the counter has gained since the reading, and touches no other
      column. */
  lemma BlindWriteTakesBack(row: Row<int>, view: Row<int>, column: string, delta: int)
    requires column in row.columns && column in view.columns
    ensures
      var blind := Blind(row, view, AddTo(column, delta)).columns;
      var serial := Written(row, AddTo(column, delta)(row.columns), row.version).columns;
      && blind.Keys == serial.Keys == row.columns.Keys
      && blind[column] == serial[column] - (row.columns[column] - view.columns[column])
      && (blind == serial <==> view.columns[column] == row.columns[column])
      && forall other :: other in row.columns && other != column ==> blind[other] == serial[other] == row.columns[other]
  {
    assert AddTo(column, delta)(view.columns) == map[column := view.columns[column] + delta];
    assert AddTo(column, delta)(row.columns) == map[column := row.columns[column] + delta];
  }

  function Itself(): int -> int { (delta: int) => delta }

  /** Writers that all read the same row before any of them wrote. */
  function BlindAll(read: Row<int>, column: string, deltas: seq<int>): Row<int> {
    if deltas == [] then read
    else Blind(BlindAll(read, column, deltas[..|deltas| - 1]), read, AddTo(column, deltas[|deltas| - 1]))
  }

  /** The same writers one after another. */
  function SerialAll(read: Row<int>, column: string, deltas: seq<int>): Row<int> {
    if deltas == [] then read
    else
      var row := SerialAll(read, column, deltas[..|deltas| - 1]);
      Written(row, AddTo(column, deltas[|deltas| - 1])(row.columns), row.version)
  }

  /** Of any number of unchecked writers from one reading only the last one's change remains, and the version grows
      once; one after another they add up. */
  lemma {:induction false} BlindWritersKeepOnlyTheLast(read: Row<int>, column: string, deltas: seq<int>)
    requires column in read.columns && deltas != []
    ensures
      var blind, serial := BlindAll(read, column, deltas), SerialAll(read, column, deltas);
      && column in blind.columns && column in serial.columns
      && blind.columns[column] == read.columns[column] + deltas[|deltas| - 1] && blind.version == read.version + 1
      && serial.columns[column] == read.columns[column] + SumOver(deltas, Itself())
      && serial.version == read.version + |deltas|
    decreases |deltas|
  {
    var n := |deltas| - 1;
    if n == 0 {
      assert deltas[..0] == [];
    } else {
      BlindWritersKeepOnlyTheLast(read, column, deltas[..n]);
    }
  }
}
