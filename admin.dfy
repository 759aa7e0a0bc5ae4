/** `readServerStatus` of the administration application (Admin/admin.js:60-102):
    the server status tree of instances, their partitions and their databases
    is flattened into one 13-column row per database, which becomes the data
    of the application window.

    The status arrives as parsed JSON, and every leaf value is kept as the
    string it is. */
module Admin {

  datatype Database = Database(id: string, state: string, schema: string, file: string, active: string,
                               blocks: string, bytes: string)

  datatype Partition = Partition(pid: string, pstate: string, database: seq<Database>)

  datatype Instance = Instance(iid: string, istate: string, ilocation: string, ischema: string,
                               partition: seq<Partition>)

  datatype Status = Status(instance: seq<Instance>)

  /** The arguments of the final `vs.window` call. */
  datatype WindowArgs = WindowArgs(definitions: string, stylesheet: string, data: seq<seq<string>>)

  const Columns: nat := 13

  // ----------------------------------------------------------------------------
  // The rows, level by level
  // ----------------------------------------------------------------------------

  /** The row of one database: its instance, its partition, then itself. */
  function RowOf(inst: Instance, part: Partition, db: Database): seq<string> {
    [inst.iid, inst.istate, inst.ilocation, inst.ischema, part.pid, part.pstate,
     db.id, db.state, db.schema, db.file, db.active, db.blocks, db.bytes]
  }

  /** The rows of the databases `dbs` of partition `part`, in order. */
  function DatabaseRows(inst: Instance, part: Partition, dbs: seq<Database>): (rows: seq<seq<string>>)
    ensures |rows| == |dbs|
    ensures forall d :: 0 <= d < |dbs| ==> rows[d] == RowOf(inst, part, dbs[d])
    decreases |dbs|
  {
    if |dbs| == 0 then [] else DatabaseRows(inst, part, dbs[..|dbs| - 1]) + [RowOf(inst, part, dbs[|dbs| - 1])]
  }

  /** The rows of the partitions `parts` of instance `inst`, partition by partition. */
  function PartitionRows(inst: Instance, parts: seq<Partition>): seq<seq<string>>
    decreases |parts|
  {
    if |parts| == 0 then []
    else
      var last := parts[|parts| - 1];
      PartitionRows(inst, parts[..|parts| - 1]) + DatabaseRows(inst, last, last.database)
  }

  /** The rows of the instances `insts`, instance by instance. */
  function InstanceRows(insts: seq<Instance>): seq<seq<string>>
    decreases |insts|
  {
    if |insts| == 0 then []
    else
      var last := insts[|insts| - 1];
      InstanceRows(insts[..|insts| - 1]) + PartitionRows(last, last.partition)
  }

  function Flatten(json: Status): seq<seq<string>> {
    InstanceRows(json.instance)
  }

  // ----------------------------------------------------------------------------
  // readServerStatus
  // ----------------------------------------------------------------------------

  /** `row = []` followed by the thirteen index assignments; each assigns
      the index one past the end, so each appends. */
  method FillRow(inst: Instance, part: Partition, db: Database) returns (row: seq<string>)
    ensures row == RowOf(inst, part, db)
  {
    row := [];
    row := row + [inst.iid];
    row := row + [inst.istate];
    row := row + [inst.ilocation];
    row := row + [inst.ischema];
    row := row + [part.pid];
    row := row + [part.pstate];
    row := row + [db.id];
    row := row + [db.state];
    row := row + [db.schema];
    row := row + [db.file];
    row := row + [db.active];
    row := row + [db.blocks];
    row := row + [db.bytes];
  }

  /** The three nested loops, and the arguments they hand to `vs.window`. */
  method ReadServerStatus(json: Status) returns (window: WindowArgs)
    ensures window == WindowArgs("structure.json", "styles.json", Flatten(json))
  {
    var arr: seq<seq<string>> := [];
    var instances := json.instance;
    var i := 0;
    while i < |instances|
      invariant 0 <= i <= |instances|
      invariant arr == InstanceRows(instances[..i])
    {
      arr := AddInstance(arr, instances[i]);
      InstanceRowsStep(instances, i);
      i := i + 1;
    }
    assert instances[..i] == instances;
    window := WindowArgs("structure.json", "styles.json", arr);
  }

  /** The loop over the partitions of one instance. */
  method AddInstance(arr0: seq<seq<string>>, inst: Instance) returns (arr: seq<seq<string>>)
    ensures arr == arr0 + PartitionRows(inst, inst.partition)
  {
    arr := arr0;
    var p := 0;
    while p < |inst.partition|
      invariant 0 <= p <= |inst.partition|
      invariant arr == arr0 + PartitionRows(inst, inst.partition[..p])
    {
      arr := AddPartition(arr, inst, inst.partition[p]);
      PartitionRowsStep(inst, inst.partition, p);
      p := p + 1;
    }
    assert inst.partition[..p] == inst.partition;
  }

  /** The loop over the databases of one partition. */
  method AddPartition(arr0: seq<seq<string>>, inst: Instance, part: Partition) returns (arr: seq<seq<string>>)
    ensures arr == arr0 + DatabaseRows(inst, part, part.database)
  {
    arr := arr0;
    var d := 0;
    while d < |part.database|
      invariant 0 <= d <= |part.database|
      invariant arr == arr0 + DatabaseRows(inst, part, part.database[..d])
    {
      var row := FillRow(inst, part, part.database[d]);
      DatabaseRowsStep(inst, part, part.database, d);
      arr := arr + [row];
      d := d + 1;
    }
    assert part.database[..d] == part.database;
  }

  lemma DatabaseRowsStep(inst: Instance, part: Partition, dbs: seq<Database>, d: nat)
    requires d < |dbs|
    ensures DatabaseRows(inst, part, dbs[..d + 1]) == DatabaseRows(inst, part, dbs[..d]) + [RowOf(inst, part, dbs[d])]
  {
    assert dbs[..d + 1][..d] == dbs[..d];
  }

  lemma PartitionRowsStep(inst: Instance, parts: seq<Partition>, p: nat)
    requires p < |parts|
    ensures PartitionRows(inst, parts[..p + 1]) ==
            PartitionRows(inst, parts[..p]) + DatabaseRows(inst, parts[p], parts[p].database)
  {
    assert parts[..p + 1][..p] == parts[..p];
    assert parts[p].database[..|parts[p].database|] == parts[p].database;
  }

  lemma InstanceRowsStep(insts: seq<Instance>, i: nat)
    requires i < |insts|
    ensures InstanceRows(insts[..i + 1]) == InstanceRows(insts[..i]) + PartitionRows(insts[i], insts[i].partition)
  {
    assert insts[..i + 1][..i] == insts[..i];
    assert insts[i].partition[..|insts[i].partition|] == insts[i].partition;
  }

  // ----------------------------------------------------------------------------
  // Counting
  // ----------------------------------------------------------------------------

  /** The number of databases in the partitions `parts`. */
  function DatabaseCount(parts: seq<Partition>): nat
    decreases |parts|
  {
    if |parts| == 0 then 0 else DatabaseCount(parts[..|parts| - 1]) + |parts[|parts| - 1].database|
  }

  /** The number of databases in all partitions of the instances `insts`. */
  function TotalDatabases(insts: seq<Instance>): nat
    decreases |insts|
  {
    if |insts| == 0 then 0 else TotalDatabases(insts[..|insts| - 1]) + DatabaseCount(insts[|insts| - 1].partition)
  }

  lemma {:induction false} PartitionRowCount(inst: Instance, parts: seq<Partition>)
    ensures |PartitionRows(inst, parts)| == DatabaseCount(parts)
    decreases |parts|
  {
    if |parts| > 0 {
      PartitionRowCount(inst, parts[..|parts| - 1]);
    }
  }

  /** One row per database, summed over every partition of every instance; a
      partition or instance without databases adds none. */
  lemma {:induction false} RowCount(insts: seq<Instance>)
    ensures |InstanceRows(insts)| == TotalDatabases(insts)
    decreases |insts|
  {
    if |insts| > 0 {
      var last := insts[|insts| - 1];
      RowCount(insts[..|insts| - 1]);
      PartitionRowCount(last, last.partition);
    }
  }

  // ----------------------------------------------------------------------------
  // Position of each row
  // ----------------------------------------------------------------------------

  /** The rows built for the prefix of a level come first. */
  lemma {:induction false} PartitionRowsPrefix(inst: Instance, parts: seq<Partition>, p: nat)
    requires p <= |parts|
    ensures PartitionRows(inst, parts[..p]) <= PartitionRows(inst, parts)
    decreases |parts| - p
  {
    if p < |parts| {
      PartitionRowsStep(inst, parts, p);
      PartitionRowsPrefix(inst, parts, p + 1);
    } else {
      assert parts[..p] == parts;
    }
  }

  lemma {:induction false} InstanceRowsPrefix(insts: seq<Instance>, i: nat)
    requires i <= |insts|
    ensures InstanceRows(insts[..i]) <= InstanceRows(insts)
    decreases |insts| - i
  {
    if i < |insts| {
      InstanceRowsStep(insts, i);
      InstanceRowsPrefix(insts, i + 1);
    } else {
      assert insts[..i] == insts;
    }
  }

  /** The index of the first row of partition `p` of instance `i`: the rows of
      all earlier instances, then those of the instance's earlier partitions. */
  function Offset(json: Status, i: nat, p: nat): nat
    requires i < |json.instance| && p <= |json.instance[i].partition|
  {
    |InstanceRows(json.instance[..i])| + |PartitionRows(json.instance[i], json.instance[i].partition[..p])|
  }

  /** Row `j` of instance `i`'s own rows is row `j` after the earlier instances' rows. */
  lemma InstanceRowAt(insts: seq<Instance>, i: nat, j: nat)
    requires i < |insts| && j < |PartitionRows(insts[i], insts[i].partition)|
    ensures |InstanceRows(insts[..i])| + j < |InstanceRows(insts)|
    ensures InstanceRows(insts)[|InstanceRows(insts[..i])| + j] == PartitionRows(insts[i], insts[i].partition)[j]
  {
    var pre := InstanceRows(insts[..i]);
    var own := PartitionRows(insts[i], insts[i].partition);
    InstanceRowsStep(insts, i);
    InstanceRowsPrefix(insts, i + 1);
    assert (pre + own)[|pre| + j] == own[j];
  }

  /** Database `d` of partition `p` is row `d` after the earlier partitions' rows. */
  lemma PartitionRowAt(inst: Instance, parts: seq<Partition>, p: nat, d: nat)
    requires p < |parts| && d < |parts[p].database|
    ensures |PartitionRows(inst, parts[..p])| + d < |PartitionRows(inst, parts)|
    ensures PartitionRows(inst, parts)[|PartitionRows(inst, parts[..p])| + d] ==
            RowOf(inst, parts[p], parts[p].database[d])
  {
    var pre := PartitionRows(inst, parts[..p]);
    var mine := DatabaseRows(inst, parts[p], parts[p].database);
    PartitionRowsStep(inst, parts, p);
    PartitionRowsPrefix(inst, parts, p + 1);
    assert (pre + mine)[|pre| + d] == mine[d];
  }

  /** Database `d` of partition `p` of instance `i` is row `Offset(i, p) + d`,
      its columns 0-3 from the instance, 4-5 from the partition and 6-12 from
      the database: instance-major, then partition, then database order. */
  lemma RowPosition(json: Status, i: nat, p: nat, d: nat)
    requires i < |json.instance| && p < |json.instance[i].partition| &&
             d < |json.instance[i].partition[p].database|
    ensures Offset(json, i, p) + d < |Flatten(json)|
    ensures var inst := json.instance[i];
      var part := inst.partition[p];
      Flatten(json)[Offset(json, i, p) + d] == RowOf(inst, part, part.database[d])
  {
    var inst := json.instance[i];
    PartitionRowAt(inst, inst.partition, p, d);
    InstanceRowAt(json.instance, i, |PartitionRows(inst, inst.partition[..p])| + d);
  }

  /** Every row comes from one database of the input. */
  predicate FromInput(insts: seq<Instance>, row: seq<string>) {
    exists i, p, d :: 0 <= i < |insts| && 0 <= p < |insts[i].partition| &&
      0 <= d < |insts[i].partition[p].database| &&
      row == RowOf(insts[i], insts[i].partition[p], insts[i].partition[p].database[d])
  }

  lemma {:induction false} PartitionRowsFrom(inst: Instance, parts: seq<Partition>, k: nat)
    requires k < |PartitionRows(inst, parts)|
    ensures exists p, d :: 0 <= p < |parts| && 0 <= d < |parts[p].database| &&
                          PartitionRows(inst, parts)[k] == RowOf(inst, parts[p], parts[p].database[d])
    decreases |parts|
  {
    var init := parts[..|parts| - 1];
    var last := parts[|parts| - 1];
    var pre := PartitionRows(inst, init);
    if k < |pre| {
      PartitionRowsFrom(inst, init, k);
      var p, d :| 0 <= p < |init| && 0 <= d < |init[p].database| &&
        pre[k] == RowOf(inst, init[p], init[p].database[d]);
      assert init[p] == parts[p];
    } else {
      var d := k - |pre|;
      assert PartitionRows(inst, parts)[k] == DatabaseRows(inst, last, last.database)[d];
      assert parts[|parts| - 1] == last;
    }
  }

  lemma {:induction false} InstanceRowsFrom(insts: seq<Instance>, k: nat)
    requires k < |InstanceRows(insts)|
    ensures FromInput(insts, InstanceRows(insts)[k])
    decreases |insts|
  {
    var init := insts[..|insts| - 1];
    var last := insts[|insts| - 1];
    var pre := InstanceRows(init);
    var row := InstanceRows(insts)[k];
    if k < |pre| {
      InstanceRowsFrom(init, k);
      var i, p, d :| 0 <= i < |init| && 0 <= p < |init[i].partition| &&
        0 <= d < |init[i].partition[p].database| &&
        pre[k] == RowOf(init[i], init[i].partition[p], init[i].partition[p].database[d]);
      assert init[i] == insts[i];
      assert row == pre[k];
    } else {
      PartitionRowsFrom(last, last.partition, k - |pre|);
      var p, d :| 0 <= p < |last.partition| && 0 <= d < |last.partition[p].database| &&
        PartitionRows(last, last.partition)[k - |pre|] == RowOf(last, last.partition[p], last.partition[p].database[d]);
      assert insts[|insts| - 1] == last;
      assert row == RowOf(insts[|insts| - 1], insts[|insts| - 1].partition[p], insts[|insts| - 1].partition[p].database[d]);
    }
  }

  /** Every row has 13 entries and is the row of some database of the input:
      nothing is invented, and with `RowPosition` and `RowCount` each
      database of the input appears exactly once. */
  lemma RowsFromInput(json: Status, k: nat)
    requires k < |Flatten(json)|
    ensures |Flatten(json)[k]| == Columns
    ensures FromInput(json.instance, Flatten(json)[k])
  {
    InstanceRowsFrom(json.instance, k);
  }
}
