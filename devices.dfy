/** `XTDevice` as the merging engine sees it: four tables, each a Python dict
    object that the steps update in place and that `merge_devices` finally shares
    between the two devices, and the two attributes it chooses between. */
module Devices {
  import opened PyValue

  /** The contents of a table: always a dictionary. */
  type DictValue = v: Value | v.Dict? witness Dict([], map[])

  /** One dict object held by a device. Its entries are values: the descriptor
      objects and nested dictionaries inside a table are owned by that table. */
  class Table {
    var keys: seq<Value>
    var vals: map<Value, Value>

    constructor (contents: DictValue)
      ensures Contents() == contents
    {
      keys := contents.keys;
      vals := contents.vals;
    }

    function Contents(): DictValue
      reads this
    {
      Dict(keys, vals)
    }

    /** The table's object stays, its contents become `contents`. */
    method Load(contents: DictValue)
      modifies this
      ensures Contents() == contents
    {
      keys := contents.keys;
      vals := contents.vals;
    }
  }

  /** A `status_range` or `function` table as the SDK builds it: every entry is a
      descriptor object. */
  predicate DescriptorTable(d: DictValue)
  {
    forall k | k in d.vals :: d.vals[k].IsDescriptor()
  }

  /** `x.values` exists: a descriptor's field, or a dictionary's `values` method. */
  predicate HasValues(v: Value)
  {
    v.IsDescriptor() || v.Dict?
  }

  /** The four tables' contents at one moment. */
  datatype Record = Record(statusRange: DictValue, functions: DictValue, status: DictValue, localStrategy: DictValue)

  /** An `XTDevice`: `status_range`, `function`, `status`, `local_strategy`,
      `data_model` and `set_up`. */
  class Device {
    var statusRange: Table
    var functions: Table
    var status: Table
    var localStrategy: Table
    var dataModel: Value
    var setUp: Value

    constructor (r: Record, dataModel: Value, setUp: Value)
      ensures fresh(statusRange) && fresh(functions) && fresh(status) && fresh(localStrategy)
      ensures Snapshot() == r && this.dataModel == dataModel && this.setUp == setUp
      ensures Distinct(Tables())
    {
      statusRange := new Table(r.statusRange);
      functions := new Table(r.functions);
      status := new Table(r.status);
      localStrategy := new Table(r.localStrategy);
      this.dataModel := dataModel;
      this.setUp := setUp;
    }

    function Tables(): seq<Table>
      reads this
    {
      [statusRange, functions, status, localStrategy]
    }

    function Snapshot(): Record
      reads this, statusRange, functions, status, localStrategy
    {
      Record(statusRange.Contents(), functions.Contents(), status.Contents(), localStrategy.Contents())
    }
  }

  /** The eight tables of two devices are eight different objects. */
  predicate Separate(d1: Device, d2: Device)
    reads d1, d2
  {
    Distinct(d1.Tables() + d2.Tables())
  }

  /** `Separate`, spelled out pair by pair. */
  lemma SeparateTables(d1: Device, d2: Device)
    requires Separate(d1, d2)
    ensures d1.statusRange != d1.functions && d1.statusRange != d1.status && d1.statusRange != d1.localStrategy && d1.statusRange != d2.statusRange
    ensures d1.statusRange != d2.functions && d1.statusRange != d2.status && d1.statusRange != d2.localStrategy && d1.functions != d1.status
    ensures d1.functions != d1.localStrategy && d1.functions != d2.statusRange && d1.functions != d2.functions && d1.functions != d2.status
    ensures d1.functions != d2.localStrategy && d1.status != d1.localStrategy && d1.status != d2.statusRange && d1.status != d2.functions
    ensures d1.status != d2.status && d1.status != d2.localStrategy && d1.localStrategy != d2.statusRange && d1.localStrategy != d2.functions
    ensures d1.localStrategy != d2.status && d1.localStrategy != d2.localStrategy && d2.statusRange != d2.functions && d2.statusRange != d2.status
    ensures d2.statusRange != d2.localStrategy && d2.functions != d2.status && d2.functions != d2.localStrategy && d2.status != d2.localStrategy
  {
    var ts := d1.Tables() + d2.Tables();
    assert ts[0] == d1.statusRange && ts[1] == d1.functions && ts[2] == d1.status && ts[3] == d1.localStrategy;
    assert ts[4] == d2.statusRange && ts[5] == d2.functions && ts[6] == d2.status && ts[7] == d2.localStrategy;
  }

  /** The result of one step on two devices: both records, and the exception
      that ended the step early, if one did. */
  datatype Stepped = Stepped(r1: Record, r2: Record, err: Option<Failure>)
}
