/** provider/ovndb/db_set_command.py: a conditional write, built column by column and sent as one
    command.  The database merges what is written to a map column and replaces any other. */
module DbSet {
  import opened Text

  type Column = string
  type Key = string

  datatype Value = Plain(text: string) | Entries(entries: map<Key, string>)

  type Row = map<Column, Value>

  datatype Write = Write(column: Column, value: Value)

  /** `db_set` of one column */
  function Written(row: Row, w: Write): Row {
    if w.column in row && row[w.column].Entries? && w.value.Entries?
    then row[w.column := Entries(row[w.column].entries + w.value.entries)]
    else row[w.column := w.value]
  }

  /** `db_set` of several, in order */
  function AllWritten(row: Row, writes: seq<Write>): Row
    decreases |writes|
  {
    if writes == [] then row else AllWritten(Written(row, writes[0]), writes[1..])
  }

  /** What a key of a map column holds, or a plain column as a whole. */
  function At(row: Row, c: Column, k: Key): Option<string> {
    if c in row && row[c].Entries? && k in row[c].entries then Some(row[c].entries[k]) else None
  }

  predicate Mentions(w: Write, c: Column, k: Key) {
    w.column == c && w.value.Entries? && k in w.value.entries
  }

  /** The last write that mentions a key. */
  function LastFor(writes: seq<Write>, c: Column, k: Key): Option<string>
    decreases |writes|
  {
    if writes == [] then None
    else
      var n := |writes| - 1;
      if Mentions(writes[n], c, k) then Some(writes[n].value.entries[k]) else LastFor(writes[..n], c, k)
  }

  ghost predicate MapColumn(row: Row, writes: seq<Write>, c: Column) {
    c in row && row[c].Entries? && forall i :: 0 <= i < |writes| && writes[i].column == c ==> writes[i].value.Entries?
  }

  lemma {:induction false} WrittenMore(row: Row, writes: seq<Write>, w: Write)
    ensures AllWritten(row, writes + [w]) == Written(AllWritten(row, writes), w)
    decreases |writes|
  {
    if writes == [] {
      assert [w][1..] == [];
    } else {
      assert (writes + [w])[1..] == writes[1..] + [w];
      WrittenMore(Written(row, writes[0]), writes[1..], w);
    }
  }

  /** After a command a key of a map column holds what the last enabled write to it said, and what it
      held before when there was none: no write clears a key another one set. */
  lemma {:induction false} KeyAfter(row: Row, writes: seq<Write>, c: Column, k: Key)
    requires MapColumn(row, writes, c)
    ensures MapColumn(AllWritten(row, writes), [], c)
    ensures At(AllWritten(row, writes), c, k) ==
            (if LastFor(writes, c, k).Some? then LastFor(writes, c, k) else At(row, c, k))
    decreases |writes|
  {
    if writes != [] {
      var n := |writes| - 1;
      assert writes == writes[..n] + [writes[n]];
      WrittenMore(row, writes[..n], writes[n]);
      KeyAfter(row, writes[..n], c, k);
    }
  }

  class DbSetCommand {
    var values: seq<Write>

    constructor ()
      ensures values == []
    {
      values := [];
    }

    /** `add`: nothing is recorded when the condition does not hold. */
    method Add(column: Column, value: Value, condition: bool)
      modifies this
      ensures values == old(values) + (if condition then [Write(column, value)] else [])
    {
      if condition {
        values := values + [Write(column, value)];
      }
    }

    /** `build_command`: no command when nothing was recorded. */
    method BuildCommand() returns (command: Option<seq<Write>>)
      ensures command == if values == [] then None else Some(values)
    {
      return if values == [] then None else Some(values);
    }

    /** `execute` on a row */
    method Execute(row: Row) returns (after: Row)
      ensures after == AllWritten(row, values)
    {
      var command := BuildCommand();
      after := if command == None then row else AllWritten(row, command.value);
    }
  }
}
