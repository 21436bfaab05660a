/**
 * The CSV output of one sweep: a file opened for writing, one `time, value` line per
 * `push`, and `save` closing the file. The file text itself is not modelled; `rows` holds
 * the pushed pairs in order and `saves` counts the calls to `save`.
 */
module Curve {
  /** One pushed line: the elapsed time and the swept parameter value. */
  datatype Row = Row(elapsed: real, value: int)

  class BenchmarkCurve {
    /** The path the write stream was opened on (truncating any existing file). */
    const file: string
    var rows: seq<Row>
    var saves: nat

    constructor (file: string)
      ensures this.file == file && rows == [] && saves == 0
    {
      this.file := file;
      rows := [];
      saves := 0;
    }

    /** `push(time, value)`: one more line, after all earlier ones. */
    method Push(time: real, value: int)
      modifies this
      ensures rows == old(rows) + [Row(time, value)] && saves == old(saves)
    {
      rows := rows + [Row(time, value)];
    }

    /** `save()`: close the stream; the rows stay as they are. */
    method Save()
      modifies this
      ensures rows == old(rows) && saves == old(saves) + 1
    {
      saves := saves + 1;
    }
  }
}
