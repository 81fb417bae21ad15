/** The CSV file the logger writes, held in memory: whether it exists and
    the rows it holds, in order.  Formatting a row as comma-separated text
    is not modelled. */
module CsvLog {

  /** A row of the file: a row of text cells (the header, or anything an
      earlier writer left), or one `timesteps,episode,success` record. */
  datatype Row =
    | Cells(cells: seq<string>)
    | Record(timesteps: int, episode: int, success: int)

  /** The fixed header written when the logger creates the file. */
  const HeaderRow: Row := Cells(["timesteps", "episode", "success"])

  class CsvFile {
    var present: bool
    var rows: seq<Row>

    /** A file that does not exist holds no rows. */
    ghost predicate Valid()
      reads this
    {
      !present ==> rows == []
    }

    /** A file as found on disk before the logger starts. */
    constructor (present: bool, rows: seq<Row>)
      requires !present ==> rows == []
      ensures Valid()
      ensures this.present == present && this.rows == rows
    {
      this.present := present;
      this.rows := rows;
    }

    /** `os.path.exists(path)`. */
    method Exists() returns (b: bool)
      requires Valid()
      ensures b == present
      ensures !b ==> rows == []
    {
      b := present;
    }

    /** `open(path, "w")` followed by one `writerow`: the file is created
        or truncated and then holds exactly that row. */
    method Rewrite(row: Row)
      requires Valid()
      modifies this
      ensures Valid()
      ensures present && rows == [row]
    {
      present := true;
      rows := [row];
    }

    /** `open(path, "a")` followed by one `writerow`: the file is created if
        absent and the row is added after everything already in it. */
    method Append(row: Row)
      requires Valid()
      modifies this
      ensures Valid()
      ensures present && rows == old(rows) + [row]
    {
      present := true;
      rows := rows + [row];
    }
  }
}
