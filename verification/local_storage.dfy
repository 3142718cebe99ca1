/**
 * The local storage backend (`storage_local.py`): a folder of uploaded images
 * beside an SQLite `predictions` table, both under one data directory.
 *
 * The folder is a map from file name to bytes that `SaveFile` overwrites in
 * place; the table is the `rows` in ascending id order together with the id
 * the AUTOINCREMENT key hands out next.
 */
module LocalStore {
  import opened Text
  import opened Predictions

  class LocalStorage {
    const dataDir: string
    const uploadFolder: string
    const dbPath: string
    var schema: Schema
    var rows: seq<Row>
    var nextId: int
    var files: map<string, seq<byte>>

    function Table(): Db
      reads this
    {
      Db(schema, rows, nextId)
    }

    ghost predicate Valid()
      reads this
    {
      Ready(Table()) &&
      uploadFolder == Join(dataDir, "uploads") && dbPath == Join(dataDir, "clinical_study.db")
    }

    /**
     * Opens the data directory: fixes the two paths under it, creates the
     * upload folder if missing and runs the schema set-up on whatever database
     * file is already there. The `DATA_DIR` lookup is done by the caller.
     */
    constructor (dataDir: string, existing: Db, existingFiles: map<string, seq<byte>>)
      requires WellFormed(existing)
      ensures Valid()
      ensures this.dataDir == dataDir
      ensures uploadFolder == Join(dataDir, "uploads") && dbPath == Join(dataDir, "clinical_study.db")
      ensures Table() == Migrate(existing) && files == existingFiles
    {
      this.dataDir := dataDir;
      uploadFolder := Join(dataDir, "uploads");
      dbPath := Join(dataDir, "clinical_study.db");
      schema, rows, nextId := existing.schema, existing.rows, existing.nextId;
      files := existingFiles;
      new;
      InitDb();
    }

    /**
     * `_init_db`: create the table if absent, then try to add the `diagnosis`
     * column and ignore the failure when it exists. On a ready table it
     * changes nothing, so running it again is harmless.
     */
    method InitDb()
      requires WellFormed(Table())
      modifies this`schema, this`rows, this`nextId
      ensures Table() == Migrate(old(Table()))
      ensures Ready(Table())
      ensures old(Ready(Table())) ==> Table() == old(Table())
    {
      MigrateReady(Table());
      var db := Migrate(Table());
      schema, rows, nextId := db.schema, db.rows, db.nextId;
    }

    /** `save_file`: writes the bytes under `filename`, replacing any earlier ones. */
    method SaveFile(data: seq<byte>, filename: string) returns (path: string, url: string)
      requires Valid()
      modifies this`files
      ensures Valid()
      ensures files == old(files)[filename := data]
      ensures FileExists(filename) && files[filename] == data
      ensures path == Join(uploadFolder, filename)
      ensures url == GetImageUrl(filename)
    {
      files := files[filename := data];
      path, url := Join(uploadFolder, filename), ServedUrl(filename);
    }

    /**
     * `insert_record`: appends exactly one row holding the given fields, with
     * the id the table assigns; every earlier row stays as it was and has a
     * smaller id. `now` is the `CURRENT_TIMESTAMP` the database fills in.
     */
    method InsertRecord(filename: string, filepath: string, result: string, diagnosis: string, now: string)
      returns (id: int, url: string)
      requires Valid()
      modifies this`rows, this`nextId
      ensures Valid()
      ensures rows == old(rows) + [Row(id, filename, filepath, result, Some(diagnosis), now)]
      ensures id == old(nextId) && nextId == old(nextId) + 1
      ensures forall i :: 0 <= i < |old(rows)| ==> old(rows)[i].id < id
      ensures url == GetImageUrl(filename)
    {
      id := nextId;
      var row := Row(id, filename, filepath, result, Some(diagnosis), now);
      AppendWellFormed(Table(), row);
      rows := rows + [row];
      nextId := nextId + 1;
      url := ServedUrl(filename);
    }

    /** `get_all_records`: every row, as the selected columns, in ascending id order. */
    method GetAllRecords() returns (records: seq<Selected>)
      requires Valid()
      ensures |records| == |rows|
      ensures forall i :: 0 <= i < |rows| ==>
        records[i].id == rows[i].id && records[i].filename == rows[i].filename &&
        records[i].result == rows[i].result && records[i].diagnosis == rows[i].diagnosis &&
        records[i].createdAt == rows[i].createdAt
      ensures forall i, j :: 0 <= i < j < |records| ==> records[i].id < records[j].id
    {
      records := SelectAll(rows);
    }

    /** `get_image_url`: the application's `/uploads/` route followed by the name. */
    function GetImageUrl(filename: string): (url: string)
      ensures |url| == 9 + |filename| && url[..9] == "/uploads/" && url[9..] == filename
    {
      ServedUrl(filename)
    }

    /** `file_exists`: whether the upload folder holds a file of that name. */
    predicate FileExists(filename: string): (present: bool)
      reads this
      ensures present <==> filename in files
    {
      filename in files
    }
  }
}
