/**
 * The Flask application's request handlers (`app.py`) with the state they
 * touch directly: the upload folder, a map from file name to bytes, and the
 * `predictions` table, kept as the same fields the local backend keeps.
 *
 * An upload writes a file and returns a prediction but stores no row; a save
 * checks its fields in a fixed order and then appends exactly one row. History
 * and export project the stored rows in ascending id order.
 */
module App {
  import opened Text
  import opened Predictions

  const AllowedExtensions: set<string> := {"png", "jpg", "jpeg", "gif", "bmp", "webp"}

  const NoImageMessage := "No image file provided"
  const NoFileSelectedMessage := "No file selected"
  const InvalidTypeMessage := "Invalid file type. Allowed: png, jpg, jpeg, gif, bmp, webp"
  const MissingFieldsMessage := "Missing filename or result"
  const DiagnosisRequiredMessage := "Actual diagnosis is required"
  const ImageNotFoundMessage := "Image file not found"

  /** Columns of the CSV export, in order. */
  const CsvColumns: seq<string> := ["number", "filename", "ai_prediction", "actual_diagnosis", "created_at"]

  // ---------------------------------------------------------------------------
  // File names and upload keys
  // ---------------------------------------------------------------------------

  /** `name.rsplit('.', 1)` on a name holding a dot: the text before and after its last dot. */
  function SplitExt(name: string): (parts: (string, string))
    requires '.' in name
    ensures name == parts.0 + "." + parts.1
    ensures '.' !in parts.1
  {
    var i := LastIndexOf(name, '.').value;
    assert name == name[..i] + [name[i]] + name[i + 1..];
    (name[..i], name[i + 1..])
  }

  /** Any split of a name at a dot with no dot after it is the one `SplitExt` finds. */
  lemma SplitExtUnique(name: string, stem: string, ext: string)
    requires name == stem + "." + ext && '.' !in ext
    ensures '.' in name && SplitExt(name) == (stem, ext)
  {
    assert name[|stem|] == '.';
    var i := LastIndexOf(name, '.').value;
    forall k | |stem| < k < |name| ensures name[k] != '.' {
      assert name[k] == ext[k - |stem| - 1];
    }
    forall k | i < k < |name| ensures name[k] != '.' {
      assert name[k] == name[i + 1..][k - i - 1];
    }
    assert i == |stem|;
    assert name[..i] == stem && name[i + 1..] == ext;
    assert SplitExt(name) == (name[..i], name[i + 1..]);
  }

  /** `allowed_file`: there is a dot and the lower-cased text after the last one is an allowed extension. */
  function AllowedFile(filename: string): (ok: bool)
    ensures ok ==> '.' in filename
  {
    '.' in filename && Lower(SplitExt(filename).1) in AllowedExtensions
  }

  /** `allowed_file` looks only past the last dot, whatever precedes it. */
  lemma AllowedFileByExtension(filename: string, stem: string, ext: string)
    requires filename == stem + "." + ext && '.' !in ext
    ensures AllowedFile(filename) <==> Lower(ext) in AllowedExtensions
  {
    SplitExtUnique(filename, stem, ext);
  }

  /** The check is case-insensitive and looks only past the last dot: `a.tar.PNG` is accepted. */
  lemma UpperCaseAfterLastDotAccepted(stem: string)
    ensures AllowedFile(stem + ".PNG")
  {
    var ext := "PNG";
    assert stem + ".PNG" == stem + "." + ext;
    AllowedFileByExtension(stem + ".PNG", stem, ext);
    assert LowerChar('P') == 'p' && LowerChar('N') == 'n' && LowerChar('G') == 'g';
    assert Lower(ext) == "png";
  }

  /** An allowed extension before the last dot does not count: `scan.png.txt` is rejected. */
  lemma AllowedExtensionBeforeLastDotRejected(stem: string)
    ensures !AllowedFile(stem + ".png.txt")
  {
    var ext := "txt";
    assert stem + ".png.txt" == (stem + ".png") + "." + ext;
    AllowedFileByExtension(stem + ".png.txt", stem + ".png", ext);
    assert Lower(ext) == "txt";
  }

  /**
   * The storage key of an upload: `secure_filename(stem) + "_" + timestamp +
   * "." + ext`, `ext` being the lower-cased text after the last dot of the
   * original name. `secure` stands for werkzeug's `secure_filename`.
   */
  function UploadKey(filename: string, timestamp: string, secure: string -> string): (key: string)
    requires '.' in filename
    ensures '.' in key
  {
    var (stem, ext) := SplitExt(filename);
    var head := secure(stem) + "_" + timestamp;
    assert (head + "." + Lower(ext))[|head|] == '.';
    head + "." + Lower(ext)
  }

  /**
   * The key in terms of the uploaded name's parts: for a name `stem.ext` with
   * no dot in `ext`, the key is `secure(stem)_timestamp.` followed by `ext`
   * lower-cased, however many dots the stem holds.
   */
  lemma UploadKeyOfParts(stem: string, ext: string, timestamp: string, secure: string -> string)
    requires '.' !in ext
    ensures '.' in stem + "." + ext
    ensures UploadKey(stem + "." + ext, timestamp, secure) == secure(stem) + "_" + timestamp + "." + Lower(ext)
  {
    SplitExtUnique(stem + "." + ext, stem, ext);
  }

  /** The key of an accepted upload passes `allowed_file` itself, with the same lower-cased extension. */
  lemma UploadKeyAllowed(filename: string, timestamp: string, secure: string -> string)
    requires AllowedFile(filename)
    ensures AllowedFile(UploadKey(filename, timestamp, secure))
    ensures SplitExt(UploadKey(filename, timestamp, secure))
         == (secure(SplitExt(filename).0) + "_" + timestamp, Lower(SplitExt(filename).1))
  {
    var (stem, ext) := SplitExt(filename);
    var head := secure(stem) + "_" + timestamp;
    LowerKeepsDots(ext);
    LowerIdempotent(ext);
    SplitExtUnique(UploadKey(filename, timestamp, secure), head, Lower(ext));
    AllowedFileByExtension(UploadKey(filename, timestamp, secure), head, Lower(ext));
  }

  // ---------------------------------------------------------------------------
  // Requests and replies
  // ---------------------------------------------------------------------------

  datatype FilePart = FilePart(filename: string, data: seq<byte>)

  /** The multipart form of `/upload`: the `image` field, if present. */
  datatype UploadForm = UploadForm(image: Option<FilePart>)

  /** The JSON body of `/save`; a key that is absent is `None`. */
  datatype SaveBody = SaveBody(filename: Option<string>, result: Option<string>, diagnosis: Option<string>)

  /** What the remote inference call returned: a label, or the message of the exception it raised. */
  datatype Prediction = Label(text: string) | Failed(message: string)

  datatype Payload =
    | Error(message: string)
    | Uploaded(filename: string, result: string, imageUrl: string)
    | Saved(id: int, number: int, filename: string, result: string, diagnosis: string, imageUrl: string)

  datatype Reply = Reply(status: int, payload: Payload)

  /** `data.get(key, '').strip()`. */
  function Field(value: Option<string>): string {
    Strip(value.GetOr(""))
  }

  // ---------------------------------------------------------------------------
  // History and export
  // ---------------------------------------------------------------------------

  datatype HistoryRecord = HistoryRecord(
    id: int,
    number: int,
    filename: string,
    result: string,
    diagnosis: string,
    createdAt: string,
    imageUrl: string)

  datatype ExportRecord = ExportRecord(
    number: int,
    filename: string,
    aiPrediction: string,
    actualDiagnosis: string,
    createdAt: string)

  datatype Export = JsonExport(records: seq<ExportRecord>) | CsvExport(columns: seq<string>, records: seq<ExportRecord>)

  /** The list comprehension of `/history`. */
  function HistoryRecords(rows: seq<Selected>): (records: seq<HistoryRecord>)
    ensures |records| == |rows|
    ensures forall i :: 0 <= i < |rows| ==>
      records[i].id == rows[i].id && records[i].number == rows[i].id &&
      records[i].filename == rows[i].filename && records[i].result == rows[i].result &&
      (rows[i].diagnosis.Some? ==> records[i].diagnosis == rows[i].diagnosis.value) &&
      (rows[i].diagnosis.None? ==> records[i].diagnosis == "") &&
      records[i].createdAt == rows[i].createdAt && records[i].imageUrl == "/uploads/" + rows[i].filename
  {
    seq(|rows|, i requires 0 <= i < |rows| =>
      HistoryRecord(rows[i].id, rows[i].id, rows[i].filename, rows[i].result,
                    rows[i].diagnosis.GetOr(""), rows[i].createdAt, ServedUrl(rows[i].filename)))
  }

  /** The list comprehension of `/export`, shared by both formats. */
  function ExportRecords(rows: seq<Selected>): (records: seq<ExportRecord>)
    ensures |records| == |rows|
    ensures forall i :: 0 <= i < |rows| ==>
      records[i].number == rows[i].id && records[i].filename == rows[i].filename &&
      records[i].aiPrediction == rows[i].result &&
      (rows[i].diagnosis.Some? ==> records[i].actualDiagnosis == rows[i].diagnosis.value) &&
      (rows[i].diagnosis.None? ==> records[i].actualDiagnosis == "") &&
      records[i].createdAt == rows[i].createdAt
  {
    seq(|rows|, i requires 0 <= i < |rows| =>
      ExportRecord(rows[i].id, rows[i].filename, rows[i].result, rows[i].diagnosis.GetOr(""), rows[i].createdAt))
  }

  /** `/history` and `/export` describe the same rows, field for field. */
  lemma ExportMatchesHistory(rows: seq<Selected>)
    ensures |ExportRecords(rows)| == |HistoryRecords(rows)| == |rows|
    ensures forall i :: 0 <= i < |rows| ==>
      var e, h := ExportRecords(rows)[i], HistoryRecords(rows)[i];
      e.number == h.id == h.number && e.filename == h.filename && e.aiPrediction == h.result &&
      e.actualDiagnosis == h.diagnosis && e.createdAt == h.createdAt
  {
  }

  /** `request.args.get('format', 'csv').lower() == 'json'`. */
  predicate WantsJson(format: Option<string>): (json: bool)
    ensures json ==> format.Some? && |format.value| == 4
  {
    Lower(format.GetOr("csv")) == "json"
  }

  lemma WantsJsonExamples()
    ensures WantsJson(Some("JSON")) && WantsJson(Some("json"))
    ensures !WantsJson(None) && !WantsJson(Some("xml")) && !WantsJson(Some(""))
  {
    assert Lower("JSON") == "json";
    assert Lower("json") == "json";
    assert Lower("csv") == "csv";
    assert Lower("xml") == "xml";
  }

  // ---------------------------------------------------------------------------
  // The running application
  // ---------------------------------------------------------------------------

  class Server {
    const uploadFolder: string
    var uploads: map<string, seq<byte>>
    var schema: Schema
    var rows: seq<Row>
    var nextId: int

    function Table(): Db
      reads this
    {
      Db(schema, rows, nextId)
    }

    ghost predicate Valid()
      reads this
    {
      Ready(Table())
    }

    /**
     * Loading the module: the upload folder is `data_dir/uploads`, created if
     * missing, and `init_db` runs on whatever database file is already there.
     */
    constructor (dataDir: string, existing: Db, files: map<string, seq<byte>>)
      requires WellFormed(existing)
      ensures Valid()
      ensures uploadFolder == Join(dataDir, "uploads")
      ensures Table() == Migrate(existing) && uploads == files
    {
      uploadFolder := Join(dataDir, "uploads");
      uploads := files;
      var db := Migrate(existing);
      MigrateReady(existing);
      schema, rows, nextId := db.schema, db.rows, db.nextId;
    }

    /**
     * `POST /upload`: rejects a missing field, an empty name and a disallowed
     * extension, in that order, without writing anything; otherwise writes the
     * bytes under the generated key and then asks for a prediction. No row is
     * stored either way.
     */
    method UploadImage(form: UploadForm, timestamp: string, secure: string -> string, prediction: Prediction)
      returns (reply: Reply)
      requires Valid()
      modifies this`uploads
      ensures Valid() && rows == old(rows) && nextId == old(nextId)
      ensures form.image.None? ==>
        reply == Reply(400, Error(NoImageMessage)) && uploads == old(uploads)
      ensures form.image.Some? && form.image.value.filename == "" ==>
        reply == Reply(400, Error(NoFileSelectedMessage)) && uploads == old(uploads)
      ensures form.image.Some? && form.image.value.filename != "" && !AllowedFile(form.image.value.filename) ==>
        reply == Reply(400, Error(InvalidTypeMessage)) && uploads == old(uploads)
      ensures form.image.Some? && AllowedFile(form.image.value.filename) ==>
        uploads == old(uploads)[UploadKey(form.image.value.filename, timestamp, secure) := form.image.value.data]
      ensures form.image.Some? && AllowedFile(form.image.value.filename) ==>
        var key := UploadKey(form.image.value.filename, timestamp, secure);
        reply == match prediction
                 case Label(text) => Reply(200, Uploaded(key, text, ServedUrl(key)))
                 case Failed(message) => Reply(500, Error(message))
    {
      if form.image.None? {
        return Reply(400, Error(NoImageMessage));
      }
      var file := form.image.value;
      if file.filename == "" {
        return Reply(400, Error(NoFileSelectedMessage));
      }
      if !AllowedFile(file.filename) {
        return Reply(400, Error(InvalidTypeMessage));
      }
      var key := UploadKey(file.filename, timestamp, secure);
      uploads := uploads[key := file.data];
      match prediction
      case Label(text) =>
        reply := Reply(200, Uploaded(key, text, ServedUrl(key)));
      case Failed(message) =>
        reply := Reply(500, Error(message));
    }

    /**
     * `POST /save`: trims the three fields; rejects an empty file name or
     * result, then an empty diagnosis, then a key with no uploaded file, each
     * without touching the table; otherwise appends exactly one row, whose id
     * the table assigns, and reports it. `now` is the `CURRENT_TIMESTAMP` the
     * database fills in.
     */
    method SaveRecord(body: SaveBody, now: string) returns (reply: Reply)
      requires Valid()
      modifies this`rows, this`nextId
      ensures Valid() && uploads == old(uploads)
      ensures reply.status == 200 || reply.status == 400
      ensures reply.status == 400 <==>
        Field(body.filename) == "" || Field(body.result) == "" || Field(body.diagnosis) == "" ||
        Field(body.filename) !in uploads
      ensures reply.status == 400 ==> rows == old(rows) && nextId == old(nextId)
      ensures Field(body.filename) == "" || Field(body.result) == "" ==>
        reply.payload == Error(MissingFieldsMessage)
      ensures Field(body.filename) != "" && Field(body.result) != "" && Field(body.diagnosis) == "" ==>
        reply.payload == Error(DiagnosisRequiredMessage)
      ensures Field(body.filename) != "" && Field(body.result) != "" && Field(body.diagnosis) != "" &&
              Field(body.filename) !in uploads ==>
        reply.payload == Error(ImageNotFoundMessage)
      ensures reply.status == 200 ==>
        rows == old(rows) + [Row(old(nextId), Field(body.filename), Join(uploadFolder, Field(body.filename)),
                                 Field(body.result), Some(Field(body.diagnosis)), now)] &&
        nextId == old(nextId) + 1
      ensures reply.status == 200 ==>
        reply.payload == Saved(old(nextId), old(nextId), Field(body.filename), Field(body.result),
                               Field(body.diagnosis), ServedUrl(Field(body.filename)))
      ensures reply.status == 200 ==> forall i :: 0 <= i < |old(rows)| ==> old(rows)[i].id < reply.payload.id
    {
      var filename := Field(body.filename);
      var result := Field(body.result);
      var diagnosis := Field(body.diagnosis);
      if filename == "" || result == "" {
        reply := Reply(400, Error(MissingFieldsMessage));
      } else if diagnosis == "" {
        reply := Reply(400, Error(DiagnosisRequiredMessage));
      } else if filename !in uploads {
        reply := Reply(400, Error(ImageNotFoundMessage));
      } else {
        var id := nextId;
        var row := Row(id, filename, Join(uploadFolder, filename), result, Some(diagnosis), now);
        AppendWellFormed(Table(), row);
        rows := rows + [row];
        nextId := nextId + 1;
        reply := Reply(200, Saved(id, id, filename, result, diagnosis, ServedUrl(filename)));
      }
    }

    /** `GET /history`: one record per stored row, in ascending id order, with `number == id`. */
    method History() returns (records: seq<HistoryRecord>)
      requires Valid()
      ensures |records| == |rows|
      ensures forall i :: 0 <= i < |rows| ==>
        records[i].id == records[i].number == rows[i].id &&
        records[i].filename == rows[i].filename && records[i].result == rows[i].result &&
        records[i].diagnosis == rows[i].diagnosis.GetOr("") && records[i].createdAt == rows[i].createdAt &&
        records[i].imageUrl == ServedUrl(rows[i].filename)
      ensures forall i, j :: 0 <= i < j < |records| ==> records[i].id < records[j].id
    {
      records := HistoryRecords(SelectAll(rows));
    }

    /**
     * `GET /export`: the same record list in both formats; JSON exactly when
     * the lower-cased `format` argument is `json`, CSV with the five fixed
     * columns otherwise.
     */
    method ExportData(format: Option<string>) returns (exported: Export)
      requires Valid()
      ensures exported.JsonExport? <==> WantsJson(format)
      ensures exported.CsvExport? ==> exported.columns == CsvColumns
      ensures |exported.records| == |rows|
      ensures forall i :: 0 <= i < |rows| ==>
        exported.records[i] == ExportRecord(rows[i].id, rows[i].filename, rows[i].result,
                                          rows[i].diagnosis.GetOr(""), rows[i].createdAt)
      ensures forall i, j :: 0 <= i < j < |exported.records| ==> exported.records[i].number < exported.records[j].number
    {
      var records := ExportRecords(SelectAll(rows));
      if WantsJson(format) {
        exported := JsonExport(records);
      } else {
        exported := CsvExport(CsvColumns, records);
      }
    }
  }

  /**
   * Two uploads of the same name in the same second get the same key, so the
   * second one replaces the bytes of the first in the upload folder.
   */
  method SameSecondUploadsShareKey(server: Server, name: string, timestamp: string, secure: string -> string,
                                   first: seq<byte>, second: seq<byte>, p1: Prediction, p2: Prediction)
    returns (key: string)
    requires server.Valid() && AllowedFile(name)
    modifies server`uploads
    ensures server.Valid()
    ensures key == UploadKey(name, timestamp, secure)
    ensures server.uploads == old(server.uploads)[key := second]
  {
    key := UploadKey(name, timestamp, secure);
    var form1 := UploadForm(Some(FilePart(name, first)));
    var form2 := UploadForm(Some(FilePart(name, second)));
    assert form1.image.value.filename == name && form2.image.value.filename == name;
    var r1 := server.UploadImage(form1, timestamp, secure, p1);
    assert server.uploads == old(server.uploads)[key := first];
    var r2 := server.UploadImage(form2, timestamp, secure, p2);
    assert server.uploads == old(server.uploads)[key := first][key := second];
  }
}
