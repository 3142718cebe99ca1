/**
 * The cloud storage backend (`storage_supabase.py`): object storage and a
 * `predictions` table reached over Supabase's REST interface.
 *
 * Its fields are fixed when it is built, and each operation only builds
 * strings: the request it sends and, from the response, the value it
 * returns. The HTTP exchange itself happens elsewhere: every operation
 * takes the response as an input. `requests`' `raise_for_status` turns a
 * 4xx or 5xx status into an error, and then the operation returns no value.
 */
module Supabase {
  import opened Text

  const Bucket := "uploads"

  datatype Error = MissingVariable(name: string) | HttpStatus(code: int)

  datatype Result<T> = Ok(value: T) | Err(error: Error)

  datatype Verb = Get | Post

  /** The JSON object `insert_record` posts. */
  datatype Payload = Payload(filename: string, filepath: string, imageUrl: string, result: string, diagnosis: string)

  datatype Body = NoBody | Bytes(data: seq<byte>) | Record(payload: Payload)

  datatype Request = Request(verb: Verb, url: string, headers: map<string, string>, params: map<string, string>, body: Body)

  /**
   * One row of a JSON response. `diagnosis` and `image_url` are `None` when
   * the key is missing or its value is null; the other keys are assumed
   * present.
   */
  datatype RemoteRow = RemoteRow(
    id: int,
    filename: string,
    result: string,
    diagnosis: Option<string>,
    createdAt: string,
    imageUrl: Option<string>)

  datatype Response = Response(status: int, rows: seq<RemoteRow>)

  /** A row as `get_all_records` hands it back. */
  datatype CloudRecord = CloudRecord(
    id: int,
    filename: string,
    result: string,
    diagnosis: string,
    createdAt: string,
    imageUrl: string)

  /** `raise_for_status` raises for every client (4xx) and server (5xx) error status. */
  predicate Raises(status: int) {
    400 <= status < 600
  }

  predicate IsSlash(c: char) {
    c == '/'
  }

  /** `image/png` for a name ending in `.png` in any case, `image/jpeg` for everything else. */
  function ContentType(filename: string): (mime: string)
    ensures mime == "image/png" <==> EndsWith(Lower(filename), ".png")
    ensures mime != "image/png" ==> mime == "image/jpeg"
  {
    if EndsWith(Lower(filename), ".png") then "image/png" else "image/jpeg"
  }

  /** Whatever the stem, GIF, BMP and WebP uploads are labelled `image/jpeg`, and an upper-case `.PNG` is PNG. */
  lemma ContentTypeExamples(stem: string)
    ensures ContentType(stem + ".gif") == "image/jpeg"
    ensures ContentType(stem + ".bmp") == "image/jpeg"
    ensures ContentType(stem + ".webp") == "image/jpeg"
    ensures ContentType(stem + ".PNG") == "image/png"
  {
    var gif, bmp, webp, png := stem + ".gif", stem + ".bmp", stem + ".webp", stem + ".PNG";
    assert Lower(gif)[|gif| - 4..] == ".gif";
    assert Lower(bmp)[|bmp| - 4..] == ".bmp";
    assert Lower(webp)[|webp| - 4..] == "webp";
    assert Lower(png)[|png| - 4..] == ".png";
  }

  /** The object key under which `save_file` stores an image. */
  function ObjectPath(filename: string): string {
    "images/" + filename
  }

  /**
   * Reads `SUPABASE_URL` and then `SUPABASE_KEY`, failing on the first one
   * missing; trailing slashes are dropped from the URL.
   */
  function Connect(url: Option<string>, key: Option<string>): (r: Result<SupabaseStorage>)
    ensures url.None? ==> r == Err(MissingVariable("SUPABASE_URL"))
    ensures url.Some? && key.None? ==> r == Err(MissingVariable("SUPABASE_KEY"))
    ensures url.Some? && key.Some? ==> r.Ok? && r.value.key == key.value
    ensures r.Ok? ==>
      var base, given := r.value.url, url.value;
      (base == [] || base[|base| - 1] != '/') &&
      |base| <= |given| && base == given[..|base|] &&
      forall i :: |base| <= i < |given| ==> given[i] == '/'
  {
    if url.None? then Err(MissingVariable("SUPABASE_URL"))
    else if key.None? then Err(MissingVariable("SUPABASE_KEY"))
    else
      TrimEndDropsSuffix(url.value, IsSlash);
      Ok(SupabaseStorage(TrimEnd(url.value, IsSlash), key.value))
  }

  /** `SUPABASE_URL` with or without trailing slashes gives the same base URL. */
  lemma {:induction false} TrailingSlashesIgnored(url: string, slashes: nat, key: string)
    requires url == [] || url[|url| - 1] != '/'
    ensures Connect(Some(url + seq(slashes, _ => '/')), Some(key)) == Ok(SupabaseStorage(url, key))
  {
    var given := url + seq(slashes, _ => '/');
    var base := TrimEnd(given, IsSlash);
    TrimEndDropsSuffix(given, IsSlash);
    assert forall i :: |url| <= i < |given| ==> given[i] == '/';
    assert url != [] ==> given[|url| - 1] == url[|url| - 1];
    assert |base| == |url|;
    assert base == given[..|url|] == url;
  }

  datatype SupabaseStorage = SupabaseStorage(url: string, key: string) {

    /** The two authentication headers every request carries. */
    function Headers(): (h: map<string, string>)
      ensures h.Keys == {"Authorization", "apikey"}
      ensures h["Authorization"] == "Bearer " + key && h["apikey"] == key
    {
      map["Authorization" := "Bearer " + key, "apikey" := key]
    }

    /** The public URL of an object in the bucket: under the base URL, ending in the object path. */
    function PublicUrl(path: string): (public: string)
      ensures |public| == |url| + 34 + |path|
      ensures public[..|url|] == url && public[|public| - |path|..] == path
    {
      url + "/storage/v1/object/public/" + Bucket + "/" + path
    }

    /** Distinct object paths have distinct public URLs. */
    lemma PublicUrlInjective(p: string, q: string)
      requires PublicUrl(p) == PublicUrl(q)
      ensures p == q
    {
      var prefix := url + "/storage/v1/object/public/" + Bucket + "/";
      assert PublicUrl(p)[|prefix|..] == p;
      assert PublicUrl(q)[|prefix|..] == q;
    }

    /** The upload `save_file` sends: the bytes, POSTed to the object's key, with a content type from the name. */
    function SaveFileRequest(data: seq<byte>, filename: string): (req: Request)
      ensures req.verb == Post && req.body == Bytes(data) && req.params == map[]
      ensures req.url == url + "/storage/v1/object/uploads/images/" + filename
      ensures req.headers.Keys == {"Authorization", "apikey", "Content-Type"}
      ensures req.headers["Authorization"] == "Bearer " + key && req.headers["apikey"] == key
      ensures req.headers["Content-Type"] == ContentType(filename)
    {
      Request(Post, url + "/storage/v1/object/" + Bucket + "/" + ObjectPath(filename),
              Headers()["Content-Type" := ContentType(filename)], map[], Bytes(data))
    }

    /** `save_file`: on success, the object path and its public URL. */
    function SaveFile(filename: string, response: Response): (r: Result<(string, string)>)
      ensures r.Err? <==> Raises(response.status)
      ensures r.Err? ==> r.error == HttpStatus(response.status)
      ensures r.Ok? ==> r.value.0 == ObjectPath(filename) && r.value.1 == PublicUrl(r.value.0)
    {
      if Raises(response.status) then Err(HttpStatus(response.status))
      else Ok((ObjectPath(filename), PublicUrl(ObjectPath(filename))))
    }

    /**
     * The object `save_file` uploads is the one whose public URL it returns:
     * the public URL is the upload URL with `public/` inserted after
     * `/storage/v1/object/`, both naming bucket `uploads` and path `images/<name>`.
     */
    lemma UploadedObjectIsPublished(data: seq<byte>, filename: string, response: Response)
      requires SaveFile(filename, response).Ok?
      ensures var upload, public := SaveFileRequest(data, filename).url, SaveFile(filename, response).value.1;
        var k := |url| + 19;
        k <= |upload| && public == upload[..k] + "public/" + upload[k..] &&
        upload[k..] == Bucket + "/" + ObjectPath(filename)
    {
      var upload := SaveFileRequest(data, filename).url;
      var k := |url| + 19;
      assert upload[..k] == url + "/storage/v1/object/";
      assert upload[k..] == Bucket + "/" + ObjectPath(filename);
    }

    /** The insert `insert_record` sends: the row as JSON, its `image_url` derived from `filepath`. */
    function InsertRecordRequest(filename: string, filepath: string, result: string, diagnosis: string): (req: Request)
      ensures req.verb == Post && req.url == url + "/rest/v1/predictions" && req.params == map[]
      ensures req.headers.Keys == {"Authorization", "apikey", "Content-Type", "Prefer"}
      ensures req.headers["Authorization"] == "Bearer " + key && req.headers["apikey"] == key
      ensures req.headers["Content-Type"] == "application/json"
      ensures req.headers["Prefer"] == "return=representation"
      ensures req.body == Record(Payload(filename, filepath, PublicUrl(filepath), result, diagnosis))
    {
      Request(Post, url + "/rest/v1/predictions",
              Headers()["Content-Type" := "application/json"]["Prefer" := "return=representation"],
              map[], Record(Payload(filename, filepath, PublicUrl(filepath), result, diagnosis)))
    }

    /** `insert_record`: on success, the id of the first returned row (none when no row came back) and the image URL. */
    function InsertRecord(filepath: string, response: Response): (r: Result<(Option<int>, string)>)
      ensures r.Err? <==> Raises(response.status)
      ensures r.Err? ==> r.error == HttpStatus(response.status)
      ensures r.Ok? ==> r.value.1 == PublicUrl(filepath)
      ensures r.Ok? ==> (r.value.0.None? <==> response.rows == [])
      ensures r.Ok? && response.rows != [] ==> r.value.0 == Some(response.rows[0].id)
    {
      if Raises(response.status) then Err(HttpStatus(response.status))
      else Ok((if response.rows == [] then None else Some(response.rows[0].id), PublicUrl(filepath)))
    }

    /** The query `get_all_records` sends: every row, ordered by id. */
    function GetAllRecordsRequest(): (req: Request)
      ensures req.verb == Get && req.url == url + "/rest/v1/predictions" && req.body == NoBody
      ensures req.params == map["order" := "id"]
      ensures req.headers.Keys == {"Authorization", "apikey", "Accept"}
      ensures req.headers["Authorization"] == "Bearer " + key && req.headers["apikey"] == key
      ensures req.headers["Accept"] == "application/json"
    {
      Request(Get, url + "/rest/v1/predictions", Headers()["Accept" := "application/json"],
              map["order" := "id"], NoBody)
    }

    /** `get_all_records`: the returned rows one for one, in the order received, absent text fields as `''`. */
    function GetAllRecords(response: Response): (r: Result<seq<CloudRecord>>)
      ensures r.Err? <==> Raises(response.status)
      ensures r.Err? ==> r.error == HttpStatus(response.status)
      ensures r.Ok? ==> |r.value| == |response.rows|
      ensures r.Ok? ==> forall i :: 0 <= i < |response.rows| ==>
        var row, rec := response.rows[i], r.value[i];
        rec.id == row.id && rec.filename == row.filename && rec.result == row.result &&
        rec.createdAt == row.createdAt &&
        (row.diagnosis.Some? ==> rec.diagnosis == row.diagnosis.value) &&
        (row.diagnosis.None? ==> rec.diagnosis == "") &&
        (row.imageUrl.Some? ==> rec.imageUrl == row.imageUrl.value) &&
        (row.imageUrl.None? ==> rec.imageUrl == "")
    {
      if Raises(response.status) then Err(HttpStatus(response.status))
      else
        var rows := response.rows;
        Ok(seq(|rows|, i requires 0 <= i < |rows| =>
          CloudRecord(rows[i].id, rows[i].filename, rows[i].result, rows[i].diagnosis.GetOr(""),
                      rows[i].createdAt, rows[i].imageUrl.GetOr(""))))
    }

    /** `get_image_url`: the local route, although cloud images are served from their public URL. */
    function GetImageUrl(filename: string): string {
      ServedUrl(filename)
    }

    /** `file_exists`: uploads are assumed present, whatever the name. */
    predicate FileExists(filename: string) {
      true
    }

    /** Whatever the name, the file counts as present and its image URL is the local route. */
    lemma LocalImageRoute(filename: string)
      ensures FileExists(filename)
      ensures GetImageUrl(filename) == "/uploads/" + filename
    {
    }

    /**
     * Passing the path `save_file` returned to `insert_record` stores and
     * returns the very URL `save_file` returned.
     */
    lemma SaveThenInsertSameUrl(filename: string, saved: Response, inserted: Response,
                                result: string, diagnosis: string)
      requires SaveFile(filename, saved).Ok?
      ensures var (path, imageUrl) := SaveFile(filename, saved).value;
        InsertRecordRequest(filename, path, result, diagnosis).body.payload.imageUrl == imageUrl &&
        (InsertRecord(path, inserted).Ok? ==> InsertRecord(path, inserted).value.1 == imageUrl)
    {
    }
  }
}
