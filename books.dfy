/** books.go: the book parameters' Form method, DeleteBook and the four
    export endpoints. */
module Books {
  import opened Wrappers
  import opened Text
  import opened Errors
  import opened Json
  import opened Multipart
  import opened Models
  import opened Client

  datatype BookParams = BookParams(name: string, description: string, image: string)

  /** json.Marshal(bp): every field is `omitempty`. */
  function BookJson(bp: BookParams): seq<Member> {
    StringMember("name", bp.name) + StringMember("description", bp.description) + StringMember("image", bp.image)
  }

  /** The parts written in multipart mode, `content` being the image file's bytes. */
  function BookParts(bp: BookParams, content: seq<byte>): seq<Part> {
    (if bp.name != "" then [Field("name", bp.name)] else [])
    + (if bp.description != "" then [Field("description", bp.description)] else [])
    + [File("image", Base(bp.image), content)]
  }

  /** BookParams.Form. `image` is what opening bp.image and copying it yields:
      its bytes, or the error of os.Open or io.Copy. The file is only looked at
      when bp.image is set. */
  method BookForm(bp: BookParams, boundary: string, image: Result<seq<byte>, Error>)
    returns (r: Result<Form, Error>)
    ensures bp.image == "" ==> r == Success(Form(AppJson, JsonBody(BookJson(bp))))
    ensures bp.image != "" && image.Failure? ==> r == Failure(image.error)
    ensures bp.image != "" && image.Success? ==>
      r == Success(Form(FormDataContentType(boundary), MultipartBody(BookParts(bp, image.value))))
  {
    if bp.image != "" {
      var writer := new Writer(boundary);
      ghost var fields: seq<Part> := [];
      if bp.name != "" {
        writer.WriteField("name", bp.name);
        fields := [Field("name", bp.name)];
      }
      assert writer.parts == fields;
      if bp.description != "" {
        writer.WriteField("description", bp.description);
      }
      if image.Failure? {
        return Failure(image.error);
      }
      assert writer.parts == fields + (if bp.description != "" then [Field("description", bp.description)] else []);
      writer.WriteFile("image", Base(bp.image), image.value);
      return Success(Form(FormDataContentType(writer.boundary), MultipartBody(writer.parts)));
    }
    return Success(Form(AppJson, JsonBody(BookJson(bp))));
  }

  /** Without an image the JSON body carries only the fields that are set,
      and never an `image` member. */
  lemma BookJsonKeys(bp: BookParams)
    requires bp.image == ""
    ensures Keys(BookJson(bp)) ==
      (if bp.name != "" then ["name"] else []) + (if bp.description != "" then ["description"] else [])
  {
    var n := StringMember("name", bp.name);
    var d := StringMember("description", bp.description);
    assert BookJson(bp) == n + d + [];
    assert Keys(n + d) == Keys(n) + Keys(d) by {
      KeysConcat(n, d);
    }
    KeysConcat(n + d, []);
  }

  /** The multipart body holds exactly one file part, the last one, named
      `image` and carrying the image's last path element and its bytes
      verbatim; the fields before it are the set ones among name and
      description, in that order. */
  lemma BookPartsShape(bp: BookParams, content: seq<byte>)
    ensures var ps := BookParts(bp, content);
      && FileCount(ps) == 1
      && ps[|ps| - 1] == File("image", Base(bp.image), content)
      && ps[..|ps| - 1] == (if bp.name != "" then [Field("name", bp.name)] else [])
                          + (if bp.description != "" then [Field("description", bp.description)] else [])
  {
    var fields := (if bp.name != "" then [Field("name", bp.name)] else [])
                  + (if bp.description != "" then [Field("description", bp.description)] else []);
    var file := [File("image", Base(bp.image), content)];
    assert BookParts(bp, content) == fields + file;
    FileCountConcat(fields, file);
    assert FileCount(fields) == 0;
    assert FileCount(file) == 1;
  }

  /** The filename drops the image's directories. */
  lemma BookImageFilename(bp: BookParams, dir: string, name: string, content: seq<byte>)
    requires name != "" && '/' !in name && bp.image == dir + "/" + name
    ensures var ps := BookParts(bp, content); ps[|ps| - 1].filename == name
  {
    BaseOfJoin(dir, name);
  }

  /** DeleteBook: true exactly when the request returns no error. */
  method DeleteBook(b: Bookstack, id: int, transport: Transport, envelope: Decoder<Response>)
    returns (deleted: bool, err: Option<Error>)
    ensures deleted <==> err.None?
    ensures err == Outcome(transport(BlankRequest(b, Delete, "/books/" + Itoa(id))), envelope).1
  {
    var _, _, e := b.Request(Delete, "/books/" + Itoa(id), Success(BlankForm()), transport, envelope);
    if e.Some? {
      return false, e;
    }
    return true, None;
  }

  datatype ExportFormat = Html | Pdf | Markdown | Plaintext

  function FormatName(f: ExportFormat): string {
    match f
    case Html => "html"
    case Pdf => "pdf"
    case Markdown => "markdown"
    case Plaintext => "plaintext"
  }

  /** `/books/<id>/export/<format>` */
  function ExportPath(id: int, f: ExportFormat): string {
    "/books/" + Itoa(id) + "/export/" + FormatName(f)
  }

  lemma ExportPathSplits(id: int, f: ExportFormat)
    ensures ExportPath(id, f)[7..] == Itoa(id) + ['/'] + ("export/" + FormatName(f))
    ensures '/' !in Itoa(id)
  {
    var p := ExportPath(id, f);
    assert |"/books/"| == 7;
    assert p == "/books/" + (Itoa(id) + ['/'] + ("export/" + FormatName(f)));
  }

  lemma FormatNameInjective(f1: ExportFormat, f2: ExportFormat)
    requires FormatName(f1) == FormatName(f2)
    ensures f1 == f2
  {
    assert |FormatName(f1)| == |FormatName(f2)|;
  }

  /** Each book and format has its own export path. */
  lemma ExportPathInjective(id1: int, f1: ExportFormat, id2: int, f2: ExportFormat)
    requires ExportPath(id1, f1) == ExportPath(id2, f2)
    ensures id1 == id2 && f1 == f2
  {
    ExportPathSplits(id1, f1);
    ExportPathSplits(id2, f2);
    var x1, x2 := "export/" + FormatName(f1), "export/" + FormatName(f2);
    SplitUnique(Itoa(id1), x1, Itoa(id2), x2, '/');
    ItoaRoundTrip(id1);
    ItoaRoundTrip(id2);
    assert FormatName(f1) == x1[7..] && FormatName(f2) == x2[7..];
    FormatNameInjective(f1, f2);
  }

  /** ExportBookHTML, ExportBookPDF, ExportBookMarkdown, ExportBookPlaintext:
      a GET of the export path, returning what the request returned. */
  method ExportBook(b: Bookstack, id: int, f: ExportFormat, transport: Transport, envelope: Decoder<Response>)
    returns (data: seq<byte>, err: Option<Error>)
    ensures (data, err) == Outcome(transport(BlankRequest(b, Get, ExportPath(id, f))), envelope)
  {
    var _, raw, e := b.Request(Get, ExportPath(id, f), Success(BlankForm()), transport, envelope);
    if e.Some? {
      return [], e;
    }
    return raw, None;
  }
}
