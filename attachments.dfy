/** attachments.go: the attachment parameters' Form method. */
module Attachments {
  import opened Wrappers
  import opened Text
  import opened Errors
  import opened Json
  import opened Multipart
  import opened Models

  /** `file` is the path of a file to upload, `link` an external link. */
  datatype AttachmentParams = AttachmentParams(name: string, uploadedTo: int, file: string, link: string)

  /** json.Marshal(a): every field is `omitempty`, in struct order. */
  function AttachmentJson(a: AttachmentParams): seq<Member> {
    StringMember("name", a.name) + NumberMember("uploaded_to", a.uploadedTo)
    + StringMember("file", a.file) + StringMember("link", a.link)
  }

  /** The fields written in multipart mode before the file part. */
  function AttachmentFields(a: AttachmentParams): seq<Part> {
    (if a.name != "" then [Field("name", a.name)] else [])
    + (if a.link != "" then [Field("link", a.link)] else [])
    + (if a.uploadedTo != 0 then [Field("uploaded_to", Itoa(a.uploadedTo))] else [])
  }

  function AttachmentParts(a: AttachmentParams, content: seq<byte>): seq<Part> {
    AttachmentFields(a) + [File("file", Base(a.file), content)]
  }

  /** AttachmentParams.Form. `file` is the file's bytes, or the error of
      opening or copying it. */
  method AttachmentForm(a: AttachmentParams, boundary: string, file: Result<seq<byte>, Error>)
    returns (r: Result<Form, Error>)
    ensures a.file == "" ==> r == Success(Form(AppJson, JsonBody(AttachmentJson(a))))
    ensures a.file != "" && file.Failure? ==> r == Failure(file.error)
    ensures a.file != "" && file.Success? ==>
      r == Success(Form(FormDataContentType(boundary), MultipartBody(AttachmentParts(a, file.value))))
  {
    if a.file != "" {
      var writer := new Writer(boundary);
      ghost var named: seq<Part> := [];
      if a.name != "" {
        writer.WriteField("name", a.name);
        named := [Field("name", a.name)];
      }
      assert writer.parts == named;
      if a.link != "" {
        writer.WriteField("link", a.link);
      }
      assert writer.parts == named + (if a.link != "" then [Field("link", a.link)] else []);
      if a.uploadedTo != 0 {
        writer.WriteField("uploaded_to", Itoa(a.uploadedTo));
      }
      assert writer.parts == AttachmentFields(a);
      if file.Failure? {
        return Failure(file.error);
      }
      writer.WriteFile("file", Base(a.file), file.value);
      return Success(Form(FormDataContentType(writer.boundary), MultipartBody(writer.parts)));
    }
    return Success(Form(AppJson, JsonBody(AttachmentJson(a))));
  }

  /** One file part, named `file`, last; before it the set fields among name,
      link and uploaded_to, in that order, so a link and the file can travel
      in the same body; `uploaded_to` is written exactly when the id is
      non-zero and reads back as the id. */
  lemma AttachmentPartsShape(a: AttachmentParams, content: seq<byte>)
    ensures var ps := AttachmentParts(a, content);
      && FileCount(ps) == 1
      && ps[|ps| - 1] == File("file", Base(a.file), content)
      && ps[..|ps| - 1] == (if a.name != "" then [Field("name", a.name)] else [])
                          + (if a.link != "" then [Field("link", a.link)] else [])
                          + (if a.uploadedTo != 0 then [Field("uploaded_to", Itoa(a.uploadedTo))] else [])
      && (a.link != "" ==> Field("link", a.link) in ps)
      && (a.uploadedTo != 0 ==> ps[|ps| - 2] == Field("uploaded_to", Itoa(a.uploadedTo)))
      && (forall p :: p in ps && p.name == "uploaded_to" ==> a.uploadedTo != 0 && ParseInt(p.value) == Some(a.uploadedTo))
  {
    var fields := AttachmentFields(a);
    var ps := AttachmentParts(a, content);
    assert FileCount(fields) == 0 by {
      assert forall i :: 0 <= i < |fields| ==> fields[i].Field?;
      FieldsHaveNoFiles(fields);
    }
    FileCountConcat(fields, [File("file", Base(a.file), content)]);
    assert ps[..|ps| - 1] == fields;
    ItoaRoundTrip(a.uploadedTo);
  }

  /** An update that sets only the name sends `{"name": ...}` as JSON. */
  lemma NameOnlyUpdate(name: string)
    requires name != ""
    ensures AttachmentJson(AttachmentParams(name, 0, "", "")) == [Member("name", String(name))]
  {
  }
}
