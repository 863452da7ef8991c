/** The parts of mime/multipart's Writer the request forms use. The byte framing
    and the random boundary are not modelled: a body is the ordered list of its
    parts, and the boundary is given. */
module Multipart {
  import opened Text

  /** A form field (WriteField) or a file part (CreateFormFile followed by
      copying the file's bytes into it). */
  datatype Part =
    | Field(name: string, value: string)
    | File(name: string, filename: string, content: seq<byte>)

  /** The characters that make FormDataContentType quote the boundary. */
  predicate NeedsQuoting(boundary: string) {
    exists i :: 0 <= i < |boundary| && boundary[i] in "()<>@,;:\\\"/[]?= "
  }

  function FormDataContentType(boundary: string): string {
    "multipart/form-data; boundary=" + (if NeedsQuoting(boundary) then "\"" + boundary + "\"" else boundary)
  }

  function FileCount(parts: seq<Part>): nat {
    if parts == [] then 0 else (if parts[0].File? then 1 else 0) + FileCount(parts[1..])
  }

  lemma {:induction false} FileCountConcat(a: seq<Part>, b: seq<Part>)
    ensures FileCount(a + b) == FileCount(a) + FileCount(b)
    decreases |a|
  {
    if a == [] {
      assert a + b == b;
    } else {
      assert (a + b)[1..] == a[1..] + b;
      FileCountConcat(a[1..], b);
    }
  }

  /** A list of plain fields holds no file part. */
  lemma {:induction false} FieldsHaveNoFiles(ps: seq<Part>)
    requires forall i :: 0 <= i < |ps| ==> ps[i].Field?
    ensures FileCount(ps) == 0
    decreases |ps|
  {
    if ps != [] {
      FieldsHaveNoFiles(ps[1..]);
    }
  }

  class Writer {
    const boundary: string
    var parts: seq<Part>

    constructor (boundary: string)
      ensures this.boundary == boundary && parts == []
    {
      this.boundary := boundary;
      parts := [];
    }

    method WriteField(name: string, value: string)
      modifies this
      ensures parts == old(parts) + [Field(name, value)]
    {
      parts := parts + [Field(name, value)];
    }

    /** CreateFormFile followed by io.Copy of the file's bytes into the part. */
    method WriteFile(name: string, filename: string, content: seq<byte>)
      modifies this
      ensures parts == old(parts) + [File(name, filename, content)]
    {
      parts := parts + [File(name, filename, content)];
    }
  }
}
