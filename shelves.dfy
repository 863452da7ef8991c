/** shelves.go: the shelf parameters' Form method. */
module Shelves {
  import opened Wrappers
  import opened Text
  import opened Errors
  import opened Json
  import opened Multipart
  import opened Models

  datatype ShelfParams = ShelfParams(name: string, description: string, books: seq<int>,
                                     tags: seq<TagParams>, image: string)

  function NumberValues(xs: seq<int>): (vs: seq<Value>)
    ensures |vs| == |xs| && forall i :: 0 <= i < |xs| ==> vs[i] == Number(xs[i])
  {
    if xs == [] then [] else [Number(xs[0])] + NumberValues(xs[1..])
  }

  function TagValues(ts: seq<TagParams>): (vs: seq<Value>)
    ensures |vs| == |ts| && forall i :: 0 <= i < |ts| ==> vs[i] == TagJson(ts[i])
  {
    if ts == [] then [] else [TagJson(ts[0])] + TagValues(ts[1..])
  }

  /** json.Marshal(sp): every field is `omitempty`, so an empty book list and
      an empty tag list are left out. */
  function ShelfJson(sp: ShelfParams): seq<Member> {
    StringMember("name", sp.name) + StringMember("description", sp.description)
    + ArrayMember("books", NumberValues(sp.books)) + ArrayMember("tags", TagValues(sp.tags))
    + StringMember("image", sp.image)
  }

  /** One `books` field per id, in list order, each the id in decimal. */
  function BookFields(books: seq<int>): (ps: seq<Part>)
    ensures |ps| == |books|
    ensures forall i :: 0 <= i < |books| ==> ps[i] == Field("books", Itoa(books[i]))
  {
    if books == [] then []
    else BookFields(books[..|books| - 1]) + [Field("books", Itoa(books[|books| - 1]))]
  }

  /** The fields written before the image: the name, the books, the description. */
  function ShelfFields(sp: ShelfParams): seq<Part> {
    (if sp.name != "" then [Field("name", sp.name)] else [])
    + BookFields(sp.books)
    + (if sp.description != "" then [Field("description", sp.description)] else [])
  }

  /** The parts written in multipart mode; the tags are not among them. */
  function ShelfParts(sp: ShelfParams, content: seq<byte>): seq<Part> {
    ShelfFields(sp) + [File("image", Base(sp.image), content)]
  }

  /** ShelfParams.Form. `image` is the image file's bytes, or the error of
      opening or copying it. */
  method ShelfForm(sp: ShelfParams, boundary: string, image: Result<seq<byte>, Error>)
    returns (r: Result<Form, Error>)
    ensures sp.image == "" ==> r == Success(Form(AppJson, JsonBody(ShelfJson(sp))))
    ensures sp.image != "" && image.Failure? ==> r == Failure(image.error)
    ensures sp.image != "" && image.Success? ==>
      r == Success(Form(FormDataContentType(boundary), MultipartBody(ShelfParts(sp, image.value))))
  {
    if sp.image != "" {
      var writer := new Writer(boundary);
      ghost var named: seq<Part> := [];
      if sp.name != "" {
        writer.WriteField("name", sp.name);
        named := [Field("name", sp.name)];
      }
      assert writer.parts == named + BookFields(sp.books[..0]);
      for i := 0 to |sp.books|
        invariant writer.parts == named + BookFields(sp.books[..i])
      {
        assert sp.books[..i + 1][..i] == sp.books[..i];
        writer.WriteField("books", Itoa(sp.books[i]));
      }
      assert sp.books[..|sp.books|] == sp.books;
      ghost var described: seq<Part> := [];
      if sp.description != "" {
        writer.WriteField("description", sp.description);
        described := [Field("description", sp.description)];
      }
      assert writer.parts == named + BookFields(sp.books) + described;
      if image.Failure? {
        return Failure(image.error);
      }
      writer.WriteFile("image", Base(sp.image), image.value);
      return Success(Form(FormDataContentType(writer.boundary), MultipartBody(writer.parts)));
    }
    return Success(Form(AppJson, JsonBody(ShelfJson(sp))));
  }

  /** Every id comes back from its field, duplicates included, in order. */
  lemma BookFieldsRoundTrip(books: seq<int>)
    ensures var ps := BookFields(books);
      forall i :: 0 <= i < |books| ==> ps[i].name == "books" && ParseInt(ps[i].value) == Some(books[i])
  {
    forall i | 0 <= i < |books| ensures ParseInt(Itoa(books[i])) == Some(books[i]) {
      ItoaRoundTrip(books[i]);
    }
  }

  lemma ShelfFieldsNoFiles(sp: ShelfParams)
    ensures FileCount(ShelfFields(sp)) == 0
  {
    var fields := ShelfFields(sp);
    assert forall i :: 0 <= i < |fields| ==> fields[i].Field?;
    FieldsHaveNoFiles(fields);
  }

  lemma ShelfFieldsBooks(sp: ShelfParams)
    ensures var fs := ShelfFields(sp);
      var n := if sp.name != "" then 1 else 0;
      && |fs| == n + |sp.books| + (if sp.description != "" then 1 else 0)
      && (sp.name != "" ==> fs[0] == Field("name", sp.name))
      && fs[n..n + |sp.books|] == BookFields(sp.books)
      && (sp.description != "" ==> fs[|fs| - 1] == Field("description", sp.description))
  {
    var named := if sp.name != "" then [Field("name", sp.name)] else [];
    var described := if sp.description != "" then [Field("description", sp.description)] else [];
    var fs := ShelfFields(sp);
    assert fs == named + BookFields(sp.books) + described;
    assert (named + BookFields(sp.books))[|named|..] == BookFields(sp.books);
  }

  /** The multipart body: the name if set, one field per book, the description
      if set, then the single file part, named `image`. */
  lemma ShelfPartsShape(sp: ShelfParams, content: seq<byte>)
    ensures var ps := ShelfParts(sp, content);
      var n := if sp.name != "" then 1 else 0;
      && FileCount(ps) == 1
      && ps[|ps| - 1] == File("image", Base(sp.image), content)
      && ps[..|ps| - 1] == (if sp.name != "" then [Field("name", sp.name)] else [])
                          + BookFields(sp.books)
                          + (if sp.description != "" then [Field("description", sp.description)] else [])
      && |ps| == n + |sp.books| + (if sp.description != "" then 1 else 0) + 1
      && (sp.name != "" ==> ps[0] == Field("name", sp.name))
      && ps[n..n + |sp.books|] == BookFields(sp.books)
      && (sp.description != "" ==> ps[|ps| - 2] == Field("description", sp.description))
  {
    var fields := ShelfFields(sp);
    var file := [File("image", Base(sp.image), content)];
    ShelfFieldsNoFiles(sp);
    ShelfFieldsBooks(sp);
    FileCountConcat(fields, file);
    assert ShelfParts(sp, content)[..|fields|] == fields;
  }

  /** Tags are never written in multipart mode. */
  lemma ShelfPartsOmitTags(sp: ShelfParams, content: seq<byte>)
    ensures forall p :: p in ShelfParts(sp, content) ==> p.name in ["name", "books", "description", "image"]
  {
  }

  /** An empty book list writes no `books` field. */
  lemma NoBooksNoBookFields(sp: ShelfParams, content: seq<byte>)
    requires sp.books == []
    ensures forall p :: p in ShelfParts(sp, content) ==> p.name != "books"
  {
  }

  lemma StringMemberKeys(k: string, s: string)
    ensures Keys(StringMember(k, s)) == if s != "" then [k] else []
  {
  }

  lemma ArrayMemberKeys(k: string, vs: seq<Value>)
    ensures Keys(ArrayMember(k, vs)) == if vs != [] then [k] else []
  {
  }

  /** Without an image the JSON body has the set fields in struct order. */
  lemma ShelfJsonKeys(sp: ShelfParams)
    requires sp.image == ""
    ensures Keys(ShelfJson(sp)) ==
      (if sp.name != "" then ["name"] else []) + (if sp.description != "" then ["description"] else [])
      + (if sp.books != [] then ["books"] else []) + (if sp.tags != [] then ["tags"] else [])
  {
    var a := StringMember("name", sp.name);
    var b := StringMember("description", sp.description);
    var c := ArrayMember("books", NumberValues(sp.books));
    var d := ArrayMember("tags", TagValues(sp.tags));
    assert StringMember("image", sp.image) == [];
    assert ShelfJson(sp) == a + b + c + d + [];
    KeysConcat(a, b);
    KeysConcat(a + b, c);
    KeysConcat(a + b + c, d);
    KeysConcat(a + b + c + d, []);
    assert Keys(ShelfJson(sp)) == Keys(a) + Keys(b) + Keys(c) + Keys(d) + [];
    StringMemberKeys("name", sp.name);
    StringMemberKeys("description", sp.description);
    ArrayMemberKeys("books", NumberValues(sp.books));
    ArrayMemberKeys("tags", TagValues(sp.tags));
  }
}
