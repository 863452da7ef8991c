# go-bookstack client core, modelled in Dafny

This project models the core of the Go client for the BookStack HTTP API.
That core is:

- the `Bookstack` client and its functional options;
- the request pipeline every endpoint goes through: URL assembly, the
  Authorization and Content-Type headers, status handling and error
  envelopes;
- the two generic decoders: `ParseSingle` for one object and `ParseMultiple`
  for the `{data, total, error}` list envelope;
- the two query-string grammars: `QueryParams` for lists and the bracketed
  clause language of `SearchParams`;
- the `Form` methods of books, shelves and attachments, which choose between
  a JSON body and a multipart body;
- the recycle bin's accessors and endpoints.

Modules follow the source files:

| Module | Source file |
|---|---|
| `Client` | `bookstack.go` |
| `Models` | `models.go` |
| `Search` | `search.go` |
| `Books` | `books.go` |
| `Shelves` | `shelves.go` |
| `Attachments` | `attachments.go` |
| `RecycleBin` | `recycle_bin.go` |

Go library behaviour the core relies on is written out in supporting modules:

- `Text` holds `strconv.Itoa`, `strings.Join`, `TrimLeft`, `TrimRight`, `filepath.Base` and time's zero padding.
- `Url` holds `url.Values` and `url.QueryEscape`.
- `Multipart` holds the multipart `Writer` as an ordered list of parts and its content type.
- `Json` holds the decoder and encoder shapes.
- `Errors` holds the error values.

The source's form is kept:

- `url.Values` and `multipart.Writer` are classes whose methods update their fields.
- `Client.Bookstack` is a class, built by `New` with a loop over the options.
- `QueryParams.String`, `SearchParams.String`, the `Form` methods and `request` are methods that work step by step.
- Each of those methods is proved equal to a specification function, and the properties are proved as lemmas about those functions.
- Pure Go code (`Response.Error`, `ParseSingle`, `ParseMultiple`, `authorization`, the recycle-bin accessors) is modelled as functions.

Inputs the code cannot compute are parameters:

- the HTTP round trip (`Transport`, a function from the request to a status and body, or a transport error);
- JSON decoding (`Decoder<T>`, from bytes to what `json.Unmarshal` leaves in a zero-valued target, plus its error);
- the multipart boundary;
- the uploaded file's bytes, or the error from opening or copying it.

Some quirks of the source are kept as written:

- `CreatedAfter` and `CreatedBefore` are written with the `updated_after` and `updated_before` tags.
- `page` and `count` are sent as the pointer's address (`fmt.Sprint` of a `*int`), not as the number.
- `ParseSingle` never reports an error.
- The recycle-bin accessors always return `true`.
- A nil byte slice and an empty one are the same sequence.

## Model

| member | source | states |
|---|---|---|
| `Models.Response.Error` | models.go:21-28 | no error exactly when the envelope has code 0 and an empty message; otherwise the error is `ApiError(code, message)`, whose text is the decimal code, a space and the message |
| `Models.ErrorTextSplits` | models.go:24 | the code and the message can be read back from the error text: the decimal code comes before the first space and the message follows it |
| `Models.NotFoundEnvelope` | models.go:23-24 | an envelope with code 404 and message "not found" gives the error text "404 not found" |
| `Errors.Error.ErrorText` | models.go:24 | an API error prints as the decimal code, a space and the message; a file error as the operation, the path, ": " and the cause |
| `Models.QueryString` | models.go:39-71 | a nil `*QueryParams` returns the path unchanged; otherwise it returns path + "?" + the url.Values encoding of `QueryValues` |
| `Models.QueryValuesKeys` | models.go:47-67 | `count`, `offset` and `sort` are present exactly when non-zero or non-empty; `filter[f]` is present exactly when both field and value are set; `sort` is "+field" or "-field"; each key has one value; there are at most four keys |
| `Models.FilterKeyDistinct` | models.go:66 | a `filter[...]` key never collides with `count`, `offset` or `sort` |
| `Models.FilterKeyInjective` | models.go:66 | two fields share a `filter[...]` key only when they are the same field |
| `Models.ZeroQueryParams` | models.go:69 | a QueryParams with every field zero still adds the '?' and nothing after it |
| `Models.CountOnlyQuery` | models.go:47-69 | `QueryParams{Count: 1}.String("/users")` is "/users?count=1" |
| `Models.BlankForm` | models.go:113-115 | `blank{}` renders no content type and no body |
| `Url.Values.Add` | models.go:48 | the value is appended to the key's list; a new key gets a one-element list; other keys are unchanged |
| `Url.Values.Encode` | models.go:69 | the result is the keys sorted in byte order, each pair written as escaped key "=" escaped value, joined with '&' |
| `Url.EncodeMap` | models.go:69 | the encoding of a map: its pairs in sorted key order joined with '&'; `Values.Encode` is proved equal to it |
| `Url.QueryEscape` | models.go:69 | url.QueryEscape: unreserved characters kept, a space as '+', every other UTF-8 byte as "%XX" with upper-case hex |
| `Url.SortedUnique` | models.go:69 | two strictly sorted listings of the same key set are equal, so the encoding is determined by the map alone |
| `Url.QueryEscapeRoundTrip` | models.go:69 | unescaping `QueryEscape(s)` gives back the UTF-8 bytes of s |
| `Url.QueryEscapeNoSeparators` | models.go:69 | an escaped key or value never contains '&' or '=' |
| `Url.QueryEscapeUnreserved` | models.go:69 | letters, digits and `-_.~` are left as they are |
| `Url.EncodeEmpty` | models.go:69 | an empty url.Values encodes as "" |
| `Url.EncodeSingle` | search.go:157-159 | a map holding one key with one value encodes as that single pair |
| `Url.Insert` | models.go:69 | inserting a key into a strictly sorted list keeps it strictly sorted and adds exactly that key |
| `Url.Sort` | models.go:69 | the result is strictly sorted and has the same elements as the input |
| `Text.Itoa` | models.go:48 | the result is non-empty, has no space, starts with '-' exactly for negative n, and is otherwise all digits |
| `Text.ItoaRoundTrip` | models.go:48 | parsing `Itoa(n)` gives back n |
| `Text.NatToStringRoundTrip` | shelves.go:71 | the decimal digits of n denote n |
| `Text.JoinConcat` | search.go:157 | joining two non-empty lists is joining each and adding one separator between them |
| `Text.JoinSnoc` | search.go:154 | joining a list with one more element adds one separator and that element |
| `Text.SplitUnique` | books.go:166 | when the separator occurs in neither head, a string splits at a separator in only one way |
| `Text.TrimLeft` | bookstack.go:84 | the result is a suffix; every removed character is in the cutset; the first remaining one is not |
| `Text.TrimRight` | bookstack.go:84 | the result is a prefix; every removed character is in the cutset; the last remaining one is not |
| `Text.Base` | books.go:75 | the result is never empty; it is "/" or has no '/' in it |
| `Text.BaseOfJoin` | books.go:75 | the base of dir + "/" + name, and of name alone, is name |
| `Search.FormatDateRoundTrip` | search.go:32 | a date with a year from 0 to 9999 renders as ten characters `YYYY-MM-DD`, and those parse back to the date |
| `Search.PadIntRoundTrip` | search.go:79 | zero padding to width 2 or 4 keeps the value and has exactly that width |
| `Search.FormatDate` | search.go:79-93 | the `2006-01-02` layout: a four-digit year, a two-digit month and a two-digit day joined by '-'; its partner is `ParseDate` through `FormatDateRoundTrip` |
| `Search.SprintPtr` | search.go:70-76 | `fmt.Sprint` of a `*int`: "0x" and the address in lower-case hex, never the int it points to |
| `Search.SearchString` | search.go:62-160 | the result is q + "?" + the url.Values encoding of `SearchValues`: page, count and the joined query words |
| `Search.QueryClauses` | search.go:66-155 | the query slice is the free-text query followed by the clauses, in source order |
| `Search.AppendDateClauses` | search.go:78-94 | the four date clauses; the created-date filters use the `updated_after` and `updated_before` tags |
| `Search.AppendUserClauses` | search.go:96-124 | one clause per user filter that is set; an empty name stands for "me" |
| `Search.AppendContentClauses` | search.go:126-144 | `in_name` and `in_body` clauses when set, even if empty; the three flags only when true |
| `Search.SearchValuesKeys` | search.go:70-76 | `query` is always present with one value; `page` and `count` are present exactly when their pointers are set; there are no other keys |
| `Search.PointerTargetsIgnored` | search.go:71 | the ints behind the page and count pointers never affect the encoded values |
| `Search.QueryValueShape` | search.go:66-68 | the free-text query is the first word; with no clause the value is that query alone; otherwise each clause follows after one space, so an empty query gives a leading space |
| `Search.NoFiltersNoClauses` | search.go:157 | with every filter unset the query value is the free-text query alone |
| `Search.EmptySearch` | search.go:157-159 | `SearchParams{}` encodes as "query=" |
| `Search.InNameExample` | search.go:126-128 | `InName: "foo"` gives the query value " {in_name:foo}" |
| `Search.TypeExample` | search.go:146-155 | the types [book, page] give " {type:book|page}" |
| `Search.SingleClause` | search.go:157 | with exactly one clause the query value is the query text, one space, then the clause |
| `Search.UserFilterDefaults` | search.go:96-124 | for every search, each user filter set to "" puts `{tag:me}` among the clauses and each filter set to a name puts `{tag:name}` there, whatever the other filters are |
| `Search.CreatedDatesLookUpdated` | search.go:86-94 | a created-after (created-before) filter produces exactly the words of the matching updated-date filter |
| `Search.FlagsOnlyWhenTrue` | search.go:134-144 | each of the three flag clauses is among the clauses exactly when its flag is true |
| `Search.ColonFreeClauses` | search.go:78-155 | every clause except the flags has a ':', so a word without ':' is a clause only if it is a flag |
| `Client.DefaultConfig` | bookstack.go:60-63 | limit 180, a discarding logger, all other fields zero, and insecure off |
| `Client.Bookstack.New` | bookstack.go:58-70 | the client's fields are the defaults with each option applied in argument order |
| `Client.Bookstack.Apply` | bookstack.go:32-56 | one option writes its own field and nothing else |
| `Client.LastOptionWins` | bookstack.go:65-67 | if no later option writes the same field, the field holds the last option's value; `SetToken` sets both id and secret |
| `Client.ApplyAllConcat` | bookstack.go:65-67 | applying a + b is applying a and then b |
| `Client.NeverInsecure` | bookstack.go:27 | no option changes `insecure`, so every client New builds has it false |
| `Client.AuthorizationRoundTrip` | bookstack.go:72-74 | `Token id:secret` gives back exactly id and secret when the id has no ':' |
| `Client.AuthorizationValue` | bookstack.go:72-74 | the Authorization value `Token id:secret`; its partner is `AuthorizationRoundTrip` |
| `Client.RequestURL` | bookstack.go:84 | the URL is a prefix of the base, then "/api/", then a suffix of the path, and only slashes are dropped from either |
| `Client.RequestURLJoinsOnce` | bookstack.go:84 | no slash is left on either side of "/api/": the join never doubles a slash |
| `Client.ExtraSlashesIgnored` | bookstack.go:84 | any number of extra slashes at the end of the base or the start of the path gives the same URL |
| `Client.RequestHeaders` | bookstack.go:106-109 | Authorization comes first; Content-Type follows exactly when the form's content type is non-empty |
| `Client.Outcome` | bookstack.go:111-133 | a transport failure is returned as is; an error never comes with a body; a non-empty body is returned only for status 200 to 226, and then as it came |
| `Client.Bookstack.Request` | bookstack.go:80-135 | a form error is returned before any request is sent; otherwise the request has the verb, the URL, the headers and the body, and the result is `Outcome` of the reply |
| `Client.SuccessReturnsBody` | bookstack.go:123-125 | status 200 to 226 returns the body unchanged with no error |
| `Client.FailureStatusOutcome` | bookstack.go:127-133 | any other status returns no body: the envelope's decode error, or else its error, which is none for an empty envelope |
| `Client.ParseSingle` | bookstack.go:145-154 | there is never an error; the value is whatever the decoder left |
| `Client.ParseMultiple` | bookstack.go:156-175 | success exactly when the envelope decodes, has no error, and its data decodes; the envelope's decode error or API error takes precedence |
| `Client.EnvelopeErrorWins` | bookstack.go:164-166 | an envelope error, a non-zero code or a non-empty message alike, is what ParseMultiple returns, `ApiError(code, message)`, even when the data would decode |
| `Client.BlankRequest` | bookstack.go:106-109 | a request with a blank form carries only the Authorization header and no body |
| `Books.BookForm` | books.go:48-106 | no image gives JSON with "application/json"; with an image, a file error is returned, otherwise a multipart body with the writer's content type and `BookParts` |
| `Books.BookJsonKeys` | books.go:99-104 | the JSON body has `name` and `description` when set, in that order, and never `image` |
| `Books.BookPartsShape` | books.go:57-89 | exactly one file part, last, named `image`, with Base(image) as filename and the file's bytes; before it come name and description, each when set |
| `Books.BookImageFilename` | books.go:75 | the filename is the image path's last element |
| `Books.DeleteBook` | books.go:154-161 | true exactly when the DELETE request returns no error; the error is the request's |
| `Books.ExportPathInjective` | books.go:164-208 | different books or formats have different export paths |
| `Books.ExportBook` | books.go:164-208 | a GET of `/books/<id>/export/<format>`, returning what the request returned |
| `Shelves.ShelfForm` | shelves.go:52-118 | no image gives JSON; with an image, a file error is returned, otherwise a multipart body of `ShelfParts` |
| `Shelves.BookFields` | shelves.go:69-75 | one `books` field per id, in list order, each the id in decimal |
| `Shelves.BookFieldsRoundTrip` | shelves.go:71 | every `books` field parses back to its id, duplicates included |
| `Shelves.ShelfPartsShape` | shelves.go:61-89 | exactly one file part, last, named `image`; before it, in this order, the name when set, one field per book and the description when set, which is then the part just before the file |
| `Shelves.ShelfPartsOmitTags` | shelves.go:77 | multipart parts are only name, books, description and image; tags are never written |
| `Shelves.NoBooksNoBookFields` | shelves.go:69 | an empty book list writes no `books` field |
| `Shelves.ShelfJsonKeys` | shelves.go:111-116 | the JSON keys are name, description, books and tags, each present when set, in struct order |
| `Shelves.NumberValues` | shelves.go:47 | the ids become JSON numbers in order |
| `Shelves.TagValues` | shelves.go:48 | the tags become JSON objects in order |
| `Attachments.AttachmentForm` | attachments.go:56-120 | no file gives JSON; with a file, a file error is returned, otherwise a multipart body of `AttachmentParts` |
| `Attachments.AttachmentPartsShape` | attachments.go:65-89 | exactly one file part, last, named `file`; before it, in this order, the name, the link and `uploaded_to`, each when set, so a link and the file can travel together; `uploaded_to` is written exactly when the id is non-zero, just before the file, and parses back to the id |
| `Attachments.NameOnlyUpdate` | attachments.go:113-118 | parameters with only a name give the JSON object `{"name": ...}` |
| `Multipart.FileCountConcat` | books.go:75 | the file parts of a concatenation are those of both halves |
| `Multipart.FormDataContentType` | books.go:95 | "multipart/form-data; boundary=" and the boundary, quoted when it holds a character that needs quoting |
| `Multipart.Writer.WriteField` | books.go:59 | the field is appended after the parts already written |
| `Multipart.Writer.WriteFile` | books.go:75-89 | the file part, with its bytes, is appended after the parts already written |
| `RecycleBin.Deletable` | recycle_bin.go:21-59 | the decoded item is always returned as a pointer, with true |
| `RecycleBin.DeletableIgnoresType` | recycle_bin.go:21-59 | the `deletable_type` tag never changes what the accessors return |
| `RecycleBin.DeletableNeverFails` | recycle_bin.go:23-28 | even bytes the decoder rejects give a pointer and true |
| `RecycleBin.DeletedTypesDistinct` | recycle_bin.go:63-68 | the four `DeletableType` names "book", "chapter", "bookshelf" and "page" are pairwise different |
| `RecycleBin.ListRecycleBinItems` | recycle_bin.go:70-84 | the request's error, or else ParseMultiple's items or error, passed on unchanged |
| `RecycleBin.BinItemCount` | recycle_bin.go:86-122 | restore is a PUT and delete a DELETE of `/recycle-bin/<id>`; restore reads the reply's `restore_count` field and delete its `delete_count` field; a failed request or decode gives 0 and that error; otherwise the count |

## Left out

- Rate limiting (`ratelimit.New`, `Take`) is left out: its effect is on timing only. The limiter is kept only as the rate it was built with.
- The HTTP exchange, `http.NewRequestWithContext`, `client.Do` and reading the body are left out. The reply is an input. `NewRequestWithContext` rejecting a malformed URL is therefore not modelled.
- The insecure-TLS branch of `request`, which replaces the transport of the shared default client, is left out. It is unreachable, because no option sets `insecure`.
- Opening and copying files is left out. The file's bytes, or the error, are an input. A failure while opening and one while copying both return the same error with no body.
- Multipart byte framing, the part headers (Content-Disposition with its quoting), the `Close` trailer and the random boundary are left out. A body is its ordered list of parts, and the boundary is an input.
- The errors of `WriteField`, `CreateFormFile`, `Close` and `json.Marshal` on these parameter types are left out. None of them can happen when writing to an in-memory buffer.
- `encoding/json` itself is left out. Decoding is an abstract function, and encoding is the ordered list of members left after `omitempty`.
- Invalid UTF-8 in strings is left out: a Dafny string is a sequence of code points.
- The List, Get, Create and Update facades, and `Search`, are left out. They only wire a path and a verb through `Request` and `ParseSingle` or `ParseMultiple`, and those are modelled.
- The chapter, page and user endpoints are left out: they repeat the book pattern with a bare JSON body.
- Logging is left out; only which logger is set is kept.
- The resource record types (Book, Chapter, Shelf, Page, ...) are left out. The recycle-bin accessors are generic over the record's decoder.
- `time.Time` is reduced to a calendar date. Years outside 0 to 9999 are formatted but are not covered by `Search.FormatDateRoundTrip`.
- `Text.Base` follows `filepath.Base` with Unix rules only: the Windows separator `\` and volume names are not modelled.
