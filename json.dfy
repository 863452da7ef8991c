/** encoding/json as the client sees it. Decoding is left abstract: a decoder
    for a Go type is any function from the raw bytes to what json.Unmarshal
    leaves in a zero-valued target together with the error it returns.
    Encoding is modelled as the ordered list of members json.Marshal writes for
    a parameter struct, with `omitempty` fields left out when they hold their
    zero value; the bytes themselves are not modelled. */
module Json {
  import opened Wrappers
  import opened Errors
  import opened Text

  /** The target as json.Unmarshal left it (zero after a syntax error, possibly
      partly filled after a type mismatch) and the error it returned. */
  datatype Unmarshalled<T> = Unmarshalled(value: T, err: Option<Error>)

  type Decoder<T> = seq<byte> -> Unmarshalled<T>

  datatype Value =
    | String(s: string)
    | Number(n: int)
    | Array(items: seq<Value>)
    | Object(members: seq<Member>)

  datatype Member = Member(key: string, value: Value)

  /** A string field tagged `omitempty`. */
  function StringMember(key: string, s: string): seq<Member> {
    if s == "" then [] else [Member(key, String(s))]
  }

  /** An int field tagged `omitempty`. */
  function NumberMember(key: string, n: int): seq<Member> {
    if n == 0 then [] else [Member(key, Number(n))]
  }

  /** A slice field tagged `omitempty`: left out when it has no elements. */
  function ArrayMember(key: string, items: seq<Value>): seq<Member> {
    if items == [] then [] else [Member(key, Array(items))]
  }

  function Keys(ms: seq<Member>): seq<string> {
    if ms == [] then [] else [ms[0].key] + Keys(ms[1..])
  }

  lemma {:induction false} KeysConcat(a: seq<Member>, b: seq<Member>)
    ensures Keys(a + b) == Keys(a) + Keys(b)
    decreases |a|
  {
    if a == [] {
      assert a + b == b;
    } else {
      assert (a + b)[1..] == a[1..] + b;
      KeysConcat(a[1..], b);
    }
  }
}
