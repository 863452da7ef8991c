/** The parts of net/url the query builders use: `url.Values` (a map from a key
    to its list of values), its `Add` method and its `Encode` method, which lists
    the keys in byte order and writes each value as `key=value` with both parts
    query-escaped, pairs separated by '&'. */
module Url {
  import opened Text
  import opened Wrappers

  // ---------------------------------------------------------------------------
  // Byte order on strings

  /** Strict lexicographic order on code points. UTF-8 preserves code point
      order, so this is the byte order Go's sort of string keys uses. */
  predicate Below(a: string, b: string)
    decreases |a|
  {
    if a == [] then b != []
    else if b == [] then false
    else if a[0] == b[0] then Below(a[1..], b[1..])
    else a[0] < b[0]
  }

  lemma {:induction false} BelowIrreflexive(a: string)
    ensures !Below(a, a)
    decreases |a|
  {
    if a != [] { BelowIrreflexive(a[1..]); }
  }

  lemma {:induction false} BelowAsymmetric(a: string, b: string)
    ensures Below(a, b) ==> !Below(b, a)
    decreases |a|
  {
    if a != [] && b != [] && a[0] == b[0] { BelowAsymmetric(a[1..], b[1..]); }
  }

  lemma {:induction false} BelowTransitive(a: string, b: string, c: string)
    requires Below(a, b) && Below(b, c)
    ensures Below(a, c)
    decreases |a|
  {
    if a != [] && a[0] == b[0] && b[0] == c[0] { BelowTransitive(a[1..], b[1..], c[1..]); }
  }

  lemma {:induction false} BelowTotal(a: string, b: string)
    ensures a == b || Below(a, b) || Below(b, a)
    decreases |a|
  {
    if a != [] && b != [] && a[0] == b[0] {
      BelowTotal(a[1..], b[1..]);
      assert a == [a[0]] + a[1..] && b == [b[0]] + b[1..];
    }
  }

  predicate StrictlySorted(ks: seq<string>) {
    forall i, j :: 0 <= i < j < |ks| ==> Below(ks[i], ks[j])
  }

  /** Puts `k` into its place in a strictly sorted list, unless it is there already. */
  function Insert(ks: seq<string>, k: string): (r: seq<string>)
    requires StrictlySorted(ks)
    ensures StrictlySorted(r)
    ensures forall x :: x in r <==> x in ks || x == k
  {
    if ks == [] then [k]
    else if k == ks[0] then ks
    else if Below(k, ks[0]) then
      assert forall j :: 0 < j < |ks| ==> Below(k, ks[j]) by {
        forall j | 0 < j < |ks| ensures Below(k, ks[j]) { BelowTransitive(k, ks[0], ks[j]); }
      }
      [k] + ks
    else
      BelowTotal(k, ks[0]);
      var tail := Insert(ks[1..], k);
      assert forall x :: x in tail ==> Below(ks[0], x);
      [ks[0]] + tail
  }

  /** Sorts a list of keys and drops repeats. */
  function Sort(ks: seq<string>): (r: seq<string>)
    ensures StrictlySorted(r)
    ensures forall x :: x in r <==> x in ks
  {
    if ks == [] then [] else Insert(Sort(ks[..|ks| - 1]), ks[|ks| - 1])
  }

  /** A set of keys has exactly one strictly sorted listing. */
  lemma {:induction false} SortedUnique(a: seq<string>, b: seq<string>)
    requires StrictlySorted(a) && StrictlySorted(b)
    requires forall x :: x in a <==> x in b
    ensures a == b
    decreases |a|
  {
    assert b != [] ==> b[0] in b;
    if a != [] {
      assert a[0] in a;
      assert b != [] && a[0] in b;
      if a[0] != b[0] {
        assert b[0] in b;
        var i :| 0 <= i < |a| && a[i] == b[0];
        var j :| 0 <= j < |b| && b[j] == a[0];
        assert Below(a[0], b[0]);
        assert Below(b[0], a[0]);
        BelowAsymmetric(a[0], b[0]);
        assert false;
      }
      assert a == [a[0]] + a[1..] && b == [b[0]] + b[1..];
      forall x ensures x in a[1..] <==> x in b[1..] {
        if x in a[1..] {
          var i :| 0 <= i < |a[1..]| && a[1..][i] == x;
          assert Below(a[0], a[i + 1]);
          BelowIrreflexive(x);
          assert x in b;
        }
        if x in b[1..] {
          var j :| 0 <= j < |b[1..]| && b[1..][j] == x;
          assert Below(b[0], b[j + 1]);
          BelowIrreflexive(x);
          assert x in a;
        }
      }
      SortedUnique(a[1..], b[1..]);
    }
  }

  lemma {:induction false} SortedListingExists(s: set<string>)
    ensures exists r :: StrictlySorted(r) && forall x :: x in r <==> x in s
    decreases s
  {
    if s == {} {
      assert StrictlySorted([]) && forall x :: x in [] <==> x in s;
    } else {
      var k :| k in s;
      SortedListingExists(s - {k});
      var r :| StrictlySorted(r) && forall x :: x in r <==> x in s - {k};
      var r' := Insert(r, k);
      assert StrictlySorted(r') && forall x :: x in r' <==> x in s;
    }
  }

  /** The keys of a set in byte order. */
  ghost function SortedKeys(s: set<string>): (r: seq<string>)
    ensures StrictlySorted(r)
    ensures forall x :: x in r <==> x in s
  {
    SortedListingExists(s);
    var r :| StrictlySorted(r) && forall x :: x in r <==> x in s; r
  }

  // ---------------------------------------------------------------------------
  // Query escaping (url.QueryEscape)

  /** The characters url.QueryEscape leaves alone. */
  predicate Unreserved(c: char) {
    ('A' <= c <= 'Z') || ('a' <= c <= 'z') || ('0' <= c <= '9') || c == '-' || c == '_' || c == '.' || c == '~'
  }

  /** The UTF-8 encoding of one character. */
  function Utf8(c: char): (bs: seq<byte>)
    ensures 1 <= |bs| <= 4
    ensures |bs| == 1 <==> c as int < 0x80
    ensures |bs| == 1 ==> bs[0] as int == c as int
  {
    var cp := c as int;
    if cp < 0x80 then [cp as byte]
    else if cp < 0x800 then [(0xC0 + cp / 64) as byte, (0x80 + cp % 64) as byte]
    else if cp < 0x10000 then
      [(0xE0 + cp / 4096) as byte, (0x80 + cp / 64 % 64) as byte, (0x80 + cp % 64) as byte]
    else
      [(0xF0 + cp / 262144) as byte, (0x80 + cp / 4096 % 64) as byte,
       (0x80 + cp / 64 % 64) as byte, (0x80 + cp % 64) as byte]
  }

  function Utf8String(s: string): seq<byte> {
    if s == [] then [] else Utf8(s[0]) + Utf8String(s[1..])
  }

  function UpperHexDigit(d: int): (c: char)
    requires 0 <= d < 16
  {
    if d < 10 then ('0' as int + d) as char else ('A' as int + d - 10) as char
  }

  lemma HexDigitRoundTrip(d: int)
    requires 0 <= d < 16
    ensures IsHex(UpperHexDigit(d)) && HexValue(UpperHexDigit(d)) == d
  {
  }

  predicate IsHex(c: char) {
    ('0' <= c <= '9') || ('a' <= c <= 'f') || ('A' <= c <= 'F')
  }

  function HexValue(c: char): (v: int)
    requires IsHex(c)
    ensures 0 <= v < 16
  {
    if '0' <= c <= '9' then c as int - '0' as int
    else if 'a' <= c <= 'f' then c as int - 'a' as int + 10
    else c as int - 'A' as int + 10
  }

  /** "%XX" for every byte, X an upper-case hexadecimal digit. */
  function PercentBytes(bs: seq<byte>): (s: string)
    ensures forall i :: 0 <= i < |s| ==> s[i] == '%' || IsHex(s[i])
  {
    if bs == [] then []
    else
      var b := bs[0] as int;
      ['%', UpperHexDigit(b / 16), UpperHexDigit(b % 16)] + PercentBytes(bs[1..])
  }

  function EscapeChar(c: char): string {
    if Unreserved(c) then [c] else if c == ' ' then "+" else PercentBytes(Utf8(c))
  }

  /** url.QueryEscape. */
  function QueryEscape(s: string): string {
    if s == [] then [] else EscapeChar(s[0]) + QueryEscape(s[1..])
  }

  /** url.QueryUnescape, yielding the bytes of the decoded string: "%XX" is a byte,
      '+' is a space, anything else stands for its own UTF-8 bytes. */
  function QueryUnescape(s: string): Option<seq<byte>> {
    if s == [] then Some([])
    else if s[0] == '%' then
      if |s| >= 3 && IsHex(s[1]) && IsHex(s[2]) then
        Prepend([(HexValue(s[1]) * 16 + HexValue(s[2])) as byte], QueryUnescape(s[3..]))
      else None
    else if s[0] == '+' then Prepend([32], QueryUnescape(s[1..]))
    else Prepend(Utf8(s[0]), QueryUnescape(s[1..]))
  }

  function Prepend(bs: seq<byte>, o: Option<seq<byte>>): Option<seq<byte>> {
    if o.Some? then Some(bs + o.value) else None
  }

  /** One "%XX" triple decodes to its byte. */
  lemma UnescapeTriple(b: byte, tail: string)
    ensures QueryUnescape(['%', UpperHexDigit(b as int / 16), UpperHexDigit(b as int % 16)] + tail)
            == Prepend([b], QueryUnescape(tail))
  {
    var hi, lo := b as int / 16, b as int % 16;
    var s := ['%', UpperHexDigit(hi), UpperHexDigit(lo)] + tail;
    HexDigitRoundTrip(hi);
    HexDigitRoundTrip(lo);
    assert s[0] == '%' && s[1] == UpperHexDigit(hi) && s[2] == UpperHexDigit(lo) && s[3..] == tail;
    assert hi * 16 + lo == b as int;
  }

  lemma {:induction false} UnescapePercent(bs: seq<byte>, rest: string)
    ensures QueryUnescape(PercentBytes(bs) + rest) == Prepend(bs, QueryUnescape(rest))
    decreases |bs|
  {
    if bs == [] {
      assert PercentBytes(bs) + rest == rest;
      if QueryUnescape(rest).Some? {
        assert bs + QueryUnescape(rest).value == QueryUnescape(rest).value;
      }
    } else {
      var b := bs[0] as int;
      var tail := PercentBytes(bs[1..]) + rest;
      assert PercentBytes(bs) + rest == ['%', UpperHexDigit(b / 16), UpperHexDigit(b % 16)] + tail;
      UnescapeTriple(bs[0], tail);
      UnescapePercent(bs[1..], rest);
      if QueryUnescape(rest).Some? {
        assert [bs[0]] + (bs[1..] + QueryUnescape(rest).value) == bs + QueryUnescape(rest).value;
      }
    }
  }

  lemma UnescapeChar(c: char, rest: string)
    ensures QueryUnescape(EscapeChar(c) + rest) == Prepend(Utf8(c), QueryUnescape(rest))
  {
    if Unreserved(c) {
      assert (EscapeChar(c) + rest)[1..] == rest;
    } else if c == ' ' {
      assert (EscapeChar(c) + rest)[1..] == rest;
    } else {
      UnescapePercent(Utf8(c), rest);
    }
  }

  /** Escaping loses nothing: unescaping gives back the string's UTF-8 bytes. */
  lemma {:induction false} QueryEscapeRoundTrip(s: string)
    ensures QueryUnescape(QueryEscape(s)) == Some(Utf8String(s))
    decreases |s|
  {
    if s == [] {
    } else {
      QueryEscapeRoundTrip(s[1..]);
      UnescapeChar(s[0], QueryEscape(s[1..]));
    }
  }

  /** An escaped key or value never holds the separators of the encoding, so
      `k=v&k=v` splits back unambiguously. */
  lemma {:induction false} QueryEscapeNoSeparators(s: string)
    ensures '&' !in QueryEscape(s) && '=' !in QueryEscape(s)
    decreases |s|
  {
    if s != [] {
      QueryEscapeNoSeparators(s[1..]);
      var e := EscapeChar(s[0]);
      assert '&' !in e && '=' !in e;
    }
  }

  /** Strings of unreserved characters (keys such as "count", decimal numbers) are
      written as they are. */
  lemma {:induction false} QueryEscapeUnreserved(s: string)
    requires forall i :: 0 <= i < |s| ==> Unreserved(s[i])
    ensures QueryEscape(s) == s
    decreases |s|
  {
    if s != [] {
      QueryEscapeUnreserved(s[1..]);
      assert s == [s[0]] + s[1..];
    }
  }

  // ---------------------------------------------------------------------------
  // url.Values

  type ValueMap = map<string, seq<string>>

  /** The values a key has in `m`; nil (empty) when it has none. */
  function Lookup(m: ValueMap, k: string): seq<string> {
    if k in m then m[k] else []
  }

  /** `k=v` for each value of each key of `ks`, in that order. */
  function Pairs(ks: seq<string>, m: ValueMap): seq<string>
    requires forall k :: k in ks ==> k in m
  {
    if ks == [] then []
    else
      var k := ks[0];
      KeyPairs(QueryEscape(k), m[k]) + Pairs(ks[1..], m)
  }

  function KeyPairs(escapedKey: string, vs: seq<string>): seq<string> {
    if vs == [] then [] else [escapedKey + "=" + QueryEscape(vs[0])] + KeyPairs(escapedKey, vs[1..])
  }

  /** What `Values.Encode` returns for the map `m`. */
  ghost function EncodeMap(m: ValueMap): string {
    Join(Pairs(SortedKeys(m.Keys), m), "&")
  }

  /** An empty map encodes as the empty string. */
  lemma EncodeEmpty()
    ensures EncodeMap(map[]) == ""
  {
    var m: ValueMap := map[];
    var ks := SortedKeys(m.Keys);
    SortedUnique(ks, []);
    assert Pairs(ks, m) == [];
  }

  /** A map with a single one-valued key encodes as that one pair. */
  lemma EncodeSingle(k: string, v: string)
    ensures EncodeMap(map[k := [v]]) == QueryEscape(k) + "=" + QueryEscape(v)
  {
    var m := map[k := [v]];
    SortedUnique(SortedKeys(m.Keys), [k]);
    assert KeyPairs(QueryEscape(k), [v]) == [QueryEscape(k) + "=" + QueryEscape(v)];
    assert Pairs([k], m) == [QueryEscape(k) + "=" + QueryEscape(v)];
  }

  class Values {
    var entries: ValueMap

    constructor ()
      ensures entries == map[]
    {
      entries := map[];
    }

    /** Appends `value` to the values of `key`. */
    method Add(key: string, value: string)
      modifies this
      ensures entries == old(entries)[key := Lookup(old(entries), key) + [value]]
      ensures key !in old(entries) ==> entries == old(entries)[key := [value]]
    {
      assert key !in entries ==> Lookup(entries, key) + [value] == [value];
      entries := entries[key := Lookup(entries, key) + [value]];
    }

    /** Collects the keys, sorts them and writes out every pair. */
    method Encode() returns (s: string)
      ensures s == EncodeMap(entries)
    {
      var rest := entries.Keys;
      var keys: seq<string> := [];
      while rest != {}
        invariant rest <= entries.Keys
        invariant forall k :: k in keys <==> k in entries.Keys && k !in rest
        decreases rest
      {
        var k :| k in rest;
        keys := keys + [k];
        rest := rest - {k};
      }
      var sorted := Sort(keys);
      SortedUnique(sorted, SortedKeys(entries.Keys));
      s := Join(Pairs(sorted, entries), "&");
    }
  }
}
