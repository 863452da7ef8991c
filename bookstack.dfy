/** bookstack.go: the client, its functional options, the request pipeline
    shared by every endpoint, and the two generic decoders. */
module Client {
  import opened Wrappers
  import opened Text
  import opened Errors
  import opened Json
  import opened Models

  // ---------------------------------------------------------------------------
  // Configuration

  /** Where the client logs: log.New(ioutil.Discard, "", 0), or a logger the
      caller supplies (identified by an opaque number). */
  datatype Logger = Discarding | External(id: nat)

  /** ratelimit.New(n) reduced to its rate; the blocking itself is not modelled. */
  datatype Limiter = Limiter(perSecond: int)

  /** The Option closures the package exports. */
  datatype ClientOption =
    | SetLogger(logger: Logger)
    | SetToken(id: string, secret: string)
    | SetURL(url: string)
    | SetRateLimit(limit: int)

  /** The fields of a Bookstack value. */
  datatype Config = Config(url: string, tokenID: string, tokenSecret: string,
                           limit: Limiter, log: Logger, insecure: bool)

  const DefaultRate := 180

  /** The struct New starts from: a limit of 180 per second, a discarding
      logger, every other field zero. */
  function DefaultConfig(): (c: Config)
    ensures c.limit == Limiter(DefaultRate) && c.log == Discarding && !c.insecure
    ensures c.url == "" && c.tokenID == "" && c.tokenSecret == ""
  {
    Config("", "", "", Limiter(DefaultRate), Discarding, false)
  }

  /** What calling one option closure does to the struct. */
  function Applied(c: Config, o: ClientOption): Config {
    match o
    case SetLogger(l) => c.(log := l)
    case SetToken(id, secret) => c.(tokenID := id, tokenSecret := secret)
    case SetURL(u) => c.(url := u)
    case SetRateLimit(n) => c.(limit := Limiter(n))
  }

  /** The options applied in argument order. */
  function ApplyAll(c: Config, opts: seq<ClientOption>): Config
    decreases |opts|
  {
    if opts == [] then c else ApplyAll(Applied(c, opts[0]), opts[1..])
  }

  /** The field an option writes holds the option's value. */
  predicate Holds(c: Config, o: ClientOption) {
    match o
    case SetLogger(l) => c.log == l
    case SetToken(id, secret) => c.tokenID == id && c.tokenSecret == secret
    case SetURL(u) => c.url == u
    case SetRateLimit(n) => c.limit == Limiter(n)
  }

  /** Two options that write the same field. */
  predicate SameField(a: ClientOption, b: ClientOption) {
    (a.SetLogger? && b.SetLogger?) || (a.SetToken? && b.SetToken?)
    || (a.SetURL? && b.SetURL?) || (a.SetRateLimit? && b.SetRateLimit?)
  }

  lemma AppliedHolds(c: Config, o: ClientOption)
    ensures Holds(Applied(c, o), o)
    ensures Applied(c, o).insecure == c.insecure
  {
  }

  lemma {:induction false} ApplyAllSnoc(c: Config, opts: seq<ClientOption>, o: ClientOption)
    ensures ApplyAll(c, opts + [o]) == Applied(ApplyAll(c, opts), o)
    decreases |opts|
  {
    if opts != [] {
      assert (opts + [o])[1..] == opts[1..] + [o];
      ApplyAllSnoc(Applied(c, opts[0]), opts[1..], o);
    }
  }

  lemma {:induction false} ApplyAllConcat(c: Config, a: seq<ClientOption>, b: seq<ClientOption>)
    ensures ApplyAll(c, a + b) == ApplyAll(ApplyAll(c, a), b)
    decreases |a|
  {
    if a == [] {
      assert a + b == b;
    } else {
      assert (a + b)[1..] == a[1..] + b;
      ApplyAllConcat(Applied(c, a[0]), a[1..], b);
    }
  }

  /** Options that write other fields leave a field as it is. */
  lemma {:induction false} OthersKeep(c: Config, o: ClientOption, rest: seq<ClientOption>)
    requires Holds(c, o)
    requires forall r :: r in rest ==> !SameField(r, o)
    ensures Holds(ApplyAll(c, rest), o)
    decreases |rest|
  {
    if rest != [] {
      assert rest[0] in rest;
      assert forall r :: r in rest[1..] ==> r in rest;
      OthersKeep(Applied(c, rest[0]), o, rest[1..]);
    }
  }

  /** A later option overrides an earlier one: whatever came before, the last
      option to write a field decides its value. */
  lemma LastOptionWins(c: Config, before: seq<ClientOption>, o: ClientOption, after: seq<ClientOption>)
    requires forall r :: r in after ==> !SameField(r, o)
    ensures Holds(ApplyAll(c, before + [o] + after), o)
  {
    ApplyAllConcat(c, before + [o], after);
    ApplyAllSnoc(c, before, o);
    AppliedHolds(ApplyAll(c, before), o);
    OthersKeep(ApplyAll(c, before + [o]), o, after);
  }

  /** No option sets `insecure`, so it is false in every client New builds. */
  lemma {:induction false} NeverInsecure(c: Config, opts: seq<ClientOption>)
    ensures ApplyAll(c, opts).insecure == c.insecure
    decreases |opts|
  {
    if opts != [] {
      AppliedHolds(c, opts[0]);
      NeverInsecure(Applied(c, opts[0]), opts[1..]);
    }
  }

  // ---------------------------------------------------------------------------
  // Authorization

  /** `Token <id>:<secret>` */
  function AuthorizationValue(id: string, secret: string): string {
    "Token " + id + ":" + secret
  }

  /** The index of the first `c` in `s`, if any. */
  function IndexOf(s: string, c: char): (r: Option<nat>)
    ensures r.Some? ==> r.value < |s| && s[r.value] == c && c !in s[..r.value]
    ensures r.None? ==> c !in s
  {
    if s == [] then None
    else if s[0] == c then Some(0)
    else match IndexOf(s[1..], c)
      case None => None
      case Some(i) => assert s[..i + 1] == [s[0]] + s[1..][..i]; Some(i + 1)
  }

  /** How a server reads the header back: the id up to the first `:`, the
      secret after it. */
  function ParseAuthorization(h: string): Option<(string, string)> {
    if |h| < 6 || h[..6] != "Token " then None
    else
      var rest := h[6..];
      match IndexOf(rest, ':')
      case None => None
      case Some(i) => Some((rest[..i], rest[i + 1..]))
  }

  /** When the id has no `:`, the header gives back exactly the id and the secret. */
  lemma AuthorizationRoundTrip(id: string, secret: string)
    requires ':' !in id
    ensures ParseAuthorization(AuthorizationValue(id, secret)) == Some((id, secret))
  {
    var h := AuthorizationValue(id, secret);
    assert h[..6] == "Token ";
    var rest := h[6..];
    assert rest == id + ":" + secret;
    assert rest[|id|] == ':' && rest[..|id|] == id;
    assert forall k :: 0 <= k < |id| ==> rest[k] == id[k];
    var i := IndexOf(rest, ':');
    assert i.Some?;
    assert i.value >= |id|;
    assert i.value <= |id| by {
      assert rest[..i.value + 1][|id|] == ':';
    }
    assert rest[|id| + 1..] == secret;
  }

  // ---------------------------------------------------------------------------
  // Requests

  datatype Verb = Get | Post | Put | Delete

  function VerbName(v: Verb): string {
    match v
    case Get => "GET"
    case Post => "POST"
    case Put => "PUT"
    case Delete => "DELETE"
  }

  datatype Header = Header(name: string, value: string)

  /** The request client.Do would send. */
  datatype HttpRequest = HttpRequest(verb: Verb, url: string, headers: seq<Header>, body: Body)

  /** What came back: client.Do or reading the body failed, or a status code
      and the whole body. */
  datatype Exchange = TransportFailed(err: Error) | Received(status: int, body: seq<byte>)

  /** The HTTP round trip, left abstract. */
  type Transport = HttpRequest -> Exchange

  const StatusOK := 200
  /** 226 IM Used, section 10.4.1 of RFC 3229: the last status the source accepts. */
  const StatusIMUsed := 226

  /** `<base without trailing slashes>/api/<path without leading slashes>` */
  function RequestURL(base: string, path: string): (u: string)
    ensures var n := |TrimRight(base, "/")|;
      && n + 5 <= |u| && u[n..n + 5] == "/api/"
      && u[..n] == base[..n] && (forall i :: n <= i < |base| ==> base[i] == '/')
      && var m := |u| - n - 5;
         m <= |path| && u[n + 5..] == path[|path| - m..] && (forall i :: 0 <= i < |path| - m ==> path[i] == '/')
  {
    TrimRight(base, "/") + "/api/" + TrimLeft(path, "/")
  }

  /** Even the last `/` of the base and the first `/` of the path are dropped. */
  lemma RequestURLJoinsOnce(base: string, path: string)
    ensures var u := RequestURL(base, path);
      var n := |TrimRight(base, "/")|;
      && (n == 0 || u[n - 1] != '/')
      && (n + 5 == |u| || u[n + 5] != '/')
  {
  }

  lemma {:induction false} TrimRightSlashes(base: string, k: nat)
    ensures TrimRight(base + Repeat('/', k), "/") == TrimRight(base, "/")
    decreases k
  {
    if k > 0 {
      var s := base + Repeat('/', k);
      assert s[|s| - 1] == '/';
      assert s[..|s| - 1] == base + Repeat('/', k - 1);
      TrimRightSlashes(base, k - 1);
    } else {
      assert base + Repeat('/', k) == base;
    }
  }

  lemma {:induction false} TrimLeftSlashes(path: string, k: nat)
    ensures TrimLeft(Repeat('/', k) + path, "/") == TrimLeft(path, "/")
    decreases k
  {
    if k > 0 {
      var s := Repeat('/', k) + path;
      assert s[0] == '/';
      assert s[1..] == Repeat('/', k - 1) + path;
      TrimLeftSlashes(path, k - 1);
    } else {
      assert Repeat('/', k) + path == path;
    }
  }

  /** Any number of slashes on either side of the join gives the same URL. */
  lemma ExtraSlashesIgnored(base: string, path: string, k: nat, j: nat)
    ensures RequestURL(base + Repeat('/', k), Repeat('/', j) + path) == RequestURL(base, path)
  {
    TrimRightSlashes(base, k);
    TrimLeftSlashes(path, j);
  }

  /** The headers request adds: Authorization, then Content-Type unless the
      form has none. */
  function RequestHeaders(authorization: string, contentType: string): (hs: seq<Header>)
    ensures |hs| >= 1 && hs[0] == Header("Authorization", authorization)
    ensures |hs| == 2 <==> contentType != ""
    ensures |hs| <= 2 && (|hs| == 2 ==> hs[1] == Header("Content-Type", contentType))
  {
    [Header("Authorization", authorization)]
    + (if contentType != "" then [Header("Content-Type", contentType)] else [])
  }

  /** What request returns once a reply is in: the body for 200 to 226, else
      the decoded envelope's error (nil for an empty envelope), or the decode
      error. A nil byte slice is the empty sequence. */
  function Outcome(reply: Exchange, envelope: Decoder<Response>): (r: (seq<byte>, Option<Error>))
    ensures r.1.Some? ==> r.0 == []
    ensures reply.TransportFailed? ==> r == ([], Some(reply.err))
    ensures r.0 != [] ==> reply.Received? && StatusOK <= reply.status <= StatusIMUsed && r.0 == reply.body
  {
    match reply
    case TransportFailed(e) => ([], Some(e))
    case Received(status, body) =>
      if StatusOK <= status <= StatusIMUsed then (body, None)
      else
        var msg := envelope(body);
        if msg.err.Some? then ([], msg.err) else ([], msg.value.Error())
  }

  /** A status in 200..226 returns the body as it came, without looking at it. */
  lemma SuccessReturnsBody(status: int, body: seq<byte>, envelope: Decoder<Response>)
    requires StatusOK <= status <= StatusIMUsed
    ensures Outcome(Received(status, body), envelope) == (body, None)
  {
  }

  /** Any other status never returns a body; the error comes from the envelope,
      and an envelope without code or message gives no error at all. */
  lemma FailureStatusOutcome(status: int, body: seq<byte>, envelope: Decoder<Response>)
    requires !(StatusOK <= status <= StatusIMUsed)
    ensures var (raw, err) := Outcome(Received(status, body), envelope);
      var msg := envelope(body);
      && raw == []
      && (msg.err.Some? ==> err == msg.err)
      && (msg.err.None? ==> (err.None? <==> msg.value.err.code == 0 && msg.value.err.message == ""))
      && (msg.err.None? && err.Some? ==> err.value == ApiError(msg.value.err.code, msg.value.err.message))
  {
  }

  // ---------------------------------------------------------------------------
  // Generic decoding

  /** ParseSingle: whatever json.Unmarshal left in the target, and never an error. */
  function ParseSingle<T>(data: seq<byte>, decode: Decoder<T>): (r: (T, Option<Error>))
    ensures r.1.None?
    ensures r.0 == decode(data).value
  {
    var u := decode(data);
    (u.value, None)
  }

  /** ParseMultiple: the envelope, then its error, then the decoded `data`. */
  function ParseMultiple<T>(data: seq<byte>, envelope: Decoder<Response>, decode: Decoder<T>): (r: Result<T, Error>)
    ensures var env := envelope(data);
      && (r.Success? <==> env.err.None? && env.value.Error().None? && decode(env.value.data).err.None?)
      && (r.Success? ==> r.value == decode(env.value.data).value)
      && (env.err.Some? ==> r == Failure(env.err.value))
      && (env.err.None? && env.value.Error().Some? ==> r == Failure(ApiError(env.value.err.code, env.value.err.message)))
  {
    var env := envelope(data);
    if env.err.Some? then Failure(env.err.value)
    else if env.value.Error().Some? then Failure(env.value.Error().value)
    else
      var items := decode(env.value.data);
      if items.err.Some? then Failure(items.err.value) else Success(items.value)
  }

  /** An envelope error, a non-zero code or a non-empty message, wins even
      when `data` holds a decodable list, and it is the error returned. */
  lemma EnvelopeErrorWins<T>(data: seq<byte>, envelope: Decoder<Response>, decode: Decoder<T>)
    requires envelope(data).err.None? && envelope(data).value.Error().Some?
    requires decode(envelope(data).value.data).err.None?
    ensures ParseMultiple(data, envelope, decode) == Failure(envelope(data).value.Error().value)
    ensures envelope(data).value.Error().value
            == ApiError(envelope(data).value.err.code, envelope(data).value.err.message)
  {
  }

  // ---------------------------------------------------------------------------
  // The client

  class Bookstack {
    var url: string
    var tokenID: string
    var tokenSecret: string
    var limit: Limiter
    var log: Logger
    var insecure: bool

    function Fields(): Config
      reads this
    {
      Config(url, tokenID, tokenSecret, limit, log, insecure)
    }

    /** New: the defaults, then each option in argument order. */
    constructor New(opts: seq<ClientOption>)
      ensures Fields() == ApplyAll(DefaultConfig(), opts)
      ensures !insecure
    {
      url, tokenID, tokenSecret := "", "", "";
      limit := Limiter(DefaultRate);
      log := Discarding;
      insecure := false;
      new;
      for i := 0 to |opts|
        invariant Fields() == ApplyAll(DefaultConfig(), opts[..i])
      {
        assert opts[..i + 1] == opts[..i] + [opts[i]];
        ApplyAllSnoc(DefaultConfig(), opts[..i], opts[i]);
        Apply(opts[i]);
      }
      assert opts[..|opts|] == opts;
      NeverInsecure(DefaultConfig(), opts);
    }

    /** Calling one option closure on the client. */
    method Apply(o: ClientOption)
      modifies this
      ensures Fields() == Applied(old(Fields()), o)
    {
      match o
      case SetLogger(l) => log := l;
      case SetToken(id, secret) => tokenID, tokenSecret := id, secret;
      case SetURL(u) => url := u;
      case SetRateLimit(n) => limit := Limiter(n);
    }

    function Authorization(): string
      reads this
    {
      AuthorizationValue(tokenID, tokenSecret)
    }

    /** request: builds the URL, renders the form (its error is returned
        before anything is sent), adds the headers, sends, and interprets the
        reply. `sent` is the request handed to the transport, if any. */
    method Request(verb: Verb, query: string, form: Result<Form, Error>,
                   transport: Transport, envelope: Decoder<Response>)
      returns (sent: Option<HttpRequest>, raw: seq<byte>, err: Option<Error>)
      ensures form.Failure? ==> sent.None? && raw == [] && err == Some(form.error)
      ensures form.Success? ==>
        && sent == Some(HttpRequest(verb, RequestURL(url, query),
                                    RequestHeaders(Authorization(), form.value.contentType),
                                    form.value.body))
        && (raw, err) == Outcome(transport(sent.value), envelope)
    {
      var u := RequestURL(url, query);
      if form.Failure? {
        return None, [], Some(form.error);
      }
      var f := form.value;
      var headers := [Header("Authorization", Authorization())];
      if f.contentType != "" {
        headers := headers + [Header("Content-Type", f.contentType)];
      }
      assert headers == RequestHeaders(Authorization(), f.contentType);
      var req := HttpRequest(verb, u, headers, f.body);
      sent := Some(req);
      var reply := transport(req);
      if reply.TransportFailed? {
        return sent, [], Some(reply.err);
      }
      if StatusOK <= reply.status <= StatusIMUsed {
        return sent, reply.body, None;
      }
      var msg := envelope(reply.body);
      if msg.err.Some? {
        return sent, [], msg.err;
      }
      return sent, [], msg.value.Error();
    }
  }

  /** The request an endpoint sends with blank{} as its form: no body and no
      Content-Type. */
  function BlankRequest(b: Bookstack, verb: Verb, path: string): (req: HttpRequest)
    reads b
    ensures req.headers == [Header("Authorization", b.Authorization())] && req.body == NoBody
  {
    HttpRequest(verb, RequestURL(b.url, path), RequestHeaders(b.Authorization(), BlankForm().contentType), BlankForm().body)
  }
}
