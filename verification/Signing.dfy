/**
  The interceptor chain of a request: the sender stamps and signs it, the receiver checks the stamp and the
  signature. Encoding the parameters and hashing are parameters of the chain.
*/
module Signing {
  import opened Wrappers
  import opened Strings

  const SIGN_DATA := "sd"
  const ACCESS_KEY := "ak"
  const SIGN_KEY := "sn"
  const TIMESTAMP_KEY := "ts"
  const REQUEST_ID := "rid"

  const INVALID_TIMESTAMP := 401
  const FORBIDDEN := 403
  const TOKEN_NOT_FOUND := 405

  /** The agent's keys, how it encodes parameters and what it hashes with. A digest is never empty. */
  datatype Keys = Keys(access: string, secure: string, marshal: map<string, string> -> string, hash: string -> string)

  ghost predicate Sound(keys: Keys) {
    forall data :: keys.hash(data) != ""
  }

  function Sign(keys: Keys, data: string): string {
    keys.hash(data + keys.secure)
  }

  datatype Interceptor = Timestamp | Auth

  /** The chain as it is built: the timestamp first, then authentication. */
  const CHAIN: seq<Interceptor> := [Timestamp, Auth]

  datatype Content = Content(headers: map<string, string>, params: map<string, string>)

  /** A missing key reads as the empty string. */
  function Get(m: map<string, string>, key: string): string {
    if key in m then m[key] else ""
  }

  /** What is signed: the header that says so, or else the encoded parameters. */
  function SignedData(keys: Keys, c: Content): string {
    if Get(c.headers, SIGN_DATA) != "" then Get(c.headers, SIGN_DATA) else keys.marshal(c.params)
  }

  // ----- the receiving side

  function DoHandler(i: Interceptor, keys: Keys, c: Content): Option<int> {
    match i
    case Timestamp =>
      if Get(c.params, TIMESTAMP_KEY) == "" || !IsAtoi(Get(c.params, TIMESTAMP_KEY)) then Some(INVALID_TIMESTAMP) else None
    case Auth =>
      var sign := Get(c.headers, SIGN_KEY);
      var accessKey := Get(c.headers, ACCESS_KEY);
      if sign == "" then Some(FORBIDDEN)
      else if accessKey != "" && accessKey != keys.access then Some(FORBIDDEN)
      else if Sign(keys, SignedData(keys, c)) != sign then Some(FORBIDDEN)
      else None
  }

  /** The code of the first interceptor that refuses, or None. */
  function Handle(chain: seq<Interceptor>, keys: Keys, c: Content): Option<int> {
    if chain == [] then None
    else
      var r := DoHandler(chain[0], keys, c);
      if r.Some? then r else Handle(chain[1..], keys, c)
  }

  // ----- the sending side

  class Request {
    var headers: map<string, string>
    var params: map<string, string>

    constructor (headers: map<string, string>, params: map<string, string>)
      ensures View() == Content(headers, params)
    {
      this.headers, this.params := headers, params;
    }

    function View(): Content
      reads this
    {
      Content(headers, params)
    }

    method AddHeader(key: string, value: string)
      modifies this
      ensures View() == if key == "" then old(View()) else Content(old(headers)[key := value], old(params))
    {
      if key != "" { headers := headers[key := value]; }
    }

    method AddParam(key: string, value: string)
      modifies this
      ensures View() == if key == "" then old(View()) else Content(old(headers), old(params)[key := value])
    {
      if key != "" { params := params[key := value]; }
    }
  }

  function Stamped(c: Content, now: int): Content {
    c.(params := c.params[TIMESTAMP_KEY := FormatInt(now)])
  }

  function Signed(keys: Keys, c: Content): Content {
    c.(headers := c.headers[ACCESS_KEY := keys.access][SIGN_KEY := Sign(keys, SignedData(keys, c))])
  }

  method DoInvoker(i: Interceptor, keys: Keys, request: Request, now: int) returns (refused: Option<int>)
    modifies request
    ensures i.Timestamp? ==> refused == None && request.View() == Stamped(old(request.View()), now)
    ensures i.Auth? && (keys.access == "" || keys.secure == "") ==> refused == Some(405) && request.View() == old(request.View())
    ensures i.Auth? && keys.access != "" && keys.secure != "" ==> refused == None && request.View() == Signed(keys, old(request.View()))
  {
    refused := None;
    match i
    case Timestamp =>
      request.AddParam(TIMESTAMP_KEY, FormatInt(now));
    case Auth =>
      if keys.access == "" || keys.secure == "" { return Some(TOKEN_NOT_FOUND); }
      request.AddHeader(ACCESS_KEY, keys.access);
      var signData := Get(request.headers, SIGN_DATA);
      if signData == "" { signData := keys.marshal(request.params); }
      request.AddHeader(SIGN_KEY, Sign(keys, signData));
  }

  /** Invoke on the chain, then the request id: what TransportClient.Invoke puts on the wire. */
  method Invoke(keys: Keys, request: Request, now: int, rid: string) returns (refused: Option<int>)
    requires -INT64_LIMIT <= now < INT64_LIMIT && Sound(keys)
    modifies request
    ensures refused.None? <==> keys.access != "" && keys.secure != ""
    ensures refused.None? ==> request.View() == Sealed(keys, old(request.View()), now, rid)
    ensures refused.None? ==> Handle(CHAIN, keys, request.View()) == None
  {
    var i := 0;
    refused := None;
    ghost var before := request.View();
    while i < |CHAIN|
      invariant 0 <= i <= 2 && refused == None
      invariant i == 0 ==> request.View() == before
      invariant i == 1 ==> request.View() == Stamped(before, now)
      invariant i == 2 ==> request.View() == Signed(keys, Stamped(before, now)) && keys.access != "" && keys.secure != ""
    {
      refused := DoInvoker(CHAIN[i], keys, request, now);
      if refused.Some? { return; }
      i := i + 1;
    }
    request.AddHeader(REQUEST_ID, rid);
    SealedIsAccepted(keys, before, now, rid);
  }

  function Sealed(keys: Keys, c: Content, now: int, rid: string): Content {
    var s := Signed(keys, Stamped(c, now));
    s.(headers := s.headers[REQUEST_ID := rid])
  }

  // ----- what the receiver accepts

  /** The receiver's checks together: a readable timestamp, the right access key or none, and the signature of the data. */
  lemma HandleIff(keys: Keys, c: Content)
    ensures Handle(CHAIN, keys, c) == None <==>
            && IsAtoi(Get(c.params, TIMESTAMP_KEY))
            && Get(c.headers, SIGN_KEY) != ""
            && Get(c.headers, ACCESS_KEY) in {"", keys.access}
            && Get(c.headers, SIGN_KEY) == Sign(keys, SignedData(keys, c))
  {
    assert CHAIN[1..] == [Auth] && [Auth][1..] == [];
    assert !IsAtoi("");
    assert Handle([Auth], keys, c) == DoHandler(Auth, keys, c);
  }

  /** Whatever the sender's chain lets out, the receiver's chain lets in under the same keys. */
  lemma SealedIsAccepted(keys: Keys, c: Content, now: int, rid: string)
    requires -INT64_LIMIT <= now < INT64_LIMIT && Sound(keys)
    ensures Handle(CHAIN, keys, Sealed(keys, c, now, rid)) == None
  {
    var s := Sealed(keys, c, now, rid);
    HandleIff(keys, s);
    FormatIntParses(now);
    assert SignedData(keys, s) == SignedData(keys, Stamped(c, now));
  }

  /** What is on the wire, key by key: the time, the keys and the signature of the data with the secret appended. */
  lemma SealedCarries(keys: Keys, c: Content, now: int, rid: string, key: string)
    ensures var s := Sealed(keys, c, now, rid);
            && Get(s.params, key) == (if key == "ts" then FormatInt(now) else Get(c.params, key))
            && Get(s.headers, key) ==
               (if key == "rid" then rid
                else if key == "ak" then keys.access
                else if key == "sn" then keys.hash(SignedData(keys, s) + keys.secure)
                else Get(c.headers, key))
            && SignedData(keys, s) == (if Get(c.headers, "sd") != "" then Get(c.headers, "sd") else keys.marshal(s.params))
  {
  }

  /** A receiver with another secret accepts the request exactly if the two secrets give the data the same digest. */
  lemma OtherSecret(keys: Keys, c: Content, now: int, rid: string, other: string)
    requires -INT64_LIMIT <= now < INT64_LIMIT && Sound(keys)
    ensures var s := Sealed(keys, c, now, rid);
            var data := SignedData(keys, s);
            Handle(CHAIN, keys.(secure := other), s) == None <==> keys.hash(data + other) == keys.hash(data + keys.secure)
  {
    var s := Sealed(keys, c, now, rid);
    HandleIff(keys.(secure := other), s);
    FormatIntParses(now);
    SealedCarries(keys, c, now, rid, "sn");
    assert SignedData(keys.(secure := other), s) == SignedData(keys, s);
  }

  /** A receiver with another access key refuses it, unless the sender's is empty. */
  lemma OtherAccessKey(keys: Keys, c: Content, now: int, rid: string, other: string)
    requires -INT64_LIMIT <= now < INT64_LIMIT && Sound(keys)
    ensures Handle(CHAIN, keys.(access := other), Sealed(keys, c, now, rid)) == None <==> keys.access in {"", other}
  {
    var s := Sealed(keys, c, now, rid);
    HandleIff(keys.(access := other), s);
    FormatIntParses(now);
    SealedCarries(keys, c, now, rid, "sn");
    assert SignedData(keys.(access := other), s) == SignedData(keys, s);
  }

  /** The codes: 401 for a timestamp that does not read, whatever else is wrong, and 403 for everything after that. */
  lemma RefusalCodes(keys: Keys, c: Content)
    ensures Handle(CHAIN, keys, c) == Some(401) <==> !IsAtoi(Get(c.params, "ts"))
    ensures Handle(CHAIN, keys, c) in {None, Some(401), Some(403)}
  {
    assert CHAIN[1..] == [Auth] && [Auth][1..] == [];
    assert !IsAtoi("");
    assert Handle([Auth], keys, c) == DoHandler(Auth, keys, c);
  }

  /**
    Any request that arrives with the signature of a sealed one, whatever else became of its headers and
    parameters: it is accepted exactly if its timestamp reads, its access key fits, and the data the receiver
    takes to be signed has the digest of the data the sender signed.
  */
  lemma ChangedRequest(keys: Keys, c: Content, now: int, rid: string, r: Content)
    requires Sound(keys)
    ensures var s := Sealed(keys, c, now, rid);
            Get(r.headers, SIGN_KEY) == Get(s.headers, SIGN_KEY) ==>
              (Handle(CHAIN, keys, r) == None <==>
               && IsAtoi(Get(r.params, TIMESTAMP_KEY))
               && Get(r.headers, ACCESS_KEY) in {"", keys.access}
               && Sign(keys, SignedData(keys, r)) == Sign(keys, SignedData(keys, s)))
  {
    HandleIff(keys, r);
  }

  /** With the headers as sent: the digest protects the parameters exactly if the sender left the data header out. */
  lemma ChangedParams(keys: Keys, c: Content, now: int, rid: string, params: map<string, string>)
    requires Sound(keys)
    ensures var s := Sealed(keys, c, now, rid);
            Handle(CHAIN, keys, s.(params := params)) == None <==>
            && IsAtoi(Get(params, TIMESTAMP_KEY))
            && (Get(c.headers, SIGN_DATA) != "" || Sign(keys, keys.marshal(params)) == Sign(keys, keys.marshal(s.params)))
  {
    var s := Sealed(keys, c, now, rid);
    ChangedRequest(keys, c, now, rid, s.(params := params));
  }

  /**
    The data header is not signed itself. If the signed data arrives in it, the parameters are not compared
    with anything: unless that data is empty, any with a readable timestamp are accepted.
  */
  lemma DataHeaderHidesParams(keys: Keys, c: Content, now: int, rid: string, params: map<string, string>)
    requires Sound(keys)
    ensures var s := Sealed(keys, c, now, rid);
            var data := SignedData(keys, s);
            Handle(CHAIN, keys, Content(s.headers[SIGN_DATA := data], params)) == None <==>
            && IsAtoi(Get(params, TIMESTAMP_KEY))
            && (data != "" || Sign(keys, keys.marshal(params)) == Sign(keys, data))
  {
    var s := Sealed(keys, c, now, rid);
    ChangedRequest(keys, c, now, rid, Content(s.headers[SIGN_DATA := SignedData(keys, s)], params));
  }
}
