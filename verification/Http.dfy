/** The HTTP parser's callbacks, which assemble a request from pieces. */
module Http {
  import opened Common

  const MAX_URL := 8192
  const MAX_HEADERS := 100
  const MAX_HEADER_BYTES := 65536
  const MAX_BODY := 10485760

  const URL_TOO_LONG := "URL too long"
  const TOO_MANY_HEADERS := "Too many headers"
  const HEADERS_TOO_LARGE := "Headers too large"
  const BODY_TOO_LARGE := "Body too large"

  /** What joins the values of repeated headers. */
  const SEPARATOR := ", "

  /** The headers by case-insensitive name, in the order first seen, under the spelling first seen. */
  datatype Header = Header(name: string, value: string)

  datatype HeaderState = NoHeader | InField | InValue

  datatype Parser = Parser(
    url: string, headers: seq<Header>, body: string,
    field: string, value: string, state: HeaderState,
    complete: bool, error: Option<string>)

  const FRESH := Parser("", [], "", "", "", NoHeader, false, None)

  function Lower(c: char): char {
    if 'A' <= c <= 'Z' then c - 'A' + 'a' else c
  }

  function Lowered(s: string): string {
    seq(|s|, i requires 0 <= i < |s| => Lower(s[i]))
  }

  /** The position of a name in the table, or the table's length. */
  function Find(headers: seq<Header>, name: string): (i: nat)
    ensures i <= |headers|
    ensures i < |headers| ==> Lowered(headers[i].name) == Lowered(name)
    ensures forall j :: 0 <= j < i ==> Lowered(headers[j].name) != Lowered(name)
  {
    if headers == [] then 0
    else if Lowered(headers[0].name) == Lowered(name) then 0
    else 1 + Find(headers[1..], name)
  }

  function Size(h: Header): nat {
    |h.name| + |h.value|
  }

  function TotalSize(headers: seq<Header>): nat {
    if headers == [] then 0 else TotalSize(headers[..|headers| - 1]) + Size(headers[|headers| - 1])
  }

  /** What the limits say about a table. */
  function Check(headers: seq<Header>): Option<string> {
    if |headers| > MAX_HEADERS then Some(TOO_MANY_HEADERS)
    else if TotalSize(headers) > MAX_HEADER_BYTES then Some(HEADERS_TOO_LARGE)
    else None
  }

  function OnUrl(p: Parser, at: string): Parser {
    if |p.url| + |at| > MAX_URL then p.(error := Some(URL_TOO_LONG))
    else p.(url := p.url + at)
  }

  function OnHeaderField(p: Parser, at: string): Parser {
    p.(field := (if p.state.InValue? then "" else p.field) + at, state := InField)
  }

  function OnHeaderValue(p: Parser, at: string): Parser {
    var value := (if p.state.InField? then "" else p.value) + at;
    var i := Find(p.headers, p.field);
    var headers :=
      if i == |p.headers| then p.headers + [Header(p.field, value)]
      else if p.state.InField? then p.headers[i := p.headers[i].(value := p.headers[i].value + SEPARATOR + value)]
      else p.headers[i := p.headers[i].(value := value)];
    p.(headers := headers, value := value, state := InValue, error := Check(headers))
  }

  function OnBody(p: Parser, at: string): Parser {
    if |p.body| + |at| > MAX_BODY then p.(error := Some(BODY_TOO_LARGE))
    else p.(body := p.body + at)
  }

  class HttpParser {
    var url: string
    var headers: seq<Header>
    var body: string
    var currentField: string
    var currentValue: string
    var headerState: HeaderState
    var complete: bool
    var error: bool
    var errorMessage: string

    ghost function State(): Parser
      reads this
    {
      Parser(url, headers, body, currentField, currentValue, headerState, complete,
             if error then Some(errorMessage) else None)
    }

    constructor ()
      ensures State() == FRESH
    {
      url, headers, body, currentField, currentValue := "", [], "", "", "";
      headerState, complete, error, errorMessage := NoHeader, false, false, "";
    }

    method Reset()
      modifies this
      ensures State() == FRESH
    {
      url, headers, body, currentField, currentValue := "", [], "", "", "";
      headerState, complete, error, errorMessage := NoHeader, false, false, "";
    }

    method Url(at: string) returns (ok: bool)
      requires !error
      modifies this
      ensures State() == OnUrl(old(State()), at) && ok == !error
    {
      if |url| + |at| > MAX_URL {
        error, errorMessage := true, URL_TOO_LONG;
        return false;
      }
      url := url + at;
      return true;
    }

    method HeaderField(at: string)
      requires !error
      modifies this
      ensures State() == OnHeaderField(old(State()), at)
    {
      if headerState.InValue? {
        currentField := "";
      }
      currentField := currentField + at;
      headerState := InField;
    }

    method HeaderValue(at: string) returns (ok: bool)
      requires !error
      modifies this
      ensures State() == OnHeaderValue(old(State()), at) && ok == !error
    {
      if headerState.InField? {
        currentValue := "";
      }
      currentValue := currentValue + at;
      var i := Find(headers, currentField);
      if i < |headers| && headerState.InField? {
        headers := headers[i := headers[i].(value := headers[i].value + SEPARATOR + currentValue)];
      } else if i < |headers| {
        headers := headers[i := headers[i].(value := currentValue)];
      } else {
        headers := headers + [Header(currentField, currentValue)];
      }
      headerState := InValue;
      if |headers| > MAX_HEADERS {
        error, errorMessage := true, TOO_MANY_HEADERS;
        return false;
      }
      var total := HeaderBytes();
      if total > MAX_HEADER_BYTES {
        error, errorMessage := true, HEADERS_TOO_LARGE;
        return false;
      }
      return true;
    }

    method HeaderBytes() returns (total: nat)
      ensures total == TotalSize(headers)
    {
      total := 0;
      for k := 0 to |headers|
        invariant total == TotalSize(headers[..k])
      {
        assert headers[..k + 1][..k] == headers[..k];
        total := total + |headers[k].name| + |headers[k].value|;
      }
      assert headers[..|headers|] == headers;
    }

    method Body(at: string) returns (ok: bool)
      requires !error
      modifies this
      ensures State() == OnBody(old(State()), at) && ok == !error
    {
      if |body| + |at| > MAX_BODY {
        error, errorMessage := true, BODY_TOO_LARGE;
        return false;
      }
      body := body + at;
      return true;
    }

    /** GetRequest's split of the URL: at the first question mark, which belongs to neither part. */
    method PathAndQuery() returns (path: string, query: string)
      ensures '?' !in path
      ensures if '?' in url then url == path + "?" + query else path == url && query == ""
    {
      var i := 0;
      while i < |url| && url[i] != '?'
        invariant 0 <= i <= |url| && '?' !in url[..i]
      {
        i := i + 1;
      }
      path, query := url[..i], "";
      if i < |url| {
        query := url[i + 1..];
      }
    }
  }
}
