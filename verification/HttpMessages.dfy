/** HTTP messages, how they may be cut into callbacks, and what the cutting can and cannot change about
    the result. */
module HttpMessages {
  import opened Common
  import opened Http

  datatype Event = Url(at: string) | Field(at: string) | Value(at: string) | Body(at: string) | Complete

  /** After an error the parser is not given anything more. */
  function Feed(p: Parser, e: Event): Parser {
    if p.error.Some? then p
    else match e
      case Url(at) => OnUrl(p, at)
      case Field(at) => OnHeaderField(p, at)
      case Value(at) => OnHeaderValue(p, at)
      case Body(at) => OnBody(p, at)
      case Complete => p.(complete := true)
  }

  function FeedAll(p: Parser, es: seq<Event>): Parser
    decreases |es|
  {
    if es == [] then p else FeedAll(Feed(p, es[0]), es[1..])
  }

  /** A header as delivered: the pieces of its name and of its value, at least one of each. */
  datatype RawHeader = RawHeader(name: seq<string>, value: seq<string>)

  type Pieces = h: RawHeader | h.name != [] && h.value != [] witness RawHeader([""], [""])

  /** Trailers are the header fields after a chunked body. */
  datatype Delivery = Delivery(url: seq<string>, headers: seq<Pieces>, body: seq<string>, trailers: seq<Pieces>)

  function Concat(pieces: seq<string>): string {
    if pieces == [] then "" else pieces[0] + Concat(pieces[1..])
  }

  function Urls(ps: seq<string>): seq<Event> {
    seq(|ps|, i requires 0 <= i < |ps| => Url(ps[i]))
  }

  function Fields(ps: seq<string>): seq<Event> {
    seq(|ps|, i requires 0 <= i < |ps| => Field(ps[i]))
  }

  function Values(ps: seq<string>): seq<Event> {
    seq(|ps|, i requires 0 <= i < |ps| => Value(ps[i]))
  }

  function Bodies(ps: seq<string>): seq<Event> {
    seq(|ps|, i requires 0 <= i < |ps| => Body(ps[i]))
  }

  function HeaderEvents(hs: seq<Pieces>): seq<Event> {
    if hs == [] then [] else Fields(hs[0].name) + Values(hs[0].value) + HeaderEvents(hs[1..])
  }

  function Events(d: Delivery): seq<Event> {
    Urls(d.url) + HeaderEvents(d.headers) + Bodies(d.body) + HeaderEvents(d.trailers) + [Complete]
  }

  datatype Request = Request(url: string, headers: seq<Header>, body: string)

  datatype Outcome = Parsed(request: Request) | Failed(message: string) | Incomplete

  function OutcomeOf(p: Parser): Outcome {
    match p.error
    case Some(m) => Failed(m)
    case None => if p.complete then Parsed(Request(p.url, p.headers, p.body)) else Incomplete
  }

  /** A header added to the table: joined with ", " to an earlier one of the same name. */
  function Add(table: seq<Header>, name: string, value: string): seq<Header> {
    var i := Find(table, name);
    if i == |table| then table + [Header(name, value)]
    else table[i := table[i].(value := table[i].value + SEPARATOR + value)]
  }

  /** A table within the limits, or the message of the first limit passed. */
  datatype Table = Headers(list: seq<Header>) | Bad(message: string)

  function Checked(table: seq<Header>): Table {
    match Check(table)
    case None => Headers(table)
    case Some(m) => Bad(m)
  }

  /** The table of all headers added in turn. */
  function AddAll(table: seq<Header>, hs: seq<Pieces>): Table
    decreases |hs|
  {
    if hs == [] then Headers(table)
    else
      match Checked(Add(table, Concat(hs[0].name), Concat(hs[0].value)))
      case Bad(m) => Bad(m)
      case Headers(t) => AddAll(t, hs[1..])
  }

  /** What a message comes to, with a given way of adding headers to a table. */
  function Outcomes(d: Delivery, add: (seq<Header>, seq<Pieces>) -> Table): Outcome {
    if |Concat(d.url)| > MAX_URL then Failed(URL_TOO_LONG)
    else match add([], d.headers)
      case Bad(m) => Failed(m)
      case Headers(t) =>
        if |Concat(d.body)| > MAX_BODY then Failed(BODY_TOO_LARGE)
        else match add(t, d.trailers)
          case Bad(m) => Failed(m)
          case Headers(u) => Parsed(Request(Concat(d.url), u, Concat(d.body)))
  }

  /** The meaning of a message, which does not look at the cuts. */
  function Meaning(d: Delivery): Outcome {
    Outcomes(d, AddAll)
  }

  // ---------------------------------------------------------------------------
  // The table
  // ---------------------------------------------------------------------------

  lemma {:induction false} FindByNames(s: seq<Header>, t: seq<Header>, name: string)
    requires |s| == |t| && forall i :: 0 <= i < |s| ==> s[i].name == t[i].name
    ensures Find(s, name) == Find(t, name)
  {
    if s != [] {
      assert forall i :: 0 <= i < |s| - 1 ==> s[1..][i] == s[i + 1] && t[1..][i] == t[i + 1];
      FindByNames(s[1..], t[1..], name);
    }
  }

  lemma FindNew(t: seq<Header>, h: Header)
    requires Find(t, h.name) == |t|
    ensures Find(t + [h], h.name) == |t|
  {
    assert forall i :: 0 <= i < |t| ==> (t + [h])[i] == t[i];
    assert (t + [h])[|t|] == h;
  }

  lemma {:induction false} SizeAfterSet(t: seq<Header>, i: nat, h: Header)
    requires i < |t|
    ensures TotalSize(t[i := h]) == TotalSize(t) - Size(t[i]) + Size(h)
  {
    var n := |t| - 1;
    if i == n {
      assert t[i := h][..n] == t[..n];
    } else {
      SizeAfterSet(t[..n], i, h);
      assert t[i := h][..n] == t[..n][i := h];
    }
  }

  lemma SizeAfterAppend(t: seq<Header>, h: Header)
    ensures TotalSize(t + [h]) == TotalSize(t) + Size(h)
  {
    assert (t + [h])[..|t|] == t;
  }

  // ---------------------------------------------------------------------------
  // What the callbacks make of one piece after the other
  // ---------------------------------------------------------------------------

  lemma {:induction false} FeedAllAppend(p: Parser, es: seq<Event>, fs: seq<Event>)
    ensures FeedAll(p, es + fs) == FeedAll(FeedAll(p, es), fs)
    decreases |es|
  {
    if es == [] {
      assert es + fs == fs;
    } else {
      FeedAllAppend(Feed(p, es[0]), es[1..], fs);
      assert (es + fs)[0] == es[0] && (es + fs)[1..] == es[1..] + fs;
    }
  }

  lemma {:induction false} ErrorsStay(p: Parser, es: seq<Event>)
    requires p.error.Some?
    ensures FeedAll(p, es) == p
    decreases |es|
  {
    if es != [] {
      ErrorsStay(p, es[1..]);
    }
  }

  lemma {:induction false} UrlPieces(p: Parser, ps: seq<string>)
    requires p.error.None? && |p.url| <= MAX_URL
    ensures var r := FeedAll(p, Urls(ps));
            if |p.url| + |Concat(ps)| <= MAX_URL then r == p.(url := p.url + Concat(ps))
            else r.error == Some(URL_TOO_LONG)
    decreases |ps|
  {
    if ps != [] {
      assert Urls(ps)[1..] == Urls(ps[1..]);
      var q := Feed(p, Url(ps[0]));
      if q.error.Some? {
        ErrorsStay(q, Urls(ps[1..]));
      } else {
        UrlPieces(q, ps[1..]);
        assert q.url + Concat(ps[1..]) == p.url + Concat(ps);
      }
    }
  }

  lemma {:induction false} BodyPieces(p: Parser, ps: seq<string>)
    requires p.error.None? && |p.body| <= MAX_BODY
    ensures var r := FeedAll(p, Bodies(ps));
            if |p.body| + |Concat(ps)| <= MAX_BODY then r == p.(body := p.body + Concat(ps))
            else r.error == Some(BODY_TOO_LARGE)
    decreases |ps|
  {
    if ps != [] {
      assert Bodies(ps)[1..] == Bodies(ps[1..]);
      var q := Feed(p, Body(ps[0]));
      if q.error.Some? {
        ErrorsStay(q, Bodies(ps[1..]));
      } else {
        BodyPieces(q, ps[1..]);
        assert q.body + Concat(ps[1..]) == p.body + Concat(ps);
      }
    }
  }

  lemma {:induction false} FieldPieces(p: Parser, ps: seq<string>)
    requires p.error.None? && ps != []
    ensures FeedAll(p, Fields(ps)) ==
            p.(field := (if p.state.InValue? then "" else p.field) + Concat(ps), state := InField)
    decreases |ps|
  {
    var q := Feed(p, Field(ps[0]));
    assert Fields(ps)[1..] == Fields(ps[1..]);
    if |ps| == 1 {
      assert Fields(ps[1..]) == [];
      assert Concat(ps) == ps[0];
    } else {
      FieldPieces(q, ps[1..]);
      var base := if p.state.InValue? then "" else p.field;
      assert base + ps[0] + Concat(ps[1..]) == base + Concat(ps);
    }
  }

  function WithValue(t: seq<Header>, i: nat, v: string): seq<Header>
    requires i < |t|
  {
    t[i := t[i].(value := v)]
  }

  lemma WithValueFacts(t: seq<Header>, i: nat, v: string, w: string, name: string)
    requires i < |t|
    ensures Find(WithValue(t, i, v), name) == Find(t, name)
    ensures WithValue(WithValue(t, i, v), i, w) == WithValue(t, i, w)
    ensures TotalSize(WithValue(t, i, v)) == TotalSize(t) - |t[i].value| + |v|
  {
    FindByNames(t, WithValue(t, i, v), name);
    SizeAfterSet(t, i, t[i].(value := v));
  }

  lemma OneMorePiece(p: Parser, i: nat, at: string)
    requires p.error.None? && p.state.InValue? && i == Find(p.headers, p.field) && i < |p.headers|
    ensures var t := WithValue(p.headers, i, p.value + at);
            Feed(p, Value(at)) == p.(headers := t, value := p.value + at, error := Check(t))
  {
  }

  /** Further pieces of a value replace what the table holds under the name, whatever it held. */
  lemma {:induction false} MoreValuePieces(p: Parser, i: nat, ps: seq<string>)
    requires p.error.None? && p.state.InValue? && ps != []
    requires i == Find(p.headers, p.field) && i < |p.headers| <= MAX_HEADERS
    ensures var full := WithValue(p.headers, i, p.value + Concat(ps));
            var r := FeedAll(p, Values(ps));
            if Check(full).None? then r == p.(headers := full, value := p.value + Concat(ps))
            else r.error == Check(full)
    decreases |ps|
  {
    OneMorePiece(p, i, ps[0]);
    var q := Feed(p, Value(ps[0]));
    var v := p.value + Concat(ps);
    assert FeedAll(p, Values(ps)) == FeedAll(q, Values(ps[1..])) by {
      assert Values(ps)[1..] == Values(ps[1..]);
    }
    assert v == p.value + ps[0] + Concat(ps[1..]);
    if |ps| == 1 {
      assert ps[1..] == [] && Values(ps[1..]) == [] && FeedAll(q, Values(ps[1..])) == q;
      assert v == p.value + ps[0];
    } else {
      MoreOf(p, i, ps, v, q);
    }
  }

  lemma {:induction false} MoreOf(p: Parser, i: nat, ps: seq<string>, v: string, q: Parser)
    requires p.error.None? && p.state.InValue? && |ps| > 1
    requires i == Find(p.headers, p.field) && i < |p.headers| <= MAX_HEADERS
    requires v == p.value + ps[0] + Concat(ps[1..])
    requires var t := WithValue(p.headers, i, p.value + ps[0]);
             q == p.(headers := t, value := p.value + ps[0], error := Check(t))
    ensures var full := WithValue(p.headers, i, v);
            var r := FeedAll(q, Values(ps[1..]));
            if Check(full).None? then r == p.(headers := full, value := v) else r.error == Check(full)
    decreases |ps|, 0
  {
    WithValueFacts(p.headers, i, p.value + ps[0], v, p.field);
    WithValueFacts(p.headers, i, v, v, p.field);
    if q.error.Some? {
      ErrorsStay(q, Values(ps[1..]));
    } else {
      MoreValuePieces(q, i, ps[1..]);
    }
  }

  /** The table the code ends up with: for a repeated name whose value came in several pieces, the
      earlier values are gone. */
  function AddAs(table: seq<Header>, h: Pieces): seq<Header> {
    var i := Find(table, Concat(h.name));
    if i < |table| && |h.value| > 1 then WithValue(table, i, Concat(h.value))
    else Add(table, Concat(h.name), Concat(h.value))
  }

  /** What the code checks for one header: the table after the first piece, and that after the last. */
  function Enter(table: seq<Header>, h: Pieces): Table {
    match Checked(Add(table, Concat(h.name), h.value[0]))
    case Bad(m) => Bad(m)
    case Headers(_) => Checked(AddAs(table, h))
  }

  function EnterAll(table: seq<Header>, hs: seq<Pieces>): Table
    decreases |hs|
  {
    if hs == [] then Headers(table)
    else
      match Enter(table, hs[0])
      case Bad(m) => Bad(m)
      case Headers(t) => EnterAll(t, hs[1..])
  }

  /** Between two headers, with a table within the limits. */
  ghost predicate Between(p: Parser) {
    p.error.None? && Check(p.headers).None? && (p.state.InValue? || (p.state.NoHeader? && p.field == ""))
  }

  function FeedHeader(p: Parser, h: Pieces): Parser {
    FeedAll(p, Fields(h.name) + Values(h.value))
  }

  /** After the first piece of h's value. */
  function Entered(p: Parser, h: Pieces): Parser {
    var t := Add(p.headers, Concat(h.name), h.value[0]);
    p.(headers := t, field := Concat(h.name), value := h.value[0], state := InValue, error := Check(t))
  }

  lemma FirstPiece(p: Parser, h: Pieces)
    requires Between(p)
    ensures FeedHeader(p, h) == FeedAll(Entered(p, h), Values(h.value[1..]))
  {
    FeedAllAppend(p, Fields(h.name), Values(h.value));
    FieldPieces(p, h.name);
    assert Values(h.value)[1..] == Values(h.value[1..]);
    assert "" + h.value[0] == h.value[0];
    assert "" + Concat(h.name) == Concat(h.name);
  }

  /** r is p with the table that a header leads to, or with its error. */
  ghost predicate Takes(p: Parser, h: Pieces, t: Table, r: Parser) {
    match t
    case Bad(m) => r.error == Some(m)
    case Headers(list) =>
      r == p.(headers := list, field := Concat(h.name), value := Concat(h.value), state := InValue) && r.error.None?
  }

  /** One header, however it is cut. */
  lemma HeaderPieces(p: Parser, h: Pieces)
    requires Between(p)
    ensures Takes(p, h, Enter(p.headers, h), FeedHeader(p, h))
  {
    FirstPiece(p, h);
    if |h.value| == 1 {
      assert Values(h.value[1..]) == [];
      assert Concat(h.value) == h.value[0];
    } else if Entered(p, h).error.Some? {
      ErrorsStay(Entered(p, h), Values(h.value[1..]));
    } else {
      LaterPieces(p, h);
    }
  }

  lemma LaterPieces(p: Parser, h: Pieces)
    requires Between(p) && |h.value| > 1 && Entered(p, h).error.None?
    ensures Takes(p, h, Checked(AddAs(p.headers, h)), FeedAll(Entered(p, h), Values(h.value[1..])))
  {
    var n, vs := Concat(h.name), h.value;
    var i := Find(p.headers, n);
    var q := Entered(p, h);
    assert Concat(vs) == vs[0] + Concat(vs[1..]);
    if i == |p.headers| {
      FindNew(p.headers, Header(n, vs[0]));
      assert WithValue(q.headers, i, Concat(vs)) == Add(p.headers, n, Concat(vs));
    } else {
      WithValueFacts(p.headers, i, p.headers[i].value + SEPARATOR + vs[0], Concat(vs), n);
      assert WithValue(q.headers, i, Concat(vs)) == AddAs(p.headers, h);
    }
    MoreValuePieces(q, i, vs[1..]);
  }

  /** Headers delivered one after the other. */
  function FeedHeaders(p: Parser, hs: seq<Pieces>): Parser
    decreases |hs|
  {
    if hs == [] then p else FeedHeaders(FeedHeader(p, hs[0]), hs[1..])
  }

  lemma {:induction false} HeadersInTurn(p: Parser, hs: seq<Pieces>)
    ensures FeedAll(p, HeaderEvents(hs)) == FeedHeaders(p, hs)
    decreases |hs|
  {
    if hs != [] {
      FeedAllAppend(p, Fields(hs[0].name) + Values(hs[0].value), HeaderEvents(hs[1..]));
      HeadersInTurn(FeedHeader(p, hs[0]), hs[1..]);
    }
  }

  lemma {:induction false} HeaderErrorsStay(p: Parser, hs: seq<Pieces>)
    requires p.error.Some?
    ensures FeedHeaders(p, hs) == p
    decreases |hs|
  {
    if hs != [] {
      ErrorsStay(p, Fields(hs[0].name) + Values(hs[0].value));
      HeaderErrorsStay(p, hs[1..]);
    }
  }

  /** r is p after some headers: with their table, and ready for more, or with their error. */
  ghost predicate TakesAll(p: Parser, t: Table, r: Parser) {
    match t
    case Bad(m) => r.error == Some(m)
    case Headers(list) =>
      Between(r) && r.headers == list && r.url == p.url && r.body == p.body && r.complete == p.complete
  }

  lemma {:induction false} AllHeaders(p: Parser, hs: seq<Pieces>)
    requires Between(p)
    ensures TakesAll(p, EnterAll(p.headers, hs), FeedAll(p, HeaderEvents(hs)))
    decreases |hs|
  {
    HeadersInTurn(p, hs);
    if hs != [] {
      var q := FeedHeader(p, hs[0]);
      HeaderPieces(p, hs[0]);
      HeadersInTurn(q, hs[1..]);
      if q.error.Some? {
        HeaderErrorsStay(q, hs[1..]);
      } else {
        AllHeaders(q, hs[1..]);
      }
    }
  }

  // ---------------------------------------------------------------------------
  // What the parser makes of a delivery
  // ---------------------------------------------------------------------------

  function Result(d: Delivery): Outcome {
    OutcomeOf(FeedAll(FRESH, Events(d)))
  }

  /** What follows the URL and the headers. */
  function Finished(p: Parser, d: Delivery): Parser {
    Feed(FeedAll(FeedAll(p, Bodies(d.body)), HeaderEvents(d.trailers)), Complete)
  }

  lemma ResultByStages(d: Delivery)
    ensures Result(d) == OutcomeOf(Finished(FeedAll(FeedAll(FRESH, Urls(d.url)), HeaderEvents(d.headers)), d))
  {
    var es := Urls(d.url) + HeaderEvents(d.headers);
    FeedAllAppend(FRESH, es + Bodies(d.body) + HeaderEvents(d.trailers), [Complete]);
    FeedAllAppend(FRESH, es + Bodies(d.body), HeaderEvents(d.trailers));
    FeedAllAppend(FRESH, es, Bodies(d.body));
    FeedAllAppend(FRESH, Urls(d.url), HeaderEvents(d.headers));
  }

  lemma FinishedWithError(p: Parser, d: Delivery)
    requires p.error.Some?
    ensures Finished(p, d) == p
  {
    ErrorsStay(p, Bodies(d.body));
    ErrorsStay(p, HeaderEvents(d.trailers));
  }

  lemma FinishedAs(p: Parser, d: Delivery)
    requires Between(p) && p.body == "" && !p.complete
    ensures OutcomeOf(Finished(p, d)) ==
            if |Concat(d.body)| > MAX_BODY then Failed(BODY_TOO_LARGE)
            else match EnterAll(p.headers, d.trailers)
              case Bad(m) => Failed(m)
              case Headers(t) => Parsed(Request(p.url, t, Concat(d.body)))
  {
    BodyPieces(p, d.body);
    assert "" + Concat(d.body) == Concat(d.body);
    var b := FeedAll(p, Bodies(d.body));
    if b.error.Some? {
      ErrorsStay(b, HeaderEvents(d.trailers));
    } else {
      AllHeaders(b, d.trailers);
    }
  }

  /** Every delivery, cut in any way and within the limits or not, comes to what Enter makes of its
      headers one by one; how the URL, the body, names and new values are cut does not matter. */
  lemma ResultIsEntered(d: Delivery)
    ensures Result(d) == Outcomes(d, EnterAll)
  {
    ResultByStages(d);
    var u := FeedAll(FRESH, Urls(d.url));
    UrlPieces(FRESH, d.url);
    assert "" + Concat(d.url) == Concat(d.url);
    if u.error.Some? {
      ErrorsStay(u, HeaderEvents(d.headers));
      FinishedWithError(u, d);
    } else {
      AllHeaders(u, d.headers);
      var h := FeedAll(u, HeaderEvents(d.headers));
      if h.error.Some? {
        FinishedWithError(h, d);
      } else {
        FinishedAs(h, d);
      }
    }
  }

  // ---------------------------------------------------------------------------
  // When that is what the message means
  // ---------------------------------------------------------------------------

  lemma FirstSize(t: seq<Header>, n: string, v0: string, v: string)
    requires |v0| <= |v|
    ensures |Add(t, n, v0)| == |Add(t, n, v)| && TotalSize(Add(t, n, v0)) <= TotalSize(Add(t, n, v))
    ensures TotalSize(Add(t, n, v)) == TotalSize(t) + |v| + (if Find(t, n) == |t| then |n| else 2)
  {
    var i := Find(t, n);
    if i == |t| {
      SizeAfterAppend(t, Header(n, v0));
      SizeAfterAppend(t, Header(n, v));
    } else {
      SizeAfterSet(t, i, t[i].(value := t[i].value + SEPARATOR + v0));
      SizeAfterSet(t, i, t[i].(value := t[i].value + SEPARATOR + v));
    }
  }

  function NameOf(h: Pieces): string {
    Lowered(Concat(h.name))
  }

  /** Some header repeats an earlier name and has its value cut. */
  ghost predicate SplitsRepeat(hs: seq<Pieces>) {
    exists k :: 0 <= k < |hs| && |hs[k].value| > 1 && Repeats({}, hs, k)
  }

  ghost predicate Repeats(names: set<string>, hs: seq<Pieces>, k: nat)
    requires k < |hs|
  {
    NameOf(hs[k]) in names || exists j :: 0 <= j < k && NameOf(hs[j]) == NameOf(hs[k])
  }

  /** The same, reading the headers in order with the names seen so far. */
  ghost predicate SplitFrom(names: set<string>, hs: seq<Pieces>)
    decreases |hs|
  {
    hs != [] && ((NameOf(hs[0]) in names && |hs[0].value| > 1) || SplitFrom(names + {NameOf(hs[0])}, hs[1..]))
  }

  lemma {:induction false} SplitFromIff(names: set<string>, hs: seq<Pieces>)
    ensures SplitFrom(names, hs) <==> exists k :: 0 <= k < |hs| && |hs[k].value| > 1 && Repeats(names, hs, k)
    decreases |hs|
  {
    if hs != [] {
      var more := names + {NameOf(hs[0])};
      SplitFromIff(more, hs[1..]);
      forall k | 0 <= k < |hs| - 1 ensures Repeats(more, hs[1..], k) <==> Repeats(names, hs, k + 1) {
        RepeatsShift(names, hs, k);
      }
      assert Repeats(names, hs, 0) <==> NameOf(hs[0]) in names;
      if SplitFrom(more, hs[1..]) {
        var k :| 0 <= k < |hs[1..]| && |hs[1..][k].value| > 1 && Repeats(more, hs[1..], k);
        assert hs[k + 1] == hs[1..][k] && Repeats(names, hs, k + 1);
      }
      if k :| 1 <= k < |hs| && |hs[k].value| > 1 && Repeats(names, hs, k) {
        assert hs[1..][k - 1] == hs[k] && Repeats(more, hs[1..], k - 1);
      }
    }
  }

  lemma RepeatsShift(names: set<string>, hs: seq<Pieces>, k: nat)
    requires k + 1 < |hs|
    ensures Repeats(names + {NameOf(hs[0])}, hs[1..], k) <==> Repeats(names, hs, k + 1)
  {
    var n := NameOf(hs[k + 1]);
    if j :| 0 <= j < k && NameOf(hs[1..][j]) == n {
      assert NameOf(hs[j + 1]) == n;
    }
    if j :| 0 <= j < k + 1 && NameOf(hs[j]) == n {
      assert j == 0 || NameOf(hs[1..][j - 1]) == n;
    }
  }

  ghost function Names(t: seq<Header>): set<string> {
    set h | h in t :: Lowered(h.name)
  }

  lemma FoundIffNamed(t: seq<Header>, name: string)
    ensures Find(t, name) < |t| <==> Lowered(name) in Names(t)
  {
    var i := Find(t, name);
    if i < |t| {
      assert t[i] in t;
    }
  }

  lemma NamesAfterAdd(t: seq<Header>, name: string, value: string)
    ensures Names(Add(t, name, value)) == Names(t) + {Lowered(name)}
  {
    var u := Add(t, name, value);
    var i := Find(t, name);
    forall h | h in t ensures Lowered(h.name) in Names(u) {
      var j :| 0 <= j < |t| && t[j] == h;
      assert u[j] in u && u[j].name == h.name;
    }
    forall h | h in u ensures Lowered(h.name) in Names(t) + {Lowered(name)} {
      var j :| 0 <= j < |u| && u[j] == h;
      assert j < |t| ==> t[j] in t && t[j].name == h.name;
    }
    assert u[i] in u;
  }

  /** h repeats a name of the table and has its value cut. */
  ghost predicate CutsRepeat(table: seq<Header>, h: Pieces) {
    NameOf(h) in Names(table) && |h.value| > 1
  }

  lemma EnterIsAdd(t: seq<Header>, h: Pieces)
    requires !CutsRepeat(t, h)
    ensures Enter(t, h) == Checked(Add(t, Concat(h.name), Concat(h.value)))
  {
    FoundIffNamed(t, Concat(h.name));
    assert Concat(h.value) == h.value[0] + Concat(h.value[1..]);
    FirstSize(t, Concat(h.name), h.value[0], Concat(h.value));
    if |h.value| == 1 {
      assert Concat(h.value[1..]) == "";
    }
  }

  /** Without a cut repeated value, the table is the one that is meant, or the failure is. */
  lemma {:induction false} WholeRepeats(t: seq<Header>, hs: seq<Pieces>, gs: seq<Pieces>)
    requires !SplitFrom(Names(t), hs + gs)
    ensures EnterAll(t, hs) == AddAll(t, hs)
    ensures AddAll(t, hs).Headers? ==> !SplitFrom(Names(AddAll(t, hs).list), gs)
    decreases |hs|
  {
    if hs == [] {
      assert hs + gs == gs;
    } else {
      var n, v := Concat(hs[0].name), Concat(hs[0].value);
      assert (hs + gs)[0] == hs[0] && (hs + gs)[1..] == hs[1..] + gs;
      EnterIsAdd(t, hs[0]);
      NamesAfterAdd(t, n, v);
      if Checked(Add(t, n, v)).Headers? {
        WholeRepeats(Add(t, n, v), hs[1..], gs);
      }
    }
  }

  ghost predicate SameNames(s: seq<Header>, t: seq<Header>) {
    |s| == |t| && forall i :: 0 <= i < |s| ==> s[i].name == t[i].name
  }

  /** Names are found in the same place in tables of the same names. */
  lemma FoundAlike(t: seq<Header>, meant: seq<Header>, h: Pieces)
    requires SameNames(t, meant)
    ensures Find(t, Concat(h.name)) == Find(meant, Concat(h.name))
    ensures Find(meant, Concat(h.name)) < |meant| <==> NameOf(h) in Names(meant)
    ensures SameNames(AddAs(t, h), Add(meant, Concat(h.name), Concat(h.value)))
  {
    FindByNames(t, meant, Concat(h.name));
    FoundIffNamed(meant, Concat(h.name));
  }

  /** One header, cut or not, when the table has lost something against the one that is meant. */
  lemma AddAsMayLose(t: seq<Header>, h: Pieces, meant: seq<Header>, lost: nat)
    requires SameNames(t, meant) && lost <= 1 && TotalSize(t) + lost <= TotalSize(meant)
    ensures TotalSize(AddAs(t, h)) + (if CutsRepeat(meant, h) then 1 else lost)
            <= TotalSize(Add(meant, Concat(h.name), Concat(h.value)))
  {
    var n, v := Concat(h.name), Concat(h.value);
    FoundAlike(t, meant, h);
    FirstSize(t, n, v, v);
    FirstSize(meant, n, v, v);
    if Find(t, n) < |t| {
      WithValueFacts(t, Find(t, n), v, v, n);
    }
  }

  /** A table that is no longer and no larger than one within the limits is so too. */
  lemma SmallerPasses(t: seq<Header>, u: seq<Header>)
    requires |t| == |u| && TotalSize(t) <= TotalSize(u) && Checked(u).Headers?
    ensures Checked(t) == Headers(t)
  {
  }

  lemma EnterMayLose(t: seq<Header>, h: Pieces, meant: seq<Header>, lost: nat)
    requires SameNames(t, meant) && lost <= 1 && TotalSize(t) + lost <= TotalSize(meant)
    requires Checked(Add(meant, Concat(h.name), Concat(h.value))).Headers?
    ensures Enter(t, h) == Headers(AddAs(t, h))
  {
    var n, v0, v := Concat(h.name), h.value[0], Concat(h.value);
    var u := Add(meant, n, v);
    FoundAlike(t, meant, h);
    AddAsMayLose(t, h, meant, lost);
    SmallerPasses(AddAs(t, h), u);
    assert v == v0 + Concat(h.value[1..]);
    FirstSize(t, n, v0, v);
    FirstSize(meant, n, v, v);
    SmallerPasses(Add(t, n, v0), u);
  }

  lemma {:induction false} ManyMayLose(t: seq<Header>, hs: seq<Pieces>, meant: seq<Header>, lost: nat)
    requires SameNames(t, meant) && lost <= 1 && TotalSize(t) + lost <= TotalSize(meant)
    requires AddAll(meant, hs).Headers?
    ensures EnterAll(t, hs).Headers?
    ensures TotalSize(EnterAll(t, hs).list) + (if SplitFrom(Names(meant), hs) then 1 else lost)
            <= TotalSize(AddAll(meant, hs).list)
    decreases |hs|
  {
    if hs != [] {
      var n, v := Concat(hs[0].name), Concat(hs[0].value);
      EnterMayLose(t, hs[0], meant, lost);
      AddAsMayLose(t, hs[0], meant, lost);
      FoundAlike(t, meant, hs[0]);
      NamesAfterAdd(meant, n, v);
      ManyMayLose(AddAs(t, hs[0]), hs[1..], Add(meant, n, v), if CutsRepeat(meant, hs[0]) then 1 else lost);
    }
  }

  lemma {:induction false} AddInTwo(t: seq<Header>, hs: seq<Pieces>, gs: seq<Pieces>)
    ensures AddAll(t, hs + gs) ==
            match AddAll(t, hs) case Bad(m) => Bad(m) case Headers(u) => AddAll(u, gs)
    decreases |hs|
  {
    if hs == [] {
      assert hs + gs == gs;
    } else {
      assert (hs + gs)[0] == hs[0] && (hs + gs)[1..] == hs[1..] + gs;
      AddInTwo(Add(t, Concat(hs[0].name), Concat(hs[0].value)), hs[1..], gs);
    }
  }

  lemma {:induction false} EnterInTwo(t: seq<Header>, hs: seq<Pieces>, gs: seq<Pieces>)
    ensures EnterAll(t, hs + gs) ==
            match EnterAll(t, hs) case Bad(m) => Bad(m) case Headers(u) => EnterAll(u, gs)
    decreases |hs|
  {
    if hs == [] {
      assert hs + gs == gs;
    } else {
      assert (hs + gs)[0] == hs[0] && (hs + gs)[1..] == hs[1..] + gs;
      EnterInTwo(AddAs(t, hs[0]), hs[1..], gs);
    }
  }

  // ---------------------------------------------------------------------------
  // Main results
  // ---------------------------------------------------------------------------

  /** All header fields of a message. */
  function AllFields(d: Delivery): seq<Pieces> {
    d.headers + d.trailers
  }

  /** The result is what the message means, errors included, however URL, names, values and body are
      cut, provided the value of a repeated header is not. */
  lemma ResultIsMeaning(d: Delivery)
    requires !SplitsRepeat(AllFields(d))
    ensures Result(d) == Meaning(d)
  {
    ResultIsEntered(d);
    SplitFromIff({}, AllFields(d));
    assert Names([]) == {};
    WholeRepeats([], d.headers, d.trailers);
    if AddAll([], d.headers).Headers? {
      var t := AddAll([], d.headers).list;
      assert d.trailers + [] == d.trailers;
      WholeRepeats(t, d.trailers, []);
    }
  }

  ghost predicate SameText(h: Pieces, g: Pieces) {
    Concat(h.name) == Concat(g.name) && Concat(h.value) == Concat(g.value)
  }

  ghost predicate SameFields(hs: seq<Pieces>, gs: seq<Pieces>) {
    |hs| == |gs| && forall k :: 0 <= k < |hs| ==> SameText(hs[k], gs[k])
  }

  ghost predicate SameMessage(d: Delivery, e: Delivery) {
    && Concat(d.url) == Concat(e.url) && Concat(d.body) == Concat(e.body)
    && SameFields(d.headers, e.headers) && SameFields(d.trailers, e.trailers)
  }

  lemma {:induction false} MeaningIgnoresCuts(t: seq<Header>, hs: seq<Pieces>, gs: seq<Pieces>)
    requires SameFields(hs, gs)
    ensures AddAll(t, hs) == AddAll(t, gs)
    decreases |hs|
  {
    if hs != [] {
      assert SameText(hs[0], gs[0]);
      assert forall k :: 0 <= k < |hs| - 1 ==> hs[1..][k] == hs[k + 1] && gs[1..][k] == gs[k + 1];
      MeaningIgnoresCuts(Add(t, Concat(hs[0].name), Concat(hs[0].value)), hs[1..], gs[1..]);
    }
  }

  lemma MeaningOfSame(d: Delivery, e: Delivery)
    requires SameMessage(d, e)
    ensures Meaning(d) == Meaning(e)
  {
    MeaningIgnoresCuts([], d.headers, e.headers);
    if AddAll([], d.headers).Headers? {
      MeaningIgnoresCuts(AddAll([], d.headers).list, d.trailers, e.trailers);
    }
  }

  /** So two deliveries of one message that leave repeated values whole give one result. */
  lemma ChunkIndependent(d: Delivery, e: Delivery)
    requires SameMessage(d, e) && !SplitsRepeat(AllFields(d)) && !SplitsRepeat(AllFields(e))
    ensures Result(d) == Result(e)
  {
    ResultIsMeaning(d);
    ResultIsMeaning(e);
    MeaningOfSame(d, e);
  }

  ghost predicate DistinctNames(hs: seq<Pieces>) {
    forall j, k :: 0 <= j < k < |hs| ==> NameOf(hs[j]) != NameOf(hs[k])
  }

  lemma DistinctNamesNeverRepeat(hs: seq<Pieces>, gs: seq<Pieces>)
    requires SameFields(hs, gs) && DistinctNames(hs)
    ensures !SplitsRepeat(gs)
  {
    forall k | 0 <= k < |gs| ensures !Repeats({}, gs, k) {
      forall j | 0 <= j < |hs| ensures NameOf(hs[j]) == NameOf(gs[j]) {
        assert SameText(hs[j], gs[j]);
      }
    }
  }

  /** In particular, when header names are distinct up to case, any two deliveries do. */
  lemma DistinctNamesChunkIndependent(d: Delivery, e: Delivery)
    requires SameMessage(d, e) && DistinctNames(AllFields(d))
    ensures Result(d) == Result(e)
  {
    assert SameFields(AllFields(d), AllFields(d));
    assert SameFields(AllFields(d), AllFields(e));
    DistinctNamesNeverRepeat(AllFields(d), AllFields(d));
    DistinctNamesNeverRepeat(AllFields(d), AllFields(e));
    ChunkIndependent(d, e);
  }

  /** And the proviso is exact: a message within all limits comes out as meant if and only if no
      repeated header had its value cut. When one had, the earlier values are lost. */
  lemma MeantIffNoSplitRepeat(d: Delivery)
    requires Meaning(d).Parsed?
    ensures Result(d) == Meaning(d) <==> !SplitsRepeat(AllFields(d))
    ensures Result(d).Parsed?
    ensures TotalSize(Result(d).request.headers) + (if SplitsRepeat(AllFields(d)) then 1 else 0)
            <= TotalSize(Meaning(d).request.headers)
  {
    ResultIsEntered(d);
    SplitFromIff({}, AllFields(d));
    assert Names([]) == {};
    AddInTwo([], d.headers, d.trailers);
    EnterInTwo([], d.headers, d.trailers);
    ManyMayLose([], AllFields(d), [], 0);
    if !SplitsRepeat(AllFields(d)) {
      ResultIsMeaning(d);
    }
  }

  /** A message with one header a, and then A with its value in two pieces. */
  function RepeatedInTwo(v: string, w: string, x: string): Delivery {
    Delivery(["/"], [RawHeader(["a"], [v]), RawHeader(["A"], [w, x])], [], [])
  }

  lemma TwoHeaders(h: Pieces, g: Pieces)
    ensures AddAll([], [h, g]) ==
            (match Checked(Add([], Concat(h.name), Concat(h.value)))
             case Bad(m) => Bad(m)
             case Headers(t) => Checked(Add(t, Concat(g.name), Concat(g.value))))
    ensures EnterAll([], [h, g]) ==
            (match Enter([], h)
             case Bad(m) => Bad(m)
             case Headers(t) => Enter(t, g))
  {
    assert [h, g][1..] == [g] && [g][1..] == [];
  }

  /** The tables on the way, as they are meant and as they are. */
  lemma RepeatedInTwoTables(v: string, w: string, x: string)
    ensures var hs := RepeatedInTwo(v, w, x).headers;
            var t := [Header("a", v)];
            && Add([], Concat(hs[0].name), Concat(hs[0].value)) == t == AddAs([], hs[0])
            && Add([], Concat(hs[0].name), hs[0].value[0]) == t
            && Add(t, Concat(hs[1].name), w) == [Header("a", v + SEPARATOR + w)]
            && Add(t, Concat(hs[1].name), Concat(hs[1].value)) == [Header("a", v + SEPARATOR + (w + x))]
            && AddAs(t, hs[1]) == [Header("a", w + x)]
  {
    assert Concat(["a"]) == "a" && Concat(["A"]) == "A" && Concat([v]) == v;
    assert Concat([w, x]) == w + x by {
      assert [w, x][1..] == [x] && Concat([x]) == x;
    }
    assert Lowered("A") == Lowered("a");
    assert Find([Header("a", v)], "A") == 0;
  }

  lemma RepeatedInTwoEntered(v: string, w: string, x: string)
    ensures var hs := RepeatedInTwo(v, w, x).headers;
            && AddAll([], hs) == (match Checked([Header("a", v)])
                                  case Bad(m) => Bad(m)
                                  case Headers(_) => Checked([Header("a", v + SEPARATOR + (w + x))]))
            && EnterAll([], hs) == (match Checked([Header("a", v)])
                                    case Bad(m) => Bad(m)
                                    case Headers(_) =>
                                      match Checked([Header("a", v + SEPARATOR + w)])
                                      case Bad(m) => Bad(m)
                                      case Headers(_) => Checked([Header("a", w + x)]))
  {
    var hs := RepeatedInTwo(v, w, x).headers;
    RepeatedInTwoTables(v, w, x);
    TwoHeaders(hs[0], hs[1]);
    assert hs == [hs[0], hs[1]];
  }

  lemma CheckOne(v: string)
    ensures Checked([Header("a", v)]) ==
            if 1 + |v| > MAX_HEADER_BYTES then Bad(HEADERS_TOO_LARGE) else Headers([Header("a", v)])
  {
    var t := [Header("a", v)];
    assert t[..0] == [] && TotalSize(t) == TotalSize(t[..0]) + Size(t[0]);
  }

  lemma RepeatedInTwoResult(v: string, w: string, x: string)
    ensures var d := RepeatedInTwo(v, w, x);
            && Concat(d.url) == "/" && Concat(d.body) == "" && d.trailers == []
            && Meaning(d) == (match AddAll([], d.headers)
                              case Bad(m) => Failed(m)
                              case Headers(t) => Parsed(Request("/", t, "")))
            && Result(d) == (match EnterAll([], d.headers)
                             case Bad(m) => Failed(m)
                             case Headers(t) => Parsed(Request("/", t, "")))
  {
    ResultIsEntered(RepeatedInTwo(v, w, x));
  }

  /** The value that is lost: that of a, when A brings its own in two pieces. */
  lemma EarlierValueIsLost(v: string, w: string, x: string)
    requires |v| + |w| + |x| + 3 <= MAX_HEADER_BYTES
    ensures var d := RepeatedInTwo(v, w, x);
            && Meaning(d) == Parsed(Request("/", [Header("a", v + SEPARATOR + (w + x))], ""))
            && Result(d) == Parsed(Request("/", [Header("a", w + x)], ""))
  {
    RepeatedInTwoEntered(v, w, x);
    RepeatedInTwoResult(v, w, x);
    CheckOne(v);
    CheckOne(v + SEPARATOR + w);
    CheckOne(w + x);
    CheckOne(v + SEPARATOR + (w + x));
  }

  /** And so a message past the limit on header bytes may be accepted: of two values that pass it
      together, the one in two pieces, the first of them empty, replaces the other. */
  lemma LimitIsEscaped(v: string, x: string)
    requires |v| < MAX_HEADER_BYTES - 2 && |x| < MAX_HEADER_BYTES && |v| + |x| > MAX_HEADER_BYTES
    ensures var d := RepeatedInTwo(v, "", x);
            && Meaning(d) == Failed(HEADERS_TOO_LARGE)
            && Result(d) == Parsed(Request("/", [Header("a", x)], ""))
  {
    RepeatedInTwoEntered(v, "", x);
    RepeatedInTwoResult(v, "", x);
    CheckOne(v);
    CheckOne(v + SEPARATOR + "");
    CheckOne("" + x);
    CheckOne(v + SEPARATOR + ("" + x));
    assert "" + x == x;
  }
}
