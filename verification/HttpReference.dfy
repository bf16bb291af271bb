/** What a message comes to, said without the parser's own tables: names compared letter by letter,
    headers counted, values joined, and the limits in numbers. */
module HttpReference {
  import opened Common
  import opened Http
  import opened HttpMessages

  // ---------------------------------------------------------------------------
  // Names, counts and values
  // ---------------------------------------------------------------------------

  /** The same letter up to ASCII case. */
  predicate SameLetter(x: char, y: char) {
    || x == y
    || ('A' <= x <= 'Z' && y as int == x as int + 32)
    || ('A' <= y <= 'Z' && x as int == y as int + 32)
  }

  ghost predicate SameName(a: string, b: string) {
    |a| == |b| && forall i :: 0 <= i < |a| ==> SameLetter(a[i], b[i])
  }

  lemma LoweredIffSame(a: string, b: string)
    ensures Lowered(a) == Lowered(b) <==> SameName(a, b)
  {
    if Lowered(a) == Lowered(b) {
      assert |a| == |Lowered(a)| == |b|;
      forall i | 0 <= i < |a| ensures SameLetter(a[i], b[i]) {
        assert Lowered(a)[i] == Lowered(b)[i];
      }
    }
    if SameName(a, b) {
      forall i | 0 <= i < |a| ensures Lowered(a)[i] == Lowered(b)[i] {
        assert SameLetter(a[i], b[i]);
      }
    }
  }

  function NameAt(hs: seq<Pieces>, k: nat): string
    requires k < |hs|
  {
    Concat(hs[k].name)
  }

  function ValueAt(hs: seq<Pieces>, k: nat): string
    requires k < |hs|
  {
    Concat(hs[k].value)
  }

  /** Some header has the name. */
  ghost predicate Occurs(hs: seq<Pieces>, name: string) {
    hs != [] && (SameName(NameAt(hs, |hs| - 1), name) || Occurs(hs[..|hs| - 1], name))
  }

  /** A name as it is spelled where it first occurs. */
  ghost function Spelled(hs: seq<Pieces>, name: string): string
    requires Occurs(hs, name)
  {
    if Occurs(hs[..|hs| - 1], name) then Spelled(hs[..|hs| - 1], name) else NameAt(hs, |hs| - 1)
  }

  /** The number of names, up to case. */
  ghost function NameCount(hs: seq<Pieces>): nat {
    if hs == [] then 0
    else
      var n := |hs| - 1;
      NameCount(hs[..n]) + (if Occurs(hs[..n], NameAt(hs, n)) then 0 else 1)
  }

  /** The bytes of names and joined values. */
  ghost function Bytes(hs: seq<Pieces>): nat {
    if hs == [] then 0
    else
      var n := |hs| - 1;
      Bytes(hs[..n]) + |ValueAt(hs, n)| + (if Occurs(hs[..n], NameAt(hs, n)) then 2 else |NameAt(hs, n)|)
  }

  /** The values of all headers of a name, in order, with a comma and a space between them. */
  ghost function Joined(hs: seq<Pieces>, name: string): string {
    if hs == [] then ""
    else
      var n := |hs| - 1;
      if !SameName(NameAt(hs, n), name) then Joined(hs[..n], name)
      else if Occurs(hs[..n], name) then Joined(hs[..n], name) + ", " + ValueAt(hs, n)
      else ValueAt(hs, n)
  }

  ghost predicate Fits(hs: seq<Pieces>) {
    NameCount(hs) <= 100 && Bytes(hs) <= 65536
  }

  /** How many of the first n headers there are when a limit is first passed. */
  ghost function FirstUnfit(hs: seq<Pieces>, n: nat): (k: nat)
    requires n <= |hs| && !Fits(hs[..n])
    ensures 0 < k <= n && !Fits(hs[..k]) && Fits(hs[..k - 1])
  {
    if Fits(hs[..n - 1]) then n else FirstUnfit(hs, n - 1)
  }

  /** The error of headers that pass a limit. */
  ghost function Refusal(hs: seq<Pieces>): string
    requires !Fits(hs)
  {
    assert hs[..|hs|] == hs;
    if NameCount(hs[..FirstUnfit(hs, |hs|)]) > 100 then "Too many headers" else "Headers too large"
  }

  // ---------------------------------------------------------------------------
  // The table of the headers
  // ---------------------------------------------------------------------------

  /** An entry of the table has the first spelling and the joined value of its name. */
  ghost predicate EntryOk(hs: seq<Pieces>, h: Header) {
    Occurs(hs, h.name) && h.name == Spelled(hs, h.name) && h.value == Joined(hs, h.name)
  }

  ghost predicate EntriesOk(hs: seq<Pieces>, t: seq<Header>) {
    forall i :: 0 <= i < |t| ==> EntryOk(hs, t[i])
  }

  ghost predicate Different(t: seq<Header>) {
    forall i, j :: 0 <= i < j < |t| ==> !SameName(t[i].name, t[j].name)
  }

  ghost predicate Listed(t: seq<Header>, name: string) {
    exists i :: 0 <= i < |t| && SameName(t[i].name, name)
  }

  /** The table has one entry for each name that occurs. */
  ghost predicate TableOk(hs: seq<Pieces>, t: seq<Header>) {
    && EntriesOk(hs, t) && Different(t)
    && (forall name :: Occurs(hs, name) ==> Listed(t, name))
    && |t| == NameCount(hs) && TotalSize(t) == Bytes(hs)
  }

  lemma SameNameSelf(a: string)
    ensures SameName(a, a)
  {
  }

  lemma SameNameTwice(a: string, b: string, c: string)
    requires SameName(a, b) && SameName(b, c)
    ensures SameName(a, c)
  {
    LoweredIffSame(a, b);
    LoweredIffSame(b, c);
    LoweredIffSame(a, c);
  }

  lemma FindIsListed(t: seq<Header>, name: string)
    ensures Find(t, name) < |t| <==> Listed(t, name)
    ensures Find(t, name) < |t| ==> SameName(t[Find(t, name)].name, name)
  {
    var i := Find(t, name);
    if i < |t| {
      LoweredIffSame(t[i].name, name);
    }
    if j :| 0 <= j < |t| && SameName(t[j].name, name) {
      LoweredIffSame(t[j].name, name);
    }
  }

  /** How a name is spelled does not matter. */
  lemma {:induction false} OccursByName(hs: seq<Pieces>, a: string, b: string)
    requires SameName(a, b) && Occurs(hs, a)
    ensures Occurs(hs, b)
  {
    if SameName(NameAt(hs, |hs| - 1), a) {
      SameNameTwice(NameAt(hs, |hs| - 1), a, b);
    } else {
      OccursByName(hs[..|hs| - 1], a, b);
    }
  }

  lemma EntryKept(hs: seq<Pieces>, h: Header)
    requires hs != [] && EntryOk(hs[..|hs| - 1], h)
    ensures var n := |hs| - 1;
            EntryOk(hs, if SameName(NameAt(hs, n), h.name) then h.(value := h.value + ", " + ValueAt(hs, n)) else h)
  {
  }

  lemma EntryEntered(hs: seq<Pieces>)
    requires hs != [] && !Occurs(hs[..|hs| - 1], NameAt(hs, |hs| - 1))
    ensures EntryOk(hs, Header(NameAt(hs, |hs| - 1), ValueAt(hs, |hs| - 1)))
  {
    SameNameSelf(NameAt(hs, |hs| - 1));
  }

  lemma ListedIffOccurs(hs: seq<Pieces>, t: seq<Header>, name: string)
    requires EntriesOk(hs, t) && (Occurs(hs, name) ==> Listed(t, name))
    ensures Listed(t, name) <==> Occurs(hs, name)
  {
    if i :| 0 <= i < |t| && SameName(t[i].name, name) {
      assert EntryOk(hs, t[i]);
      OccursByName(hs, t[i].name, name);
    }
  }

  /** What Add makes of a table, whichever way the name is spelled. */
  ghost predicate Added(t: seq<Header>, name: string, value: string, u: seq<Header>) {
    if Listed(t, name) then
      |u| == |t| && forall i :: 0 <= i < |t| ==> u[i] == Grown(t[i], name, value)
    else u == t + [Header(name, value)]
  }

  function Grown(h: Header, name: string, value: string): Header {
    if Lowered(name) == Lowered(h.name) then h.(value := h.value + ", " + value) else h
  }

  lemma AddAdds(t: seq<Header>, name: string, value: string)
    requires Different(t)
    ensures Added(t, name, value, Add(t, name, value))
  {
    FindIsListed(t, name);
    var f := Find(t, name);
    if f < |t| {
      forall i | 0 <= i < |t| && i != f ensures Lowered(t[i].name) != Lowered(name) {
        LoweredIffSame(t[i].name, t[f].name);
        LoweredIffSame(t[f].name, t[i].name);
      }
    }
  }

  lemma SizeOfAdded(t: seq<Header>, name: string, value: string)
    ensures var u := Add(t, name, value);
            && |u| == |t| + (if Listed(t, name) then 0 else 1)
            && TotalSize(u) == TotalSize(t) + |value| + (if Listed(t, name) then 2 else |name|)
  {
    FindIsListed(t, name);
    FirstSize(t, name, value, value);
  }

  lemma GrownKept(hs: seq<Pieces>, h: Header)
    requires hs != [] && EntryOk(hs[..|hs| - 1], h)
    ensures EntryOk(hs, Grown(h, NameAt(hs, |hs| - 1), ValueAt(hs, |hs| - 1)))
  {
    LoweredIffSame(NameAt(hs, |hs| - 1), h.name);
    EntryKept(hs, h);
  }

  lemma EntriesOfAdded(hs: seq<Pieces>, t: seq<Header>, u: seq<Header>)
    requires hs != [] && EntriesOk(hs[..|hs| - 1], t)
    requires Listed(t, NameAt(hs, |hs| - 1)) <==> Occurs(hs[..|hs| - 1], NameAt(hs, |hs| - 1))
    requires Added(t, NameAt(hs, |hs| - 1), ValueAt(hs, |hs| - 1), u)
    ensures EntriesOk(hs, u)
  {
    var n := |hs| - 1;
    forall i | 0 <= i < |t| ensures EntryOk(hs, u[i]) {
      GrownKept(hs, t[i]);
      if !Listed(t, NameAt(hs, n)) {
        LoweredIffSame(NameAt(hs, n), t[i].name);
        LoweredIffSame(t[i].name, NameAt(hs, n));
      }
    }
    if !Listed(t, NameAt(hs, n)) {
      EntryEntered(hs);
    }
  }

  lemma DifferentAdded(t: seq<Header>, name: string, value: string, u: seq<Header>)
    requires Different(t) && Added(t, name, value, u)
    ensures Different(u)
  {
    if !Listed(t, name) {
      forall i | 0 <= i < |t| ensures !SameName(u[i].name, name) {
        assert u[i] == t[i];
      }
    }
  }

  lemma ListedAdded(t: seq<Header>, name: string, value: string, u: seq<Header>, other: string)
    requires Added(t, name, value, u) && (Listed(t, other) || SameName(name, other))
    ensures Listed(u, other)
  {
    if i :| 0 <= i < |t| && SameName(t[i].name, name) && !Listed(t, other) {
      SameNameTwice(t[i].name, name, other);
    }
    if Listed(t, other) {
      var i :| 0 <= i < |t| && SameName(t[i].name, other);
      assert u[i].name == t[i].name;
    } else {
      assert u[|t|].name == name;
    }
  }

  lemma AllListedAdded(hs: seq<Pieces>, t: seq<Header>, u: seq<Header>)
    requires hs != [] && (forall name :: Occurs(hs[..|hs| - 1], name) ==> Listed(t, name))
    requires Added(t, NameAt(hs, |hs| - 1), ValueAt(hs, |hs| - 1), u)
    ensures forall name :: Occurs(hs, name) ==> Listed(u, name)
  {
    forall name | Occurs(hs, name) ensures Listed(u, name) {
      ListedAdded(t, NameAt(hs, |hs| - 1), ValueAt(hs, |hs| - 1), u, name);
    }
  }

  lemma TableGrows(hs: seq<Pieces>, t: seq<Header>)
    requires hs != [] && TableOk(hs[..|hs| - 1], t)
    ensures TableOk(hs, Add(t, NameAt(hs, |hs| - 1), ValueAt(hs, |hs| - 1)))
  {
    var n := |hs| - 1;
    var u := Add(t, NameAt(hs, n), ValueAt(hs, n));
    AddAdds(t, NameAt(hs, n), ValueAt(hs, n));
    ListedIffOccurs(hs[..n], t, NameAt(hs, n));
    EntriesOfAdded(hs, t, u);
    DifferentAdded(t, NameAt(hs, n), ValueAt(hs, n), u);
    AllListedAdded(hs, t, u);
    CountsOfAdded(hs, t);
  }

  lemma CountsOfAdded(hs: seq<Pieces>, t: seq<Header>)
    requires hs != [] && |t| == NameCount(hs[..|hs| - 1]) && TotalSize(t) == Bytes(hs[..|hs| - 1])
    requires Listed(t, NameAt(hs, |hs| - 1)) <==> Occurs(hs[..|hs| - 1], NameAt(hs, |hs| - 1))
    ensures var u := Add(t, NameAt(hs, |hs| - 1), ValueAt(hs, |hs| - 1));
            |u| == NameCount(hs) && TotalSize(u) == Bytes(hs)
  {
    SizeOfAdded(t, NameAt(hs, |hs| - 1), ValueAt(hs, |hs| - 1));
  }

  lemma CheckIsFits(hs: seq<Pieces>, t: seq<Header>)
    requires |t| == NameCount(hs) && TotalSize(t) == Bytes(hs)
    ensures Checked(t) == if Fits(hs) then Headers(t)
                          else Bad(if NameCount(hs) > 100 then "Too many headers" else "Headers too large")
  {
  }

  /** A limit once passed stays passed, with the same error. */
  lemma OnceUnfit(hs: seq<Pieces>)
    requires hs != [] && !Fits(hs[..|hs| - 1])
    ensures !Fits(hs) && Refusal(hs) == Refusal(hs[..|hs| - 1])
  {
    var n := |hs| - 1;
    var pre := hs[..n];
    assert hs[..n + 1] == hs && pre[..n] == pre;
    SameFirstUnfit(hs, pre, n);
  }

  lemma {:induction false} SameFirstUnfit(hs: seq<Pieces>, pre: seq<Pieces>, n: nat)
    requires pre <= hs && n <= |pre| && !Fits(hs[..n])
    ensures !Fits(pre[..n]) && FirstUnfit(pre, n) == FirstUnfit(hs, n)
    ensures pre[..FirstUnfit(hs, n)] == hs[..FirstUnfit(hs, n)]
    decreases n
  {
    assert hs[..n] == pre[..n];
    if n > 0 {
      assert hs[..n - 1] == pre[..n - 1];
      if !Fits(hs[..n - 1]) {
        SameFirstUnfit(hs, pre, n - 1);
      }
    }
  }

  lemma FirstTime(hs: seq<Pieces>)
    requires hs != [] && Fits(hs[..|hs| - 1]) && !Fits(hs)
    ensures Refusal(hs) == if NameCount(hs) > 100 then "Too many headers" else "Headers too large"
  {
    assert hs[..|hs|] == hs;
  }

  lemma AddOneMore(t: seq<Header>, h: Pieces)
    ensures AddAll(t, [h]) == Checked(Add(t, Concat(h.name), Concat(h.value)))
  {
    assert [h][1..] == [];
  }

  /** What adding headers in turn comes to. */
  ghost predicate AddsUp(hs: seq<Pieces>) {
    AddedInTurn(hs, AddAll([], hs))
  }

  ghost predicate AddedInTurn(hs: seq<Pieces>, t: Table) {
    if Fits(hs) then t.Headers? && TableOk(hs, t.list) else t == Bad(Refusal(hs))
  }

  lemma OneMoreAdded(hs: seq<Pieces>, t: seq<Header>)
    requires hs != [] && Fits(hs[..|hs| - 1]) && TableOk(hs[..|hs| - 1], t)
    ensures AddedInTurn(hs, Checked(Add(t, NameAt(hs, |hs| - 1), ValueAt(hs, |hs| - 1))))
  {
    var n := |hs| - 1;
    TableGrows(hs, t);
    CheckIsFits(hs, Add(t, NameAt(hs, n), ValueAt(hs, n)));
    if !Fits(hs) {
      FirstTime(hs);
    }
  }

  lemma AddedBehind(hs: seq<Pieces>, h: Pieces)
    ensures AddAll([], hs + [h]) == match AddAll([], hs)
                                    case Bad(m) => Bad(m)
                                    case Headers(t) => Checked(Add(t, Concat(h.name), Concat(h.value)))
  {
    AddInTwo([], hs, [h]);
    if AddAll([], hs).Headers? {
      AddOneMore(AddAll([], hs).list, h);
    }
  }

  lemma AddedStep(pre: seq<Pieces>, h: Pieces)
    requires AddsUp(pre)
    ensures AddsUp(pre + [h])
  {
    var hs := pre + [h];
    assert hs[..|hs| - 1] == pre && hs[|hs| - 1] == h;
    AddedBehind(pre, h);
    if Fits(pre) {
      OneMoreAdded(hs, AddAll([], pre).list);
    } else {
      OnceUnfit(hs);
    }
  }

  /** Adding headers in turn gives the table of joined values, or the error of the first limit passed. */
  lemma AddAllIs(hs: seq<Pieces>)
    ensures AddsUp(hs)
  {
    NothingAdded();
    forall pre: seq<Pieces>, h: Pieces | AddsUp(pre) ensures AddsUp(pre + [h]) {
      AddedStep(pre, h);
    }
    FromTheFront((gs: seq<Pieces>) => AddsUp(gs), hs);
  }

  /** What holds of nothing, and is kept by one more, holds. */
  lemma {:induction false} FromTheFront<T(!new)>(p: seq<T> -> bool, s: seq<T>)
    requires p([]) && forall pre: seq<T>, x: T {:trigger p(pre + [x])} :: p(pre) ==> p(pre + [x])
    ensures p(s)
  {
    if s != [] {
      FromTheFront(p, s[..|s| - 1]);
      assert s == s[..|s| - 1] + [s[|s| - 1]];
    }
  }

  lemma NothingAdded()
    ensures AddsUp([])
  {
  }

  lemma {:induction false} UnfitStays(hs: seq<Pieces>, gs: seq<Pieces>)
    requires !Fits(hs)
    ensures !Fits(hs + gs)
    decreases |gs|
  {
    if gs == [] {
      assert hs + gs == hs;
    } else {
      var n := |gs| - 1;
      UnfitStays(hs, gs[..n]);
      assert (hs + gs)[..|hs + gs| - 1] == hs + gs[..n];
      OnceUnfit(hs + gs);
    }
  }

  // ---------------------------------------------------------------------------
  // Main results
  // ---------------------------------------------------------------------------

  /** The error of a message that passes a limit: the first that is passed. */
  ghost function RefusalOf(d: Delivery): string
    requires |Concat(d.url)| > 8192 || !Fits(d.headers + d.trailers) || |Concat(d.body)| > 10485760
  {
    if |Concat(d.url)| > 8192 then "URL too long"
    else if !Fits(d.headers) then Refusal(d.headers)
    else if |Concat(d.body)| > 10485760 then "Body too large"
    else Refusal(d.headers + d.trailers)
  }

  lemma FieldsInTwo(d: Delivery)
    ensures Fits(AllFields(d)) ==> Fits(d.headers)
    ensures Fits(d.headers) ==>
              AddAll([], d.headers).Headers? &&
              AddAll(AddAll([], d.headers).list, d.trailers) == AddAll([], AllFields(d))
    ensures !Fits(d.headers) ==> AddAll([], d.headers) == Bad(Refusal(d.headers))
  {
    AddAllIs(d.headers);
    AddInTwo([], d.headers, d.trailers);
    if !Fits(d.headers) {
      UnfitStays(d.headers, d.trailers);
    }
  }

  /** A message in which no repeated value is cut is accepted if and only if its URL has at most 8192
      characters, its fields have at most 100 names up to case and 65536 bytes, and its body has at most
      10485760. Then the request has its URL and its body, and one header for each name, spelled as at
      first, with the values of that name joined; otherwise the error is that of the first limit. */
  lemma OutcomeInNumbers(d: Delivery)
    requires !SplitsRepeat(AllFields(d))
    ensures Result(d).Parsed? <==>
            |Concat(d.url)| <= 8192 && Fits(d.headers + d.trailers) && |Concat(d.body)| <= 10485760
    ensures Result(d).Parsed? ==>
              && Result(d).request.url == Concat(d.url) && Result(d).request.body == Concat(d.body)
              && TableOk(d.headers + d.trailers, Result(d).request.headers)
    ensures !Result(d).Parsed? ==> Result(d) == Failed(RefusalOf(d))
  {
    ResultIsMeaning(d);
    FieldsInTwo(d);
    AddAllIs(AllFields(d));
  }

  /** Two headers of different names are accepted. */
  lemma TwoNamesAreAccepted(a: string, v: string, b: string, w: string)
    requires !SameName(a, b) && |a| + |v| + |b| + |w| <= 65536
    ensures var d := Delivery(["/"], [RawHeader([a], [v]), RawHeader([b], [w])], [], []);
            Result(d).Parsed? && |Result(d).request.headers| == 2
  {
    var hs := [RawHeader([a], [v]), RawHeader([b], [w])];
    var d := Delivery(["/"], hs, [], []);
    assert AllFields(d) == hs && Concat(d.url) == "/" && Concat(d.body) == "";
    OutcomeInNumbers(d);
    TwoNamesCount(a, v, b, w);
  }

  lemma TwoNamesCount(a: string, v: string, b: string, w: string)
    requires !SameName(a, b)
    ensures var hs := [RawHeader([a], [v]), RawHeader([b], [w])];
            NameCount(hs) == 2 && Bytes(hs) == |a| + |v| + |b| + |w|
  {
    var hs := [RawHeader([a], [v]), RawHeader([b], [w])];
    assert Concat([a]) == a && Concat([b]) == b && Concat([v]) == v && Concat([w]) == w;
    assert hs[..1] == [hs[0]] && hs[..1][..0] == [];
    assert !Occurs(hs[..1], b);
    assert NameCount(hs[..1]) == 1 && Bytes(hs[..1]) == |a| + |v|;
  }

  /** A name of n letters. */
  function Name(n: nat): string {
    seq(n, _ => 'a')
  }

  /** Headers with n different names, and empty values. */
  function Many(n: nat): seq<Pieces> {
    seq(n, i requires 0 <= i < n => RawHeader([Name(i)], [""]))
  }

  lemma ConcatOne(s: string)
    ensures Concat([s]) == s
  {
    assert [s][1..] == [];
  }

  lemma NewNameCounts(hs: seq<Pieces>, name: string)
    requires hs != [] && NameAt(hs, |hs| - 1) == name && ValueAt(hs, |hs| - 1) == ""
    requires !Occurs(hs[..|hs| - 1], name)
    ensures NameCount(hs) == NameCount(hs[..|hs| - 1]) + 1 && Bytes(hs) == Bytes(hs[..|hs| - 1]) + |name|
    ensures forall other :: Occurs(hs, other) ==> Occurs(hs[..|hs| - 1], other) || |other| == |name|
  {
  }

  lemma {:induction false} ManyNames(n: nat)
    requires n <= 101
    ensures NameCount(Many(n)) == n && Bytes(Many(n)) <= 101 * n
    ensures forall name :: |name| >= n ==> !Occurs(Many(n), name)
    decreases n
  {
    if n > 0 {
      ManyNames(n - 1);
      assert Many(n)[..n - 1] == Many(n - 1);
      assert Many(n)[n - 1] == RawHeader([Name(n - 1)], [""]);
      ConcatOne(Name(n - 1));
      ConcatOne("");
      NewNameCounts(Many(n), Name(n - 1));
    }
  }

  function Nameful(n: nat): Delivery {
    Delivery(["/"], Many(n), [], [])
  }

  lemma NamefulOutcome(n: nat)
    ensures if Fits(Many(n)) then Result(Nameful(n)).Parsed? else Result(Nameful(n)) == Failed(Refusal(Many(n)))
  {
    var d := Nameful(n);
    assert AllFields(d) == Many(n) == d.headers + d.trailers;
    assert forall k :: 0 <= k < n ==> |Many(n)[k].value| == 1;
    ConcatOne("/");
    OutcomeInNumbers(d);
  }

  lemma ManyFit(n: nat)
    requires n <= 101
    ensures Fits(Many(n)) <==> n <= 100
  {
    ManyNames(n);
  }

  /** A hundred names are accepted, and a hundred and one are not. */
  lemma HundredNames(n: nat)
    requires n <= 101
    ensures if n <= 100 then Result(Nameful(n)).Parsed? else Result(Nameful(n)) == Failed("Too many headers")
  {
    NamefulOutcome(n);
    ManyFit(n);
    if n == 101 {
      OneNameTooMany();
    }
  }

  lemma OneNameTooMany()
    ensures !Fits(Many(101)) && Refusal(Many(101)) == "Too many headers"
  {
    ManyFit(101);
    ManyFit(100);
    ManyNames(101);
    var hs := Many(101);
    assert hs[..100] == Many(100);
    FirstTime(hs);
  }
}
