/** Several messages on one connection that is kept alive: what the server answers, read by read. */
module HttpConnection {
  import opened Common
  import opened Http
  import opened HttpMessages

  /** A read from the socket, as the callbacks it leads to. */
  type Read = seq<Event>

  /** The server's loop: after a read in which a message was completed it takes the request and resets
      the parser, and after an error it gives up. */
  ghost function Serve(p: Parser, rs: seq<Read>): seq<Outcome>
    decreases |rs|
  {
    if rs == [] then []
    else
      var q := FeedAll(p, rs[0]);
      if q.error.Some? then [OutcomeOf(q)]
      else if q.complete then [OutcomeOf(q)] + Serve(FRESH, rs[1..])
      else Serve(q, rs[1..])
  }

  /** The callbacks of all messages, one message after the other. */
  ghost function Stream(ds: seq<Delivery>): seq<Event> {
    if ds == [] then [] else Events(ds[0]) + Stream(ds[1..])
  }

  ghost function Flat(rs: seq<Read>): seq<Event> {
    if rs == [] then [] else rs[0] + Flat(rs[1..])
  }

  ghost function Meanings(ds: seq<Delivery>): seq<Outcome> {
    seq(|ds|, i requires 0 <= i < |ds| => Meaning(ds[i]))
  }

  /** No read goes on behind the end of a message. */
  ghost predicate Aligned(rs: seq<Read>) {
    forall k :: 0 <= k < |rs| ==> EndsLast(rs[k])
  }

  ghost predicate EndsLast(r: Read) {
    forall i :: 0 <= i < |r| && r[i].Complete? ==> i == |r| - 1
  }

  /** A message that alone comes out as meant; its URL is not empty. */
  ghost predicate Fine(d: Delivery) {
    Meaning(d).Parsed? && !SplitsRepeat(AllFields(d)) && d.url != [] && d.url[0] != ""
  }

  // ---------------------------------------------------------------------------
  // The end of a message
  // ---------------------------------------------------------------------------

  lemma {:induction false} HeadersNeverEnd(hs: seq<Pieces>)
    ensures forall e :: e in HeaderEvents(hs) ==> !e.Complete?
  {
    if hs != [] {
      HeadersNeverEnd(hs[1..]);
    }
  }

  /** A message's callbacks end with Complete, and have no other. */
  lemma EndIsLast(d: Delivery)
    ensures Events(d) != [] && Events(d)[|Events(d)| - 1].Complete? && EndsLast(Events(d))
  {
    HeadersNeverEnd(d.headers);
    HeadersNeverEnd(d.trailers);
    var es := Urls(d.url) + HeaderEvents(d.headers) + Bodies(d.body) + HeaderEvents(d.trailers);
    assert Events(d) == es + [Complete];
    assert forall e :: e in es ==> !e.Complete?;
    assert forall i :: 0 <= i < |es| ==> Events(d)[i] == es[i] && es[i] in es;
  }

  lemma {:induction false} NotComplete(p: Parser, es: seq<Event>)
    requires !p.complete && forall e :: e in es ==> !e.Complete?
    ensures !FeedAll(p, es).complete
    decreases |es|
  {
    if es != [] {
      NotComplete(Feed(p, es[0]), es[1..]);
    }
  }

  /** Once a message is complete, more callbacks leave it complete, and its URL only grows. */
  lemma {:induction false} UrlGrows(p: Parser, es: seq<Event>)
    requires p.complete
    ensures var q := FeedAll(p, es); q.error.Some? || (q.complete && |q.url| >= |p.url|)
    decreases |es|
  {
    if es != [] {
      if Feed(p, es[0]).error.Some? {
        ErrorsStay(Feed(p, es[0]), es[1..]);
      } else {
        UrlGrows(Feed(p, es[0]), es[1..]);
      }
    }
  }

  /** An error would have stayed. */
  lemma NoErrorBefore(p: Parser, es: seq<Event>, fs: seq<Event>)
    requires FeedAll(p, es + fs).error.None?
    ensures FeedAll(p, es).error.None?
  {
    FeedAllAppend(p, es, fs);
    if FeedAll(p, es).error.Some? {
      ErrorsStay(FeedAll(p, es), fs);
    }
  }

  // ---------------------------------------------------------------------------
  // One read in the middle of a stream
  // ---------------------------------------------------------------------------

  /** done is what the parser was given of the first message, and todo what is left of it. */
  ghost predicate Midway(p: Parser, done: seq<Event>, todo: seq<Event>, ds: seq<Delivery>) {
    && (forall d :: d in ds ==> Fine(d))
    && p == FeedAll(FRESH, done)
    && (if ds == [] then done == [] && todo == [] else done + todo == Events(ds[0]) && todo != [])
  }

  lemma FineMessage(d: Delivery)
    requires Fine(d)
    ensures var q := FeedAll(FRESH, Events(d)); q.error.None? && q.complete && OutcomeOf(q) == Meaning(d)
  {
    ResultIsMeaning(d);
  }

  /** Part of a message without its end. */
  lemma PartOf(d: Delivery, es: seq<Event>, fs: seq<Event>)
    requires Fine(d) && es + fs == Events(d) && fs != []
    ensures var q := FeedAll(FRESH, es); q.error.None? && !q.complete
  {
    FineMessage(d);
    NoErrorBefore(FRESH, es, fs);
    EndIsLast(d);
    forall e | e in es ensures !e.Complete? {
      var i :| 0 <= i < |es| && es[i] == e;
      assert Events(d)[i] == e;
    }
    NotComplete(FRESH, es);
  }

  lemma Cut<E>(done: seq<E>, todo: seq<E>, r: seq<E>)
    requires r <= todo
    ensures done + r + todo[|r|..] == done + todo
  {
  }

  /** A read that stays short of the end of the first message. */
  lemma ShortRead(p: Parser, done: seq<Event>, todo: seq<Event>, ds: seq<Delivery>, r: Read)
    requires Midway(p, done, todo, ds) && ds != [] && r <= todo && |r| < |todo|
    ensures var q := FeedAll(p, r); Midway(q, done + r, todo[|r|..], ds) && q.error.None? && !q.complete
  {
    assert Fine(ds[0]);
    FeedAllAppend(FRESH, done, r);
    Cut(done, todo, r);
    PartOf(ds[0], done + r, todo[|r|..]);
  }

  /** A read up to just the end of the first message. */
  lemma ExactRead(p: Parser, done: seq<Event>, todo: seq<Event>, ds: seq<Delivery>)
    requires Midway(p, done, todo, ds) && ds != []
    ensures var q := FeedAll(p, todo); q.error.None? && q.complete && OutcomeOf(q) == Meaning(ds[0])
  {
    assert Fine(ds[0]);
    FeedAllAppend(FRESH, done, todo);
    FineMessage(ds[0]);
  }

  /** A read that goes on behind it: the request is not the one that was meant. */
  lemma LongRead(p: Parser, done: seq<Event>, todo: seq<Event>, ds: seq<Delivery>, more: seq<Event>)
    requires Midway(p, done, todo, ds) && ds != [] && more != []
    requires more[0].Url? && more[0].at != ""
    ensures var q := FeedAll(p, todo + more); (q.error.Some? || q.complete) && OutcomeOf(q) != Meaning(ds[0])
  {
    ExactRead(p, done, todo, ds);
    var q := FeedAll(p, todo);
    FeedAllAppend(p, todo, more);
    MoreChangesIt(q, more);
  }

  lemma MoreChangesIt(q: Parser, more: seq<Event>)
    requires q.error.None? && q.complete && more != [] && more[0].Url? && more[0].at != ""
    ensures var r := FeedAll(q, more); (r.error.Some? || r.complete) && OutcomeOf(r) != OutcomeOf(q)
  {
    var r := Feed(q, more[0]);
    if r.error.Some? {
      ErrorsStay(r, more[1..]);
    } else {
      UrlGrows(r, more[1..]);
    }
  }

  // ---------------------------------------------------------------------------
  // Whole connections
  // ---------------------------------------------------------------------------

  lemma StreamStarts(ds: seq<Delivery>)
    requires ds != [] && Fine(ds[0])
    ensures Stream(ds) != [] && Stream(ds)[0].Url? && Stream(ds)[0].at != ""
  {
    assert Urls(ds[0].url)[0] == Url(ds[0].url[0]);
    assert Stream(ds)[0] == Events(ds[0])[0] == Urls(ds[0].url)[0];
  }

  /** In a stream the first read is the beginning of what is left of the first message, or goes to its
      end or behind it. */
  lemma FirstRead<E>(r: seq<E>, rest: seq<E>, todo: seq<E>, next: seq<E>)
    requires r + rest == todo + next
    ensures |r| <= |todo| ==> r == todo[..|r|] && rest == todo[|r|..] + next
    ensures |r| > |todo| ==> r == todo + r[|todo|..] && next != [] && r[|todo|] == next[0]
  {
    var all := r + rest;
    if |r| <= |todo| {
      assert r == all[..|r|] == todo[..|r|];
      assert rest == all[|r|..] == todo[|r|..] + next;
    } else {
      assert todo == all[..|todo|] == r[..|todo|];
      assert r[|todo|] == all[|todo|] == next[0];
    }
  }

  /** What is left of a message ends it, and does so just once. */
  lemma TodoEndsLast(done: seq<Event>, todo: seq<Event>, d: Delivery)
    requires done + todo == Events(d) && todo != []
    ensures EndsLast(todo) && todo[|todo| - 1].Complete?
  {
    EndIsLast(d);
    assert forall i :: 0 <= i < |todo| ==> todo[i] == Events(d)[|done| + i];
  }

  lemma AlignedIffNotBehind(done: seq<Event>, todo: seq<Event>, d: Delivery, r: Read)
    requires done + todo == Events(d) && todo != []
    requires if |r| <= |todo| then r == todo[..|r|] else r == todo + r[|todo|..]
    ensures EndsLast(r) <==> |r| <= |todo|
  {
    TodoEndsLast(done, todo, d);
    if |r| > |todo| {
      assert r[|todo| - 1] == todo[|todo| - 1];
    }
  }

  lemma {:induction false} NothingMore(p: Parser, rs: seq<Read>)
    requires p.error.None? && !p.complete && Flat(rs) == []
    ensures Serve(p, rs) == [] && Aligned(rs)
    decreases |rs|
  {
    if rs != [] {
      NothingMore(p, rs[1..]);
    }
  }

  lemma AlignedFirst(rs: seq<Read>)
    requires rs != []
    ensures Aligned(rs) <==> EndsLast(rs[0]) && Aligned(rs[1..])
  {
    if EndsLast(rs[0]) && Aligned(rs[1..]) {
      forall k | 0 <= k < |rs| ensures EndsLast(rs[k]) {
        assert k > 0 ==> rs[k] == rs[1..][k - 1];
      }
    }
    if Aligned(rs) {
      forall k | 0 <= k < |rs| - 1 ensures EndsLast(rs[1..][k]) {
        assert rs[1..][k] == rs[k + 1];
      }
    }
  }

  lemma NextMessage(ds: seq<Delivery>)
    requires forall d :: d in ds ==> Fine(d)
    ensures var todo := if ds == [] then [] else Events(ds[0]);
            Midway(FRESH, [], todo, ds) && Stream(ds) == todo + (if ds == [] then [] else Stream(ds[1..]))
  {
    if ds != [] {
      assert Fine(ds[0]);
      EndIsLast(ds[0]);
      assert [] + Events(ds[0]) == Events(ds[0]);
    }
  }

  /** What is left of a stream, given the state in the middle of its first message. */
  ghost function Left(todo: seq<Event>, ds: seq<Delivery>): seq<Event> {
    if ds == [] then [] else todo + Stream(ds[1..])
  }

  lemma MeaningsHead(ds: seq<Delivery>)
    requires ds != []
    ensures Meanings(ds) == [Meaning(ds[0])] + Meanings(ds[1..])
  {
  }

  lemma SameHead<T>(x: T, s: seq<T>, t: seq<T>)
    ensures [x] + s == [x] + t <==> s == t
  {
    assert ([x] + s)[1..] == s && ([x] + t)[1..] == t;
  }

  /** The first answer, or none, and then the rest. */
  lemma ServeOne(p: Parser, rs: seq<Read>)
    requires rs != []
    ensures var q := FeedAll(p, rs[0]);
            && (q.error.Some? || q.complete ==> Serve(p, rs) != [] && Serve(p, rs)[0] == OutcomeOf(q))
            && (q.error.None? && q.complete ==> Serve(p, rs) == [OutcomeOf(q)] + Serve(FRESH, rs[1..]))
            && (q.error.None? && !q.complete ==> Serve(p, rs) == Serve(q, rs[1..]))
  {
  }

  /** The answers are meant from here on exactly if the reads are aligned. */
  ghost predicate MeantIffAligned(p: Parser, ds: seq<Delivery>, rs: seq<Read>) {
    Serve(p, rs) == Meanings(ds) <==> Aligned(rs)
  }

  lemma AfterShort(p: Parser, done: seq<Event>, todo: seq<Event>, ds: seq<Delivery>, rs: seq<Read>)
    requires Midway(p, done, todo, ds) && ds != [] && rs != [] && rs[0] <= todo && |rs[0]| < |todo|
    requires MeantIffAligned(FeedAll(p, rs[0]), ds, rs[1..])
    ensures MeantIffAligned(p, ds, rs)
  {
    assert rs[0] == todo[..|rs[0]|];
    AlignedIffNotBehind(done, todo, ds[0], rs[0]);
    AlignedFirst(rs);
    ShortRead(p, done, todo, ds, rs[0]);
    ServeOne(p, rs);
  }

  lemma AfterExact(p: Parser, done: seq<Event>, todo: seq<Event>, ds: seq<Delivery>, rs: seq<Read>)
    requires Midway(p, done, todo, ds) && ds != [] && rs != [] && rs[0] == todo
    requires MeantIffAligned(FRESH, ds[1..], rs[1..])
    ensures MeantIffAligned(p, ds, rs)
  {
    AlignedIffNotBehind(done, todo, ds[0], rs[0]);
    AlignedFirst(rs);
    ExactRead(p, done, todo, ds);
    ServeOne(p, rs);
    MeaningsHead(ds);
    SameHead(Meaning(ds[0]), Serve(FRESH, rs[1..]), Meanings(ds[1..]));
  }

  lemma AfterLong(p: Parser, done: seq<Event>, todo: seq<Event>, ds: seq<Delivery>, rs: seq<Read>)
    requires Midway(p, done, todo, ds) && ds != [] && rs != [] && |rs[0]| > |todo| && rs[0] == todo + rs[0][|todo|..]
    requires rs[0][|todo|].Url? && rs[0][|todo|].at != ""
    ensures MeantIffAligned(p, ds, rs)
  {
    AlignedIffNotBehind(done, todo, ds[0], rs[0]);
    AlignedFirst(rs);
    LongRead(p, done, todo, ds, rs[0][|todo|..]);
    ServeOne(p, rs);
    MeaningsHead(ds);
  }

  lemma {:induction false} ServedFrom(p: Parser, done: seq<Event>, todo: seq<Event>, ds: seq<Delivery>, rs: seq<Read>)
    requires Midway(p, done, todo, ds) && Flat(rs) == Left(todo, ds)
    ensures MeantIffAligned(p, ds, rs)
    decreases |rs|
  {
    if ds == [] {
      NothingMore(p, rs);
    } else if rs == [] {
      assert false;
    } else {
      FirstRead(rs[0], Flat(rs[1..]), todo, Stream(ds[1..]));
      if |rs[0]| < |todo| {
        ShortRead(p, done, todo, ds, rs[0]);
        ServedFrom(FeedAll(p, rs[0]), done + rs[0], todo[|rs[0]|..], ds, rs[1..]);
        AfterShort(p, done, todo, ds, rs);
      } else if |rs[0]| == |todo| {
        NextMessage(ds[1..]);
        ServedFrom(FRESH, [], if ds[1..] == [] then [] else Events(ds[1..][0]), ds[1..], rs[1..]);
        AfterExact(p, done, todo, ds, rs);
      } else {
        StreamStarts(ds[1..]);
        AfterLong(p, done, todo, ds, rs);
      }
    }
  }

  /** Over a whole connection: however the reads cut the stream of messages, the server answers each as
      meant if and only if no read goes on behind the end of a message. */
  lemma AnswersAreMeantIffAligned(ds: seq<Delivery>, rs: seq<Read>)
    requires forall d :: d in ds ==> Fine(d)
    requires Flat(rs) == Stream(ds)
    ensures Serve(FRESH, rs) == Meanings(ds) <==> Aligned(rs)
  {
    NextMessage(ds);
    ServedFrom(FRESH, [], if ds == [] then [] else Events(ds[0]), ds, rs);
  }

  /** Two messages in one read give one request, with both URLs. */
  lemma MergedRequest()
    ensures Serve(FRESH, [[Url("/a"), Complete, Url("/b"), Complete]]) == [Parsed(Request("/a" + "/b", [], ""))]
  {
    var p := FeedAll(FRESH, [Url("/a"), Complete]);
    assert [Url("/a"), Complete] + [Url("/b"), Complete] == [Url("/a"), Complete, Url("/b"), Complete];
    FeedAllAppend(FRESH, [Url("/a"), Complete], [Url("/b"), Complete]);
    TwoEvents(FRESH, Url("/a"), Complete);
    TwoEvents(p, Url("/b"), Complete);
    assert "" + "/a" == "/a";
  }

  lemma TwoEvents(p: Parser, e: Event, f: Event)
    ensures FeedAll(p, [e, f]) == Feed(Feed(p, e), f)
  {
    assert [e, f][1..] == [f] && [f][1..] == [];
    var q := Feed(p, e);
    assert FeedAll(q, [f]) == FeedAll(Feed(q, f), []);
  }
}
