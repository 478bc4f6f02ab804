/** The JSONL transport of one App Server process: incremental framing and the pending-request table. */
module JsonlTransport {
  import opened Common
  import opened Decimal
  import opened Utf8

  // ---------------------------------------------------------------- framing

  /** The complete lines of a text, each without its newline. */
  function CompleteLines(text: string): seq<string> {
    if |text| == 0 then []
    else if text[|text| - 1] == '\n' then
      CompleteLines(text[..|text| - 1]) + [Rest(text[..|text| - 1])]
    else CompleteLines(text[..|text| - 1])
  }

  /** What follows the last newline. */
  function Rest(text: string): (r: string)
    ensures |r| <= |text| && '\n' !in r
  {
    if |text| == 0 then ""
    else if text[|text| - 1] == '\n' then ""
    else Rest(text[..|text| - 1]) + [text[|text| - 1]]
  }

  function Join(lines: seq<string>): string {
    if |lines| == 0 then "" else Join(lines[..|lines| - 1]) + lines[|lines| - 1] + "\n"
  }

  /** One more character. */
  lemma SplitSnoc(text: string, c: char)
    ensures CompleteLines(text + [c]) == if c == '\n' then CompleteLines(text) + [Rest(text)] else CompleteLines(text)
    ensures Rest(text + [c]) == if c == '\n' then "" else Rest(text) + [c]
  {
    assert (text + [c])[..|text|] == text;
  }

  lemma JoinSnoc(lines: seq<string>, line: string)
    ensures Join(lines + [line]) == Join(lines) + line + "\n"
  {
    assert (lines + [line])[..|lines|] == lines;
  }

  /** Joining the lines and the unfinished rest gives the text back. */
  lemma {:induction false} SplitIsExact(text: string)
    ensures Join(CompleteLines(text)) + Rest(text) == text
  {
    hide CompleteLines, Rest, Join;
    if |text| == 0 {
      NothingToSplit();
    } else {
      var init, c := text[..|text| - 1], text[|text| - 1];
      SplitIsExact(init);
      assert text == init + [c];
      SplitSnoc(init, c);
      if c == '\n' {
        JoinSnoc(CompleteLines(init), Rest(init));
      }
    }
  }

  lemma NothingToSplit()
    ensures CompleteLines("") == [] && Rest("") == "" && Join([]) == ""
  {
  }

  /** Splitting a continued text continues from the unfinished line. */
  lemma {:induction false} SplitContinues(a: string, b: string)
    ensures CompleteLines(a + b) == CompleteLines(a) + CompleteLines(Rest(a) + b)
    ensures Rest(a + b) == Rest(Rest(a) + b)
  {
    hide CompleteLines, Rest;
    if |b| == 0 {
      RestIsUnfinished(Rest(a));
      assert a + b == a && Rest(a) + b == Rest(a);
    } else {
      var init, c := b[..|b| - 1], b[|b| - 1];
      SplitContinues(a, init);
      assert a + b == a + init + [c] && Rest(a) + b == Rest(a) + init + [c];
      SplitSnoc(a + init, c);
      SplitSnoc(Rest(a) + init, c);
    }
  }

  lemma {:induction false} RestIsUnfinished(text: string)
    requires '\n' !in text
    ensures CompleteLines(text) == [] && Rest(text) == text
  {
    if |text| > 0 {
      RestIsUnfinished(text[..|text| - 1]);
      assert text == text[..|text| - 1] + [text[|text| - 1]];
    }
  }

  // ---------------------------------------------------------------- messages

  datatype Settlement = Resolved(result: string) | Rejected(reason: string)

  /** A parsed protocol message; `key` is the type-tagged id that `requestIdKey` makes. */
  datatype Message =
    | ServerRequest(key: string, name: string, params: string)
    | Response(key: string, settlement: Settlement)
    | Notification(name: string, params: string)
    | Unrecognised

  /** `number:<id>`, the key of an outgoing request. */
  function KeyOf(id: nat): string {
    "number:" + Text(id)
  }

  lemma KeysDiffer(a: nat, b: nat)
    requires KeyOf(a) == KeyOf(b)
    ensures a == b
  {
    assert KeyOf(a)[7..] == Text(a) && KeyOf(b)[7..] == Text(b);
    TextIsInjective(a, b);
  }

  datatype Transport = Transport(
    pending: map<string, nat>,
    next: nat,
    buffer: string,
    closed: bool,
    delivered: seq<Message>,
    settled: map<nat, Settlement>,
    count: multiset<nat>)

  const Opened := Transport(map[], 1, "", false, [], map[], multiset{})

  /** Settling the promise of a request, however often. */
  function Settle(t: Transport, id: nat, s: Settlement): Transport {
    t.(settled := t.settled[id := s], count := t.count + multiset{id})
  }

  /** `rejectRequest`, and the response branch of `handleMessage`. */
  function SettlePending(t: Transport, key: string, s: Settlement): Transport {
    if key in t.pending then Settle(t.(pending := t.pending - {key}), t.pending[key], s) else t
  }

  function Handle(t: Transport, m: Message): Transport {
    match m
    case Response(key, s) => SettlePending(t, key, s)
    case Unrecognised => t
    case _ => t.(delivered := t.delivered + [m])
  }

  function HandleAll(t: Transport, ms: seq<Message>): Transport {
    if |ms| == 0 then t else Handle(HandleAll(t, ms[..|ms| - 1]), ms[|ms| - 1])
  }

  /** The messages on complete lines; blank lines and lines that are no JSON are skipped. */
  function Messages(parse: string -> Option<Message>, lines: seq<string>): seq<Message> {
    if |lines| == 0 then []
    else
      var before := Messages(parse, lines[..|lines| - 1]);
      match parse(lines[|lines| - 1])
      case Some(m) => before + [m]
      case None => before
  }

  /** `handleStdout`. */
  function Feed(parse: string -> Option<Message>, t: Transport, chunk: string): Transport {
    var text := t.buffer + chunk;
    HandleAll(t, Messages(parse, CompleteLines(text))).(buffer := Rest(text))
  }

  function FeedAll(parse: string -> Option<Message>, t: Transport, chunks: seq<string>): Transport {
    if |chunks| == 0 then t else Feed(parse, FeedAll(parse, t, chunks[..|chunks| - 1]), chunks[|chunks| - 1])
  }

  lemma {:induction false} MessagesConcatenate(parse: string -> Option<Message>, a: seq<string>, b: seq<string>)
    ensures Messages(parse, a + b) == Messages(parse, a) + Messages(parse, b)
  {
    if |b| == 0 {
      assert a + b == a;
    } else {
      MessagesConcatenate(parse, a, b[..|b| - 1]);
      assert (a + b)[..|a + b| - 1] == a + b[..|b| - 1];
    }
  }

  lemma {:induction false} HandleConcatenates(t: Transport, a: seq<Message>, b: seq<Message>)
    ensures HandleAll(t, a + b) == HandleAll(HandleAll(t, a), b)
  {
    if |b| == 0 {
      assert a + b == a;
    } else {
      HandleConcatenates(t, a, b[..|b| - 1]);
      assert (a + b)[..|a + b| - 1] == a + b[..|b| - 1];
    }
  }

  lemma OneIgnoresBuffer(t: Transport, buffer: string, m: Message)
    ensures Handle(t.(buffer := buffer), m) == Handle(t, m).(buffer := buffer)
  {
  }

  lemma {:induction false} HandleIgnoresBuffer(t: Transport, buffer: string, ms: seq<Message>)
    ensures HandleAll(t.(buffer := buffer), ms) == HandleAll(t, ms).(buffer := buffer)
  {
    hide Handle;
    if |ms| > 0 {
      HandleIgnoresBuffer(t, buffer, ms[..|ms| - 1]);
      OneIgnoresBuffer(HandleAll(t, ms[..|ms| - 1]), buffer, ms[|ms| - 1]);
    }
  }

  /** Two chunks in a row act like their concatenation. */
  lemma FeedTwice(parse: string -> Option<Message>, t: Transport, a: string, b: string)
    requires '\n' !in t.buffer
    ensures Feed(parse, Feed(parse, t, a), b) == Feed(parse, t, a + b)
  {
    hide CompleteLines, Messages, HandleAll, Rest;
    var text := t.buffer + a;
    SplitContinues(text, b);
    assert text + b == t.buffer + (a + b);
    var first, second := Messages(parse, CompleteLines(text)), Messages(parse, CompleteLines(Rest(text) + b));
    MessagesConcatenate(parse, CompleteLines(text), CompleteLines(Rest(text) + b));
    HandleConcatenates(t, first, second);
    HandleIgnoresBuffer(HandleAll(t, first), Rest(text), second);
  }

  lemma FeedNothing(parse: string -> Option<Message>, t: Transport)
    requires '\n' !in t.buffer
    ensures Feed(parse, t, "") == t
  {
    hide CompleteLines, Rest;
    assert t.buffer + "" == t.buffer;
    RestIsUnfinished(t.buffer);
  }

  /** However the decoded stream is cut into chunks, the effect is that of the whole text at once. */
  lemma {:induction false} ChunksDoNotMatter(parse: string -> Option<Message>, t: Transport, chunks: seq<string>)
    requires '\n' !in t.buffer
    ensures FeedAll(parse, t, chunks) == Feed(parse, t, Stream(chunks))
  {
    hide Feed, CompleteLines;
    if |chunks| == 0 {
      FeedNothing(parse, t);
    } else {
      ChunksDoNotMatter(parse, t, chunks[..|chunks| - 1]);
      FeedTwice(parse, t, Stream(chunks[..|chunks| - 1]), chunks[|chunks| - 1]);
    }
  }

  // ---------------------------------------------------------------- reads of bytes

  /** The reads of stdout: each buffer is decoded by itself. */
  function FeedBuffers(parse: string -> Option<Message>, t: Transport, buffers: seq<seq<Byte>>): Transport {
    if |buffers| == 0 then t
    else Feed(parse, FeedBuffers(parse, t, buffers[..|buffers| - 1]), Decode(buffers[|buffers| - 1]))
  }

  lemma {:induction false} BuffersFeedText(parse: string -> Option<Message>, t: Transport, buffers: seq<seq<Byte>>)
    ensures FeedBuffers(parse, t, buffers) == FeedAll(parse, t, DecodeEach(buffers))
  {
    hide Feed, Decode;
    if |buffers| > 0 {
      BuffersFeedText(parse, t, buffers[..|buffers| - 1]);
      assert DecodeEach(buffers)[..|buffers| - 1] == DecodeEach(buffers[..|buffers| - 1]);
    }
  }

  /** The reader that passes every line on as it is. */
  function Verbatim(line: string): Option<Message> {
    Some(Notification(line, ""))
  }

  lemma {:induction false} VerbatimMessages(lines: seq<string>)
    ensures |Messages(Verbatim, lines)| == |lines|
    ensures forall i :: 0 <= i < |lines| ==> Messages(Verbatim, lines)[i] == Notification(lines[i], "")
  {
    if |lines| > 0 {
      VerbatimMessages(lines[..|lines| - 1]);
    }
  }

  lemma {:induction false} NotificationsAreDelivered(t: Transport, ms: seq<Message>)
    requires forall m :: m in ms ==> m.Notification?
    ensures HandleAll(t, ms).delivered == t.delivered + ms
  {
    if |ms| > 0 {
      var init, last := ms[..|ms| - 1], ms[|ms| - 1];
      assert ms == init + [last];
      NotificationsAreDelivered(t, init);
    }
  }

  lemma VerbatimShowsLines(t: Transport, a: seq<string>, b: seq<string>)
    requires HandleAll(t, Messages(Verbatim, a)).delivered == HandleAll(t, Messages(Verbatim, b)).delivered
    ensures a == b
  {
    hide HandleAll, Messages;
    var before, after := Messages(Verbatim, a), Messages(Verbatim, b);
    VerbatimMessages(a);
    VerbatimMessages(b);
    NotificationsAreDelivered(t, before);
    NotificationsAreDelivered(t, after);
    assert before == (t.delivered + before)[|t.delivered|..] == (t.delivered + after)[|t.delivered|..] == after;
    forall i | 0 <= i < |a|
      ensures a[i] == b[i]
    {
      assert Notification(a[i], "") == Notification(b[i], "");
    }
  }

  /** What reached the transport shows in it. */
  lemma FeedShowsText(t: Transport, a: string, b: string)
    requires Feed(Verbatim, t, a) == Feed(Verbatim, t, b)
    ensures a == b
  {
    hide CompleteLines, Rest, HandleAll, Messages, Join;
    var before, after := t.buffer + a, t.buffer + b;
    assert Feed(Verbatim, t, a).delivered == HandleAll(t, Messages(Verbatim, CompleteLines(before))).delivered;
    assert Feed(Verbatim, t, b).delivered == HandleAll(t, Messages(Verbatim, CompleteLines(after))).delivered;
    assert Feed(Verbatim, t, a).buffer == Rest(before) && Feed(Verbatim, t, b).buffer == Rest(after);
    VerbatimShowsLines(t, CompleteLines(before), CompleteLines(after));
    SplitIsExact(before);
    SplitIsExact(after);
    assert before[|t.buffer|..] == a && after[|t.buffer|..] == b;
  }

  /**
   * However a message reads, the reads have the effect of the whole stream at once, if and only if
   * no read ends inside a character or another piece that decodes as one.
   */
  lemma BuffersActAsStreamIff(t: Transport, buffers: seq<seq<Byte>>)
    requires '\n' !in t.buffer
    ensures CutsBetweenPieces(buffers) <==>
            forall parse: string -> Option<Message> :: FeedBuffers(parse, t, buffers) == Feed(parse, t, Decode(Stream(buffers)))
  {
    hide Feed, FeedAll, FeedBuffers, Decode, CutsBetweenPieces, Stream, DecodeEach;
    forall parse: string -> Option<Message>
      ensures FeedBuffers(parse, t, buffers) == Feed(parse, t, Stream(DecodeEach(buffers)))
    {
      BuffersFeedText(parse, t, buffers);
      ChunksDoNotMatter(parse, t, DecodeEach(buffers));
    }
    ReadsAreHarmlessIff(buffers);
    if FeedBuffers(Verbatim, t, buffers) == Feed(Verbatim, t, Decode(Stream(buffers))) {
      FeedShowsText(t, Stream(DecodeEach(buffers)), Decode(Stream(buffers)));
    }
  }

  /** For a stream of encoded text: if and only if no read splits a character. */
  lemma BuffersActAsTextIff(t: Transport, text: string, buffers: seq<seq<Byte>>)
    requires '\n' !in t.buffer && Stream(buffers) == Encode(text)
    ensures CutsBetweenCharacters(text, buffers) <==>
            forall parse: string -> Option<Message> :: FeedBuffers(parse, t, buffers) == Feed(parse, t, text)
  {
    hide Feed, FeedBuffers, Decode, CutsBetweenPieces, CutsBetweenCharacters, Stream, DecodeEach, Encode;
    EncodedBuffersIff(text, buffers);
    BuffersActAsStreamIff(t, buffers);
    DecodeEncode(text);
  }

  // ---------------------------------------------------------------- requests and closing

  /** `request` on an open transport: its id, and whether the write failed at once. */
  function Request(t: Transport, writeFails: bool): Transport {
    if writeFails then SettlePending(Sent(t), KeyOf(t.next), Rejected("write")) else Sent(t)
  }

  /** The given requests settled, once each. */
  ghost function WithSettled(t: Transport, ids: set<nat>, s: Settlement): Transport {
    t.(settled := t.settled + Marked(ids, s), count := t.count + multiset(ids))
  }

  function Marked(ids: set<nat>, s: Settlement): map<nat, Settlement> {
    map id | id in ids :: s
  }

  ghost function SettledAll(t: Transport, s: Settlement): Transport {
    WithSettled(t, t.pending.Values, s).(pending := map[])
  }

  lemma MarkOneMore(settled: map<nat, Settlement>, done: set<nat>, id: nat, s: Settlement)
    ensures (settled + Marked(done, s))[id := s] == settled + Marked(done + {id}, s)
  {
    var a, b := (settled + Marked(done, s))[id := s], settled + Marked(done + {id}, s);
    assert a.Keys == b.Keys;
    forall k | k in a
      ensures a[k] == b[k]
    {
    }
  }

  lemma CountOneMore(count: multiset<nat>, done: set<nat>, id: nat)
    requires id !in done
    ensures count + multiset(done) + multiset{id} == count + multiset(done + {id})
  {
    assert multiset(done + {id}) == multiset(done) + multiset{id};
  }

  lemma SettleOneMore(t: Transport, done: set<nat>, id: nat, s: Settlement)
    requires id !in done
    ensures Settle(WithSettled(t, done, s), id, s) == WithSettled(t, done + {id}, s)
  {
    hide Marked;
    MarkOneMore(t.settled, done, id, s);
    CountOneMore(t.count, done, id);
  }

  /** `finishClosed`. */
  ghost function Close(t: Transport, s: Settlement): Transport {
    if t.closed then t else SettledAll(t.(closed := true), s)
  }

  datatype Step =
    | Send(writeFails: bool)
    | WriteFailed(id: nat)
    | Stdout(chunk: string)
    | Closed(reason: string)

  ghost predicate Next(parse: string -> Option<Message>, t: Transport, step: Step, u: Transport) {
    match step
    case Send(writeFails) => !t.closed && u == Request(t, writeFails)
    case WriteFailed(id) => u == SettlePending(t, KeyOf(id), Rejected("write"))
    case Stdout(chunk) => u == Feed(parse, t, chunk)
    case Closed(reason) => u == Close(t, Rejected(reason))
  }

  /** Every request sent so far is either pending or settled once; nothing else is. */
  ghost predicate Inv(t: Transport) {
    && 1 <= t.next
    && (forall key :: key in t.pending ==> key == KeyOf(t.pending[key]) && 1 <= t.pending[key] < t.next)
    && (forall id: nat :: t.count[id] == if 1 <= id < t.next && KeyOf(id) !in t.pending then 1 else 0)
    && (forall id :: id in t.settled <==> t.count[id] == 1)
    && (t.closed ==> t.pending == map[])
    && '\n' !in t.buffer
  }

  lemma SettlePendingKeepsInv(t: Transport, key: string, s: Settlement)
    requires Inv(t)
    ensures Inv(SettlePending(t, key, s))
  {
    hide KeyOf;
    if key in t.pending {
      var u := SettlePending(t, key, s);
      forall id: nat
        ensures u.count[id] == if 1 <= id < u.next && KeyOf(id) !in u.pending then 1 else 0
      {
        if id != t.pending[key] && KeyOf(id) == key {
          KeysDiffer(id, t.pending[key]);
        }
      }
    }
  }

  lemma {:induction false} HandleAllKeepsInv(t: Transport, ms: seq<Message>)
    requires Inv(t)
    ensures Inv(HandleAll(t, ms)) && HandleAll(t, ms).buffer == t.buffer && HandleAll(t, ms).closed == t.closed
    ensures HandleAll(t, ms).next == t.next
  {
    hide KeyOf;
    if |ms| > 0 {
      HandleAllKeepsInv(t, ms[..|ms| - 1]);
      var before, m := HandleAll(t, ms[..|ms| - 1]), ms[|ms| - 1];
      if m.Response? {
        SettlePendingKeepsInv(before, m.key, m.settlement);
      }
    }
  }

  /** The request with the next id, before its write is attempted. */
  function Sent(t: Transport): Transport {
    t.(pending := t.pending[KeyOf(t.next) := t.next], next := t.next + 1)
  }

  lemma SentKeepsInv(t: Transport)
    requires Inv(t) && !t.closed
    ensures Inv(Sent(t))
  {
    hide KeyOf;
    var id, sent := t.next, Sent(t);
    if KeyOf(id) in t.pending {
      KeysDiffer(id, t.pending[KeyOf(id)]);
    }
    forall other: nat
      ensures sent.count[other] == if 1 <= other < sent.next && KeyOf(other) !in sent.pending then 1 else 0
    {
      if other != id && KeyOf(other) == KeyOf(id) {
        KeysDiffer(other, id);
      }
    }
  }

  lemma RequestKeepsInv(t: Transport, writeFails: bool)
    requires Inv(t) && !t.closed
    ensures Inv(Request(t, writeFails)) && Request(t, writeFails).next == t.next + 1
  {
    hide KeyOf, Inv;
    SentKeepsInv(t);
    SettlePendingKeepsInv(Sent(t), KeyOf(t.next), Rejected("write"));
  }

  /** The pending requests are those the table lists under their own key. */
  lemma PendingRequests(t: Transport, id: nat)
    requires Inv(t)
    ensures id in t.pending.Values <==> 1 <= id < t.next && KeyOf(id) in t.pending
  {
    hide KeyOf;
    if KeyOf(id) in t.pending {
      KeysDiffer(id, t.pending[KeyOf(id)]);
    }
  }

  lemma ClosedCounts(t: Transport, id: nat, s: Settlement)
    requires Inv(t) && !t.closed
    ensures Close(t, s).count[id] == if 1 <= id < t.next then 1 else 0
    ensures id in Close(t, s).settled <==> 1 <= id < t.next
  {
    hide KeyOf;
    PendingRequests(t, id);
    assert multiset(t.pending.Values)[id] == if id in t.pending.Values then 1 else 0;
  }

  lemma CloseKeepsInv(t: Transport, s: Settlement)
    requires Inv(t)
    ensures Inv(Close(t, s)) && Close(t, s).closed && Close(t, s).pending == map[] && Close(t, s).next == t.next
  {
    hide KeyOf, WithSettled;
    if !t.closed {
      CloseKeepsFields(t, s);
      forall id: nat
        ensures Close(t, s).count[id] == if 1 <= id < t.next then 1 else 0
        ensures id in Close(t, s).settled <==> 1 <= id < t.next
      {
        ClosedCounts(t, id, s);
      }
    }
  }

  lemma CloseKeepsFields(t: Transport, s: Settlement)
    requires !t.closed
    ensures Close(t, s).next == t.next && Close(t, s).buffer == t.buffer && Close(t, s).closed && Close(t, s).pending == map[]
  {
  }

  lemma NextKeepsInv(parse: string -> Option<Message>, t: Transport, step: Step, u: Transport)
    requires Inv(t) && Next(parse, t, step, u)
    ensures Inv(u) && t.next <= u.next && (t.closed ==> u.closed)
  {
    hide Messages, CompleteLines, HandleAll, KeyOf;
    match step
    case Send(writeFails) => RequestKeepsInv(t, writeFails);
    case WriteFailed(id) => SettlePendingKeepsInv(t, KeyOf(id), Rejected("write"));
    case Stdout(chunk) => HandleAllKeepsInv(t, Messages(parse, CompleteLines(t.buffer + chunk)));
    case Closed(reason) => CloseKeepsInv(t, Rejected(reason));
  }

  ghost predicate IsRun(parse: string -> Option<Message>, states: seq<Transport>, steps: seq<Step>) {
    && |states| == |steps| + 1 && states[0] == Opened
    && forall i :: 0 <= i < |steps| ==> Next(parse, states[i], steps[i], states[i + 1])
  }

  lemma {:induction false} RunKeepsInv(parse: string -> Option<Message>, states: seq<Transport>, steps: seq<Step>, i: nat)
    requires IsRun(parse, states, steps) && i <= |steps|
    ensures Inv(states[|steps|]) && states[i].next <= states[|steps|].next && (states[i].closed ==> states[|steps|].closed)
    decreases |steps|
  {
    hide Next, Inv;
    if |steps| == 0 {
      OpenedInv();
    } else {
      var n := |steps| - 1;
      assert forall k :: 0 <= k < n ==> steps[..n][k] == steps[k] && states[..n + 1][k + 1] == states[k + 1];
      RunKeepsInv(parse, states[..n + 1], steps[..n], if i <= n then i else n);
      NextKeepsInv(parse, states[n], steps[n], states[n + 1]);
    }
  }

  lemma OpenedInv()
    ensures Inv(Opened)
  {
  }

  /** Along every run each request is pending or settled exactly once, never both and never twice. */
  lemma RequestsSettleOnce(parse: string -> Option<Message>, states: seq<Transport>, steps: seq<Step>, id: nat)
    requires IsRun(parse, states, steps) && 1 <= id < states[|steps|].next
    ensures var t := states[|steps|]; t.count[id] == if KeyOf(id) in t.pending then 0 else 1
  {
    RunKeepsInv(parse, states, steps, 0);
  }

  /** Once closed, the table is empty forever and every request ever sent has settled. */
  lemma NothingPendsAfterClose(parse: string -> Option<Message>, states: seq<Transport>, steps: seq<Step>, i: nat)
    requires IsRun(parse, states, steps) && i <= |steps| && states[i].closed
    ensures states[|steps|].pending == map[]
    ensures forall id: nat :: 1 <= id < states[i].next ==> states[|steps|].count[id] == 1
  {
    RunKeepsInv(parse, states, steps, i);
  }

  // ---------------------------------------------------------------- the class

  class NodeCodexAppServerProcess {
    var pending: map<string, nat>
    var nextRequestId: nat
    var stdoutBuffer: string
    var isClosed: bool
    var delivered: seq<Message>
    var settled: map<nat, Settlement>
    var settleCount: multiset<nat>
    const parse: string -> Option<Message>

    function View(): Transport
      reads this
    {
      Transport(pending, nextRequestId, stdoutBuffer, isClosed, delivered, settled, settleCount)
    }

    constructor (parse: string -> Option<Message>)
      ensures View() == Opened && Inv(View()) && this.parse == parse
    {
      pending, nextRequestId, stdoutBuffer, isClosed := map[], 1, "", false;
      delivered, settled, settleCount := [], map[], multiset{};
      this.parse := parse;
    }

    method SettleRequest(id: nat, s: Settlement)
      modifies this
      ensures View() == Settle(old(View()), id, s)
    {
      settled := settled[id := s];
      settleCount := settleCount + multiset{id};
    }

    method RejectRequest(key: string, s: Settlement)
      modifies this
      ensures View() == SettlePending(old(View()), key, s)
    {
      if key !in pending {
        return;
      }
      var id := pending[key];
      pending := pending - {key};
      SettleRequest(id, s);
    }

    /** `None` is the error thrown on a closed transport. */
    method SendRequest(writeFails: bool) returns (id: Option<nat>)
      modifies this
      ensures if old(isClosed) then id.None? && View() == old(View())
              else id == Some(old(nextRequestId)) && View() == Request(old(View()), writeFails)
    {
      if isClosed {
        return None;
      }
      id := Some(nextRequestId);
      pending := pending[KeyOf(nextRequestId) := nextRequestId];
      nextRequestId := nextRequestId + 1;
      if writeFails {
        RejectRequest(KeyOf(id.value), Rejected("write"));
      }
    }

    method HandleMessage(m: Message)
      modifies this
      ensures View() == Handle(old(View()), m)
    {
      if m.Response? {
        RejectRequest(m.key, m.settlement);
      } else if !m.Unrecognised? {
        delivered := delivered + [m];
      }
    }

    method HandleStdout(chunk: string)
      modifies this
      ensures View() == Feed(parse, old(View()), chunk)
    {
      hide CompleteLines, Rest, Handle;
      var text := stdoutBuffer + chunk;
      var lines := CompleteLines(text);
      stdoutBuffer := Rest(text);
      ghost var start := View();
      HandleIgnoresBuffer(old(View()), Rest(text), Messages(parse, lines));
      for i := 0 to |lines|
        invariant View() == HandleAll(start, Messages(parse, lines[..i]))
      {
        assert lines[..i + 1][..i] == lines[..i];
        var message := parse(lines[i]);
        if message.Some? {
          OneMoreMessage(start, Messages(parse, lines[..i]), message.value);
          HandleMessage(message.value);
        }
      }
      assert lines[..|lines|] == lines;
    }

    /** The listener on the data of stdout. */
    method OnStdout(buffer: seq<Byte>)
      modifies this
      ensures View() == Feed(parse, old(View()), Decode(buffer))
    {
      HandleStdout(Decode(buffer));
    }

    method RejectAll(ids: set<nat>, s: Settlement)
      modifies this
      ensures View() == WithSettled(old(View()), ids, s)
    {
      hide WithSettled, Settle;
      var waiting := ids;
      NothingSettled(View(), s);
      assert ids - waiting == {};
      while |waiting| > 0
        invariant waiting <= ids
        invariant View() == WithSettled(old(View()), ids - waiting, s)
        decreases |waiting|
      {
        var id :| id in waiting;
        SettleOneMore(old(View()), ids - waiting, id, s);
        assert ids - (waiting - {id}) == ids - waiting + {id};
        SettleRequest(id, s);
        waiting := waiting - {id};
      }
      assert ids - waiting == ids;
    }

    method FinishClosed(s: Settlement)
      requires Inv(View())
      modifies this
      ensures View() == Close(old(View()), s) && Inv(View())
    {
      hide Inv;
      CloseKeepsInv(View(), s);
      if isClosed {
        return;
      }
      isClosed := true;
      RejectAll(pending.Values, s);
      pending := map[];
    }
  }

  lemma NothingSettled(t: Transport, s: Settlement)
    ensures WithSettled(t, {}, s) == t
  {
  }

  lemma OneMoreMessage(t: Transport, ms: seq<Message>, m: Message)
    ensures HandleAll(t, ms + [m]) == Handle(HandleAll(t, ms), m)
  {
    assert (ms + [m])[..|ms|] == ms;
  }
}
