/**
 * The response side of library/requestimpl.cpp, and RequestsThreadPool::handleTask
 * (library/request_thread_pool.cpp), which drives it: headers go out once, before any body byte
 * (section 6 of RFC 3875).
 */
module Responses {
  import opened Bytes

  type Status = n: int | 0 <= n < 0x10000

  type Header = (Bytes, Bytes)

  /** A cookie by its name, and as Cookie::toString prints it. */
  datatype Cookie = Cookie(name: Bytes, text: Bytes)

  /** What the header block is made from. */
  datatype Front = Front(status: Status, headers: seq<Header>, cookies: seq<Cookie>)

  /** A request object's response fields, and what its stream has received. */
  datatype Response = Response(front: Front, sent: bool, processed: bool, wire: Bytes)

  /** The order in which a table is walked, which a hash table chooses by its entries. */
  type Walk = seq<Header> -> seq<Header>

  /** Whether there is a stream, which a replayed request has not, whether the method is HEAD, and
      how headers are walked. */
  datatype Client = Client(connected: bool, head: bool, walk: Walk)

  datatype Op =
    | SetStatus(status: Status)
    | SetHeader(name: Bytes, value: Bytes)
    | SetCookie(cookie: Cookie)
    | SendError(error: Status)
    | Write(data: Bytes)
    | SendHeaders
    | MarkProcessed

  datatype Exn = Http(status: Status) | Standard(what: Bytes) | Foreign

  const CRLF: Bytes := [13, 10]
  const STATUS: Bytes := Ascii("Status")
  const UNKNOWN: Bytes := Ascii("fastcgi-daemon: got unknown exception from handler")
  const PAGE_HEAD: Bytes := Ascii("<html><body><h1>")
  const PAGE_TAIL: Bytes := Ascii("</h1></body></html>")
  const CONTENT_TYPE: Bytes := Ascii("Content-type")
  const TEXT_HTML: Bytes := Ascii("text/html")
  const COLON: Bytes := Ascii(": ")
  const SET_COOKIE: Bytes := Ascii("Set-Cookie: ")
  const LATE: Bytes := Ascii("headers already sent")
  const FRESH: Response := Response(Front(200, [], []), false, false, [])

  // ----- the header block -----

  function Decimal(n: nat): Bytes {
    (if n < 10 then [] else Decimal(n / 10)) + ['0' as int + n % 10]
  }

  /** Parser::statusToString. */
  function Reason(status: Status): string {
    match status
    case 200 => "OK"
    case 201 => "Created"
    case 202 => "Accepted"
    case 203 => "Partial Information"
    case 204 => "No Response"
    case 301 => "Moved"
    case 302 => "Moved Temporarily"
    case 303 => "Method"
    case 304 => "Not Modified"
    case 400 => "Bad request"
    case 401 => "Unauthorized"
    case 402 => "PaymentRequired"
    case 403 => "Forbidden"
    case 404 => "Not found"
    case 405 => "Method not allowed"
    case 500 => "Internal Error"
    case 501 => "Not implemented"
    case 502 => "Service temporarily overloaded"
    case 503 => "Gateway timeout"
    case _ => "Unknown status"
  }

  function StatusLine(status: Status): Bytes {
    Decimal(status) + [32] + Ascii(Reason(status))
  }

  /** out_headers_[name] = value: a header that is there keeps its spelling. */
  function Assign(headers: seq<Header>, name: Bytes, value: Bytes): seq<Header> {
    if headers == [] then [(name, value)]
    else if EqualIgnoringCase(headers[0].0, name) then [(headers[0].0, value)] + headers[1..]
    else [headers[0]] + Assign(headers[1..], name, value)
  }

  predicate Before(a: Bytes, b: Bytes) {
    b != [] && (a == [] || a[0] < b[0] || (a[0] == b[0] && Before(a[1..], b[1..])))
  }

  /** A set ordered by name, in which a new cookie takes the place of one of its name. */
  function Insert(cookies: seq<Cookie>, c: Cookie): seq<Cookie> {
    if cookies == [] || Before(c.name, cookies[0].name) then [c] + cookies
    else if cookies[0].name == c.name then [c] + cookies[1..]
    else [cookies[0]] + Insert(cookies[1..], c)
  }

  lemma {:induction false} BeforeIsOrder(a: Bytes, b: Bytes, c: Bytes)
    ensures Before(a, b) && Before(b, c) ==> Before(a, c)
    ensures Before(a, b) || a == b || Before(b, a)
    ensures !Before(a, a)
  {
    if a != [] && b != [] {
      BeforeIsOrder(a[1..], b[1..], if c == [] then [] else c[1..]);
      assert a == [a[0]] + a[1..] && b == [b[0]] + b[1..];
    } else if a != [] {
      BeforeIsOrder(a[1..], [], []);
    }
  }

  ghost predicate Ascending(cookies: seq<Cookie>) {
    forall i, j | 0 <= i < j < |cookies| :: Before(cookies[i].name, cookies[j].name)
  }

  /** One cookie of a name: the last that was set. */
  lemma {:induction false} InsertReplaces(cookies: seq<Cookie>, c: Cookie)
    requires Ascending(cookies)
    ensures var r := Insert(cookies, c);
            Ascending(r) && forall x :: x in r <==> x == c || (x in cookies && x.name != c.name)
  {
    hide Before;
    if cookies != [] {
      var d, rest := cookies[0], cookies[1..];
      assert cookies == [d] + rest;
      forall x | x in rest
        ensures Before(d.name, x.name)
      {
      }
      forall x | x in cookies
        ensures Before(c.name, d.name) ==> Before(c.name, x.name)
        ensures x in rest && c.name == d.name ==> x.name != c.name
      {
        BeforeIsOrder(c.name, d.name, x.name);
        BeforeIsOrder(x.name, x.name, []);
      }
      BeforeIsOrder(c.name, d.name, []);
      BeforeIsOrder(c.name, c.name, []);
      InsertReplaces(rest, c);
      var r := Insert(cookies, c);
      forall i, j | 0 <= i < j < |r|
        ensures Before(r[i].name, r[j].name)
      {
        assert r[j] in r[1..] && (r[0] == c || r[0] == d);
        assert i > 0 ==> r[1..][i - 1] == r[i] && r[1..][j - 1] == r[j];
      }
    }
  }

  ghost predicate OneEach(headers: seq<Header>) {
    forall i, j | 0 <= i < j < |headers| :: !EqualIgnoringCase(headers[i].0, headers[j].0)
  }

  lemma OneEachSplits(h: Header, rest: seq<Header>)
    ensures OneEach([h] + rest) <==> OneEach(rest) && forall x | x in rest :: !EqualIgnoringCase(h.0, x.0)
  {
    hide EqualIgnoringCase;
    var all := [h] + rest;
    assert all[0] == h && forall k | 0 <= k < |rest| :: rest[k] == all[k + 1];
  }

  lemma SameName(a: Bytes, b: Bytes, c: Bytes)
    ensures EqualIgnoringCase(a, b) ==> (EqualIgnoringCase(a, c) <==> EqualIgnoringCase(b, c))
    ensures EqualIgnoringCase(a, b) <==> EqualIgnoringCase(b, a)
  {
  }

  /** One header of a name, whatever the case, and no other header changes. */
  lemma {:induction false} AssignReplaces(headers: seq<Header>, name: Bytes, value: Bytes)
    requires OneEach(headers)
    ensures var r := Assign(headers, name, value);
            && OneEach(r)
            && (exists h | h in r :: EqualIgnoringCase(h.0, name) && h.1 == value)
            && forall h: Header | !EqualIgnoringCase(h.0, name) :: h in r <==> h in headers
  {
    hide EqualIgnoringCase, OneEach;
    if headers == [] {
      OneEachSplits((name, value), []);
      NoHeaders();
      EqualToItself(name);
      assert [(name, value)] + [] == [(name, value)];
      assert (name, value) in [(name, value)];
    } else {
      var h, rest := headers[0], headers[1..];
      assert headers == [h] + rest;
      OneEachSplits(h, rest);
      if EqualIgnoringCase(h.0, name) {
        OneEachSplits((h.0, value), rest);
        assert (h.0, value) in [(h.0, value)] + rest;
        forall x: Header
          ensures !EqualIgnoringCase(x.0, name) ==> x != h && x.0 != h.0
        {
        }
      } else {
        AssignReplaces(rest, name, value);
        var more := Assign(rest, name, value);
        forall x | x in more
          ensures !EqualIgnoringCase(h.0, x.0)
        {
          SameName(x.0, name, h.0);
          SameName(h.0, x.0, name);
          SameName(h.0, name, h.0);
        }
        OneEachSplits(h, more);
        var x :| x in more && EqualIgnoringCase(x.0, name) && x.1 == value;
        assert x in [h] + more;
      }
    }
  }

  lemma NoHeaders()
    ensures OneEach([])
  {
  }

  lemma EqualToItself(a: Bytes)
    ensures EqualIgnoringCase(a, a)
  {
  }

  /** In whatever order, the block has one line for each header. */
  lemma EveryHeaderOnce(walk: Walk, headers: seq<Header>)
    requires OneEach(headers) && multiset(walk(headers)) == multiset(headers)
    ensures |walk(headers)| == |headers| && OneEach(walk(headers))
    ensures forall h :: h in walk(headers) <==> h in headers
  {
    var w := walk(headers);
    assert |w| == |multiset(w)| && |headers| == |multiset(headers)|;
    forall h
      ensures h in w <==> h in headers
    {
      assert h in multiset(w) <==> h in multiset(headers);
    }
    forall i, j | 0 <= i < j < |w|
      ensures !EqualIgnoringCase(w[i].0, w[j].0)
    {
      TwoPlaces(w, i, j);
      if w[i] == w[j] {
        OneEachMeansOne(headers, w[i]);
        assert false;
      }
      var a :| 0 <= a < |headers| && headers[a] == w[i];
      var b :| 0 <= b < |headers| && headers[b] == w[j];
    }
  }

  lemma TwoPlaces(w: seq<Header>, i: nat, j: nat)
    requires i < j < |w|
    ensures w[i] in w && w[j] in w
    ensures w[i] == w[j] ==> multiset(w)[w[i]] >= 2
  {
    assert w == w[..j] + [w[j]] + w[j + 1..];
    assert w[i] in w[..j];
  }

  lemma {:induction false} OneEachMeansOne(headers: seq<Header>, h: Header)
    requires OneEach(headers)
    ensures multiset(headers)[h] <= 1
  {
    if headers != [] {
      var rest := headers[1..];
      assert headers == [headers[0]] + rest;
      OneEachMeansOne(rest, h);
      forall k | 0 <= k < |rest|
        ensures rest[k] != headers[0]
      {
        assert rest[k] == headers[k + 1];
      }
    }
  }

  function HeaderLine(h: Header): Bytes {
    h.0 + COLON + h.1 + CRLF
  }

  function CookieLine(c: Cookie): Bytes {
    SET_COOKIE + c.text + CRLF
  }

  function HeaderLines(headers: seq<Header>): Bytes
    decreases |headers|
  {
    if headers == [] then [] else HeaderLines(headers[..|headers| - 1]) + HeaderLine(headers[|headers| - 1])
  }

  function CookieLines(cookies: seq<Cookie>): Bytes
    decreases |cookies|
  {
    if cookies == [] then [] else CookieLines(cookies[..|cookies| - 1]) + CookieLine(cookies[|cookies| - 1])
  }

  /** The Status header is set last; then all headers and cookies, and an empty line. */
  function WithStatus(f: Front): Front {
    f.(headers := Assign(f.headers, STATUS, StatusLine(f.status)))
  }

  function Block(c: Client, f: Front): Bytes {
    HeaderLines(c.walk(WithStatus(f).headers)) + CookieLines(f.cookies) + CRLF
  }

  /** What is left of a response when an error is sent instead. */
  function ErrorFront(status: Status): Front {
    Front(status, [(CONTENT_TYPE, TEXT_HTML)], [])
  }

  function Page(status: Status): Bytes {
    PAGE_HEAD + Decimal(status) + [32] + Ascii(Reason(status)) + PAGE_TAIL
  }

  // ----- the calls -----

  function Emit(c: Client, r: Response, data: Bytes): Response {
    if c.connected then r.(wire := r.wire + data) else r
  }

  function SendFront(c: Client, r: Response): Response {
    if r.sent then r else Emit(c, r.(front := WithStatus(r.front), sent := true), Block(c, r.front))
  }

  predicate IsSetter(op: Op) {
    op.SetStatus? || op.SetHeader? || op.SetCookie?
  }

  predicate IsSending(op: Op) {
    op.SendError? || op.Write? || op.SendHeaders?
  }

  function Set(f: Front, op: Op): Front {
    match op
    case SetStatus(status) => f.(status := status)
    case SetHeader(name, value) => f.(headers := Assign(f.headers, name, value))
    case SetCookie(cookie) => f.(cookies := Insert(f.cookies, cookie))
    case _ => f
  }

  /** A call's effect, and whether it threw. */
  function Apply(c: Client, r: Response, op: Op): (Response, bool) {
    match op
    case SendError(status) =>
      if r.sent then (r, true)
      else (Emit(c, SendFront(c, r.(front := ErrorFront(status))), Page(status)), false)
    case Write(data) =>
      var t := SendFront(c, r);
      (if c.head then t else Emit(c, t, data), false)
    case SendHeaders => (SendFront(c, r), false)
    case MarkProcessed => (r.(processed := true), false)
    case _ => if r.sent then (r, true) else (r.(front := Set(r.front, op)), false)
  }

  function Run(c: Client, r: Response, ops: seq<Op>): Response
    decreases |ops|
  {
    if ops == [] then r else Run(c, Apply(c, r, ops[0]).0, ops[1..])
  }

  // ----- what any sequence of calls puts on the wire -----

  /** The first call that sends. */
  function FirstSend(ops: seq<Op>): (i: nat)
    ensures i <= |ops|
    ensures i < |ops| ==> IsSending(ops[i])
    ensures forall j | 0 <= j < i :: !IsSending(ops[j])
  {
    if ops == [] || IsSending(ops[0]) then 0 else 1 + FirstSend(ops[1..])
  }

  /** What the setters among the calls have made of the front. */
  function SetAll(f: Front, ops: seq<Op>): Front
    decreases |ops|
  {
    if ops == [] then f else SetAll(Set(f, ops[0]), ops[1..])
  }

  function Data(op: Op): Bytes {
    if op.Write? then op.data else []
  }

  /** The bytes of all writes. */
  function Written(ops: seq<Op>): Bytes
    decreases |ops|
  {
    if ops == [] then [] else Data(ops[0]) + Written(ops[1..])
  }

  /** One header block, of the front as it was at the first call that sends, and the body. */
  function Wire(c: Client, ops: seq<Op>): Bytes {
    var i := FirstSend(ops);
    if !c.connected || i == |ops| then []
    else
      var written := if c.head then [] else Written(ops[i..]);
      if ops[i].SendError? then Block(c, ErrorFront(ops[i].error)) + Page(ops[i].error) + written
      else Block(c, SetAll(FRESH.front, ops[..i])) + written
  }

  /** Once headers are sent, setters and sendError throw and change nothing, and only they throw. */
  lemma LateCallsThrow(c: Client, r: Response, op: Op)
    ensures Apply(c, r, op).1 <==> r.sent && (IsSetter(op) || op.SendError?)
    ensures Apply(c, r, op).1 ==> Apply(c, r, op).0 == r
  {
    hide Ascii, Block, Page;
  }

  /** Whatever is set, headers stay one for each name, and cookies in order of theirs. */
  lemma {:induction false} SetAllKeepsTables(f: Front, ops: seq<Op>)
    requires OneEach(f.headers) && Ascending(f.cookies)
    ensures var t := WithStatus(SetAll(f, ops)); OneEach(t.headers) && Ascending(t.cookies)
    decreases |ops|
  {
    hide Ascii, OneEach, Ascending, Assign, Insert, StatusLine;
    if ops == [] {
      AssignReplaces(f.headers, STATUS, StatusLine(f.status));
    } else {
      match ops[0] {
        case SetHeader(name, value) => AssignReplaces(f.headers, name, value);
        case SetCookie(cookie) => InsertReplaces(f.cookies, cookie);
        case _ =>
      }
      SetAllKeepsTables(Set(f, ops[0]), ops[1..]);
    }
  }

  lemma {:induction false} QuietCalls(c: Client, r: Response, ops: seq<Op>)
    requires !r.sent && forall op | op in ops :: !IsSending(op)
    ensures var t := Run(c, r, ops); !t.sent && t.wire == r.wire && t.front == SetAll(r.front, ops)
    decreases |ops|
  {
    hide Ascii, Assign, Insert;
    if ops != [] {
      assert ops[0] in ops && forall op | op in ops[1..] :: op in ops;
      QuietCalls(c, Apply(c, r, ops[0]).0, ops[1..]);
    }
  }

  lemma {:induction false} AfterSending(c: Client, r: Response, ops: seq<Op>)
    requires r.sent
    ensures var t := Run(c, r, ops);
            && t.sent && t.front == r.front
            && t.wire == if c.connected && !c.head then r.wire + Written(ops) else r.wire
    decreases |ops|
  {
    hide Ascii, Set, Block, WithStatus, Page;
    if ops == [] {
      assert r.wire + [] == r.wire;
    } else {
      var t := Apply(c, r, ops[0]).0;
      AfterSending(c, t, ops[1..]);
      var data := if ops[0].Write? then ops[0].data else [];
      assert r.wire + data + Written(ops[1..]) == r.wire + (data + Written(ops[1..]));
      assert r.wire + [] == r.wire;
    }
  }

  lemma {:induction false} RunTwice(c: Client, r: Response, a: seq<Op>, b: seq<Op>)
    ensures Run(c, r, a + b) == Run(c, Run(c, r, a), b)
    decreases |a|
  {
    hide Ascii, Apply;
    if a == [] {
      assert a + b == b;
    } else {
      assert (a + b)[1..] == a[1..] + b;
      RunTwice(c, Apply(c, r, a[0]).0, a[1..], b);
    }
  }

  /** Over any sequence of calls: nothing until headers are sent, then exactly one header block,
      fixed by the state at the first call that sends, and body bytes. */
  lemma WrittenOnce(c: Client, ops: seq<Op>)
    ensures var t := Run(c, FRESH, ops);
            t.wire == Wire(c, ops) && (t.sent <==> exists op | op in ops :: IsSending(op))
  {
    hide Ascii, Set, Block, WithStatus, Page;
    var i := FirstSend(ops);
    var before, after := ops[..i], ops[i..];
    assert ops == before + after;
    RunTwice(c, FRESH, before, after);
    assert forall op | op in before :: !IsSending(op);
    QuietCalls(c, FRESH, before);
    if i < |ops| {
      var r := Run(c, FRESH, before);
      assert ops[i] in ops && after[0] == ops[i];
      FirstSending(c, r, ops[i]);
      AfterSending(c, Apply(c, r, ops[i]).0, after[1..]);
      WrittenFirst(c, r, ops[i], after);
    } else {
      assert before == ops;
    }
  }

  /** What the first call that sends puts on the wire. */
  function Opening(c: Client, f: Front, op: Op): Bytes {
    if op.SendError? then Block(c, ErrorFront(op.error)) + Page(op.error)
    else Block(c, f) + (if c.head then [] else Data(op))
  }

  lemma FirstSending(c: Client, r: Response, op: Op)
    requires !r.sent && r.wire == [] && IsSending(op)
    ensures var t := Apply(c, r, op).0; t.sent && t.wire == if c.connected then Opening(c, r.front, op) else []
  {
    hide Ascii, Block, WithStatus, Page, Set;
    assert [] + Block(c, r.front) == Block(c, r.front);
  }

  lemma WrittenFirst(c: Client, r: Response, op: Op, after: seq<Op>)
    requires after != [] && after[0] == op && IsSending(op)
    ensures var written := if c.head then [] else Written(after);
            Opening(c, r.front, op) + (if c.head then [] else Written(after[1..])) ==
            if op.SendError? then Block(c, ErrorFront(op.error)) + Page(op.error) + written
            else Block(c, r.front) + written
  {
    hide Ascii, Block, Page;
    var rest := Written(after[1..]);
    if op.SendError? {
      Regroup(Block(c, ErrorFront(op.error)) + Page(op.error), [], rest, c.head);
    } else {
      Regroup(Block(c, r.front), Data(op), rest, c.head);
    }
  }

  lemma Regroup(block: Bytes, data: Bytes, rest: Bytes, mute: bool)
    ensures block + (if mute then [] else data) + (if mute then [] else rest) == block + if mute then [] else data + rest
    ensures block + (if mute then [] else []) == block
  {
    Associates(block, data, rest);
  }

  // ----- handlers -----

  /** What a handler does: a call that may throw through it or is guarded, or a throw of its own. */
  datatype Act = Do(op: Op) | Guarded(op: Op) | Raise(e: Exn)

  function RunHandler(c: Client, r: Response, acts: seq<Act>): (Response, Option<Exn>)
    decreases |acts|
  {
    if acts == [] then (r, None)
    else
      match acts[0]
      case Raise(e) => (r, Some(e))
      case Guarded(op) => RunHandler(c, Apply(c, r, op).0, acts[1..])
      case Do(op) =>
        var (t, threw) := Apply(c, r, op);
        if threw then (t, Some(Standard(LATE))) else RunHandler(c, t, acts[1..])
  }

  /** The handlers in turn, until one marks the request as processed or throws. */
  function RunHandlers(c: Client, r: Response, handlers: seq<seq<Act>>): (Response, Option<Exn>)
    decreases |handlers|
  {
    if handlers == [] || r.processed then (r, None)
    else
      var (t, thrown) := RunHandler(c, r, handlers[0]);
      if thrown.Some? then (t, thrown) else RunHandlers(c, t, handlers[1..])
  }

  /** The calls that a handler gets to. */
  function Calls(c: Client, r: Response, acts: seq<Act>): seq<Op>
    decreases |acts|
  {
    if acts == [] || acts[0].Raise? then []
    else
      var (t, threw) := Apply(c, r, acts[0].op);
      [acts[0].op] + if threw && acts[0].Do? then [] else Calls(c, t, acts[1..])
  }

  /** All calls of all handlers that run. */
  function AllCalls(c: Client, r: Response, handlers: seq<seq<Act>>): seq<Op>
    decreases |handlers|
  {
    if handlers == [] || r.processed then []
    else
      var (t, thrown) := RunHandler(c, r, handlers[0]);
      Calls(c, r, handlers[0]) + if thrown.Some? then [] else AllCalls(c, t, handlers[1..])
  }

  lemma {:induction false} CallsOfHandler(c: Client, r: Response, acts: seq<Act>)
    ensures Run(c, r, Calls(c, r, acts)) == RunHandler(c, r, acts).0
    decreases |acts|
  {
    hide Ascii, Apply;
    if acts != [] && !acts[0].Raise? {
      var (t, threw) := Apply(c, r, acts[0].op);
      var rest := if threw && acts[0].Do? then [] else Calls(c, t, acts[1..]);
      assert ([acts[0].op] + rest)[1..] == rest;
      CallsOfHandler(c, t, acts[1..]);
    }
  }

  lemma {:induction false} CallsOfHandlers(c: Client, r: Response, handlers: seq<seq<Act>>)
    ensures Run(c, r, AllCalls(c, r, handlers)) == RunHandlers(c, r, handlers).0
    decreases |handlers|
  {
    hide Ascii, Apply;
    if handlers != [] && !r.processed {
      var (t, thrown) := RunHandler(c, r, handlers[0]);
      CallsOfHandler(c, r, handlers[0]);
      var rest := if thrown.Some? then [] else AllCalls(c, t, handlers[1..]);
      RunTwice(c, r, Calls(c, r, handlers[0]), rest);
      CallsOfHandlers(c, t, handlers[1..]);
    }
  }

  // ----- handleTask -----

  /** What a stream object shows as its text is destroyed, after the page. */
  function Explanation(e: Exn): Bytes {
    match e
    case Http(_) => []
    case Standard(what) => what
    case Foreign => UNKNOWN
  }

  function ErrorStatus(e: Exn): Status {
    if e.Http? then e.status else 500
  }

  function Answer(c: Client, r: Response, e: Exn): Response {
    var t := Apply(c, r, SendError(ErrorStatus(e))).0;
    if Explanation(e) == [] then t else Apply(c, t, Write(Explanation(e))).0
  }

  /** handleTask: the response it leaves, and what it throws, which makes the task a bad one. */
  function Task(c: Client, r: Response, handlers: seq<seq<Act>>): (Response, Option<Exn>) {
    var (t, thrown) := RunHandlers(c, r, handlers);
    match thrown
    case None => (SendFront(c, t), None)
    case Some(e) => if t.sent then (t, thrown) else (Answer(c, t.(front := t.front.(status := 500)), e), None)
  }

  /** An HttpException is answered with its own status and nothing behind the page; anything else with
      status 500, and behind the page what was thrown, unless only the head was asked for. */
  lemma AnswerIsAnError(c: Client, r: Response, e: Exn)
    requires !r.sent && r.wire == []
    ensures Answer(c, r, e).sent
    ensures !c.connected ==> Answer(c, r, e).wire == []
    ensures c.connected ==>
              match e
              case Http(status) => Answer(c, r, e).wire == Block(c, ErrorFront(status)) + Page(status)
              case Standard(what) =>
                Answer(c, r, e).wire == Block(c, ErrorFront(500)) + Page(500) + (if c.head then [] else what)
              case Foreign =>
                Answer(c, r, e).wire == Block(c, ErrorFront(500)) + Page(500) + (
                  if c.head then [] else Ascii("fastcgi-daemon: got unknown exception from handler"))
  {
    hide Ascii, Block, WithStatus, Page, Set;
    FirstSending(c, r, SendError(ErrorStatus(e)));
    var page := Block(c, ErrorFront(ErrorStatus(e))) + Page(ErrorStatus(e));
    assert page + [] == page;
  }

  /**
   * Whatever the handlers do, handleTask leaves the headers sent. It throws exactly when a handler
   * threw after a call of some handler had sent them. What the client gets is the handlers' own
   * response, written once, or, when one threw before anything was sent, an error page alone, with
   * nothing of what the handlers had set.
   */
  lemma TaskAnswers(c: Client, handlers: seq<seq<Act>>)
    ensures var calls, thrown := AllCalls(c, FRESH, handlers), RunHandlers(c, FRESH, handlers).1;
            var sends := exists op | op in calls :: IsSending(op);
            var (r, rethrown) := Task(c, FRESH, handlers);
            && r.sent
            && rethrown == (if sends then thrown else None)
            && r.wire ==
               if thrown.None? then Wire(c, calls + [SendHeaders])
               else if sends then Wire(c, calls)
               else if !c.connected then []
               else
                 match thrown.value
                 case Http(status) => Block(c, ErrorFront(status)) + Page(status)
                 case Standard(what) => Block(c, ErrorFront(500)) + Page(500) + (if c.head then [] else what)
                 case Foreign =>
                   Block(c, ErrorFront(500)) + Page(500) + (
                     if c.head then [] else Ascii("fastcgi-daemon: got unknown exception from handler"))
  {
    hide Ascii, Block, WithStatus, Page, Set, Wire, Answer, Apply, IsSending;
    var calls := AllCalls(c, FRESH, handlers);
    var (t, thrown) := RunHandlers(c, FRESH, handlers);
    CallsOfHandlers(c, FRESH, handlers);
    WrittenOnce(c, calls);
    WrittenOnce(c, calls + [SendHeaders]);
    RunTwice(c, FRESH, calls, [SendHeaders]);
    LastCall(c, t);
    if thrown.Some? && !t.sent {
      NothingSent(c, calls);
      AnswerIsAnError(c, t.(front := t.front.(status := 500)), thrown.value);
    }
  }

  lemma LastCall(c: Client, r: Response)
    ensures Run(c, r, [SendHeaders]) == SendFront(c, r) && SendFront(c, r).sent
  {
    assert Run(c, Apply(c, r, SendHeaders).0, [SendHeaders][1..]) == Apply(c, r, SendHeaders).0;
  }

  lemma NothingSent(c: Client, ops: seq<Op>)
    requires !exists op | op in ops :: IsSending(op)
    ensures Wire(c, ops) == []
  {
    forall j | 0 <= j < |ops|
      ensures !IsSending(ops[j])
    {
      assert ops[j] in ops;
    }
    assert FirstSend(ops) == |ops|;
  }

  // ----- the object -----

  /** RequestImpl's response side; wire is what its stream has received. */
  class Request {
    const client: Client
    var status: Status
    var headers: seq<Header>
    var cookies: seq<Cookie>
    var sent: bool
    var processed: bool
    var wire: Bytes

    ghost function State(): Response
      reads this
    {
      Response(Front(status, headers, cookies), sent, processed, wire)
    }

    constructor (client: Client)
      ensures this.client == client && State() == FRESH
      ensures status == 200 && headers == [] && cookies == [] && !sent && !processed && wire == []
    {
      this.client := client;
      status, headers, cookies, sent, processed, wire := 200, [], [], false, false, [];
    }

    method Send(data: Bytes)
      requires client.connected
      modifies this`wire
      ensures wire == old(wire) + data
    {
      wire := wire + data;
    }

    /** sendHeadersInternal: piece by piece. */
    method SendHeaders()
      modifies this
      ensures State() == SendFront(client, old(State()))
    {
      hide Ascii, Assign, StatusLine, HeaderLine, CookieLine;
      if sent {
        return;
      }
      headers := Assign(headers, STATUS, StatusLine(status));
      if client.connected {
        var walked := client.walk(headers);
        for i := 0 to |walked|
          modifies this`wire
          invariant wire == old(wire) + HeaderLines(walked[..i])
        {
          LastHeader(walked, i);
          Send(HeaderLine(walked[i]));
        }
        assert walked[..|walked|] == walked;
        ghost var lines := HeaderLines(walked);
        for i := 0 to |cookies|
          modifies this`wire
          invariant wire == old(wire) + (lines + CookieLines(cookies[..i]))
        {
          LastCookie(cookies, i);
          Send(CookieLine(cookies[i]));
        }
        assert cookies[..|cookies|] == cookies;
        Send(CRLF);
      }
      sent := true;
    }

    static lemma LastHeader(headers: seq<Header>, i: nat)
      requires i < |headers|
      ensures HeaderLines(headers[..i + 1]) == HeaderLines(headers[..i]) + HeaderLine(headers[i])
    {
      hide HeaderLine;
      assert headers[..i + 1][..i] == headers[..i];
    }

    static lemma LastCookie(cookies: seq<Cookie>, i: nat)
      requires i < |cookies|
      ensures CookieLines(cookies[..i + 1]) == CookieLines(cookies[..i]) + CookieLine(cookies[i])
    {
      hide CookieLine;
      assert cookies[..i + 1][..i] == cookies[..i];
    }

    method SetStatus(status: Status) returns (threw: bool)
      modifies this`status
      ensures (State(), threw) == Apply(client, old(State()), Op.SetStatus(status))
    {
      if sent {
        return true;
      }
      this.status := status;
      return false;
    }

    method SetHeader(name: Bytes, value: Bytes) returns (threw: bool)
      modifies this`headers
      ensures (State(), threw) == Apply(client, old(State()), Op.SetHeader(name, value))
    {
      if sent {
        return true;
      }
      headers := Assign(headers, name, value);
      return false;
    }

    method SetCookie(cookie: Cookie) returns (threw: bool)
      modifies this`cookies
      ensures (State(), threw) == Apply(client, old(State()), Op.SetCookie(cookie))
    {
      if sent {
        return true;
      }
      cookies := Insert(cookies, cookie);
      return false;
    }

    /** Cookies and headers are dropped; the page follows, even for a HEAD request. */
    method SendError(error: Status) returns (threw: bool)
      modifies this
      ensures (State(), threw) == Apply(client, old(State()), Op.SendError(error))
    {
      hide Ascii, Assign, StatusLine, Block, Decimal, Reason;
      if sent {
        return true;
      }
      cookies, headers := [], [];
      status := error;
      headers := [(CONTENT_TYPE, TEXT_HTML)];
      assert State().front == ErrorFront(error);
      SendHeaders();
      if client.connected {
        ghost var before := wire;
        Send(PAGE_HEAD);
        Send(Decimal(error));
        Send([32]);
        Send(Ascii(Reason(error)));
        Send(PAGE_TAIL);
        assert wire == before + Page(error);
      }
      return false;
    }

    method Write(data: Bytes)
      modifies this
      ensures (State(), false) == Apply(client, old(State()), Op.Write(data))
    {
      SendHeaders();
      if client.connected && !client.head {
        Send(data);
      }
    }

    method Call(op: Op) returns (threw: bool)
      modifies this
      ensures (State(), threw) == Apply(client, old(State()), op)
    {
      hide Ascii, SendFront, Set, Page, ErrorFront, Emit;
      match op
      case SetStatus(s) => threw := SetStatus(s);
      case SetHeader(name, value) => threw := SetHeader(name, value);
      case SetCookie(cookie) => threw := SetCookie(cookie);
      case SendError(error) => threw := SendError(error);
      case Write(data) => Write(data); threw := false;
      case SendHeaders => SendHeaders(); threw := false;
      case MarkProcessed => processed, threw := true, false;
    }

    /** handleRequest of one handler. */
    method HandleRequest(acts: seq<Act>) returns (thrown: Option<Exn>)
      modifies this
      ensures (State(), thrown) == RunHandler(client, old(State()), acts)
    {
      hide Ascii, Apply;
      for i := 0 to |acts|
        invariant RunHandler(client, old(State()), acts) == RunHandler(client, State(), acts[i..])
      {
        assert acts[i..][0] == acts[i] && acts[i..][1..] == acts[i + 1..];
        match acts[i]
        case Raise(e) => return Some(e);
        case Guarded(op) => var _ := Call(op);
        case Do(op) =>
          var threw := Call(op);
          if threw {
            return Some(Standard(LATE));
          }
      }
      return None;
    }

    /** The loop of handleTask. */
    method Handlers(handlers: seq<seq<Act>>) returns (thrown: Option<Exn>)
      modifies this
      ensures (State(), thrown) == RunHandlers(client, old(State()), handlers)
    {
      hide Ascii, RunHandler;
      for i := 0 to |handlers|
        invariant RunHandlers(client, old(State()), handlers) == RunHandlers(client, State(), handlers[i..])
      {
        assert handlers[i..][0] == handlers[i] && handlers[i..][1..] == handlers[i + 1..];
        if processed {
          return None;
        }
        thrown := HandleRequest(handlers[i]);
        if thrown.Some? {
          return thrown;
        }
      }
      return None;
    }

    /** handleTask: setStatus(500) tells whether headers are out. */
    method HandleTask(handlers: seq<seq<Act>>) returns (rethrown: Option<Exn>)
      modifies this
      ensures (State(), rethrown) == Task(client, old(State()), handlers)
    {
      hide Ascii, RunHandlers, SendFront, Set, Page, Emit, ErrorFront;
      var thrown := Handlers(handlers);
      if thrown.None? {
        SendHeaders();
        return None;
      }
      var headersAlreadySent := SetStatus(500);
      assert headersAlreadySent <==> sent;
      if headersAlreadySent {
        return thrown;
      }
      match thrown.value {
        case Http(error) =>
          var _ := SendError(error);
        case Standard(what) =>
          var _ := SendError(500);
          if what != [] {
            Write(what);
          }
        case Foreign =>
          var _ := SendError(500);
          Write(UNKNOWN);
      }
      return None;
    }
  }
}
