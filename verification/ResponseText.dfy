/**
 * What a client reads off the wire: the header block of section 6 of RFC 3875, read line by line,
 * gives back the headers and cookies that were set, the status, and then the body.
 */
module ResponseText {
  import opened Bytes
  import opened Alphabet
  import opened Responses

  // ----- numbers and reasons -----

  /** The number that decimal digits denote. */
  function Value(s: Bytes): nat {
    if s == [] then 0 else 10 * Value(s[..|s| - 1]) + (if 48 <= s[|s| - 1] < 58 then s[|s| - 1] - 48 else 0)
  }

  ghost predicate AllDigits(s: Bytes) {
    forall i | 0 <= i < |s| :: 48 <= s[i] < 58
  }

  lemma ValueStep(s: Bytes, d: nat)
    requires d < 10
    ensures Value(s + [48 + d]) == 10 * Value(s) + d
  {
    assert (s + [48 + d])[..|s|] == s;
  }

  lemma DecimalStep(n: nat)
    ensures Decimal(n) == (if n < 10 then [] else Decimal(n / 10)) + [48 + n % 10]
  {
  }

  /** Decimal writes n in digits, without leading zeros. */
  lemma {:induction false} DecimalIsRead(n: nat)
    ensures Decimal(n) != [] && AllDigits(Decimal(n)) && Value(Decimal(n)) == n
    ensures Decimal(n)[0] == 48 ==> n == 0
    decreases n
  {
    hide Decimal, Value;
    DecimalStep(n);
    if n < 10 {
      ValueStep([], n);
      assert Value([]) == 0 by { NoDigits(); }
    } else {
      DecimalIsRead(n / 10);
      ValueStep(Decimal(n / 10), n % 10);
    }
  }

  lemma NoDigits()
    ensures Value([]) == 0
  {
  }

  /** The statuses that have a reason of their own. */
  const REASONS: seq<(Status, string)> := [
    (200, "OK"), (201, "Created"), (202, "Accepted"), (203, "Partial Information"), (204, "No Response"),
    (301, "Moved"), (302, "Moved Temporarily"), (303, "Method"), (304, "Not Modified"),
    (400, "Bad request"), (401, "Unauthorized"), (402, "PaymentRequired"), (403, "Forbidden"), (404, "Not found"),
    (405, "Method not allowed"),
    (500, "Internal Error"), (501, "Not implemented"), (502, "Service temporarily overloaded"), (503, "Gateway timeout")]

  lemma ReasonsAreTheTable(status: Status)
    ensures forall i | 0 <= i < |REASONS| :: Reason(REASONS[i].0) == REASONS[i].1
    ensures Reason(status) == "Unknown status" || exists i | 0 <= i < |REASONS| :: REASONS[i].0 == status
  {
    assert REASONS[0].0 == 200 && REASONS[1].0 == 201 && REASONS[2].0 == 202 && REASONS[3].0 == 203 && REASONS[4].0 == 204;
    assert REASONS[5].0 == 301 && REASONS[6].0 == 302 && REASONS[7].0 == 303 && REASONS[8].0 == 304;
    assert REASONS[9].0 == 400 && REASONS[10].0 == 401 && REASONS[11].0 == 402 && REASONS[12].0 == 403;
    assert REASONS[13].0 == 404 && REASONS[14].0 == 405;
    assert REASONS[15].0 == 500 && REASONS[16].0 == 501 && REASONS[17].0 == 502 && REASONS[18].0 == 503;
  }

  // ----- reading a header block -----

  const SEPARATOR: Bytes := [58, 32]   // a colon and a space

  /** A client's reader: lines up to an empty one, each a name and a value; what follows is the body. */
  function ReadHeaders(s: Bytes): Option<(seq<Header>, Bytes)>
    decreases |s|
  {
    var at := Search(s, [13, 10]);
    if at == |s| then None
    else if at == 0 then Some(([], s[2..]))
    else
      var line := s[..at];
      var colon := Search(line, SEPARATOR);
      if colon == |line| then None
      else
        match ReadHeaders(s[at + 2..])
        case None => None
        case Some((headers, body)) => Some(([(line[..colon], line[colon + 2..])] + headers, body))
  }

  /** A header that cannot be mistaken: no line end in it, and no colon in its name. */
  ghost predicate Clean(h: Header) {
    NoLineEnd(h.0) && NoLineEnd(h.1) && 58 !in h.0
  }

  ghost predicate NoLineEnd(s: Bytes) {
    13 !in s && 10 !in s
  }

  ghost predicate AllClean(hs: seq<Header>) {
    forall h | h in hs :: Clean(h)
  }

  /** A line in front of others: read first, whole. */
  lemma LineIsRead(h: Header, rest: Bytes)
    requires Clean(h)
    ensures HeaderLine(h) == h.0 + SEPARATOR + h.1 + [13, 10]
    ensures Search(HeaderLine(h) + rest, [13, 10]) == |h.0| + 2 + |h.1|
    ensures Search(h.0 + SEPARATOR + h.1, SEPARATOR) == |h.0|
  {
    assert COLON == SEPARATOR by { ColonSpace(); }
    hide Ascii, Search;
    var line := h.0 + SEPARATOR + h.1;
    var s := HeaderLine(h) + rest;
    assert s == line + [13, 10] + rest;
    FirstLineEnd(line, rest);
    FirstSeparator(h.0, h.1);
  }

  lemma ColonSpace()
    ensures COLON == SEPARATOR
  {
    assert ": "[0] == ':' && ": "[1] == ' ';
  }

  lemma FirstLineEnd(line: Bytes, rest: Bytes)
    requires NoLineEnd(line)
    ensures Search(line + [13, 10] + rest, [13, 10]) == |line|
  {
    hide Search;
    var s := line + [13, 10] + rest;
    forall i | 0 <= i < |line|
      ensures !OccursAt(s, [13, 10], i)
    {
      assert s[i] == line[i] && line[i] in line;
      assert i + 2 <= |s| ==> s[i..i + 2][0] == s[i];
    }
    assert s[|line|..|line| + 2] == [13, 10];
    LeftmostIsSearch(s, [13, 10], |line|);
  }

  lemma FirstSeparator(name: Bytes, value: Bytes)
    requires 58 !in name
    ensures Search(name + SEPARATOR + value, SEPARATOR) == |name|
  {
    hide Search;
    var s := name + SEPARATOR + value;
    forall i | 0 <= i < |name|
      ensures !OccursAt(s, SEPARATOR, i)
    {
      assert s[i] == name[i] && name[i] in name;
      assert i + 2 <= |s| ==> s[i..i + 2][0] == s[i];
    }
    assert s[|name|..|name| + 2] == SEPARATOR;
    LeftmostIsSearch(s, SEPARATOR, |name|);
  }

  lemma {:induction false} HeaderLinesFirst(h: Header, hs: seq<Header>)
    ensures HeaderLines([h] + hs) == HeaderLine(h) + HeaderLines(hs)
    decreases |hs|
  {
    hide HeaderLine;
    var all := [h] + hs;
    if hs == [] {
      assert all[..0] == [] && all[|all| - 1] == h;
      assert HeaderLine(h) + [] == HeaderLine(h) == [] + HeaderLine(h);
    } else {
      var front, last := hs[..|hs| - 1], hs[|hs| - 1];
      assert all[..|all| - 1] == [h] + front && all[|all| - 1] == last;
      HeaderLinesFirst(h, front);
      Associates(HeaderLine(h), HeaderLines(front), HeaderLine(last));
    }
  }

  /** Lines, an empty one, and a body are read back as they were written. */
  lemma {:induction false} LinesAreRead(hs: seq<Header>, body: Bytes)
    requires AllClean(hs)
    ensures ReadHeaders(HeaderLines(hs) + ([13, 10] + body)) == Some((hs, body))
    decreases |hs|
  {
    hide Search, HeaderLine, HeaderLines;
    if hs == [] {
      EmptyLineIsRead(body);
    } else {
      var h, rest := hs[0], hs[1..];
      assert hs == [h] + rest && h in hs && AllClean(rest) by { assert forall x | x in rest :: x in hs; }
      HeaderLinesFirst(h, rest);
      LinesAreRead(rest, body);
      var tail := HeaderLines(rest) + ([13, 10] + body);
      Associates(HeaderLine(h), HeaderLines(rest), [13, 10] + body);
      LineAndTail(h, tail);
    }
  }

  lemma EmptyLineIsRead(body: Bytes)
    ensures ReadHeaders(HeaderLines([]) + ([13, 10] + body)) == Some(([], body))
  {
    var s := HeaderLines([]) + ([13, 10] + body);
    assert s == [] + [13, 10] + body;
    FirstLineEnd([], body);
    assert s[2..] == body;
  }

  lemma LineAndTail(h: Header, tail: Bytes)
    requires Clean(h) && ReadHeaders(tail).Some?
    ensures ReadHeaders(HeaderLine(h) + tail) == Some(([h] + ReadHeaders(tail).value.0, ReadHeaders(tail).value.1))
  {
    hide Search;
    LineIsRead(h, tail);
    var line := h.0 + SEPARATOR + h.1;
    var s := HeaderLine(h) + tail;
    assert s == line + [13, 10] + tail;
    assert s[..|line|] == line && s[|line| + 2..] == tail;
    assert line[..|h.0|] == h.0 && line[|h.0| + 2..] == h.1;
  }

  // ----- the whole wire -----

  const SET_COOKIE_NAME: Bytes := Ascii("Set-Cookie")

  /** Cookies as the headers they are sent in. */
  function CookieHeaders(cookies: seq<Cookie>): (r: seq<Header>)
    ensures |r| == |cookies|
  {
    seq(|cookies|, i requires 0 <= i < |cookies| => (SET_COOKIE_NAME, cookies[i].text))
  }

  lemma CookieLineIsHeader(c: Cookie)
    ensures CookieLine(c) == HeaderLine((SET_COOKIE_NAME, c.text))
  {
    assert SET_COOKIE == SET_COOKIE_NAME + COLON by { CookieName(); }
  }

  lemma CookieName()
    ensures SET_COOKIE == SET_COOKIE_NAME + COLON
    ensures NoLineEnd(SET_COOKIE_NAME) && 58 !in SET_COOKIE_NAME
  {
    hide Ascii;
    var a, b := "Set-Cookie: ", "Set-Cookie";
    assert a == b + ": ";
    forall i | 0 <= i < |b|
      ensures SET_COOKIE_NAME[i] != 13 && SET_COOKIE_NAME[i] != 10 && SET_COOKIE_NAME[i] != 58
    {
      assert SET_COOKIE_NAME[i] == b[i] as int;
      assert b[i] != ':' && b[i] as int >= 32;
    }
  }

  lemma {:induction false} CookieLinesAreHeaders(cookies: seq<Cookie>)
    ensures CookieLines(cookies) == HeaderLines(CookieHeaders(cookies))
    decreases |cookies|
  {
    hide CookieLine, HeaderLine, CookieHeaders;
    if cookies == [] {
      assert CookieHeaders(cookies) == [];
    } else {
      var front, last := cookies[..|cookies| - 1], cookies[|cookies| - 1];
      CookieLinesAreHeaders(front);
      CookieLineIsHeader(last);
      LastCookieHeader(cookies);
    }
  }

  lemma LastCookieHeader(cookies: seq<Cookie>)
    requires cookies != []
    ensures var hs, n := CookieHeaders(cookies), |cookies| - 1;
            hs[..n] == CookieHeaders(cookies[..n]) && hs[n] == (SET_COOKIE_NAME, cookies[n].text)
  {
    hide Ascii;
  }

  lemma {:induction false} HeaderLinesConcat(a: seq<Header>, b: seq<Header>)
    ensures HeaderLines(a + b) == HeaderLines(a) + HeaderLines(b)
    decreases |b|
  {
    hide HeaderLine;
    if b == [] {
      assert a + b == a;
      assert HeaderLines(a) + [] == HeaderLines(a);
    } else {
      var front, last := b[..|b| - 1], b[|b| - 1];
      assert (a + b)[..|a + b| - 1] == a + front;
      HeaderLinesConcat(a, front);
      Associates(HeaderLines(a), HeaderLines(front), HeaderLine(last));
    }
  }

  ghost predicate CleanCookies(cookies: seq<Cookie>) {
    forall k | k in cookies :: NoLineEnd(k.text)
  }

  /** A header block with a body behind it is read as the headers, the cookies and the body. */
  lemma BlockIsRead(c: Client, f: Front, body: Bytes)
    requires AllClean(c.walk(WithStatus(f).headers)) && CleanCookies(f.cookies)
    ensures ReadHeaders(Block(c, f) + body) == Some((c.walk(WithStatus(f).headers) + CookieHeaders(f.cookies), body))
  {
    hide Ascii, ReadHeaders, WithStatus, HeaderLines, CookieLines, CookieHeaders;
    var hs, ks := c.walk(WithStatus(f).headers), CookieHeaders(f.cookies);
    CookieLinesAreHeaders(f.cookies);
    HeaderLinesConcat(hs, ks);
    CookiesAreClean(f.cookies);
    assert AllClean(hs + ks) by { forall h | h in hs + ks ensures Clean(h) { assert h in hs || h in ks; } }
    LinesAreRead(hs + ks, body);
    Associates(HeaderLines(hs + ks), [13, 10], body);
  }

  lemma CookiesAreClean(cookies: seq<Cookie>)
    requires CleanCookies(cookies)
    ensures AllClean(CookieHeaders(cookies))
  {
    hide Ascii;
    CookieName();
    forall h | h in CookieHeaders(cookies)
      ensures Clean(h)
    {
      var i :| 0 <= i < |cookies| && CookieHeaders(cookies)[i] == h;
      assert cookies[i] in cookies;
    }
  }

  /** The status line: the number up to the first space, and the reason behind it. */
  lemma StatusIsRead(status: Status)
    ensures var line, at := StatusLine(status), |Decimal(status)|;
            && Search(line, [32]) == at && line[..at] == Decimal(status) && line[at + 1..] == Ascii(Reason(status))
            && NoLineEnd(line)
  {
    hide Ascii, Decimal, Reason, Search;
    DecimalIsRead(status);
    ReasonIsPrintable(status);
    var d, r := Decimal(status), Ascii(Reason(status));
    var line := StatusLine(status);
    assert line == d + [32] + r;
    forall i | 0 <= i < |d|
      ensures !OccursAt(line, [32], i)
    {
      assert line[i..i + 1] == [d[i]];
    }
    assert line[|d|..|d| + 1] == [32];
    LeftmostIsSearch(line, [32], |d|);
  }

  ghost predicate Printable(s: string) {
    forall i | 0 <= i < |s| :: ' ' <= s[i] <= '~'
  }

  lemma ReasonIsPrintable(status: Status)
    ensures NoLineEnd(Ascii(Reason(status)))
  {
    hide Ascii;
    PrintableReason(status);
    PrintableAscii(Reason(status));
  }

  lemma SuccessIsPrintable(status: Status)
    ensures status == 200 || status == 201 || status == 202 || status == 203 || status == 204 ==> Printable(Reason(status))
  {
  }

  lemma RedirectionIsPrintable(status: Status)
    ensures status == 301 || status == 302 || status == 303 || status == 304 ==> Printable(Reason(status))
  {
  }

  lemma ClientErrorIsPrintable(status: Status)
    ensures status == 400 || status == 401 || status == 402 || status == 403 ==> Printable(Reason(status))
  {
  }

  lemma OtherClientErrorIsPrintable(status: Status)
    ensures status == 404 || status == 405 ==> Printable(Reason(status))
  {
  }

  lemma ServerErrorIsPrintable(status: Status)
    ensures status == 500 || status == 501 ==> Printable(Reason(status))
  {
  }

  lemma OtherServerErrorIsPrintable(status: Status)
    ensures status == 502 || status == 503 ==> Printable(Reason(status))
  {
  }

  lemma PrintableReason(status: Status)
    ensures Printable(Reason(status))
  {
    hide Printable;
    SuccessIsPrintable(status);
    RedirectionIsPrintable(status);
    ClientErrorIsPrintable(status);
    OtherClientErrorIsPrintable(status);
    ServerErrorIsPrintable(status);
    OtherServerErrorIsPrintable(status);
    UnknownIsPrintable();
    ReasonsAreTheTable(status);
  }

  lemma UnknownIsPrintable()
    ensures Printable("Unknown status")
  {
  }

  lemma PrintableAscii(r: string)
    requires Printable(r)
    ensures NoLineEnd(Ascii(r))
  {
    hide Ascii;
    forall i | 0 <= i < |r|
      ensures Ascii(r)[i] >= 32
    {
    }
  }

  lemma StatusHeaderIsClean(status: Status)
    ensures Clean((STATUS, StatusLine(status)))
  {
    hide StatusLine;
    StatusIsRead(status);
    StatusName();
  }

  lemma StatusName()
    ensures NoLineEnd(STATUS) && 58 !in STATUS
  {
    hide Ascii;
    var n := "Status";
    forall i | 0 <= i < |n|
      ensures STATUS[i] != 58 && STATUS[i] >= 32
    {
      assert STATUS[i] == n[i] as int;
      assert n[i] != ':' && n[i] as int >= 32;
    }
  }

  lemma {:induction false} AssignKeepsClean(hs: seq<Header>, name: Bytes, value: Bytes)
    requires AllClean(hs) && Clean((name, value))
    ensures AllClean(Assign(hs, name, value))
  {
    hide EqualIgnoringCase, NoLineEnd;
    if hs != [] {
      assert hs[0] in hs && forall h | h in hs[1..] :: h in hs;
      AssignKeepsClean(hs[1..], name, value);
    }
  }

  lemma WalkedIsClean(c: Client, f: Front)
    requires AllClean(f.headers) && multiset(c.walk(WithStatus(f).headers)) == multiset(WithStatus(f).headers)
    ensures AllClean(c.walk(WithStatus(f).headers))
  {
    hide Ascii, StatusLine, Assign, Clean;
    StatusHeaderIsClean(f.status);
    AssignKeepsClean(f.headers, STATUS, StatusLine(f.status));
    var hs, w := WithStatus(f).headers, c.walk(WithStatus(f).headers);
    forall h | h in w
      ensures Clean(h)
    {
      assert h in multiset(w);
      assert h in multiset(hs);
    }
  }

  /**
   * What the client of a handler reads: the headers that were set before the first byte went out, and
   * the status, in some order; the cookies; and as the body all that was written, unless only the head
   * was asked for.
   */
  lemma WireIsRead(c: Client, ops: seq<Op>)
    requires c.connected && FirstSend(ops) < |ops| && !ops[FirstSend(ops)].SendError?
    requires var f := SetAll(FRESH.front, ops[..FirstSend(ops)]);
             && AllClean(f.headers) && CleanCookies(f.cookies)
             && multiset(c.walk(WithStatus(f).headers)) == multiset(WithStatus(f).headers)
    ensures var i := FirstSend(ops);
            var f := SetAll(FRESH.front, ops[..i]);
            ReadHeaders(Run(c, FRESH, ops).wire) ==
            Some((c.walk(WithStatus(f).headers) + CookieHeaders(f.cookies), if c.head then [] else Written(ops[i..])))
  {
    hide Ascii, Block, ReadHeaders, Run, SetAll, Written, WithStatus, AllClean, CleanCookies;
    WrittenOnce(c, ops);
    var i := FirstSend(ops);
    var f := SetAll(FRESH.front, ops[..i]);
    WalkedIsClean(c, f);
    BlockIsRead(c, f, if c.head then [] else Written(ops[i..]));
  }

  /** The error answer, as it is read: two headers, and the page. */
  lemma ErrorIsRead(c: Client, status: Status, behind: Bytes)
    requires multiset(c.walk(WithStatus(ErrorFront(status)).headers)) == multiset(WithStatus(ErrorFront(status)).headers)
    ensures ReadHeaders(Block(c, ErrorFront(status)) + (Page(status) + behind)) ==
            Some((c.walk(WithStatus(ErrorFront(status)).headers), Page(status) + behind))
  {
    hide Ascii, Block, ReadHeaders, StatusLine, Page, WithStatus;
    var f := ErrorFront(status);
    ErrorHeadersAreClean();
    WalkedIsClean(c, f);
    NoCookies();
    BlockIsRead(c, f, Page(status) + behind);
    assert c.walk(WithStatus(f).headers) + [] == c.walk(WithStatus(f).headers);
  }

  lemma NoCookies()
    ensures CookieHeaders([]) == []
  {
  }

  lemma PageIsStatus(status: Status)
    ensures Page(status) == Ascii("<html><body><h1>") + StatusLine(status) + Ascii("</h1></body></html>")
  {
    hide Ascii, Decimal, Reason;
  }

  lemma ErrorHeaders(status: Status)
    ensures WithStatus(ErrorFront(status)).headers ==
            [(Ascii("Content-type"), Ascii("text/html")), (Ascii("Status"), StatusLine(status))]
  {
    hide Ascii, StatusLine;
    var hs := [(CONTENT_TYPE, TEXT_HTML)];
    assert |CONTENT_TYPE| == 12 && |STATUS| == 6;
    assert hs[1..] == [];
    assert Assign([], STATUS, StatusLine(status)) == [(STATUS, StatusLine(status))];
  }

  lemma ErrorHeadersAreClean()
    ensures AllClean([(CONTENT_TYPE, TEXT_HTML)])
  {
    hide Ascii;
    var a, b := "Content-type", "text/html";
    forall i | 0 <= i < |a|
      ensures CONTENT_TYPE[i] != 58 && CONTENT_TYPE[i] >= 32
    {
      assert CONTENT_TYPE[i] == a[i] as int;
      assert a[i] != ':' && a[i] as int >= 32;
    }
    PrintableAscii(b);
  }

  // ----- orders and handlers -----

  /** Names are ordered by their first byte that differs, and a name stands before its continuations. */
  lemma {:induction false} BeforeByBytes(a: Bytes, b: Bytes)
    ensures Before(a, b) <==>
            exists i: nat :: i <= |a| && i < |b| && a[..i] == b[..i] && (i == |a| || a[i] < b[i])
  {
    if b == [] || a == [] {
      if b != [] {
        assert a[..0] == b[..0] && 0 <= |a| && 0 < |b|;
      }
    } else {
      BeforeByBytes(a[1..], b[1..]);
      if Before(a, b) {
        if a[0] < b[0] {
          assert a[..0] == b[..0] && 0 <= |a| && 0 < |b|;
        } else {
          var i: nat :| i <= |a[1..]| && i < |b[1..]| && a[1..][..i] == b[1..][..i] && (i == |a[1..]| || a[1..][i] < b[1..][i]);
          OneOn(a, b, i);
          assert i + 1 <= |a| && i + 1 < |b| && a[..i + 1] == b[..i + 1] && (i + 1 == |a| || a[i + 1] < b[i + 1]);
        }
      }
      if i: nat :| i <= |a| && i < |b| && a[..i] == b[..i] && (i == |a| || a[i] < b[i]) {
        if i > 0 {
          OneOn(a, b, i - 1);
          assert a[0] == a[..i][0] == b[..i][0] == b[0];
          assert i - 1 <= |a[1..]| && i - 1 < |b[1..]| && a[1..][..i - 1] == b[1..][..i - 1];
        }
      }
    }
  }

  lemma OneOn(a: Bytes, b: Bytes, i: nat)
    requires i < |a| && i < |b|
    ensures a[..i + 1] == [a[0]] + a[1..][..i] && b[..i + 1] == [b[0]] + b[1..][..i]
    ensures a[1..][..i] == a[..i + 1][1..] && b[1..][..i] == b[..i + 1][1..]
  {
  }

  /** Once a call marks the request as processed it stays so, and nothing else marks it. */
  lemma {:induction false} MarkedByCalls(c: Client, r: Response, ops: seq<Op>)
    ensures Run(c, r, ops).processed <==> r.processed || MarkProcessed in ops
    decreases |ops|
  {
    hide Ascii, Block, Page, WithStatus, Set;
    if ops != [] {
      assert ops == [ops[0]] + ops[1..];
      MarkedByCalls(c, Apply(c, r, ops[0]).0, ops[1..]);
    }
  }

  /** The handlers behind one that marked the request, or threw, do not get to run; otherwise the next
      one does. */
  lemma HandlersInTurn(c: Client, r: Response, first: seq<Act>, more: seq<seq<Act>>)
    requires !r.processed
    ensures var calls, (t, thrown) := Calls(c, r, first), RunHandler(c, r, first);
            RunHandlers(c, r, [first] + more) ==
            if thrown.Some? || MarkProcessed in calls then (t, thrown) else RunHandlers(c, t, more)
  {
    hide Apply, RunHandler, Calls;
    CallsOfHandler(c, r, first);
    MarkedByCalls(c, r, Calls(c, r, first));
    assert ([first] + more)[1..] == more;
  }

  /** Where a handler ends: at its own throw, or at an unguarded call that comes too late. */
  function EndOf(sent: bool, acts: seq<Act>): (i: nat)
    ensures i <= |acts|
    decreases |acts|
  {
    if acts == [] || acts[0].Raise? then 0
    else if sent && acts[0].Do? && (IsSetter(acts[0].op) || acts[0].op.SendError?) then 0
    else 1 + EndOf(sent || IsSending(acts[0].op), acts[1..])
  }

  /** A handler does what it does up to there, and throws what ended it. */
  lemma {:induction false} HandlerEnds(c: Client, r: Response, acts: seq<Act>)
    ensures var i := EndOf(r.sent, acts);
            && (forall k | 0 <= k < i :: !acts[k].Raise?)
            && RunHandler(c, r, acts).0 == Run(c, r, seq(i, k requires 0 <= k < i => acts[k].op))
            && RunHandler(c, r, acts).1 ==
               if i == |acts| then None else if acts[i].Raise? then Some(acts[i].e) else Some(Standard(LATE))
    decreases |acts|
  {
    hide Ascii, Block, Page, WithStatus, Set, Apply;
    if acts != [] && !acts[0].Raise? {
      LateCallsThrow(c, r, acts[0].op);
      SentBy(c, r, acts[0].op);
      if EndOf(r.sent, acts) > 0 {
        var t := Apply(c, r, acts[0].op).0;
        HandlerEnds(c, t, acts[1..]);
        var n := EndOf(t.sent, acts[1..]);
        var ops, rest := seq(n + 1, k requires 0 <= k < n + 1 => acts[k].op), seq(n, k requires 0 <= k < n => acts[1..][k].op);
        assert ops[0] == acts[0].op && ops[1..] == rest;
      }
    }
  }

  lemma SentBy(c: Client, r: Response, op: Op)
    ensures Apply(c, r, op).0.sent <==> r.sent || IsSending(op)
  {
    hide Ascii, Block, Page, WithStatus, Set;
  }
}
