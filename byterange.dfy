/**
 * The `/linearized` route of the range server: it serves a PDF file whose
 * size comes from a HEAD request upstream, whole or by the byte range of the
 * request's `Range` header, in the byte-range forms of section 2.1 of
 * RFC 7233 (`bytes=a-b`, `bytes=a-`, `bytes=-n`) and with the 206 and 416
 * responses of sections 4.1, 4.2 and 4.4 of RFC 7233.
 *
 * The header is read with the regular expression `bytes=(\d*)-(\d*)`, first
 * match only, and its groups with `parseInt`, which gives `NaN` for an empty
 * group. The upstream fetches are parameters: the size the HEAD request
 * reports (`None` when the request fails) and whether the fetch of the
 * content fails.
 */
module ByteRange {
  import opened Wrappers
  import opened Strings

  const Prefix: string := "bytes="

  // ---------------------------------------------------------------------------
  // The regular expression `bytes=(\d*)-(\d*)`

  /** The end of the run of digits that starts at `i`. */
  function DigitRunEnd(s: string, i: nat): (j: nat)
    requires i <= |s|
    ensures i <= j <= |s|
    ensures forall k :: i <= k < j ==> IsDigit(s[k])
    ensures j < |s| ==> !IsDigit(s[j])
    decreases |s| - i
  {
    if i < |s| && IsDigit(s[i]) then DigitRunEnd(s, i + 1) else i
  }

  /** A run of digits from `i` to `j` lies within the run `DigitRunEnd` finds. */
  lemma {:induction false} RunReaches(s: string, i: nat, j: nat)
    requires i <= j <= |s|
    requires forall k :: i <= k < j ==> IsDigit(s[k])
    ensures j <= DigitRunEnd(s, i)
    decreases j - i
  {
    if i < j {
      RunReaches(s, i + 1, j);
    }
  }

  /** The run `DigitRunEnd` finds stops at a position that is not a digit. */
  lemma {:induction false} RunStops(s: string, i: nat, j: nat)
    requires i <= j <= |s|
    requires j < |s| ==> !IsDigit(s[j])
    ensures DigitRunEnd(s, i) <= j
    decreases j - i
  {
    if i < j && IsDigit(s[i]) {
      RunStops(s, i + 1, j);
    }
  }

  /** The end of a digit run is the one position where the digits stop. */
  lemma DigitRunEndAt(s: string, i: nat, j: nat)
    requires i <= j <= |s|
    requires forall k :: i <= k < j ==> IsDigit(s[k])
    requires j < |s| ==> !IsDigit(s[j])
    ensures DigitRunEnd(s, i) == j
  {
    RunReaches(s, i, j);
    RunStops(s, i, j);
  }

  /** The two groups of a match: the digits before and after the `-`. */
  datatype RangeMatch = RangeMatch(first: string, second: string)

  predicate Digits(m: RangeMatch) {
    AllDigits(m.first) && AllDigits(m.second)
  }

  /**
   * A match of the expression at `i`, group one ending at `a` (where the `-`
   * is) and group two at `b`, without the choices the expression's
   * backtracking makes.
   */
  predicate RegexMatch(s: string, i: nat, a: nat, b: nat) {
    i + |Prefix| <= a < b <= |s| && s[i..i + |Prefix|] == Prefix && s[a] == '-' &&
    (forall k :: i + |Prefix| <= k < a ==> IsDigit(s[k])) &&
    (forall k :: a + 1 <= k < b ==> IsDigit(s[k]))
  }

  /** The match at `i`, with group one and group two as long as the digits go. */
  function MatchAt(s: string, i: nat): (r: Option<RangeMatch>)
    requires i <= |s|
    ensures r.Some? ==> Digits(r.value)
  {
    if i + |Prefix| <= |s| && s[i..i + |Prefix|] == Prefix then
      var a := DigitRunEnd(s, i + |Prefix|);
      if a < |s| && s[a] == '-' then
        var b := DigitRunEnd(s, a + 1);
        Some(RangeMatch(s[i + |Prefix|..a], s[a + 1..b]))
      else None
    else None
  }

  /** What `MatchAt` finds is a match of the expression at `i`. */
  lemma MatchAtSound(s: string, i: nat)
    requires i <= |s| && MatchAt(s, i).Some?
    ensures var m := MatchAt(s, i).value;
      var a := i + |Prefix| + |m.first|;
      var b := a + 1 + |m.second|;
      RegexMatch(s, i, a, b) && m == RangeMatch(s[i + |Prefix|..a], s[a + 1..b])
  {
  }

  /**
   * Every match of the expression at `i` has the `-` where `MatchAt` puts it,
   * and no longer a second group: `MatchAt` is the match the greedy `\d*`
   * groups give, and it exists whenever the expression matches at `i`.
   */
  lemma MatchAtGreedy(s: string, i: nat, a: nat, b: nat)
    requires i <= |s| && RegexMatch(s, i, a, b)
    ensures MatchAt(s, i).Some?
    ensures var m := MatchAt(s, i).value;
      i + |Prefix| + |m.first| == a && b <= a + 1 + |m.second|
  {
    assert !IsDigit(s[a]);
    DigitRunEndAt(s, i + |Prefix|, a);
    RunReaches(s, a + 1, b);
  }

  /** `header.match(/bytes=(\d*)-(\d*)/)`, searching from `i` on. */
  function FirstMatch(s: string, i: nat): (r: Option<RangeMatch>)
    requires i <= |s|
    ensures r.Some? ==> Digits(r.value)
    decreases |s| - i
  {
    if MatchAt(s, i).Some? then MatchAt(s, i)
    else if i == |s| then None
    else FirstMatch(s, i + 1)
  }

  /** The leftmost match is the one used, however many follow it. */
  lemma {:induction false} FirstMatchLeftmost(s: string, i: nat, p: nat)
    requires i <= p <= |s| && MatchAt(s, p).Some?
    requires forall q :: i <= q < p ==> MatchAt(s, q).None?
    ensures FirstMatch(s, i) == MatchAt(s, p)
    decreases p - i
  {
    if i < p {
      FirstMatchLeftmost(s, i + 1, p);
    }
  }

  /** Without a match at any position there is none at all, and the other way round. */
  lemma {:induction false} FirstMatchNone(s: string, i: nat)
    requires i <= |s|
    ensures FirstMatch(s, i).None? <==> forall q :: i <= q <= |s| ==> MatchAt(s, q).None?
    decreases |s| - i
  {
    if i < |s| {
      FirstMatchNone(s, i + 1);
    }
  }

  // ---------------------------------------------------------------------------
  // Numbers as JavaScript has them

  /** A JavaScript number of the handler: an integer, or `NaN`. */
  datatype Num = Int(value: int) | NaN

  /** `parseInt(digits, 10)`: `NaN` for no digits. */
  function ParseInt(digits: string): (n: Num)
    requires AllDigits(digits)
    ensures n.NaN? <==> digits == ""
  {
    if digits == "" then NaN else Int(DecimalValue(digits))
  }

  /** `a >= b`: false whenever one side is `NaN`. */
  predicate AtLeast(a: Num, b: Num) {
    a.Int? && b.Int? && a.value >= b.value
  }

  /** `a < b`: false whenever one side is `NaN`. */
  predicate Below(a: Num, b: Num) {
    a.Int? && b.Int? && a.value < b.value
  }

  /** A number as a template literal or a header value prints it. */
  function NumText(n: Num): string {
    match n
    case Int(v) => IntToString(v)
    case NaN => "NaN"
  }

  // ---------------------------------------------------------------------------
  // The range

  /** The first and last byte the request asks for. */
  datatype Span = Span(start: Num, end: Num)

  /**
   * The span a match denotes: `bytes=-n` is the last `n` bytes; otherwise
   * group one is the start and group two, when present, the end, else the
   * last byte.
   */
  function Resolve(m: RangeMatch, fileSize: nat): Span
    requires Digits(m)
  {
    if m.first == "" && m.second != "" then
      Span(Int(fileSize - DecimalValue(m.second)), Int(fileSize - 1))
    else
      Span(ParseInt(m.first), if m.second != "" then ParseInt(m.second) else Int(fileSize - 1))
  }

  /** The test that answers 416: `start >= fileSize || start < 0 || end >= fileSize || end < start`. */
  predicate Unsatisfiable(r: Span, fileSize: nat) {
    AtLeast(r.start, Int(fileSize)) || Below(r.start, Int(0)) || AtLeast(r.end, Int(fileSize)) || Below(r.end, r.start)
  }

  /** `end - start + 1`. */
  function SpanLength(r: Span): Num {
    if r.start.Int? && r.end.Int? then Int(r.end.value - r.start.value + 1) else NaN
  }

  /** The suffix form counts back from the end of the file, and ends at its last byte. */
  lemma SuffixSpan(digits: string, fileSize: nat)
    requires AllDigits(digits) && digits != ""
    ensures Resolve(RangeMatch("", digits), fileSize) ==
      Span(Int(fileSize - DecimalValue(digits)), Int(fileSize - 1))
  {
  }

  /** `bytes=a-b` spans `a` to `b`; `bytes=a-` spans `a` to the last byte. */
  lemma ExplicitSpan(first: string, second: string, fileSize: nat)
    requires AllDigits(first) && AllDigits(second) && first != ""
    ensures second != "" ==>
      Resolve(RangeMatch(first, second), fileSize) == Span(Int(DecimalValue(first)), Int(DecimalValue(second)))
    ensures second == "" ==>
      Resolve(RangeMatch(first, second), fileSize) == Span(Int(DecimalValue(first)), Int(fileSize - 1))
  {
  }

  /** The end is always a number; only the start of `bytes=-` is `NaN`. */
  lemma SpanNumbers(m: RangeMatch, fileSize: nat)
    requires Digits(m)
    ensures Resolve(m, fileSize).end.Int?
    ensures Resolve(m, fileSize).start.NaN? <==> m.first == "" && m.second == ""
  {
  }

  /**
   * With both ends numbers, a span is rejected exactly when it does not lie
   * within the file, in order; an accepted one is between one byte and the
   * whole file long.
   */
  lemma UnsatisfiableIff(r: Span, fileSize: nat)
    requires r.start.Int? && r.end.Int?
    ensures Unsatisfiable(r, fileSize) <==> !(0 <= r.start.value <= r.end.value < fileSize)
    ensures !Unsatisfiable(r, fileSize) ==> SpanLength(r).Int? && 1 <= SpanLength(r).value <= fileSize
  {
  }

  /** A span whose start is `NaN` passes the test whatever its end below the file size. */
  lemma NaNStartAccepted(end: int, fileSize: nat)
    requires end < fileSize
    ensures !Unsatisfiable(Span(NaN, Int(end)), fileSize)
    ensures SpanLength(Span(NaN, Int(end))) == NaN
  {
  }

  // ---------------------------------------------------------------------------
  // The response

  /** What the body of the response is: not sent yet, empty, what an upstream request returns, or the error text. */
  datatype Body = Unsent | Empty | Fetched(upstream: Upstream) | ErrorText(text: string)

  /** The upstream request for the content: the whole file, or with a `Range` header. */
  datatype Upstream = WholeFile | Part(range: string)

  const ExposeHeaders: string := "Access-Control-Expose-Headers"
  const AcceptRanges: string := "Accept-Ranges"
  const ContentType: string := "Content-Type"
  const ContentRange: string := "Content-Range"
  const ContentLength: string := "Content-Length"
  const FetchError: string := "Error fetching PDF file"

  /** The headers every response that reached the size carries. */
  function CommonHeaders(): (h: map<string, string>)
    ensures h.Keys == {ExposeHeaders, AcceptRanges, ContentType}
    ensures h[AcceptRanges] == "bytes" && h[ContentType] == "application/pdf"
  {
    map[ExposeHeaders := "Content-Range, Accept-Ranges", AcceptRanges := "bytes", ContentType := "application/pdf"]
  }

  /** The range asked for: a truthy header with a match of the expression. */
  function Requested(range: Option<string>): (r: Option<RangeMatch>)
    ensures r.Some? ==> Digits(r.value)
  {
    match range
    case None => None
    case Some(h) => if h == "" then None else FirstMatch(h, 0)
  }

  /** The status, the headers the route adds and the body of the response. */
  datatype Reply = Reply(status: nat, headers: map<string, string>, body: Body)

  /** The headers of a range that is served: where it lies in the file, and its length. */
  function PartialHeaders(r: Span, fileSize: nat): map<string, string> {
    map[ContentRange := "bytes " + NumText(r.start) + "-" + NumText(r.end) + "/" + NatToString(fileSize),
        ContentLength := NumText(SpanLength(r))]
  }

  /** The answer to a range: 416 when it does not fit, else 206 with the part fetched by its own range. */
  function RangeReply(r: Span, fileSize: nat, fetchFails: bool): Reply {
    if Unsatisfiable(r, fileSize) then Reply(416, map[ContentRange := "bytes */" + NatToString(fileSize)], Empty)
    else if fetchFails then Reply(500, PartialHeaders(r, fileSize), ErrorText(FetchError))
    else Reply(206, PartialHeaders(r, fileSize), Fetched(Part(Prefix + NumText(r.start) + "-" + NumText(r.end))))
  }

  /** The answer without a range: 200 with the whole file. */
  function WholeReply(fileSize: nat, fetchFails: bool): Reply {
    var h := map[ContentLength := NatToString(fileSize)];
    if fetchFails then Reply(500, h, ErrorText(FetchError)) else Reply(200, h, Fetched(WholeFile))
  }

  /** What the route answers for the header, the outcome of the HEAD request and of the content fetch. */
  function Served(range: Option<string>, size: Option<nat>, fetchFails: bool): Reply {
    match size
    case None => Reply(500, map[], ErrorText(FetchError))
    case Some(fileSize) =>
      var reply := match Requested(range)
        case None => WholeReply(fileSize, fetchFails)
        case Some(m) => RangeReply(Resolve(m, fileSize), fileSize, fetchFails);
      reply.(headers := CommonHeaders() + reply.headers)
  }

  /** An Express response: its status, its headers and its body. */
  class Response {
    var status: nat
    var headers: map<string, string>
    var body: Body

    /** A new response is `200` with no headers and nothing sent. */
    constructor ()
      ensures status == 200 && headers == map[] && body == Unsent
    {
      status := 200;
      headers := map[];
      body := Unsent;
    }

    /** `res.set(name, value)`. */
    method Set(name: string, value: string)
      modifies this`headers
      ensures headers == old(headers)[name := value]
    {
      headers := headers[name := value];
    }

    /** `res.status(code)`. */
    method Status(code: nat)
      modifies this`status
      ensures status == code
    {
      status := code;
    }

    /** `res.send(content)` and `res.end()`. */
    method Send(content: Body)
      modifies this`body
      ensures body == content
    {
      body := content;
    }
  }

  /** The headers set on every response once the size is known. */
  method SetCommon(res: Response)
    modifies res`headers
    ensures res.headers == old(res.headers) + CommonHeaders()
  {
    res.Set(ExposeHeaders, "Content-Range, Accept-Ranges");
    res.Set(AcceptRanges, "bytes");
    res.Set(ContentType, "application/pdf");
  }

  /** The 416 answer to a range that does not fit. */
  method Reject(res: Response, fileSize: nat)
    modifies res
    ensures res.status == 416 && res.body == Empty
    ensures res.headers == old(res.headers) + map[ContentRange := "bytes */" + NatToString(fileSize)]
  {
    res.Status(416);
    res.Set(ContentRange, "bytes */" + NatToString(fileSize));
    res.Send(Empty);
  }

  /** The 206 answer, or 500 when the fetch of the part fails after the headers are set. */
  method SendPart(res: Response, r: Span, fileSize: nat, fetchFails: bool)
    modifies res
    ensures res.status == (if fetchFails then 500 else 206)
    ensures res.headers == old(res.headers) + PartialHeaders(r, fileSize)
    ensures res.body == if fetchFails then ErrorText(FetchError) else Fetched(Part(Prefix + NumText(r.start) + "-" + NumText(r.end)))
  {
    var chunkSize := SpanLength(r);
    res.Status(206);
    res.Set(ContentRange, "bytes " + NumText(r.start) + "-" + NumText(r.end) + "/" + NatToString(fileSize));
    res.Set(ContentLength, NumText(chunkSize));
    if fetchFails {
      res.Status(500);
      res.Send(ErrorText(FetchError));
    } else {
      res.Send(Fetched(Part(Prefix + NumText(r.start) + "-" + NumText(r.end))));
    }
  }

  /** The range path: validation, then the 416 or the 206 answer. */
  method ServeRange(res: Response, r: Span, fileSize: nat, fetchFails: bool)
    modifies res
    ensures var reply := RangeReply(r, fileSize, fetchFails);
      res.status == reply.status && res.headers == old(res.headers) + reply.headers && res.body == reply.body
  {
    if Unsatisfiable(r, fileSize) {
      Reject(res, fileSize);
    } else {
      SendPart(res, r, fileSize, fetchFails);
    }
  }

  /** The path without a range: the whole file. */
  method ServeWhole(res: Response, fileSize: nat, fetchFails: bool)
    modifies res
    ensures var reply := WholeReply(fileSize, fetchFails);
      res.status == reply.status && res.headers == old(res.headers) + reply.headers && res.body == reply.body
  {
    res.Set(ContentLength, NatToString(fileSize));
    res.Status(200);
    if fetchFails {
      res.Status(500);
      res.Send(ErrorText(FetchError));
    } else {
      res.Send(Fetched(WholeFile));
    }
  }

  lemma MapUnionAssoc(a: map<string, string>, b: map<string, string>, c: map<string, string>)
    ensures a + b + c == a + (b + c)
  {
  }

  /**
   * The `/linearized` handler on the response `res`: the headers it sets are
   * added to those already there, and the status and the body are those of
   * `Served`.
   */
  method Linearized(res: Response, range: Option<string>, size: Option<nat>, fetchFails: bool)
    modifies res
    ensures var reply := Served(range, size, fetchFails);
      res.status == reply.status && res.headers == old(res.headers) + reply.headers && res.body == reply.body
  {
    if size.None? {
      res.Status(500);
      res.Send(ErrorText(FetchError));
      MapUnionAssoc(old(res.headers), map[], map[]);
    } else {
      var fileSize := size.value;
      ghost var before := res.headers;
      SetCommon(res);
      var matches := Requested(range);
      ghost var reply: Reply;
      if matches.Some? {
        var r := Resolve(matches.value, fileSize);
        ServeRange(res, r, fileSize, fetchFails);
        reply := RangeReply(r, fileSize, fetchFails);
      } else {
        ServeWhole(res, fileSize, fetchFails);
        reply := WholeReply(fileSize, fetchFails);
      }
      MapUnionAssoc(before, CommonHeaders(), reply.headers);
    }
  }

  // ---------------------------------------------------------------------------
  // Properties of the route

  /** No range is asked for exactly when the header is absent, empty, or holds no match anywhere. */
  lemma NoRequest(range: Option<string>)
    ensures Requested(range).None? <==>
      range == None || range == Some("") || forall q :: 0 <= q <= |range.value| ==> MatchAt(range.value, q).None?
  {
    if range.Some? && range.value != "" {
      FirstMatchNone(range.value, 0);
    }
  }

  /** Without a range the whole file is served with its size as the length, and no `Content-Range`. */
  lemma WholeFileServed(range: Option<string>, fileSize: nat)
    requires Requested(range).None?
    ensures var reply := Served(range, Some(fileSize), false);
      reply.status == 200 && reply.body == Fetched(WholeFile) &&
      reply.headers[ContentLength] == NatToString(fileSize) && ContentRange !in reply.headers
  {
  }

  // A range is answered 416 exactly when it fails the test, and then with `bytes */size` and an empty body.
  lemma RejectedIff(range: Option<string>, fileSize: nat, fetchFails: bool)
    requires Requested(range).Some?
    ensures var r := Resolve(Requested(range).value, fileSize);
      var reply := Served(range, Some(fileSize), fetchFails);
      (reply.status == 416 <==> Unsatisfiable(r, fileSize)) &&
      (reply.status == 416 ==>
        reply.headers[ContentRange] == "bytes */" + NatToString(fileSize) && reply.body == Empty &&
        ContentLength !in reply.headers)
  {
  }

  /**
   * An accepted range with a numeric start lies within the file; the answer
   * is 206 with `bytes start-end/size`, a length between one byte and the
   * file size, and the part fetched by exactly that range.
   */
  lemma AcceptedRange(range: Option<string>, fileSize: nat)
    requires Requested(range).Some?
    requires var r := Resolve(Requested(range).value, fileSize);
      r.start.Int? && !Unsatisfiable(r, fileSize)
    ensures var r := Resolve(Requested(range).value, fileSize);
      var reply := Served(range, Some(fileSize), false);
      var start := r.start.value;
      var end := r.end.value;
      0 <= start <= end < fileSize && reply.status == 206 &&
      reply.headers[ContentRange] == "bytes " + IntToString(start) + "-" + IntToString(end) + "/" + NatToString(fileSize) &&
      reply.headers[ContentLength] == IntToString(end - start + 1) && 1 <= end - start + 1 <= fileSize &&
      reply.body == Fetched(Part("bytes=" + IntToString(start) + "-" + IntToString(end)))
  {
    var r := Resolve(Requested(range).value, fileSize);
    SpanNumbers(Requested(range).value, fileSize);
    UnsatisfiableIff(r, fileSize);
  }

  /** Every response that reached the size carries the common headers. */
  lemma CommonHeadersKept(range: Option<string>, fileSize: nat, fetchFails: bool)
    ensures var h := Served(range, Some(fileSize), fetchFails).headers;
      h[AcceptRanges] == "bytes" && h[ContentType] == "application/pdf" &&
      h[ExposeHeaders] == "Content-Range, Accept-Ranges"
  {
  }

  /** A failed fetch is answered 500 with the error text, whatever was asked. */
  lemma FetchFailure(range: Option<string>, size: Option<nat>, fetchFails: bool)
    requires size.None? || fetchFails
    requires size.Some? && Requested(range).Some? ==> !Unsatisfiable(Resolve(Requested(range).value, size.value), size.value)
    ensures Served(range, size, fetchFails).status == 500
    ensures Served(range, size, fetchFails).body == ErrorText(FetchError)
  {
  }

  /** A header that starts with `bytes=` is read from there. */
  lemma MatchAtStart(h: string, m: RangeMatch)
    requires 0 < |h| && MatchAt(h, 0) == Some(m)
    ensures Requested(Some(h)) == Some(m)
  {
  }

  /** The position just after a digit run that the rest of a header does not continue. */
  lemma RunOf(s: string, i: nat, digits: string)
    requires i + |digits| <= |s| && AllDigits(digits) && s[i..i + |digits|] == digits
    requires i + |digits| < |s| ==> !IsDigit(s[i + |digits|])
    ensures DigitRunEnd(s, i) == i + |digits|
  {
    forall k | i <= k < i + |digits|
      ensures IsDigit(s[k])
    {
      assert s[k] == digits[k - i];
    }
    DigitRunEndAt(s, i, i + |digits|);
  }

  /** `bytes=x-y` followed by anything that does not go on with a digit has the groups `x` and `y`. */
  lemma HeaderGroups(x: string, y: string, rest: string)
    requires AllDigits(x) && AllDigits(y)
    requires rest == "" || !IsDigit(rest[0])
    ensures Requested(Some(Prefix + x + "-" + y + rest)) == Some(RangeMatch(x, y))
  {
    var h := Prefix + x + "-" + y + rest;
    var p := |Prefix|;
    var a := p + |x|;
    assert h[p..a] == x;
    assert h[a] == '-';
    RunOf(h, p, x);
    assert h[a + 1..a + 1 + |y|] == y;
    assert a + 1 + |y| < |h| ==> h[a + 1 + |y|] == rest[0];
    RunOf(h, a + 1, y);
    assert h[..p] == Prefix;
    MatchAtStart(h, RangeMatch(x, y));
  }

  /**
   * `bytes=a-b` followed by anything that does not go on with a digit is read
   * as `a` to `b`: later ranges of a list are ignored.
   */
  lemma ExplicitHeader(a: nat, b: nat, rest: string, fileSize: nat)
    requires rest == "" || !IsDigit(rest[0])
    ensures var h := Prefix + NatToString(a) + "-" + NatToString(b) + rest;
      Requested(Some(h)) == Some(RangeMatch(NatToString(a), NatToString(b))) &&
      Resolve(RangeMatch(NatToString(a), NatToString(b)), fileSize) == Span(Int(a), Int(b))
  {
    HeaderGroups(NatToString(a), NatToString(b), rest);
    DecimalValueOfNatToString(a);
    DecimalValueOfNatToString(b);
  }

  /** `bytes=-n` is read as the last `n` bytes. */
  lemma SuffixHeader(n: nat, rest: string, fileSize: nat)
    requires rest == "" || !IsDigit(rest[0])
    ensures var h := Prefix + "-" + NatToString(n) + rest;
      Requested(Some(h)) == Some(RangeMatch("", NatToString(n))) &&
      Resolve(RangeMatch("", NatToString(n)), fileSize) == Span(Int(fileSize - n), Int(fileSize - 1))
  {
    HeaderGroups("", NatToString(n), rest);
    assert Prefix + "" + "-" + NatToString(n) + rest == Prefix + "-" + NatToString(n) + rest;
    DecimalValueOfNatToString(n);
  }

  /** The answer to a span whose start is `NaN` and which ends at the last byte. */
  lemma NaNSpanReply(fileSize: nat)
    ensures var e := IntToString(fileSize - 1);
      RangeReply(Span(NaN, Int(fileSize - 1)), fileSize, false) ==
      Reply(206, map[ContentRange := "bytes NaN-" + e + "/" + NatToString(fileSize), ContentLength := "NaN"],
            Fetched(Part("bytes=NaN-" + e)))
  {
    NaNStartAccepted(fileSize - 1, fileSize);
    var e := IntToString(fileSize - 1);
    assert "bytes " + "NaN" + "-" == "bytes NaN-";
    assert Prefix + "NaN" + "-" == "bytes=NaN-";
  }

  /**
   * `bytes=-` passes the test: its start is `NaN`, and the answer is 206 with
   * `NaN` in the `Content-Range`, the length and the upstream range.
   */
  lemma DashOnlyAccepted(fileSize: nat)
    ensures var reply := Served(Some("bytes=-"), Some(fileSize), false);
      reply.status == 206 &&
      reply.headers[ContentRange] == "bytes NaN-" + IntToString(fileSize - 1) + "/" + NatToString(fileSize) &&
      reply.headers[ContentLength] == "NaN" &&
      reply.body == Fetched(Part("bytes=NaN-" + IntToString(fileSize - 1)))
  {
    HeaderGroups("", "", "");
    assert Prefix + "" + "-" + "" + "" == "bytes=-";
    assert Resolve(RangeMatch("", ""), fileSize) == Span(NaN, Int(fileSize - 1));
    NaNSpanReply(fileSize);
  }
}
