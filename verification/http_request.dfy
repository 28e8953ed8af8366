/** `HttpRequest`: the value a request has, the object the parser fills in, and the
    request line (section 3.1.1 of RFC 7230) as the code accepts it. */
module HttpRequests {
  import opened Bytes

  datatype Method = Invalid | Get | Post | Head | Put | Delete

  datatype Version = Unknown | Http10 | Http11

  /** A request without its receive time. `query` keeps its leading '?'. */
  datatype Request = Request(verb: Method, version: Version, path: bytes, query: bytes, headers: map<bytes, bytes>)

  const FRESH: Request := Request(Invalid, Unknown, [], [], map[])

  /** `methodString`. */
  function MethodText(m: Method): bytes {
    match m
    case Invalid => "UNKNOWN"
    case Get => "GET"
    case Post => "POST"
    case Head => "HEAD"
    case Put => "PUT"
    case Delete => "DELETE"
  }

  function MethodOf(text: bytes): (m: Method)
    ensures m != Invalid ==> MethodText(m) == text
    ensures m == Invalid ==> forall k :: k != Invalid ==> MethodText(k) != text
    ensures m == Invalid <==> text !in ["GET", "POST", "HEAD", "PUT", "DELETE"]
  {
    if text == "GET" then Get
    else if text == "POST" then Post
    else if text == "HEAD" then Head
    else if text == "PUT" then Put
    else if text == "DELETE" then Delete
    else Invalid
  }

  function VersionText(v: Version): bytes
    requires v != Unknown
  {
    if v == Http11 then "HTTP/1.1" else "HTTP/1.0"
  }

  const VERSION_PREFIX: bytes := "HTTP/1."

  function VersionOf(text: bytes): (v: Version)
    ensures v != Unknown ==> VersionText(v) == text
    ensures v == Unknown ==> text != VersionText(Http10) && text != VersionText(Http11)
  {
    if |text| == 8 && text[..7] == VERSION_PREFIX then
      if text[7] == '1' then Http11 else if text[7] == '0' then Http10 else Unknown
    else Unknown
  }

  /** `isspace` in the C locale. */
  predicate IsSpace(c: byte) {
    c == ' ' || 9 <= c as int <= 13
  }

  function TrimLeft(s: bytes): bytes {
    if s != [] && IsSpace(s[0]) then TrimLeft(s[1..]) else s
  }

  function TrimRight(s: bytes): bytes {
    if s != [] && IsSpace(s[|s| - 1]) then TrimRight(s[..|s| - 1]) else s
  }

  function Trim(s: bytes): bytes {
    TrimRight(TrimLeft(s))
  }

  predicate Trimmed(s: bytes) {
    s == [] || (!IsSpace(s[0]) && !IsSpace(s[|s| - 1]))
  }

  predicate AllSpace(s: bytes) {
    forall i :: 0 <= i < |s| ==> IsSpace(s[i])
  }

  lemma {:induction false} TrimLeftCuts(s: bytes) returns (front: bytes)
    ensures s == front + TrimLeft(s) && AllSpace(front)
    ensures TrimLeft(s) == [] || !IsSpace(TrimLeft(s)[0])
  {
    if s != [] && IsSpace(s[0]) {
      var f := TrimLeftCuts(s[1..]);
      front := [s[0]] + f;
    } else {
      front := [];
    }
  }

  lemma {:induction false} TrimRightCuts(s: bytes) returns (back: bytes)
    ensures s == TrimRight(s) + back && AllSpace(back)
    ensures TrimRight(s) == [] || !IsSpace(TrimRight(s)[|TrimRight(s)| - 1])
  {
    if s != [] && IsSpace(s[|s| - 1]) {
      var b := TrimRightCuts(s[..|s| - 1]);
      back := b + [s[|s| - 1]];
    } else {
      back := [];
    }
  }

  /** Trimming cuts white space, only white space, and all of it at both ends. */
  lemma TrimCuts(s: bytes) returns (front: bytes, back: bytes)
    ensures s == front + Trim(s) + back
    ensures AllSpace(front) && AllSpace(back) && Trimmed(Trim(s))
  {
    front := TrimLeftCuts(s);
    back := TrimRightCuts(TrimLeft(s));
  }

  /** White space is blank, tab, line feed, vertical tab, form feed and carriage return. */
  lemma WhiteSpace(c: byte)
    ensures IsSpace(c) <==> c as int in {32, 9, 10, 11, 12, 13}
  {
  }

  lemma {:induction false} TrimRightRestores(s: bytes, back: bytes)
    requires AllSpace(back) && Trimmed(s)
    ensures TrimRight(s + back) == s
    decreases |back|
  {
    if back == [] {
      NothingMore(s);
    } else {
      var t := s + back;
      assert t[..|t| - 1] == s + back[..|back| - 1] && t[|t| - 1] == back[|back| - 1];
      TrimRightRestores(s, back[..|back| - 1]);
    }
  }

  lemma {:induction false} TrimLeftRestores(front: bytes, s: bytes)
    requires AllSpace(front) && (s == [] || !IsSpace(s[0]))
    ensures TrimLeft(front + s) == s
    decreases |front|
  {
    if front == [] {
      NothingMore(s);
    } else {
      assert (front + s)[1..] == front[1..] + s && IsSpace(front[0]);
      TrimLeftRestores(front[1..], s);
    }
  }

  lemma {:induction false} TrimLeftSpaces(s: bytes)
    requires AllSpace(s)
    ensures TrimLeft(s) == []
    decreases |s|
  {
    if s != [] {
      TrimLeftSpaces(s[1..]);
    }
  }

  /** Trimming takes exactly the white space around a trimmed value. */
  lemma TrimAround(front: bytes, value: bytes, back: bytes)
    requires AllSpace(front) && AllSpace(back) && Trimmed(value)
    ensures Trim(front + value + back) == value
  {
    if value == [] {
      TrimLeftSpaces(front + value + back);
    } else {
      Assoc(front, value, back);
      TrimLeftRestores(front, value + back);
      TrimRightRestores(value, back);
    }
  }

  /** Blanks written before a trimmed value are what trimming removes. */
  lemma TrimRestores(front: bytes, s: bytes)
    requires AllSpace(front) && Trimmed(s)
    ensures Trim(front + s) == s
  {
    TrimAround(front, s, []);
    NothingMore(front + s);
  }

  /** What one header line `field ':' value` does to the headers. */
  function AddHeaderLine(headers: map<bytes, bytes>, line: bytes): map<bytes, bytes>
    requires ':' in line
  {
    var colon := Find(line, ':');
    headers[line[..colon] := Trim(line[colon + 1..])]
  }

  function WithTarget(r: Request, target: bytes): Request {
    var question := Find(target, '?');
    if question == |target| then r.(path := target)
    else r.(path := target[..question], query := target[question..])
  }

  /** The value that is stored has no white space around it, whatever was written. */
  lemma HeaderStored(headers: map<bytes, bytes>, field: bytes, front: bytes, value: bytes, back: bytes)
    requires ':' !in field && AllSpace(front) && AllSpace(back) && Trimmed(value)
    ensures var line := field + [':'] + (front + value + back);
            ':' in line && AddHeaderLine(headers, line) == headers[field := value]
  {
    SplitAtFirst(field, ':', front + value + back);
    var line := field + [':'] + (front + value + back);
    assert line[|field|] == ':';
    TrimAround(front, value, back);
    hide Trim, Find;
  }

  /** "A: x " stores "x". */
  lemma TrailingBlankDropped()
    ensures AddHeaderLine(map[], "A: x ") == map["A" := "x"]
  {
    var a: bytes, blank: bytes, x: bytes, line: bytes := "A", " ", "x", "A: x ";
    HeaderStored(map[], a, blank, x, blank);
    assert a + [':'] + (blank + x + blank) == line;
    hide AddHeaderLine;
  }

  /** What `processRequestLine` makes of a line: whether it is accepted, and what it leaves in
      the request, which on a rejected line may be a method, a path and a query. */
  function ReadRequestLine(r: Request, line: bytes): (bool, Request) {
    var space := Find(line, ' ');
    if space == |line| then (false, r)
    else ReadAfterMethod(r.(verb := MethodOf(line[..space])), line[space + 1..])
  }

  function ReadAfterMethod(r: Request, rest: bytes): (bool, Request) {
    var space := Find(rest, ' ');
    if r.verb == Invalid || space == |rest| then (false, r)
    else ReadVersion(WithTarget(r, rest[..space]), rest[space + 1..])
  }

  function ReadVersion(r: Request, text: bytes): (bool, Request) {
    var v := VersionOf(text);
    if v == Unknown then (false, r) else (true, r.(version := v))
  }

  /** The grammar: method, space, target, space, version; the target may be empty. */
  ghost predicate IsRequestLine(line: bytes, m: Method, target: bytes, v: Version) {
    && m != Invalid && v != Unknown && ' ' !in target
    && line == MethodText(m) + [' '] + (target + [' '] + VersionText(v))
  }

  lemma SplitAtFirst(left: bytes, c: byte, right: bytes)
    requires c !in left
    ensures var s := left + [c] + right;
            |left| < |s| && Find(s, c) == |left| && s[..|left|] == left && s[|left| + 1..] == right
  {
    var s := left + [c] + right;
    assert s[|left|] == c;
    assert forall j :: 0 <= j < |left| ==> s[j] == left[j];
    assert s[..|left|] == left;
    assert s[|left| + 1..] == right;
  }

  lemma TextsRead(m: Method, v: Version)
    ensures ' ' !in MethodText(m) && NoCRLF(MethodText(m)) && (m != Invalid ==> MethodOf(MethodText(m)) == m)
    ensures v != Unknown ==> VersionOf(VersionText(v)) == v && NoCRLF(VersionText(v))
  {
  }

  /** Every line of the grammar is accepted, and its parts are what the request then holds. */
  lemma RequestLineRead(r: Request, line: bytes, m: Method, target: bytes, v: Version)
    requires IsRequestLine(line, m, target, v)
    ensures ReadRequestLine(r, line) == (true, WithTarget(r.(verb := m), target).(version := v))
  {
    hide MethodText, MethodOf, VersionText, VersionOf, WithTarget;
    TextsRead(m, v);
    SplitAtFirst(MethodText(m), ' ', target + [' '] + VersionText(v));
    SplitAtFirst(target, ' ', VersionText(v));
  }

  /** The texts of the methods and versions, as they stand on the wire. */
  lemma TextsOnWire(m: Method, v: Version)
    requires v != Unknown
    ensures MethodText(m) == (if m == Get then "GET" else if m == Post then "POST" else if m == Head then "HEAD"
                              else if m == Put then "PUT" else if m == Delete then "DELETE" else "UNKNOWN")
    ensures VersionText(v) == if v == Http10 then "HTTP/1.0" else "HTTP/1.1"
  {
  }

  /** `line` is one of five names, a space, a target without one, a space, and a version. */
  predicate Spells(line: bytes, name: bytes, target: bytes, version: bytes) {
    && name in ["GET", "POST", "HEAD", "PUT", "DELETE"] && version in ["HTTP/1.0", "HTTP/1.1"]
    && ' ' !in target && line == name + [' '] + (target + [' '] + version)
  }

  /** What each spelling means. */
  lemma SpellingRead(r: Request, line: bytes, name: bytes, target: bytes, version: bytes)
    requires Spells(line, name, target, version)
    ensures var a := ReadRequestLine(r, line);
            && a.0 && a.1.version == (if version == "HTTP/1.1" then Http11 else Http10)
            && (a.1.verb == Get <==> name == "GET") && (a.1.verb == Post <==> name == "POST")
            && (a.1.verb == Head <==> name == "HEAD") && (a.1.verb == Put <==> name == "PUT")
            && (a.1.verb == Delete <==> name == "DELETE")
            && a.1 == WithTarget(r.(verb := a.1.verb), target).(version := a.1.version)
  {
    var m, v := MethodOf(name), VersionOf(version);
    TextsOnWire(m, if v == Unknown then Http10 else v);
    RequestLineRead(r, line, m, target, v);
    WithTargetKeepsMethod();
    hide ReadRequestLine, WithTarget;
  }

  /** The accepted lines are spelled out: one of five names, a target without a space, and one
      of two versions, with single spaces between them. */
  lemma AcceptedSpellings(r: Request, line: bytes)
    ensures ReadRequestLine(r, line).0 <==>
            exists name, target, version :: Spells(line, name, target, version)
  {
    if ReadRequestLine(r, line).0 {
      var target := AcceptedLineSplits(r, line);
      var a := ReadRequestLine(r, line).1;
      TextsOnWire(a.verb, a.version);
      assert Spells(line, MethodText(a.verb), target, VersionText(a.version));
    }
    if name, target, version :| Spells(line, name, target, version) {
      SpellingRead(r, line, name, target, version);
    }
  }

  /** What a rejected line leaves behind: nothing without a space in it; otherwise the method before
      the first space, and the target if a known method and a second space come before it ends. */
  lemma RejectedLineLeaves(r: Request, line: bytes)
    requires !ReadRequestLine(r, line).0
    ensures var a, space := ReadRequestLine(r, line).1, Find(line, ' ');
            && a.headers == r.headers && a.version == r.version
            && (' ' !in line ==> a == r)
            && (' ' in line ==>
                  && a.verb == MethodOf(line[..space])
                  && (a.path != r.path || a.query != r.query ==> a.verb != Invalid && ' ' in line[space + 1..])
                  && (a.verb != Invalid && ' ' in line[space + 1..] ==>
                        a == WithTarget(r.(verb := a.verb), line[space + 1..][..Find(line[space + 1..], ' ')])))
  {
    hide MethodOf, VersionOf, FindFrom;
  }

  lemma WithTargetKeepsMethod()
    ensures forall r, t :: WithTarget(r, t).verb == r.verb
  {
  }

  /** An accepted line is one of the grammar. */
  lemma AcceptedLineSplits(r: Request, line: bytes) returns (target: bytes)
    requires ReadRequestLine(r, line).0
    ensures IsRequestLine(line, ReadRequestLine(r, line).1.verb, target, ReadRequestLine(r, line).1.version)
  {
    hide MethodText, MethodOf, VersionText, VersionOf, WithTarget, Find;
    WithTargetKeepsMethod();
    var space := Find(line, ' ');
    var rest := line[space + 1..];
    var end := Find(rest, ' ');
    target := rest[..end];
    assert line == line[..space] + [' '] + rest;
    assert rest == target + [' '] + rest[end + 1..];
  }

  /** Acceptance is exact: the accepted lines are those of the grammar, and no others. */
  lemma AcceptanceIsExact(r: Request, line: bytes)
    ensures ReadRequestLine(r, line).0 <==> exists m, target, v :: IsRequestLine(line, m, target, v)
  {
    if ReadRequestLine(r, line).0 {
      var target := AcceptedLineSplits(r, line);
    }
    if m, target, v :| IsRequestLine(line, m, target, v) {
      RequestLineRead(r, line, m, target, v);
    }
  }

  /** A line has at most one reading. */
  lemma RequestLineUnique(line: bytes, m: Method, target: bytes, v: Version, m': Method, target': bytes, v': Version)
    requires IsRequestLine(line, m, target, v) && IsRequestLine(line, m', target', v')
    ensures m == m' && target == target' && v == v'
  {
    RequestLineRead(FRESH, line, m, target, v);
    RequestLineRead(FRESH, line, m', target', v');
    var r := ReadRequestLine(FRESH, line).1;
    TargetSplits(FRESH.(verb := m), target);
    TargetSplits(FRESH.(verb := m), target');
  }

  /** Path and query are the target cut before its first '?'. */
  lemma TargetSplits(r: Request, target: bytes)
    requires r.query == []
    ensures var t := WithTarget(r, target);
            && t.path + t.query == target
            && '?' !in t.path
            && (t.query == [] || t.query[0] == '?')
  {
  }

  /** The request as the C++ object: fields set one by one while lines arrive. */
  class HttpRequest {
    var verb: Method
    var version: Version
    var path: bytes
    var query: bytes
    var receiveTime: int
    var headers: map<bytes, bytes>

    function Value(): Request
      reads this
    {
      Request(verb, version, path, query, headers)
    }

    constructor ()
      ensures Value() == FRESH && receiveTime == 0
    {
      verb, version, path, query, receiveTime, headers := Invalid, Unknown, [], [], 0, map[];
    }

    /** Asserts, as the source does, that no method was set before. */
    method SetMethod(text: bytes) returns (ok: bool)
      requires verb == Invalid
      modifies this`verb
      ensures ok <==> text in ["GET", "POST", "HEAD", "PUT", "DELETE"]
      ensures ok ==> MethodString() == text
      ensures !ok ==> verb == Invalid
      ensures verb == MethodOf(text)
    {
      verb := MethodOf(text);
      ok := verb != Invalid;
    }

    function MethodString(): bytes
      reads this
    {
      MethodText(verb)
    }

    method SetTarget(target: bytes)
      modifies this`path, this`query
      ensures Value() == WithTarget(old(Value()), target)
    {
      var question := Find(target, '?');
      if question != |target| {
        path := target[..question];
        query := target[question..];
      } else {
        path := target;
      }
    }

    /** The two trimming loops of `addHeader`; the last line for a field wins. */
    method AddHeader(line: bytes, colon: nat)
      requires colon == Find(line, ':') < |line|
      modifies this`headers
      ensures headers == AddHeaderLine(old(headers), line)
    {
      var field := line[..colon];
      var start := colon + 1;
      while start < |line| && IsSpace(line[start])
        invariant colon < start <= |line|
        invariant TrimLeft(line[colon + 1..]) == TrimLeft(line[start..])
      {
        assert line[start..][1..] == line[start + 1..];
        start := start + 1;
      }
      var value := line[start..];
      while value != [] && IsSpace(value[|value| - 1])
        invariant TrimRight(line[start..]) == TrimRight(value)
      {
        value := value[..|value| - 1];
      }
      headers := headers[field := value];
    }

    /** `reset` swaps the contents with a new request. */
    method Swap(that: HttpRequest)
      modifies this, that
      ensures Value() == old(that.Value()) && that.Value() == old(Value())
      ensures receiveTime == old(that.receiveTime) && that.receiveTime == old(receiveTime)
    {
      verb, that.verb := that.verb, verb;
      version, that.version := that.version, version;
      path, that.path := that.path, path;
      query, that.query := that.query, query;
      receiveTime, that.receiveTime := that.receiveTime, receiveTime;
      headers, that.headers := that.headers, headers;
    }
  }

  /** `getHeader`: the empty string stands for a missing field. */
  function HeaderOf(r: Request, field: bytes): bytes {
    if field in r.headers then r.headers[field] else []
  }
}
