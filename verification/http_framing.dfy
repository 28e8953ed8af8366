/** Printed responses from the receiver's side: the printer meets the parser, and bodies
    are found again by Content-Length (section 3.3.3 of RFC 7230). */
module HttpFraming {
  import opened Bytes
  import opened Decimals
  import opened HttpRequests
  import opened HttpContexts
  import opened HttpPrinting
  import opened HttpResponses

  // ----- The printed parts as fields -----

  const MAX_PRINTED_LENGTH: nat := 10_000_000_000_000

  predicate Small(s: bytes) {
    |s| < INT_RANGE / 2
  }

  predicate SmallFields(fields: seq<(bytes, bytes)>) {
    forall i :: 0 <= i < |fields| ==> Small(fields[i].0) && Small(fields[i].1)
  }

  lemma {:induction false} SmallPieces(fields: seq<(bytes, bytes)>)
    requires SmallFields(fields)
    ensures Pieces(fields) == fields
  {
    if fields != [] {
      SmallPieces(fields[1..]);
      assert fields == [fields[0]] + fields[1..];
    }
  }

  /** The fields the printer generates. */
  function OwnFields(r: Response): seq<(bytes, bytes)> {
    if r.close then [CLOSE_FIELD] else [LengthField(|r.body|), KEEP_ALIVE_FIELD]
  }

  lemma LengthLineSize(n: nat)
    ensures |PrintField(LengthField(n))| == 18 + |Decimal(n)|
    ensures n < MAX_PRINTED_LENGTH <==> |PrintField(LengthField(n))| < FORMAT_SIZE
  {
    ThirteenDigits(n);
  }

  lemma OwnFieldsPrinted(r: Response)
    requires |r.body| < MAX_PRINTED_LENGTH
    ensures PrintOwnFields(r) == PrintFields(OwnFields(r))
  {
    LengthLineSize(|r.body|);
    hide PrintField;
    NothingMore(PrintField(CLOSE_FIELD));
    NothingMore(PrintField(KEEP_ALIVE_FIELD));
    assert OwnFields(r)[1..] == if r.close then [] else [KEEP_ALIVE_FIELD];
    assert PrintFields([KEEP_ALIVE_FIELD]) == PrintField(KEEP_ALIVE_FIELD) + PrintFields([]);
  }

  lemma {:induction false} PrintFieldsConcat(a: seq<(bytes, bytes)>, b: seq<(bytes, bytes)>)
    ensures PrintFields(a + b) == PrintFields(a) + PrintFields(b)
  {
    hide PrintField;
    if a == [] {
      assert a + b == b;
      NothingMore(PrintFields(b));
    } else {
      assert (a + b)[1..] == a[1..] + b;
      PrintFieldsConcat(a[1..], b);
      Assoc(PrintField(a[0]), PrintFields(a[1..]), PrintFields(b));
    }
  }

  lemma NoCRLFWithoutLF(s: bytes)
    requires '\n' !in s
    ensures NoCRLF(s)
  {
  }

  lemma StatusLineHasNoCRLF(r: Response)
    requires NoCRLF(r.message) && Small(r.message)
    ensures NoCRLF(StatusStart(r.status) + Piece(r.message))
  {
    var code := Decimal(Code(r.status));
    DecimalLength(Code(r.status), 3);
    assert Pow10(3) == 1000;
    assert StatusStart(r.status) == HTTP11_SPACE + code + [' '];
    NoCRLFWithoutLF(HTTP11_SPACE + code);
    NoCRLFAround(HTTP11_SPACE + code, ' ', r.message);
    Assoc(HTTP11_SPACE + code, [' '], r.message);
  }

  /** The status line says HTTP/1.1, the code and the message (section 3.1.2 of RFC 7230). */
  lemma StatusLineReadsBack(r: Response)
    ensures var line := StatusStart(r.status) + Piece(r.message);
            var first := Find(line, ' ');
            && first < |line| && VersionOf(line[..first]) == Http11
            && var rest := line[first + 1..]; var second := Find(rest, ' ');
            && second < |rest| && ParseDecimal(rest[..second]) == Some(Code(r.status))
            && rest[second + 1..] == Piece(r.message)
  {
    var code, message := Decimal(Code(r.status)), Piece(r.message);
    DecimalLength(Code(r.status), 3);
    assert Pow10(3) == 1000;
    var version: bytes := VersionText(Http11);
    assert HTTP11_SPACE == version + [' '];
    assert VersionOf(version) == Http11 && ' ' !in version;
    assert StatusStart(r.status) == version + [' '] + code + [' '];
    ParseOfPrinted(Code(r.status));
    hide StatusStart, Piece, Find, Decimal, ParseDecimal, Code, VersionOf, VersionText;
    StatusParts(version, code, message);
    SplitAtFirst(version, ' ', code + [' '] + message);
    SplitAtFirst(code, ' ', message);
  }

  lemma StatusParts(version: bytes, code: bytes, message: bytes)
    ensures version + [' '] + code + [' '] + message == version + [' '] + (code + [' '] + message)
  {
  }

  lemma ThreeDigits(n: nat)
    requires 100 <= n < 1000
    ensures Decimal(n) == [Digit(n / 100), Digit(n / 10 % 10), Digit(n % 10)]
  {
    assert Decimal(n) == Decimal(n / 10) + [Digit(n % 10)];
    assert Decimal(n / 10) == Decimal(n / 100) + [Digit(n / 10 % 10)];
    assert Decimal(n / 100) == [Digit(n / 100)];
  }

  /** The beginnings of the status lines, as they stand on the wire. */
  lemma StatusOnWire(s: Status)
    ensures StatusStart(s) == match s
                              case UnknownStatus => "HTTP/1.1 0 "
                              case Ok200 => "HTTP/1.1 200 "
                              case MovedPermanently301 => "HTTP/1.1 301 "
                              case BadRequest400 => "HTTP/1.1 400 "
                              case NotFound404 => "HTTP/1.1 404 "
  {
    if s != UnknownStatus {
      ThreeDigits(Code(s));
    }
  }

  /** The fields the printer adds, as they stand on the wire. */
  lemma OwnFieldsOnWire(r: Response)
    requires |r.body| < MAX_PRINTED_LENGTH
    ensures r.close ==> PrintOwnFields(r) == "Connection: close\r\n"
    ensures !r.close ==>
              PrintOwnFields(r) == "Content-Length: " + Decimal(|r.body|) + "\r\n" + "Connection: Keep-Alive\r\n"
  {
    var close: bytes, alive: bytes := "Connection: close\r\n", "Connection: Keep-Alive\r\n";
    assert PrintField(CLOSE_FIELD) == close && PrintField(KEEP_ALIVE_FIELD) == alive;
    if !r.close {
      LengthLineSize(|r.body|);
      var length: bytes, end: bytes := "Content-Length: ", "\r\n";
      assert PrintField(LengthField(|r.body|)) == length + Decimal(|r.body|) + end;
    }
  }

  /** A response without fields of its own and without a body. */
  lemma BareAnswer(r: Response)
    requires r.headers == [] && r.body == [] && Small(r.message)
    ensures PrintResponse(r) == StatusStart(r.status) + r.message + CRLF + PrintOwnFields(r) + CRLF
  {
    assert Pieces(r.headers) == [] && PrintFields([]) == [] && Piece(r.body) == [] && Piece(r.message) == r.message;
    hide StatusStart, PrintOwnFields, Piece, PrintFields, Pieces;
    var head := StatusStart(r.status) + r.message + CRLF + PrintOwnFields(r);
    NothingMore(head);
    NothingMore(head + CRLF);
  }

  /** What the default callback answers, whatever was preset. */
  lemma DefaultAnswer(preset: bool)
    ensures PrintResponse(NotFound(NewResponse(preset))) == "HTTP/1.1 404 Not Found\r\nConnection: close\r\n\r\n"
  {
    var r := NotFound(NewResponse(preset));
    BareAnswer(r);
    StatusOnWire(r.status);
    OwnFieldsOnWire(r);
    hide StatusStart, PrintOwnFields, PrintResponse;
    NotFoundText();
  }

  lemma NotFoundText()
    ensures var start: bytes, message: bytes, own: bytes := "HTTP/1.1 404 ", "Not Found", "Connection: close\r\n";
            start + message + CRLF + own + CRLF == "HTTP/1.1 404 Not Found\r\nConnection: close\r\n\r\n"
  {
  }

  /** What a callback that changes nothing answers. */
  lemma UnchangedAnswer(close: bool)
    ensures PrintResponse(NewResponse(close)) ==
            if close then "HTTP/1.1 0 \r\n" + "Connection: close\r\n" + "\r\n"
            else "HTTP/1.1 0 \r\n" + ("Content-Length: 0\r\n" + "Connection: Keep-Alive\r\n") + "\r\n"
  {
    var r := NewResponse(close);
    StatusOnWire(UnknownStatus);
    BareAnswer(r);
    OwnFieldsOnWire(r);
    assert Decimal(0) == ['0'];
    UnchangedTexts();
    hide StatusStart, PrintOwnFields, PrintResponse, Decimal;
  }

  lemma UnchangedTexts()
    ensures var start: bytes, none: bytes := "HTTP/1.1 0 ", []; start + none + CRLF == "HTTP/1.1 0 \r\n"
    ensures var length: bytes, end: bytes := "Content-Length: ", "\r\n"; length + ['0'] + end == "Content-Length: 0\r\n"
  {
  }

  /** The status line comes first; then the fields, an empty line and the body. */
  lemma PrintedAfterStatusLine(r: Response, following: bytes)
    requires NoCRLF(r.message) && Small(r.message)
    ensures var s, line := PrintResponse(r) + following, StatusStart(r.status) + Piece(r.message);
            && FindCRLF(s) == Some(|line|)
            && s[|line| + 2..] == PrintOwnFields(r) + PrintFields(Pieces(r.headers)) + CRLF + Piece(r.body) + following
  {
    StatusLineHasNoCRLF(r);
    hide StatusStart, Piece, PrintOwnFields, PrintFields, Pieces, FindCRLF;
    var line := StatusStart(r.status) + Piece(r.message);
    var rest := PrintOwnFields(r) + PrintFields(Pieces(r.headers)) + CRLF + Piece(r.body);
    ResponseParts(line, CRLF, PrintOwnFields(r), PrintFields(Pieces(r.headers)), Piece(r.body), following);
    FindCRLFAfterLine(line, rest + following);
    AfterLine(line, rest + following);
  }

  lemma AfterLine(line: bytes, rest: bytes)
    ensures (line + CRLF + rest)[|line| + 2..] == rest
  {
  }

  lemma ResponseParts(a: bytes, b: bytes, c: bytes, d: bytes, e: bytes, f: bytes)
    ensures (a + b + c) + d + b + e + f == a + b + ((c + d + b + e) + f)
  {
  }

  lemma DecimalIsPlain(n: nat)
    ensures PlainField(LengthField(n))
  {
  }

  lemma OwnFieldsArePlain(r: Response)
    ensures PlainFields(OwnFields(r))
  {
    DecimalIsPlain(|r.body|);
  }

  lemma PrintedFieldsParse(r: Response, q: Request, rest: bytes)
    requires PlainFields(r.headers) && SmallFields(r.headers) && |r.body| < MAX_PRINTED_LENGTH
    ensures Parse(Parser(ExpectHeaders, q), PrintOwnFields(r) + PrintFields(Pieces(r.headers)) + CRLF + rest)
            == Outcome(true, Parser(GotAll, q.(headers := FieldMap(FieldMap(q.headers, OwnFields(r)), r.headers))),
                       rest)
  {
    SmallPieces(r.headers);
    OwnFieldsPrinted(r);
    OwnFieldsArePlain(r);
    PrintFieldsConcat(OwnFields(r), r.headers);
    FieldMapConcat(q.headers, OwnFields(r), r.headers);
    PrintedIsWritten(OwnFields(r) + r.headers);
    hide OwnFields, PrintFields, Parse, PlainField, PrintOwnFields, Pieces, FieldMap, WriteFields, AsPrinted, Meanings;
    FieldsRoundTrip(q, AsPrinted(OwnFields(r) + r.headers), rest);
  }

  /** Printer meets parser: in `kExpectHeaders`, what follows the status line is read as the
      generated fields overridden by the response's own, and exactly the body is left. */
  lemma PrinterMeetsParser(r: Response, q: Request, following: bytes)
    requires NoCRLF(r.message) && Small(r.message)
    requires PlainFields(r.headers) && SmallFields(r.headers) && |r.body| < MAX_PRINTED_LENGTH
    ensures var s := PrintResponse(r) + following;
            FindCRLF(s).Some?
            && Parse(Parser(ExpectHeaders, q), s[FindCRLF(s).value + 2..])
               == Outcome(true, Parser(GotAll, q.(headers := FieldMap(FieldMap(q.headers, OwnFields(r)), r.headers))),
                          Piece(r.body) + following)
  {
    PrintedAfterStatusLine(r, following);
    hide OwnFields, PrintFields, Parse, FindCRLF, PlainField, PrintOwnFields;
    hide PrintResponse, Piece, Pieces, StatusStart, FieldMap;
    Assoc(PrintOwnFields(r) + PrintFields(Pieces(r.headers)) + CRLF, Piece(r.body), following);
    PrintedFieldsParse(r, q, Piece(r.body) + following);
  }

  lemma {:induction false} FieldMapConcat(m: map<bytes, bytes>, a: seq<(bytes, bytes)>, b: seq<(bytes, bytes)>)
    ensures FieldMap(m, a + b) == FieldMap(FieldMap(m, a), b)
    decreases |a|
  {
    if a == [] {
      assert a + b == b;
    } else {
      assert (a + b)[1..] == a[1..] + b;
      FieldMapConcat(m[a[0].0 := a[0].1], a[1..], b);
    }
  }

  lemma {:induction false} FieldMapKeeps(m: map<bytes, bytes>, fields: seq<(bytes, bytes)>, name: bytes)
    requires name in m && forall i :: 0 <= i < |fields| ==> fields[i].0 != name
    ensures name in FieldMap(m, fields) && FieldMap(m, fields)[name] == m[name]
    decreases |fields|
  {
    if fields != [] {
      FieldMapKeeps(m[fields[0].0 := fields[0].1], fields[1..], name);
    }
  }

  lemma OwnFieldMap(m: map<bytes, bytes>, r: Response)
    ensures FieldMap(m, OwnFields(r)) ==
            if r.close then m[CONNECTION := CLOSE]
            else m[CONTENT_LENGTH := Decimal(|r.body|)][CONNECTION := KEEP_ALIVE]
  {
    hide Decimal;
    assert [CLOSE_FIELD][1..] == [] && [KEEP_ALIVE_FIELD][1..] == [];
    assert [LengthField(|r.body|), KEEP_ALIVE_FIELD][1..] == [KEEP_ALIVE_FIELD];
    assert FieldMap(m, [CLOSE_FIELD]) == FieldMap(m[CONNECTION := CLOSE], []);
    var m1 := m[CONTENT_LENGTH := Decimal(|r.body|)];
    assert FieldMap(m1, [KEEP_ALIVE_FIELD]) == FieldMap(m1[CONNECTION := KEEP_ALIVE], []);
  }

  /** Unless the response sets the field itself, a receiver reads from Connection whether the
      server is going to close (section 6.1 of RFC 7230). */
  lemma ClosingIsAnnounced(r: Response, q: Request)
    requires forall i :: 0 <= i < |r.headers| ==> r.headers[i].0 != "Connection"
    ensures var read := q.(headers := FieldMap(FieldMap(q.headers, OwnFields(r)), r.headers));
            && "Connection" in read.headers
            && (read.headers["Connection"] == "close" <==> r.close)
            && (read.headers["Connection"] == "Keep-Alive" <==> !r.close)
  {
    var own := FieldMap(q.headers, OwnFields(r));
    OwnFieldMap(q.headers, r);
    FieldMapKeeps(own, r.headers, CONNECTION);
  }

  // ----- Decoding by Content-Length -----

  function Lower(c: byte): byte {
    if 'A' <= c <= 'Z' then (c as int + 32) as char else c
  }

  function LowerAll(s: bytes): bytes {
    seq(|s|, i requires 0 <= i < |s| => Lower(s[i]))
  }

  const LENGTH_NAME: bytes := "content-length"

  datatype Section = Malformed | Section(length: Option<nat>, rest: bytes)

  /** The length known after one more field line: names are compared without regard to case,
      and two different lengths are an error. */
  function TakeField(length: Option<nat>, line: bytes): Option<Option<nat>> {
    var colon := Find(line, ':');
    if colon == |line| then None
    else if LowerAll(line[..colon]) != LENGTH_NAME then Some(length)
    else
      var n := ParseDecimal(Trim(line[colon + 1..]));
      if n == None || (length.Some? && length != n) then None else Some(n)
  }

  function ReadSection(length: Option<nat>, s: bytes): Section
    decreases |s|
  {
    match FindCRLF(s)
    case None => Malformed
    case Some(i) =>
      if i == 0 then Section(length, s[2..])
      else
        match TakeField(length, s[..i])
        case None => Malformed
        case Some(l) => ReadSection(l, s[i + 2..])
  }

  /** The body of the first message of `s`, and what comes after it. */
  function DecodeMessage(s: bytes): (m: Option<(bytes, bytes)>)
    ensures m.Some? ==> |m.value.1| < |s|
  {
    match FindCRLF(s)
    case None => None
    case Some(i) =>
      ReadSectionShrinks(None, s[i + 2..]);
      TakeBody(ReadSection(None, s[i + 2..]))
  }

  function TakeBody(fields: Section): Option<(bytes, bytes)> {
    match fields
    case Malformed => None
    case Section(length, rest) =>
      if length == None || |rest| < length.value then None
      else Some((rest[..length.value], rest[length.value..]))
  }

  lemma {:induction false} ReadSectionShrinks(length: Option<nat>, s: bytes)
    ensures ReadSection(length, s).Section? ==> |ReadSection(length, s).rest| < |s|
    decreases |s|
  {
    hide TakeField, FindCRLF;
    if FindCRLF(s).Some? {
      var i := FindCRLF(s).value;
      var l := TakeField(length, s[..i]);
      if i > 0 && l.Some? {
        ReadSectionShrinks(l.value, s[i + 2..]);
      }
    }
  }

  function DecodeAll(s: bytes): Option<seq<bytes>>
    decreases |s|
  {
    if s == [] then Some([])
    else
      match DecodeMessage(s)
      case None => None
      case Some(m) =>
        var later := DecodeAll(m.1);
        if later == None then None else Some([m.0] + later.value)
  }

  lemma SectionStep(length: Option<nat>, line: bytes, rest: bytes)
    requires NoCRLF(line) && line != []
    ensures ReadSection(length, line + CRLF + rest)
            == match TakeField(length, line) case None => Malformed case Some(l) => ReadSection(l, rest)
  {
    hide TakeField, FindCRLF;
    var s := line + CRLF + rest;
    FindCRLFAfterLine(line, rest);
    assert s[..|line|] == line && s[|line| + 2..] == rest;
  }

  lemma SectionEnd(length: Option<nat>, rest: bytes)
    ensures ReadSection(length, CRLF + rest) == Section(length, rest)
  {
  }

  /** A field that does not disturb the framing. */
  predicate Unrelated(f: (bytes, bytes)) {
    ':' !in f.0 && NoCRLF(f.0) && NoCRLF(f.1) && LowerAll(f.0) != LENGTH_NAME
  }

  lemma FieldLineSplits(f: (bytes, bytes))
    requires ':' !in f.0 && NoCRLF(f.0) && NoCRLF(f.1)
    ensures var line := FieldLine(f);
            && NoCRLF(line) && Find(line, ':') == |f.0| < |line|
            && line[..|f.0|] == f.0 && line[|f.0| + 1..] == [' '] + f.1
  {
    NothingMore([' ']);
    NoCRLFAround([], ' ', f.1);
    NoCRLFAround(f.0, ':', [' '] + f.1);
    assert FieldLine(f) == f.0 + [':'] + ([' '] + f.1) by {
      Assoc(f.0 + [':'], [' '], f.1);
    }
    SplitAtFirst(f.0, ':', [' '] + f.1);
  }

  lemma UnrelatedFieldSkipped(length: Option<nat>, f: (bytes, bytes), rest: bytes)
    requires Unrelated(f)
    ensures ReadSection(length, PrintField(f) + rest) == ReadSection(length, rest)
  {
    FieldLineSplits(f);
    hide FieldLine, Find, FindCRLF, ReadSection, LowerAll;
    SectionStep(length, FieldLine(f), rest);
  }

  lemma {:induction false} UnrelatedFieldsSkipped(length: Option<nat>, fields: seq<(bytes, bytes)>, rest: bytes)
    requires forall i :: 0 <= i < |fields| ==> Unrelated(fields[i])
    ensures ReadSection(length, PrintFields(fields) + rest) == ReadSection(length, rest)
    decreases |fields|
  {
    hide PrintField, ReadSection, Unrelated;
    if fields == [] {
      NothingMore(rest);
    } else {
      UnrelatedFieldsSkipped(length, fields[1..], rest);
      UnrelatedFieldSkipped(length, fields[0], PrintFields(fields[1..]) + rest);
      Assoc(PrintField(fields[0]), PrintFields(fields[1..]), rest);
    }
  }

  lemma LengthNameFolds()
    ensures LowerAll(CONTENT_LENGTH) == LENGTH_NAME
  {
  }

  lemma LengthFieldTaken(n: nat, rest: bytes)
    ensures ReadSection(None, PrintField(LengthField(n)) + rest) == ReadSection(Some(n), rest)
  {
    var f := LengthField(n);
    DecimalIsPlain(n);
    FieldLineSplits(f);
    LengthNameFolds();
    TrimRestores([' '], Decimal(n));
    ParseOfPrinted(n);
    hide FieldLine, Find, FindCRLF, ReadSection, LowerAll, Decimal, ParseDecimal, Trim;
    SectionStep(None, FieldLine(f), rest);
  }

  lemma KeepAliveUnrelated()
    ensures Unrelated(KEEP_ALIVE_FIELD)
  {
  }

  /** A response whose framing is up to the printer alone. */
  ghost predicate Framable(r: Response) {
    && !r.close && Appendable(r)
    && NoCRLF(r.message) && Small(r.message) && SmallFields(r.headers)
    && forall i :: 0 <= i < |r.headers| ==> Unrelated(r.headers[i])
  }

  lemma DecodeAfterStatusLine(r: Response, following: bytes)
    requires NoCRLF(r.message) && Small(r.message)
    ensures DecodeMessage(PrintResponse(r) + following)
            == TakeBody(ReadSection(None, PrintOwnFields(r) + PrintFields(Pieces(r.headers)) + CRLF + Piece(r.body)
                                          + following))
  {
    PrintedAfterStatusLine(r, following);
    hide Piece, Pieces, PrintOwnFields, PrintResponse, PrintFields, FindCRLF, StatusStart, ReadSection, TakeBody;
  }

  lemma SectionOfPrinted(n: nat, fields: seq<(bytes, bytes)>, rest: bytes)
    requires n < MAX_PRINTED_LENGTH && forall i :: 0 <= i < |fields| ==> Unrelated(fields[i])
    ensures ReadSection(None, LengthLine(n) + PrintField(KEEP_ALIVE_FIELD) + PrintFields(fields) + CRLF + rest)
            == Section(Some(n), rest)
  {
    LengthLineSize(n);
    KeepAliveUnrelated();
    assert LengthLine(n) == PrintField(LengthField(n));
    hide PrintField, PrintFields, ReadSection, Unrelated, LengthLine, LengthField;
    var printed, after := PrintFields(fields), CRLF + rest;
    LengthFieldTaken(n, PrintField(KEEP_ALIVE_FIELD) + (printed + after));
    UnrelatedFieldSkipped(Some(n), KEEP_ALIVE_FIELD, printed + after);
    UnrelatedFieldsSkipped(Some(n), fields, after);
    SectionEnd(Some(n), rest);
    Regroup(PrintField(LengthField(n)), PrintField(KEEP_ALIVE_FIELD), printed, CRLF, rest);
  }

  lemma Regroup(a: bytes, b: bytes, c: bytes, d: bytes, e: bytes)
    ensures (a + b) + c + d + e == a + (b + (c + (d + e)))
  {
  }

  /** As long as the length line is not cut, decoding is a matter of the bytes after it. */
  lemma DecodePrinted(r: Response, following: bytes)
    requires Framable(r) && |r.body| < MAX_PRINTED_LENGTH
    ensures var rest := Piece(r.body) + following;
            DecodeMessage(PrintResponse(r) + following) == TakeBody(Section(Some(|r.body|), rest))
  {
    SmallPieces(r.headers);
    DecodeAfterStatusLine(r, following);
    SectionOfPrinted(|r.body|, r.headers, Piece(r.body) + following);
    hide Piece, PrintResponse, DecodeMessage, PrintField, PrintFields, ReadSection, Unrelated, LengthLine, TakeBody;
    Assoc(LengthLine(|r.body|) + PrintField(KEEP_ALIVE_FIELD) + PrintFields(r.headers) + CRLF,
          Piece(r.body), following);
  }

  /** One response is decoded to its body, and what follows it is untouched. */
  lemma DecodesOwnBody(r: Response, following: bytes)
    requires Framable(r) && Small(r.body)
    ensures DecodeMessage(PrintResponse(r) + following) == Some((r.body, following))
  {
    DecodePrinted(r, following);
    hide PrintResponse, DecodeMessage;
    assert (r.body + following)[..|r.body|] == r.body;
    assert (r.body + following)[|r.body|..] == following;
  }

  function PrintAll(rs: seq<Response>): bytes {
    if rs == [] then [] else PrintResponse(rs[0]) + PrintAll(rs[1..])
  }

  function Bodies(rs: seq<Response>): seq<bytes> {
    if rs == [] then [] else [rs[0].body] + Bodies(rs[1..])
  }

  /** Keep-alive responses are self-delimiting: every body comes back, with nothing left over. */
  lemma {:induction false} SelfDelimiting(rs: seq<Response>)
    requires forall i :: 0 <= i < |rs| ==> Framable(rs[i]) && Small(rs[i].body)
    ensures DecodeAll(PrintAll(rs)) == Some(Bodies(rs))
    decreases |rs|
  {
    hide PrintResponse, DecodeMessage, Framable;
    if rs != [] {
      SelfDelimiting(rs[1..]);
      DecodesOwnBody(rs[0], PrintAll(rs[1..]));
      assert PrintAll(rs) != [] by {
        assert DecodeMessage(PrintAll(rs)).Some?;
      }
    }
  }

  // ----- Where framing breaks -----

  /** With fourteen digits or more, the line's CRLF is cut off and the next field runs into it. */
  lemma CutLengthLine(n: nat) returns (value: bytes)
    requires n >= MAX_PRINTED_LENGTH
    ensures LengthLine(n) == CONTENT_LENGTH + [':'] + value && '\n' !in value
  {
    LengthLineSize(n);
    var s := PrintField(LengthField(n));
    value := s[15..31];
    assert s[..14] == CONTENT_LENGTH && s[14] == ':';
    assert forall i :: 16 <= i < 31 ==> s[i] != '\n';
    assert LengthLine(n) == s[..14] + [s[14]] + value;
  }

  lemma CutLineHasNoLength(value: bytes)
    ensures TakeField(None, CONTENT_LENGTH + [':'] + (value + FieldLine(KEEP_ALIVE_FIELD))) == None
  {
    var tail := value + FieldLine(KEEP_ALIVE_FIELD);
    SplitAtFirst(CONTENT_LENGTH, ':', tail);
    LengthNameFolds();
    var front, back := TrimCuts(tail);
    assert tail[|value|] == 'C';
    NotANumber(tail, front, Trim(tail), back, |value|);
  }

  lemma CutLineNotDecoded(value: bytes, rest: bytes)
    requires '\n' !in value
    ensures ReadSection(None, CONTENT_LENGTH + [':'] + value + PrintField(KEEP_ALIVE_FIELD) + rest) == Malformed
  {
    var line := CONTENT_LENGTH + [':'] + (value + FieldLine(KEEP_ALIVE_FIELD));
    NoCRLFWithoutLF(line);
    CutLineHasNoLength(value);
    hide ReadSection, TakeField, Find, FindCRLF, FieldLine;
    SectionStep(None, line, rest);
    Assoc(CONTENT_LENGTH + [':'], value, FieldLine(KEEP_ALIVE_FIELD));
    Assoc(CONTENT_LENGTH + [':'] + value, FieldLine(KEEP_ALIVE_FIELD), CRLF);
  }

  lemma NotANumber(s: bytes, front: bytes, mid: bytes, back: bytes, i: nat)
    requires s == front + mid + back && AllSpace(front) && AllSpace(back)
    requires i < |s| && !IsSpace(s[i]) && !IsDigit(s[i])
    ensures ParseDecimal(mid) == None
  {
    assert forall k :: 0 <= k < |front| ==> s[k] == front[k];
    assert forall k :: |front| + |mid| <= k < |s| ==> s[k] == back[k - |front| - |mid|];
    OnlyDigitsParse(mid, i - |front|);
  }

  lemma HugeBodyNotDecoded(r: Response)
    requires Framable(r) && |r.body| >= MAX_PRINTED_LENGTH
    ensures DecodeMessage(PrintResponse(r)) == None
  {
    NothingMore(PrintResponse(r));
    DecodeAfterStatusLine(r, []);
    var value := CutLengthLine(|r.body|);
    hide Piece, Pieces, PrintResponse, DecodeMessage, PrintField, PrintFields, ReadSection, LengthLine, Unrelated;
    var fields, body := PrintFields(Pieces(r.headers)), Piece(r.body);
    CutLineNotDecoded(value, fields + (CRLF + (body + [])));
    Regroup(LengthLine(|r.body|), PrintField(KEEP_ALIVE_FIELD), fields, CRLF, body + []);
    Assoc(LengthLine(|r.body|), PrintField(KEEP_ALIVE_FIELD), fields + (CRLF + (body + [])));
    Assoc(LengthLine(|r.body|) + PrintField(KEEP_ALIVE_FIELD) + fields + CRLF, body, []);
  }

  /** Framing is right exactly for bodies below 2^31 bytes: beyond, `StringPiece` drops a
      multiple of 2^32 bytes of the body while the length line announces all of them. */
  lemma FramingIsRightIffSmall(r: Response)
    requires Framable(r)
    ensures DecodeMessage(PrintResponse(r)) == Some((r.body, [])) <==> Small(r.body)
  {
    NothingMore(PrintResponse(r));
    if Small(r.body) {
      DecodesOwnBody(r, []);
    } else if |r.body| >= MAX_PRINTED_LENGTH {
      HugeBodyNotDecoded(r);
    } else {
      DecodePrinted(r, []);
      hide PrintResponse, DecodeMessage;
      assert |Piece(r.body) + []| < |r.body|;
    }
  }

  /** A body of 2^32 bytes is such an input: no byte of it is sent. */
  lemma FramingBreaks(filler: byte)
    ensures var r := NewResponse(false).(body := seq(INT_RANGE, _ => filler));
            Framable(r) && Piece(r.body) == [] && DecodeMessage(PrintResponse(r)) != Some((r.body, []))
  {
    var r := NewResponse(false).(body := seq(INT_RANGE, _ => filler));
    FramingIsRightIffSmall(r);
  }
}
