/** Header fields and requests in their printed form (sections 3.1.1 and 3.2.4 of RFC 7230),
    and the parser as the inverse of printing. */
module HttpPrinting {
  import opened Bytes
  import opened HttpRequests
  import opened HttpContexts

  function PrintFields(fields: seq<(bytes, bytes)>): bytes {
    if fields == [] then [] else PrintField(fields[0]) + PrintFields(fields[1..])
  }

  function FieldLine(f: (bytes, bytes)): bytes {
    f.0 + [':'] + [' '] + f.1
  }

  function PrintField(f: (bytes, bytes)): bytes {
    FieldLine(f) + CRLF
  }

  /** The last field of a name wins. */
  function FieldMap(headers: map<bytes, bytes>, fields: seq<(bytes, bytes)>): map<bytes, bytes>
    decreases |fields|
  {
    if fields == [] then headers else FieldMap(headers[fields[0].0 := fields[0].1], fields[1..])
  }

  predicate PlainField(f: (bytes, bytes)) {
    ':' !in f.0 && Trimmed(f.1) && NoCRLF(f.0) && NoCRLF(f.1)
  }

  predicate PlainFields(fields: seq<(bytes, bytes)>) {
    forall i :: 0 <= i < |fields| ==> PlainField(fields[i])
  }

  lemma NoCRLFAround(a: bytes, c: byte, b: bytes)
    requires NoCRLF(a) && NoCRLF(b) && c != '\r' && c != '\n'
    ensures NoCRLF(a + [c] + b)
  {
    var s := a + [c] + b;
    forall i | 0 <= i < |s| ensures !CRLFAt(s, i) {
      assert i < |a| ==> !CRLFAt(a, i);
      assert i > |a| ==> !CRLFAt(b, i - |a| - 1) && s[i] == b[i - |a| - 1];
    }
  }

  /** A field as a client may write it: white space before and after the value. */
  datatype Written = Written(name: bytes, front: bytes, value: bytes, back: bytes)

  function WrittenLine(f: Written): bytes {
    f.name + [':'] + (f.front + f.value + f.back)
  }

  function WriteFields(fields: seq<Written>): bytes {
    if fields == [] then [] else WrittenLine(fields[0]) + CRLF + WriteFields(fields[1..])
  }

  /** Names and values, without the white space. */
  function Meanings(fields: seq<Written>): (r: seq<(bytes, bytes)>)
    ensures |r| == |fields|
  {
    if fields == [] then [] else [(fields[0].name, fields[0].value)] + Meanings(fields[1..])
  }

  predicate Readable(f: Written) {
    ':' !in f.name && AllSpace(f.front) && Trimmed(f.value) && AllSpace(f.back) && NoCRLF(WrittenLine(f))
  }

  predicate AllReadable(fields: seq<Written>) {
    forall i :: 0 <= i < |fields| ==> Readable(fields[i])
  }

  lemma WrittenLineReads(headers: map<bytes, bytes>, f: Written)
    requires Readable(f)
    ensures ':' in WrittenLine(f) && AddHeaderLine(headers, WrittenLine(f)) == headers[f.name := f.value]
  {
    HeaderStored(headers, f.name, f.front, f.value, f.back);
  }

  lemma ParseOneLine(p: Parser, line: bytes, rest: bytes)
    requires Resumable(p) && NoCRLF(line) && TakeLine(p, line).More?
    ensures Parse(p, line + CRLF + rest) == Parse(TakeLine(p, line).parser, rest)
  {
    var s := line + CRLF + rest;
    FindCRLFAfterLine(line, rest);
    assert s[..|line|] == line && s[|line| + 2..] == rest;
  }

  /** A field section followed by an empty line is read back, whatever white space surrounds the
      values; the last field of a name wins. */
  lemma {:induction false} FieldsRoundTrip(r: Request, fields: seq<Written>, following: bytes)
    requires AllReadable(fields)
    ensures Parse(Parser(ExpectHeaders, r), WriteFields(fields) + CRLF + following)
            == Outcome(true, Parser(GotAll, r.(headers := FieldMap(r.headers, Meanings(fields)))), following)
    decreases |fields|
  {
    var s := WriteFields(fields) + CRLF + following;
    if fields == [] {
      FindCRLFAfterLine([], following);
      assert s == [] + CRLF + following;
      assert s[..0] == [] && s[2..] == following;
      assert TakeLine(Parser(ExpectHeaders, r), []).Complete?;
    } else {
      var f, later := fields[0], WriteFields(fields[1..]) + CRLF + following;
      WrittenLineReads(r.headers, f);
      assert s == WrittenLine(f) + CRLF + later;
      ParseOneLine(Parser(ExpectHeaders, r), WrittenLine(f), later);
      FieldsRoundTrip(r.(headers := r.headers[f.name := f.value]), fields[1..], following);
      assert Meanings(fields)[1..] == Meanings(fields[1..]);
      hide Parse, WrittenLine, WriteFields;
    }
  }

  /** As the printer of responses writes them: one blank before the value, none after it. */
  function AsPrinted(fields: seq<(bytes, bytes)>): seq<Written> {
    if fields == [] then [] else [Written(fields[0].0, [' '], fields[0].1, [])] + AsPrinted(fields[1..])
  }

  lemma {:induction false} PrintedIsWritten(fields: seq<(bytes, bytes)>)
    requires PlainFields(fields)
    ensures WriteFields(AsPrinted(fields)) == PrintFields(fields) && AllReadable(AsPrinted(fields))
    ensures Meanings(AsPrinted(fields)) == fields
    decreases |fields|
  {
    if fields != [] {
      PrintedIsWritten(fields[1..]);
      PrintedLine(fields[0]);
      var ws := AsPrinted(fields);
      assert ws[1..] == AsPrinted(fields[1..]);
      assert fields == [fields[0]] + fields[1..];
      hide WrittenLine, FieldLine, Readable;
    }
  }

  lemma PrintedLine(f: (bytes, bytes))
    requires PlainField(f)
    ensures var w := Written(f.0, [' '], f.1, []); Readable(w) && WrittenLine(w) == FieldLine(f)
  {
    NoCRLFAround([], ' ', f.1);
    assert [] + [' '] + f.1 == [' '] + f.1 == [' '] + f.1 + [];
    NoCRLFAround(f.0, ':', [' '] + f.1);
    Assoc(f.0 + [':'], [' '], f.1);
  }

  function RequestLine(m: Method, path: bytes, query: bytes, v: Version): bytes
    requires v != Unknown
  {
    MethodText(m) + [' '] + (path + query + [' '] + VersionText(v))
  }

  function PrintRequest(m: Method, path: bytes, query: bytes, v: Version, fields: seq<Written>): bytes
    requires v != Unknown
  {
    RequestLine(m, path, query, v) + CRLF + WriteFields(fields) + CRLF
  }

  predicate PlainTarget(path: bytes, query: bytes) {
    && ' ' !in path && '?' !in path && ' ' !in query
    && (query == [] || query[0] == '?')
    && NoCRLF(path) && NoCRLF(query)
  }

  lemma RequestLineHasNoCRLF(m: Method, path: bytes, query: bytes, v: Version)
    requires v != Unknown && PlainTarget(path, query)
    ensures NoCRLF(RequestLine(m, path, query, v))
  {
    if query == [] {
      assert path + query == path;
    } else {
      assert NoCRLF(query[1..]) by {
        assert forall i :: 0 <= i < |query| - 1 ==> (CRLFAt(query[1..], i) <==> CRLFAt(query, i + 1));
      }
      NoCRLFAround(path, '?', query[1..]);
      assert path + query == path + ['?'] + query[1..];
    }
    hide MethodText, VersionText;
    TextsRead(m, v);
    NoCRLFAround(path + query, ' ', VersionText(v));
    NoCRLFAround(MethodText(m), ' ', path + query + [' '] + VersionText(v));
  }

  /** Parsing the printed form of a request gives the request back, and leaves what follows it. */
  lemma RequestRoundTrip(m: Method, path: bytes, query: bytes, v: Version, fields: seq<Written>,
                         following: bytes)
    requires m != Invalid && v != Unknown && PlainTarget(path, query) && AllReadable(fields)
    ensures Parse(START, PrintRequest(m, path, query, v, fields) + following)
            == Outcome(true, Parser(GotAll, Request(m, v, path, query, FieldMap(map[], Meanings(fields)))), following)
  {
    hide MethodText, VersionText, ReadRequestLine, WithTarget, WriteFields, FieldMap, Meanings;
    var line, later := RequestLine(m, path, query, v), WriteFields(fields) + CRLF + following;
    assert PrintRequest(m, path, query, v, fields) + following == line + CRLF + later;
    RequestLineHasNoCRLF(m, path, query, v);
    RequestLineRead(FRESH, line, m, path + query, v);
    TargetOfParts(path, query);
    ParseOneLine(START, line, later);
    FieldsRoundTrip(Request(m, v, path, query, map[]), fields, following);
  }

  lemma TargetOfParts(path: bytes, query: bytes)
    requires PlainTarget(path, query)
    ensures forall r: Request :: r.query == [] ==> WithTarget(r, path + query) == r.(path := path, query := query)
  {
    var target := path + query;
    if query == [] {
      assert target == path;
    } else {
      assert target == path + ['?'] + query[1..];
      SplitAtFirst(path, '?', query[1..]);
      assert target[|path|..] == query;
    }
  }
}
