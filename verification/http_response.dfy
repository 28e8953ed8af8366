/** `HttpResponse` and its printer. */
module HttpResponses {
  import opened Bytes
  import opened Buffers
  import opened Decimals
  import opened HttpPrinting

  datatype Status = UnknownStatus | Ok200 | MovedPermanently301 | BadRequest400 | NotFound404

  function Code(s: Status): nat {
    match s
    case UnknownStatus => 0
    case Ok200 => 200
    case MovedPermanently301 => 301
    case BadRequest400 => 400
    case NotFound404 => 404
  }

  /** `headers` are the entries of `headers_` in the order in which the map iterates. */
  datatype Response = Response(status: Status, message: bytes, close: bool, headers: seq<(bytes, bytes)>, body: bytes)

  /** The constructor: only the close flag is given. */
  function NewResponse(close: bool): Response {
    Response(UnknownStatus, [], close, [], [])
  }

  /** The default callback. */
  function NotFound(r: Response): Response {
    r.(status := NotFound404, message := "Not Found", close := true)
  }

  const CONTENT_LENGTH: bytes := "Content-Length"
  const CONNECTION: bytes := "Connection"
  const KEEP_ALIVE: bytes := "Keep-Alive"
  const CLOSE: bytes := "close"
  const HTTP11_SPACE: bytes := "HTTP/1.1 "

  /** `snprintf` into `char buf[32]`: at most 31 characters survive. */
  const FORMAT_SIZE: nat := 32

  function Format(s: bytes): (r: bytes)
    ensures |s| < FORMAT_SIZE ==> r == s
  {
    if |s| < FORMAT_SIZE then s else s[..FORMAT_SIZE - 1]
  }

  function StatusStart(s: Status): bytes {
    Format(HTTP11_SPACE + Decimal(Code(s)) + [' '])
  }

  function LengthField(n: nat): (bytes, bytes) {
    (CONTENT_LENGTH, Decimal(n))
  }

  function LengthLine(n: nat): bytes {
    Format(PrintField(LengthField(n)))
  }

  const CLOSE_FIELD: (bytes, bytes) := (CONNECTION, CLOSE)
  const KEEP_ALIVE_FIELD: (bytes, bytes) := (CONNECTION, KEEP_ALIVE)

  function Pieces(fields: seq<(bytes, bytes)>): seq<(bytes, bytes)> {
    if fields == [] then [] else [(Piece(fields[0].0), Piece(fields[0].1))] + Pieces(fields[1..])
  }

  /** The fields the printer adds itself. */
  function PrintOwnFields(r: Response): bytes {
    if r.close then PrintField(CLOSE_FIELD) else LengthLine(|r.body|) + PrintField(KEEP_ALIVE_FIELD)
  }

  function PrintHead(r: Response): bytes {
    StatusStart(r.status) + Piece(r.message) + CRLF + PrintOwnFields(r)
  }

  function PrintResponse(r: Response): bytes {
    PrintHead(r) + PrintFields(Pieces(r.headers)) + CRLF + Piece(r.body)
  }

  /** Every text goes through `StringPiece`, whose `int` length must not come out negative. */
  predicate Appendable(r: Response) {
    && PieceLengthValid(|r.message|) && PieceLengthValid(|r.body|)
    && forall i :: 0 <= i < |r.headers| ==> PieceLengthValid(|r.headers[i].0|) && PieceLengthValid(|r.headers[i].1|)
  }

  lemma {:induction false} PrintFieldsSnoc(fields: seq<(bytes, bytes)>, i: nat)
    requires i < |fields|
    ensures PrintFields(Pieces(fields[..i + 1]))
            == PrintFields(Pieces(fields[..i])) + PrintField((Piece(fields[i].0), Piece(fields[i].1)))
    decreases i
  {
    hide Piece, FieldLine;
    if i == 0 {
      assert fields[..1] == [fields[0]];
      assert Pieces(fields[..1]) == [(Piece(fields[0].0), Piece(fields[0].1))];
    } else {
      PrintFieldsSnoc(fields[1..], i - 1);
      assert fields[..i + 1][1..] == fields[1..][..i] && fields[..i][1..] == fields[1..][..i - 1];
      assert Pieces(fields[..i + 1])[1..] == Pieces(fields[1..][..i]);
      assert Pieces(fields[..i])[1..] == Pieces(fields[1..][..i - 1]);
    }
  }

  /** `appendToBuffer`: the printed response is appended, and the buffer's contents stay in front. */
  method AppendToBuffer(r: Response, output: Buffer)
    requires output.Valid() && Appendable(r)
    modifies output, output.store
    ensures output.Valid()
    ensures output.Contents() == old(output.Contents()) + PrintResponse(r)
    ensures output.store == old(output.store) || fresh(output.store)
  {
    PrintedParts(r, output.Contents());
    hide PrintHead, PrintFields, Pieces, Piece, PrintResponse;
    AppendHead(r, output);
    AppendHeaders(r.headers, output);
    output.Append(CRLF);
    output.AppendPiece(r.body);
  }

  /** The loop over the map of the response's own fields. */
  method AppendHeaders(headers: seq<(bytes, bytes)>, output: Buffer)
    requires output.Valid()
    requires forall i :: 0 <= i < |headers| ==> PieceLengthValid(|headers[i].0|) && PieceLengthValid(|headers[i].1|)
    modifies output, output.store
    ensures output.Valid()
    ensures output.Contents() == old(output.Contents()) + PrintFields(Pieces(headers))
    ensures output.store == old(output.store) || fresh(output.store)
  {
    assert headers[..0] == [] && PrintFields(Pieces([])) == [];
    hide PrintField, PrintFields, Pieces, Piece;
    ghost var before := output.Contents();
    NothingMore(before);
    var i := 0;
    while i < |headers|
      invariant 0 <= i <= |headers|
      invariant output.Valid() && (output.store == old(output.store) || fresh(output.store))
      invariant output.Contents() == before + PrintFields(Pieces(headers[..i]))
    {
      AppendHeader(headers[i], output);
      PrintFieldsSnoc(headers, i);
      Assoc(before, PrintFields(Pieces(headers[..i])), PrintField((Piece(headers[i].0), Piece(headers[i].1))));
      i := i + 1;
    }
    assert headers[..i] == headers;
  }

  lemma PrintedParts(r: Response, o: bytes)
    ensures PrintHead(r) == StatusStart(r.status) + Piece(r.message) + CRLF + PrintOwnFields(r)
    ensures o + PrintHead(r) + PrintFields(Pieces(r.headers)) + CRLF + Piece(r.body) == o + PrintResponse(r)
  {
    hide StatusStart, PrintField, Piece, PrintOwnFields;
    Join(o, PrintHead(r), PrintFields(Pieces(r.headers)), CRLF, Piece(r.body));
  }

  method AppendHead(r: Response, output: Buffer)
    requires output.Valid() && Appendable(r)
    modifies output, output.store
    ensures output.Valid()
    ensures output.Contents() == old(output.Contents()) + PrintHead(r)
    ensures output.store == old(output.store) || fresh(output.store)
  {
    hide PrintHead, PrintOwnFields, PrintField, PrintFields, Pieces, Piece, StatusStart, PrintResponse;
    ghost var before := output.Contents();
    output.Append(StatusStart(r.status));
    output.AppendPiece(r.message);
    output.Append(CRLF);
    assert output.Contents() == before + StatusStart(r.status) + Piece(r.message) + CRLF;
    AppendOwnFields(r, output);
    Join(before, StatusStart(r.status), Piece(r.message), CRLF, PrintOwnFields(r));
    PrintedParts(r, before);
  }

  method AppendOwnFields(r: Response, output: Buffer)
    requires output.Valid()
    modifies output, output.store
    ensures output.Valid()
    ensures output.Contents() == old(output.Contents()) + PrintOwnFields(r)
    ensures output.store == old(output.store) || fresh(output.store)
  {
    hide LengthLine, PrintField;
    if r.close {
      output.Append(PrintField(CLOSE_FIELD));
    } else {
      output.Append(LengthLine(|r.body|));
      output.Append(PrintField(KEEP_ALIVE_FIELD));
    }
  }

  method AppendHeader(f: (bytes, bytes), output: Buffer)
    requires output.Valid() && PieceLengthValid(|f.0|) && PieceLengthValid(|f.1|)
    modifies output, output.store
    ensures output.Valid()
    ensures output.Contents() == old(output.Contents()) + PrintField((Piece(f.0), Piece(f.1)))
    ensures output.store == old(output.store) || fresh(output.store)
  {
    hide Piece;
    ghost var before := output.Contents();
    output.AppendPiece(f.0);
    output.Append([':'] + [' ']);
    output.AppendPiece(f.1);
    output.Append(CRLF);
    Join(before, Piece(f.0), [':'] + [' '], Piece(f.1), CRLF);
    assert Piece(f.0) + ([':'] + [' ']) == Piece(f.0) + [':'] + [' '];
  }
}
