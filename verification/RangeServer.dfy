/** The server's side of a resumed download: the Range parser, the If-Range
    check and the reply to a GET for a file, with the headers as text. */
module RangeServer {
  import opened Text
  import opened ChunkedBody
  import opened Basics
  import opened ResponseHead

  // ----- Range

  datatype RangeInfo = RangeInfo(present: bool, partial: bool, unsatisfiable: bool, offset: nat, length: nat)

  const NoRange := RangeInfo(false, false, false, 0, 0)
  const Ignored := RangeInfo(true, false, false, 0, 0)
  const Unsatisfiable := RangeInfo(true, false, true, 0, 0)

  function Min(a: nat, b: nat): nat { if a < b then a else b }

  /** The value of the Range header, absent when empty. Numbers past 64 bits
      make the parser throw, which ignores the header. */
  function ParseRange(range: string, fileSize: nat): RangeInfo {
    if range == "" then NoRange
    else if !("bytes=" <= range) then Ignored
    else
      var body := range[6..];
      var dash := FindChar(body, '-');
      if FindChar(body, ',') != NPOS || dash == NPOS then Ignored
      else
        var startS, endS := body[..dash], body[dash + 1..];
        if (startS == "" && endS == "") || !OnlyDigits(startS) || !OnlyDigits(endS) then Ignored
        else if startS == "" then
          var n := DecValue(endS);
          if n > U64_MAX then Ignored
          else if n == 0 || fileSize == 0 then Unsatisfiable
          else RangeInfo(true, true, false, fileSize - Min(n, fileSize), Min(n, fileSize))
        else
          var start := DecValue(startS);
          if start > U64_MAX then Ignored
          else if fileSize == 0 || start >= fileSize then Unsatisfiable
          else
            var end := if endS == "" then fileSize - 1 else DecValue(endS);
            if (endS != "" && end > U64_MAX) || end < start then Ignored
            else RangeInfo(true, true, false, start, Min(end, fileSize - 1) - start + 1)
  }

  /** A single byte range of RFC 7233 section 2.1. */
  datatype ByteRange = From(first: nat) | FromTo(first: nat, last: nat) | Suffix(count: nat)

  function RangeText(r: ByteRange): string {
    match r
    case From(a) => "bytes=" + (ToDec(a) + "-")
    case FromTo(a, b) => "bytes=" + (ToDec(a) + "-" + ToDec(b))
    case Suffix(n) => "bytes=" + ("-" + ToDec(n))
  }

  predicate Selected(r: ByteRange, size: nat, i: nat) {
    i < size &&
    match r
    case From(a) => a <= i
    case FromTo(a, b) => a <= i <= b
    case Suffix(n) => size <= i + n
  }

  predicate WellFormed(r: ByteRange) {
    match r
    case From(a) => a <= U64_MAX
    case FromTo(a, b) => a <= b <= U64_MAX
    case Suffix(n) => n <= U64_MAX
  }

  lemma SplitAtDash(a: string, b: string)
    requires OnlyDigits(a) && OnlyDigits(b)
    ensures FindChar(a + "-" + b, '-') == |a| && FindChar(a + "-" + b, ',') == NPOS
    ensures (a + "-" + b)[..|a|] == a && (a + "-" + b)[|a| + 1..] == b
  {
    var s := a + "-" + b;
    assert forall j :: 0 <= j < |a| ==> s[j] == a[j] && IsDigit(s[j]);
    FirstChar(s, '-', |a|, 0);
    assert s[|a|] == '-';
    assert forall j :: |a| < j < |s| ==> s[j] == b[j - |a| - 1] && IsDigit(s[j]);
  }

  lemma ParseParts(a: string, b: string, fileSize: nat)
    requires OnlyDigits(a) && OnlyDigits(b) && (a != "" || b != "")
    ensures var r := ParseRange("bytes=" + (a + "-" + b), fileSize);
            if a == "" then
              r == (if DecValue(b) > U64_MAX then Ignored
                    else if DecValue(b) == 0 || fileSize == 0 then Unsatisfiable
                    else RangeInfo(true, true, false, fileSize - Min(DecValue(b), fileSize), Min(DecValue(b), fileSize)))
            else if DecValue(a) > U64_MAX then r == Ignored
            else if fileSize == 0 || DecValue(a) >= fileSize then r == Unsatisfiable
            else
              var end := if b == "" then fileSize - 1 else DecValue(b);
              r == (if (b != "" && end > U64_MAX) || end < DecValue(a) then Ignored
                    else RangeInfo(true, true, false, DecValue(a), Min(end, fileSize - 1) - DecValue(a) + 1))
  {
    SplitAtDash(a, b);
    var range := "bytes=" + (a + "-" + b);
    assert range[6..] == a + "-" + b;
  }

  /** The parser finds exactly the bytes the range selects, and calls it unsatisfiable
      exactly when there are none. */
  ghost predicate Meant(r: ByteRange, size: nat, p: RangeInfo) {
    && p.present && p.partial == !p.unsatisfiable
    && (p.partial ==> p.length > 0 && p.offset + p.length <= size)
    && (forall i: nat :: Selected(r, size, i) <==> p.partial && p.offset <= i < p.offset + p.length)
  }

  lemma FromMeant(a: nat, size: nat)
    requires a <= U64_MAX
    ensures Meant(From(a), size, ParseRange(RangeText(From(a)), size))
  {
    ParseParts(ToDec(a), "", size);
    assert ToDec(a) + "-" + "" == ToDec(a) + "-";
  }

  lemma FromToMeant(a: nat, b: nat, size: nat)
    requires a <= b <= U64_MAX
    ensures Meant(FromTo(a, b), size, ParseRange(RangeText(FromTo(a, b)), size))
  {
    ParseParts(ToDec(a), ToDec(b), size);
  }

  lemma SuffixMeant(n: nat, size: nat)
    requires n <= U64_MAX
    ensures Meant(Suffix(n), size, ParseRange(RangeText(Suffix(n)), size))
  {
    ParseParts("", ToDec(n), size);
    assert "" + "-" + ToDec(n) == "-" + ToDec(n);
  }

  /** Every well-formed byte range, written out, is read as it is meant. */
  lemma RangeMeaning(r: ByteRange, size: nat)
    requires WellFormed(r)
    ensures Meant(r, size, ParseRange(RangeText(r), size))
  {
    match r
    case From(a) => FromMeant(a, size);
    case FromTo(a, b) => FromToMeant(a, b, size);
    case Suffix(n) => SuffixMeant(n, size);
  }

  // ----- If-Range and the reply

  datatype File = File(content: string, etag: string, lastModified: string)

  /** The two headers of a GET that matter here; an absent one is empty. */
  datatype Request = Request(range: string, ifRange: string)

  /** A quoted value is compared with the entity tag, any other with the date. */
  predicate IfRangeAllowsPartial(v: string, f: File) {
    if v == "" then true
    else if |v| >= 2 && v[0] == '"' && v[|v| - 1] == '"' then v == f.etag
    else v == f.lastModified
  }

  /** With a Content-Length, or chunked as the stream sender reads the file. */
  datatype Framing = ByLength | Streamed(chunkSize: nat) {
    predicate Valid() { Streamed? ==> chunkSize > 0 }
  }

  datatype Reply = Reply(head: Head, body: string)

  function ContentRangeValue(offset: nat, length: nat, size: nat): string
    requires length > 0
  {
    "bytes " + (ToDec(offset) + "-" + (ToDec(offset + length - 1) + "/" + ToDec(size)))
  }

  function FileLines(f: File): seq<(string, string)> {
    [("accept-ranges", "bytes"), ("last-modified", f.lastModified), ("etag", f.etag)]
  }

  function FramingLine(framing: Framing, length: nat): (string, string) {
    if framing.ByLength? then ("content-length", ToDec(length)) else ("transfer-encoding", "chunked")
  }

  /** The bytes of a file as the stream sender cuts them. */
  function Cut(s: string, chunkSize: nat): (parts: seq<string>)
    requires chunkSize > 0
    ensures Flatten(parts) == s && forall i :: 0 <= i < |parts| ==> 0 < |parts[i]| <= chunkSize
  {
    if s == "" then []
    else
      var n := Min(chunkSize, |s|);
      assert s[..n] + s[n..] == s;
      [s[..n]] + Cut(s[n..], chunkSize)
  }

  function BodyText(framing: Framing, content: string): string
    requires framing.Valid()
  {
    if framing.ByLength? then content else Encode(Canonical(Cut(content, framing.chunkSize)), ToHex(0), CRLF)
  }

  function Effective(req: Request, f: File): RangeInfo {
    if IfRangeAllowsPartial(req.ifRange, f) then ParseRange(req.range, |f.content|) else NoRange
  }

  const ERROR_416 := "{\"error\":{\"code\":416,\"message\":\"Range not satisfiable\"}}"

  function ErrorReply(f: File): Reply {
    Reply(Head(Some(416), [("content-range", "bytes */" + ToDec(|f.content|)), ("content-length", ToDec(|ERROR_416|))]),
          ERROR_416)
  }

  function PartialLines(f: File, framing: Framing, offset: nat, length: nat): seq<(string, string)>
    requires length > 0
  {
    FileLines(f) + [("content-range", ContentRangeValue(offset, length, |f.content|)), FramingLine(framing, length)]
  }

  function FullLines(f: File, framing: Framing): seq<(string, string)> {
    FileLines(f) + [FramingLine(framing, |f.content|)]
  }

  function Serve(req: Request, f: File, framing: Framing): Reply
    requires framing.Valid()
  {
    var r := Effective(req, f);
    if r.unsatisfiable then ErrorReply(f)
    else if r.partial then
      RangePartial(req, f);
      Reply(Head(Some(206), PartialLines(f, framing, r.offset, r.length)),
            BodyText(framing, f.content[r.offset..r.offset + r.length]))
    else Reply(Head(Some(200), FullLines(f, framing)), BodyText(framing, f.content))
  }

  lemma RangePartial(req: Request, f: File)
    ensures var r := Effective(req, f);
            r.partial ==> r.length > 0 && r.offset + r.length <= |f.content| && !r.unsatisfiable
  {
  }

  // ----- The reply as the download client reads it

  lemma ParseTwo(i: Info, n: nat, line: (string, string), rest: seq<(string, string)>)
    ensures ParseLines(i, n, [line] + rest) ==
            (match ParseLine(i, n, line.0, line.1)
             case BadLine => BadLine
             case Lines(i', n') => ParseLines(i', n', rest))
  {
    assert ([line] + rest)[1..] == rest;
  }

  lemma ParseFileLines(status: nat, f: File, rest: seq<(string, string)>)
    ensures ParseLines(NoInfo.(status := status), 0, FileLines(f) + rest)
         == ParseLines(NoInfo.(status := status, meta := Meta(f.etag, f.lastModified)), 0, rest)
  {
    var i := NoInfo.(status := status);
    var a, b, c := ("accept-ranges", "bytes"), ("last-modified", f.lastModified), ("etag", f.etag);
    assert FileLines(f) + rest == [a] + ([b] + ([c] + rest));
    ParseTwo(i, 0, a, [b] + ([c] + rest));
    ParseTwo(i, 0, b, [c] + rest);
    ParseTwo(i.(meta := i.meta.(lastModified := f.lastModified)), 0, c, rest);
  }

  lemma TrimDigits(s: string)
    requires OnlyDigits(s)
    ensures Trim(s) == s
  {
  }

  lemma ContentRangeRead(offset: nat, length: nat, size: nat)
    requires length > 0 && offset <= U64_MAX
    ensures ContentRangeFirst(ContentRangeValue(offset, length, size)) == Some(offset)
  {
    var a := ToDec(offset);
    var tail := ToDec(offset + length - 1) + "/" + ToDec(size);
    var v := ContentRangeValue(offset, length, size);
    assert v == "bytes " + (a + "-" + tail);
    assert forall j :: 6 <= j < 6 + |a| ==> v[j] == a[j - 6] && IsDigit(v[j]);
    FirstChar(v, '-', 6 + |a|, 6);
    assert v[6..6 + |a|] == a;
    TrimDigits(a);
  }

  lemma ChunkedValue()
    ensures Contains(ToLower("chunked"), "chunked")
  {
    assert ToLower("chunked") == "chunked";
  }

  lemma ParseFraming(i: Info, framing: Framing, length: nat)
    requires length <= U64_MAX
    ensures ParseLines(i, 0, [FramingLine(framing, length)]) ==
            (if framing.ByLength? then Lines(i.(hasLength := true, length := length), 1)
             else Lines(i.(chunked := true), 0))
  {
    var line := FramingLine(framing, length);
    assert [line] == [line] + [];
    ParseTwo(i, 0, line, []);
    ChunkedValue();
  }

  function InfoOf(status: nat, f: File, framing: Framing, length: nat): Info {
    var i := NoInfo.(status := status, meta := Meta(f.etag, f.lastModified));
    if framing.ByLength? then i.(hasLength := true, length := length) else i.(chunked := true)
  }

  lemma ReadFull(f: File, framing: Framing)
    requires |f.content| <= U64_MAX
    ensures ParseHead(Head(Some(200), FullLines(f, framing)))
         == Parsed(InfoOf(200, f, framing, |f.content|))
  {
    ParseFileLines(200, f, [FramingLine(framing, |f.content|)]);
    ParseFraming(NoInfo.(status := 200, meta := Meta(f.etag, f.lastModified)), framing, |f.content|);
  }

  lemma ReadPartial(f: File, framing: Framing, offset: nat, length: nat)
    requires length > 0 && offset + length <= |f.content| <= U64_MAX
    ensures ParseHead(Head(Some(206), PartialLines(f, framing, offset, length)))
         == Parsed(InfoOf(206, f, framing, length).(hasRange := true, rangeFirst := offset))
  {
    var cr := ("content-range", ContentRangeValue(offset, length, |f.content|));
    var fl := FramingLine(framing, length);
    ParseFileLines(206, f, [cr, fl]);
    var i := NoInfo.(status := 206, meta := Meta(f.etag, f.lastModified));
    assert [cr, fl] == [cr] + [fl];
    ParseTwo(i, 0, cr, [fl]);
    ContentRangeRead(offset, length, |f.content|);
    ParseFraming(i.(hasRange := true, rangeFirst := offset), framing, length);
  }

  lemma ReadError(f: File)
    ensures ParseHead(ErrorReply(f).head)
         == Parsed(NoInfo.(status := 416, hasLength := true, length := |ERROR_416|))
  {
    var v := "bytes */" + ToDec(|f.content|);
    assert v[6] == '*' && v[7] == '/' && forall j :: 8 <= j < |v| ==> IsDigit(v[j]);
    assert ContentRangeFirst(v) == None;
    var a, b := ("content-range", v), ("content-length", ToDec(|ERROR_416|));
    var i := NoInfo.(status := 416);
    assert ErrorReply(f).head.lines == [a] + [b] && [b] == [b] + [];
    ParseTwo(i, 0, a, [b]);
    ParseTwo(i, 0, b, []);
  }

  function ReplyInfo(req: Request, f: File, framing: Framing): Info {
    var r := Effective(req, f);
    if r.unsatisfiable then NoInfo.(status := 416, hasLength := true, length := |ERROR_416|)
    else if r.partial then InfoOf(206, f, framing, r.length).(hasRange := true, rangeFirst := r.offset)
    else InfoOf(200, f, framing, |f.content|)
  }

  /** The client's parser reads from every reply what the server meant by it. */
  lemma ReplyRead(req: Request, f: File, framing: Framing)
    requires framing.Valid() && |f.content| <= U64_MAX
    ensures ParseHead(Serve(req, f, framing).head) == Parsed(ReplyInfo(req, f, framing))
  {
    var r := Effective(req, f);
    RangePartial(req, f);
    if r.unsatisfiable {
      ReadError(f);
    } else if r.partial {
      ReadPartial(f, framing, r.offset, r.length);
    } else {
      ReadFull(f, framing);
    }
  }
}
