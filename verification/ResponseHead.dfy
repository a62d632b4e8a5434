/** The fail-closed parser of a response head: which heads it refuses and what it
    keeps of the others. */
module ResponseHead {
  import opened Basics
  import opened Text

  /** The validators of a response, as the sidecar file stores them. */
  datatype Meta = Meta(etag: string, lastModified: string)

  const NoMeta := Meta("", "")

  /** A head as received: names lower-cased, names and values trimmed. A status
      line that is not well formed has no status. */
  datatype Head = Head(status: Option<nat>, lines: seq<(string, string)>)

  /** What a session keeps of a head. */
  datatype Info = Info(
    status: nat, chunked: bool, hasLength: bool, length: nat, hasRange: bool, rangeFirst: nat, meta: Meta)

  const NoInfo := Info(0, false, false, 0, false, 0, NoMeta)

  datatype Verdict = Interim | Refused | Parsed(info: Info)

  function ToLowerChar(c: char): char { if 'A' <= c <= 'Z' then (c as int + 32) as char else c }

  function ToLower(s: string): string { seq(|s|, i requires 0 <= i < |s| => ToLowerChar(s[i])) }

  predicate Contains(s: string, t: string) {
    if |s| < |t| then false else t <= s || (s != "" && Contains(s[1..], t))
  }

  predicate IsSpace(c: char) { c == ' ' || c == '\t' || c == '\r' || c == '\n' }

  function TrimLeft(s: string): string {
    if s != "" && IsSpace(s[0]) then TrimLeft(s[1..]) else s
  }

  function TrimRight(s: string): string {
    if s != "" && IsSpace(s[|s| - 1]) then TrimRight(s[..|s| - 1]) else s
  }

  function Trim(s: string): string { TrimRight(TrimLeft(s)) }

  /** The first byte position of a "bytes first-last/total" value. */
  function ContentRangeFirst(val: string): Option<nat> {
    if !("bytes " <= val) then None
    else
      var dash := FindChar(val, '-', 6);
      if dash == NPOS then None
      else
        var num := Trim(val[6..dash]);
        if AllDigits(num) then Some(StrToU64(num)) else None
  }

  datatype LineResult = BadLine | Lines(info: Info, lengths: nat)

  function ParseLine(i: Info, lengths: nat, key: string, val: string): LineResult {
    if key == "content-length" then
      if AllDigits(val) then Lines(i.(hasLength := true, length := StrToU64(val)), lengths + 1) else BadLine
    else if key == "transfer-encoding" then
      Lines(i.(chunked := Contains(ToLower(val), "chunked")), lengths)
    else if key == "content-encoding" then
      if val == "" || ToLower(val) == "identity" then Lines(i, lengths) else BadLine
    else if key == "content-range" then
      var f := ContentRangeFirst(val);
      Lines(i.(hasRange := f.Some?, rangeFirst := if f.Some? then f.value else 0), lengths)
    else if key == "etag" then Lines(i.(meta := i.meta.(etag := val)), lengths)
    else if key == "last-modified" then Lines(i.(meta := i.meta.(lastModified := val)), lengths)
    else Lines(i, lengths)
  }

  function ParseLines(i: Info, lengths: nat, lines: seq<(string, string)>): LineResult
    decreases |lines|
  {
    if lines == [] then Lines(i, lengths)
    else
      match ParseLine(i, lengths, lines[0].0, lines[0].1)
      case BadLine => BadLine
      case Lines(i', n) => ParseLines(i', n, lines[1..])
  }

  /** An interim 100 head is skipped; a repeated length refuses the head as a whole. */
  function ParseHead(h: Head): Verdict {
    if h.status.None? then Refused
    else if h.status.value == 100 then Interim
    else
      match ParseLines(NoInfo.(status := h.status.value), 0, h.lines)
      case BadLine => Refused
      case Lines(i, n) => if n > 1 then Refused else Parsed(i)
  }
}
