/** The stateless filters of an edit and the on-demand message body they read
    (backup/filter.go, backup/headers.go). */
module Filter {
  import opened Text
  import opened Archive

  type Header = map<string, seq<string>>

  datatype DropKind =
    | DropSequence | DropTime | DropSubject | DropHeader | DropPayload | DropLastPerSubject | DropKVCompact

  datatype HeaderMatch = HeaderMatch(name: string, value: string)

  /** editOptions, as far as they select messages. */
  datatype Options = Options(
    firstSeq: Option<uint64>, lastSeq: Option<uint64>,
    after: Option<int>, before: Option<int>,
    subjects: seq<string>, excludeSubjects: seq<string>,
    headerPresent: seq<string>, headerValues: seq<HeaderMatch>, noHeader: seq<string>,
    payloadMatch: seq<seq<byte> -> bool>, excludePayloadMatch: seq<seq<byte> -> bool>,
    lastPerSubject: nat, kvCompact: bool, renumber: bool)
  {
    predicate PerSubject() {
      lastPerSubject > 0 || kvCompact
    }

    predicate HasHeaderFilters() {
      headerPresent != [] || headerValues != [] || noHeader != []
    }

    predicate HasPayloadFilters() {
      payloadMatch != [] || excludePayloadMatch != []
    }
  }

  /** The library calls the filters make: subject overlap, header decoding and
      case-insensitive name comparison. */
  datatype Library = Library(collide: (string, string) -> bool,
                             decodeHeaders: seq<byte> -> Option<Header>,
                             equalFold: (string, string) -> bool)

  /* ---------- The filters ---------- */

  predicate MatchesAny(lib: Library, patterns: seq<string>, subject: string) {
    exists i :: 0 <= i < |patterns| && lib.collide(patterns[i], subject)
  }

  /** evalMeta; None keeps the message. */
  function EvalMeta(lib: Library, o: Options, m: Message): Option<DropKind> {
    if (o.firstSeq.Some? && m.seqno < o.firstSeq.value) || (o.lastSeq.Some? && m.seqno > o.lastSeq.value) then Some(DropSequence)
    else if (o.after.Some? && m.ts < o.after.value) || (o.before.Some? && m.ts >= o.before.value) then Some(DropTime)
    else if MatchesAny(lib, o.excludeSubjects, m.subject) then Some(DropSubject)
    else if o.subjects != [] && !MatchesAny(lib, o.subjects, m.subject) then Some(DropSubject)
    else None
  }

  /** Some header matching `name` has a value. */
  predicate HasHeader(lib: Library, h: Header, name: string) {
    exists k :: k in h && lib.equalFold(k, name) && h[k] != []
  }

  predicate HasHeaderValue(lib: Library, h: Header, name: string, value: string) {
    exists k :: k in h && lib.equalFold(k, name) && value in h[k]
  }

  /** evalHeaders */
  function EvalHeaders(lib: Library, o: Options, h: Header): Option<DropKind> {
    if exists i :: 0 <= i < |o.noHeader| && HasHeader(lib, h, o.noHeader[i]) then Some(DropHeader)
    else if o.headerPresent == [] && o.headerValues == [] then None
    else if exists i :: 0 <= i < |o.headerPresent| && HasHeader(lib, h, o.headerPresent[i]) then None
    else if exists i :: 0 <= i < |o.headerValues| && HasHeaderValue(lib, h, o.headerValues[i].name, o.headerValues[i].value) then None
    else Some(DropHeader)
  }

  /** evalPayload */
  function EvalPayload(o: Options, payload: seq<byte>): Option<DropKind> {
    if exists i :: 0 <= i < |o.excludePayloadMatch| && o.excludePayloadMatch[i](payload) then Some(DropPayload)
    else if o.payloadMatch == [] then None
    else if exists i :: 0 <= i < |o.payloadMatch| && o.payloadMatch[i](payload) then None
    else Some(DropPayload)
  }

  /** Header.Get: the first value, or the empty string. */
  function HeaderGet(h: Header, key: string): string {
    if key in h && h[key] != [] then h[key][0] else ""
  }

  /** isTombstone: a KV operation decides when present, else a limit marker. */
  predicate IsTombstone(h: Header) {
    var op := HeaderGet(h, "KV-Operation");
    if op != "" then op == "DEL" || op == "PURGE"
    else HeaderGet(h, "Nats-Marker-Reason") in {"MaxAge", "Purge", "Remove"}
  }

  /* ---------- Reading a body on demand ---------- */

  /** The headers of a message: none without a header block, an error when the
      block is cut short or does not decode. */
  function HeadersOf(lib: Library, m: Message): Option<Header> {
    if m.hdrSize == 0 then Some(map[])
    else if |m.body| < m.hdrSize then None
    else lib.decodeHeaders(m.body[..m.hdrSize])
  }

  function PayloadOf(m: Message): Option<seq<byte>> {
    if |m.body| < m.hdrSize + m.payloadSize then None
    else Some(m.body[m.hdrSize..m.hdrSize + m.payloadSize])
  }

  /** msgBody: buffers a prefix of the body, leaving the rest in the reader. */
  class MsgBody {
    const lib: Library
    const m: Message
    var unread: seq<byte>
    var buf: seq<byte>
    var hdr: Header
    var decoded: bool

    ghost predicate Valid()
      reads this
    {
      && buf + unread == m.body
      && (decoded ==> HeadersOf(lib, m) == Some(hdr))
    }

    constructor (lib: Library, m: Message)
      ensures Valid() && this.m == m && this.lib == lib
    {
      this.lib, this.m := lib, m;
      unread, buf, hdr, decoded := m.body, [], map[], false;
    }

    /** prefix: the first n bytes, read from the body only as far as needed. */
    method Prefix(n: nat) returns (r: Option<seq<byte>>)
      requires Valid()
      modifies this`unread, this`buf
      ensures r == if n <= |m.body| then Some(m.body[..n]) else None
      ensures r.Some? ==> Valid()
    {
      if |buf| >= n {
        assert m.body[..n] == buf[..n];
        return Some(buf[..n]);
      }
      var missing := n - |buf|;
      if |unread| < missing {
        unread := [];
        return None;
      }
      var grown := buf + unread[..missing];
      unread := unread[missing..];
      buf := grown;
      assert m.body[..n] == grown;
      return Some(buf);
    }

    method Headers() returns (r: Option<Header>)
      requires Valid()
      modifies this
      ensures r == HeadersOf(lib, m)
      ensures r.Some? ==> Valid()
    {
      if decoded {
        return Some(hdr);
      }
      var h: Header := map[];
      if m.hdrSize > 0 {
        var raw := Prefix(m.hdrSize);
        if raw.None? {
          return None;
        }
        var parsed := lib.decodeHeaders(raw.value);
        if parsed.None? {
          return None;
        }
        h := parsed.value;
      }
      hdr, decoded := h, true;
      return Some(hdr);
    }

    method Payload() returns (r: Option<seq<byte>>)
      requires Valid()
      modifies this`unread, this`buf
      ensures r == PayloadOf(m)
      ensures r.Some? ==> Valid()
    {
      var all := Prefix(m.hdrSize + m.payloadSize);
      if all.None? {
        return None;
      }
      return Some(all.value[m.hdrSize..]);
    }

    /** reader: whatever has been read already, the whole body comes out. */
    method Reader() returns (r: seq<byte>)
      requires Valid()
      ensures r == m.body
    {
      r := buf + unread;
    }
  }
}
