/** The bounded clamd INSTREAM exchange: framing, the bounded receive loop and the verdict of a reply. */
module Clamd {
  import opened ByteStrings
  import opened Collections
  import opened Paging
  import opened Text

  const CHUNK := 8192
  const SCAN_LIMIT := 5 * 1024 * 1024
  const RESPONSE_LIMIT := 512

  // ----- framing -----

  /** `struct.pack("!I", n)`. */
  function Pack(n: nat): (r: Bytes)
    requires n < 0x1_0000_0000
    ensures |r| == 4
  {
    [(n / 0x100_0000) as Byte, (n / 0x1_0000 % 0x100) as Byte, (n / 0x100 % 0x100) as Byte, (n % 0x100) as Byte]
  }

  function Unpack(b: Bytes): nat
    requires |b| >= 4
  {
    b[0] as int * 0x100_0000 + b[1] as int * 0x1_0000 + b[2] as int * 0x100 + b[3] as int
  }

  /** The four base-256 digits of a 32-bit number. */
  lemma Digits(n: nat)
    requires n < 0x1_0000_0000
    ensures n / 0x100_0000 < 0x100
    ensures n == n / 0x100_0000 * 0x100_0000 + n / 0x1_0000 % 0x100 * 0x1_0000 + n / 0x100 % 0x100 * 0x100 + n % 0x100
  {
    var a := n / 0x100;
    var b := a / 0x100;
    assert b == n / 0x1_0000 && b / 0x100 == n / 0x100_0000;
    assert n == a * 0x100 + n % 0x100 && a == b * 0x100 + a % 0x100 && b == b / 0x100 * 0x100 + b % 0x100;
  }

  lemma UnpackPack(n: nat, rest: Bytes)
    requires n < 0x1_0000_0000
    ensures Unpack(Pack(n) + rest) == n
  {
    Digits(n);
    var p := Pack(n);
    assert (p + rest)[0] == p[0] && (p + rest)[1] == p[1] && (p + rest)[2] == p[2] && (p + rest)[3] == p[3];
  }

  /** The frames of a payload: one per chunk, then the terminating zero length. */
  function Frames(content: Bytes): seq<Bytes> {
    if content == [] then [Pack(0)] else
      var n := Min(CHUNK, |content|);
      [Pack(n) + content[..n]] + Frames(content[n..])
  }

  function Concat(frames: seq<Bytes>): Bytes {
    if frames == [] then [] else frames[0] + Concat(frames[1..])
  }

  /** What goes over the wire after the command. */
  function Wire(content: Bytes): Bytes {
    Concat(Frames(content))
  }

  /** `instream_frames`; None is the size error. */
  method InstreamFrames(content: Bytes, limit: nat) returns (r: Option<seq<Bytes>>)
    ensures r == if |content| > limit then None else Some(Frames(content))
  {
    if |content| > limit { return None; }
    var frames: seq<Bytes> := [];
    var offset := 0;
    while offset < |content|
      invariant offset <= |content| && frames + Frames(content[offset..]) == Frames(content)
    {
      var chunk := content[offset..Min(offset + CHUNK, |content|)];
      var frame := Pack(|chunk|) + chunk;
      assert content[offset..][..|chunk|] == chunk && content[offset..][|chunk|..] == content[offset + |chunk|..];
      assert frames + ([frame] + Frames(content[offset + |chunk|..])) == (frames + [frame]) + Frames(content[offset + |chunk|..]);
      frames := frames + [frame];
      offset := offset + |chunk|;
    }
    assert content[offset..] == [];
    frames := frames + [Pack(0)];
    r := Some(frames);
  }

  /** A receiver of the stream: the content up to the zero length, and what was not consumed. */
  function Decode(wire: Bytes): Option<(Bytes, Bytes)>
    decreases |wire|
  {
    if |wire| < 4 then None else
      var n := Unpack(wire);
      if n == 0 then Some(([], wire[4..]))
      else if |wire| < 4 + n then None
      else match Decode(wire[4 + n..])
        case None => None
        case Some((content, rest)) => Some((wire[4..4 + n] + content, rest))
  }

  lemma WireOfChunk(content: Bytes)
    requires content != []
    ensures var n := Min(CHUNK, |content|); Wire(content) == Pack(n) + content[..n] + Wire(content[n..])
  {
  }

  lemma WireOfNothing()
    ensures Wire([]) == Pack(0)
  {
  }

  lemma DecodeUnfolds(wire: Bytes, n: nat)
    requires n > 0 && |wire| >= 4 + n && Unpack(wire) == n
    ensures var tail := Decode(wire[4 + n..]);
      Decode(wire) == if tail.None? then None else Some((wire[4..4 + n] + tail.value.0, tail.value.1))
  {
  }

  /** One frame decodes to its chunk followed by whatever the rest decodes to. */
  lemma DecodeFrame(wire: Bytes, chunk: Bytes, tail: Bytes)
    requires 1 <= |chunk| <= CHUNK && |wire| == 4 + |chunk| + |tail|
    requires wire[..4] == Pack(|chunk|) && wire[4..4 + |chunk|] == chunk && wire[4 + |chunk|..] == tail
    ensures Decode(wire) == if Decode(tail).None? then None else Some((chunk + Decode(tail).value.0, Decode(tail).value.1))
  {
    UnpackPack(|chunk|, wire[4..]);
    assert Pack(|chunk|) + wire[4..] == wire;
    DecodeUnfolds(wire, |chunk|);
  }

  lemma DecodeEnd(tail: Bytes)
    ensures Decode(Pack(0) + tail) == Some(([], tail))
  {
  }

  lemma FramingStep(content: Bytes, chunk: Bytes, more: Bytes, rest: Bytes)
    requires content != [] && chunk == content[..Min(CHUNK, |content|)] && more == content[|chunk|..]
    requires Decode(Wire(more) + rest) == Some((more, rest))
    ensures Decode(Wire(content) + rest) == Some((content, rest))
  {
    WireOfChunk(content);
    Slices(Pack(|chunk|), chunk, Wire(more), rest);
    DecodeFrame(Wire(content) + rest, chunk, Wire(more) + rest);
    assert chunk + more == content;
  }

  /** Framing round-trips: a receiver recovers exactly the content and stops exactly behind the terminator. */
  lemma {:induction false} FramingRoundTrips(content: Bytes, rest: Bytes)
    ensures Decode(Wire(content) + rest) == Some((content, rest))
    decreases |content|
  {
    if content == [] {
      WireOfNothing();
      DecodeEnd(rest);
    } else {
      var n := Min(CHUNK, |content|);
      FramingRoundTrips(content[n..], rest);
      FramingStep(content, content[..n], content[n..], rest);
    }
  }

  lemma CutInFrame(chunk: Bytes, tail: Bytes, k: nat)
    requires 1 <= |chunk| <= CHUNK && k < 4 + |chunk|
    ensures Decode((Pack(|chunk|) + chunk + tail)[..k]) == None
  {
    if k >= 4 {
      assert (Pack(|chunk|) + chunk + tail)[..k] == Pack(|chunk|) + chunk[..k - 4];
      UnpackPack(|chunk|, chunk[..k - 4]);
    }
  }

  lemma CutBehindFrame(chunk: Bytes, tail: Bytes, k: nat)
    requires 1 <= |chunk| <= CHUNK && k <= |tail| && Decode(tail[..k]) == None
    ensures Decode((Pack(|chunk|) + chunk + tail)[..4 + |chunk| + k]) == None
  {
    var wire := (Pack(|chunk|) + chunk + tail)[..4 + |chunk| + k];
    Slices(Pack(|chunk|), chunk, tail[..k], []);
    assert wire == (Pack(|chunk|) + chunk + tail[..k]) + [];
    assert tail[..k] + [] == tail[..k];
    DecodeFrame(wire, chunk, tail[..k]);
  }

  /** A stream that is cut short anywhere never decodes: the receiver keeps waiting instead of scanning a part. */
  lemma {:induction false} TruncatedStreamsNeverDecode(content: Bytes, k: nat)
    requires k < |Wire(content)|
    ensures Decode(Wire(content)[..k]) == None
    decreases |content|
  {
    if content == [] {
      WireOfNothing();
    } else {
      var n := Min(CHUNK, |content|);
      WireOfChunk(content);
      if k < 4 + n {
        CutInFrame(content[..n], Wire(content[n..]), k);
      } else {
        TruncatedStreamsNeverDecode(content[n..], k - 4 - n);
        CutBehindFrame(content[..n], Wire(content[n..]), k - 4 - n);
      }
    }
  }

  /** Every data frame carries between 1 and 8192 bytes under a matching length; the last frame is the zero length. */
  lemma {:induction false} FrameSizes(content: Bytes)
    ensures var f := Frames(content);
      && |f| >= 1 && f[|f| - 1] == Pack(0)
      && forall k :: 0 <= k < |f| - 1 ==> 4 + 1 <= |f[k]| <= 4 + CHUNK && Unpack(f[k]) == |f[k]| - 4
    decreases |content|
  {
    if content != [] {
      var n := Min(CHUNK, |content|);
      FrameSizes(content[n..]);
      UnpackPack(n, content[..n]);
    }
  }

  /** The wire length is n + 4 * (ceil(n / 8192) + 1). */
  lemma {:induction false} WireLength(content: Bytes)
    ensures |Wire(content)| == |content| + 4 * ((|content| + CHUNK - 1) / CHUNK + 1)
    decreases |content|
  {
    if content == [] {
      WireOfNothing();
    } else {
      var n := Min(CHUNK, |content|);
      WireLength(content[n..]);
      WireOfChunk(content);
    }
  }

  // ----- receiving -----

  predicate IsEnd(b: Byte) {
    b == 0 || b == 10
  }

  /** The bytes one `recv` hands over: at least one if there is one, at most 256 and at most what is still wanted. */
  function PieceSize(wanted: nat, limit: nat, available: nat): (n: nat)
    ensures n <= limit && n <= available && n <= 256
    ensures limit > 0 && available > 0 ==> n > 0
  {
    Min(Max(1, wanted), Min(256, Min(limit, available)))
  }

  /**
   Where the loop stops on a stream that the socket cuts up as `cut` says, with `at` bytes received before the i-th
   `recv`: at the limit, at the end of the stream, or behind a piece that ends in a NUL or a newline.
   */
  function Stop(stream: Bytes, cut: nat -> nat, limit: nat, at: nat, i: nat): nat
    requires at <= Min(limit, |stream|)
    decreases |stream| - at
  {
    if at == Min(limit, |stream|) then at else
      var n := PieceSize(cut(i), limit - at, |stream| - at);
      if IsEnd(stream[at + n - 1]) then at + n else Stop(stream, cut, limit, at + n, i + 1)
  }

  lemma {:induction false} StopIsBounded(stream: Bytes, cut: nat -> nat, limit: nat, at: nat, i: nat)
    requires at <= Min(limit, |stream|)
    ensures var stop := Stop(stream, cut, limit, at, i);
      at <= stop <= Min(limit, |stream|) && (stop == Min(limit, |stream|) || (stop > 0 && IsEnd(stream[stop - 1])))
    decreases |stream| - at
  {
    if at < Min(limit, |stream|) {
      var n := PieceSize(cut(i), limit - at, |stream| - at);
      if !IsEnd(stream[at + n - 1]) {
        StopIsBounded(stream, cut, limit, at + n, i + 1);
      }
    }
  }

  /** What `_recv_bounded` returns. */
  function Receive(stream: Bytes, cut: nat -> nat, limit: nat): (r: Bytes)
    ensures |r| <= limit && r <= stream
    ensures |r| == Min(limit, |stream|) || (r != [] && IsEnd(r[|r| - 1]))
  {
    StopIsBounded(stream, cut, limit, 0, 0);
    stream[..Stop(stream, cut, limit, 0, 0)]
  }

  /** `_recv_bounded`. */
  method RecvBounded(stream: Bytes, cut: nat -> nat, limit: nat) returns (r: Bytes)
    ensures r == Receive(stream, cut, limit)
  {
    var chunks: Bytes := [];
    var received, calls := 0, 0;
    while received < limit
      invariant received <= Min(limit, |stream|) && chunks == stream[..received]
      invariant Stop(stream, cut, limit, received, calls) == Stop(stream, cut, limit, 0, 0)
      decreases limit - received
    {
      var piece := stream[received..received + PieceSize(cut(calls), limit - received, |stream| - received)];
      if piece == [] { break; }
      chunks, received, calls := chunks + piece, received + |piece|, calls + 1;
      if piece[|piece| - 1] == 0 || piece[|piece| - 1] == 10 { break; }
    }
    r := Take(chunks, limit);
  }

  /** No NUL or newline before the last byte. */
  predicate OnlyLastEnds(s: Bytes) {
    forall k :: 0 <= k < |s| - 1 ==> !IsEnd(s[k])
  }

  lemma WholeReceive(stream: Bytes, cut: nat -> nat, limit: nat)
    requires OnlyLastEnds(Take(stream, limit))
    ensures Receive(stream, cut, limit) == Take(stream, limit)
  {
  }

  /** Receiving byte by byte stops at the first NUL or newline. */
  lemma {:induction false} ByteByByteStopsEarly(stream: Bytes, cut: nat -> nat, limit: nat, at: nat, i: nat, k: nat)
    requires at <= k < Min(limit, |stream|) && IsEnd(stream[k]) && forall j :: cut(j) == 1
    ensures Stop(stream, cut, limit, at, i) <= k + 1
    decreases |stream| - at
  {
    if !IsEnd(stream[at]) {
      ByteByByteStopsEarly(stream, cut, limit, at + 1, i + 1, k);
    }
  }

  /**
   The received bytes are independent of fragmentation exactly when, within the limit, no byte before the last is a NUL
   or a newline; the result is then the whole reply up to the limit.
   */
  lemma FragmentationIndependence(stream: Bytes, limit: nat)
    ensures (forall cut: nat -> nat :: Receive(stream, cut, limit) == Take(stream, limit)) <==> OnlyLastEnds(Take(stream, limit))
  {
    if OnlyLastEnds(Take(stream, limit)) {
      forall cut: nat -> nat ensures Receive(stream, cut, limit) == Take(stream, limit) {
        WholeReceive(stream, cut, limit);
      }
    } else {
      var k :| 0 <= k < |Take(stream, limit)| - 1 && IsEnd(Take(stream, limit)[k]);
      var single: nat -> nat := j => 1;
      ByteByByteStopsEarly(stream, single, limit, 0, 0, k);
      assert |Receive(stream, single, limit)| <= k + 1;
    }
  }

  // ----- the verdict -----

  datatype Verdict = Clean | Malicious | ScanError | Unknown

  /** The characters `strip(" \t\r\n\0")` removes. */
  predicate IsReplyBlank(c: char) {
    c == ' ' || c == '\t' || c == '\r' || c == '\n' || c == '\0'
  }

  function StripReply(s: string): string
    decreases |s|
  {
    if s != [] && IsReplyBlank(s[0]) then StripReply(s[1..])
    else if s != [] && IsReplyBlank(s[|s| - 1]) then StripReply(s[..|s| - 1])
    else s
  }

  /** The ASCII characters at which `splitlines` breaks. */
  predicate IsLineBreak(c: char) {
    var n := c as int;
    0x0A <= n <= 0x0D || 0x1C <= n <= 0x1E
  }

  function FirstLine(s: string): string {
    if s == [] || IsLineBreak(s[0]) then [] else [s[0]] + FirstLine(s[1..])
  }

  predicate EndsWith(s: string, suffix: string) {
    |suffix| <= |s| && s[|s| - |suffix|..] == suffix
  }

  predicate IsAscii(raw: Bytes) {
    forall k :: 0 <= k < |raw| ==> raw[k] < 128
  }

  function Characters(raw: Bytes): (r: string)
    ensures |r| == |raw|
    ensures forall k :: 0 <= k < |raw| ==> r[k] == (raw[k] as int) as char
  {
    seq(|raw|, k requires 0 <= k < |raw| => (raw[k] as int) as char)
  }

  /** The decision on the first line of a cleaned reply. */
  function LineVerdict(line: string): Verdict {
    if line == [] || |line| > 256 then Unknown
    else if line == "stream: OK" || line == "OK" then Clean
    else if EndsWith(line, " FOUND") then Malicious
    else if EndsWith(line, "ERROR") then ScanError
    else Unknown
  }

  /** `map_clamd_response`. */
  function MapResponse(raw: Bytes): Verdict {
    if raw == [] || |raw| > RESPONSE_LIMIT || !IsAscii(raw) then Unknown else
      var cleaned := StripReply(Characters(raw));
      if cleaned == [] then Unknown else LineVerdict(Strip(FirstLine(cleaned)))
  }

  /** `scan`, given how the socket answers; an exchange that raises is an error. */
  function Scan(content: Bytes, reply: Option<Bytes>, cut: nat -> nat): Verdict {
    if |content| > SCAN_LIMIT then ScanError
    else match reply
      case None => ScanError
      case Some(stream) => MapResponse(Receive(stream, cut, RESPONSE_LIMIT))
  }

  /** A reply of at most 512 bytes whose only NUL or newline is its last byte gets one verdict, however it arrives. */
  lemma VerdictIgnoresFragmentation(content: Bytes, reply: Bytes, cut: nat -> nat)
    requires |content| <= SCAN_LIMIT && |reply| <= RESPONSE_LIMIT && OnlyLastEnds(reply)
    ensures Receive(reply, cut, RESPONSE_LIMIT) == reply
    ensures Scan(content, Some(reply), cut) == MapResponse(reply)
  {
  }

  lemma {:induction false} UnbrokenLine(s: string)
    requires forall k :: 0 <= k < |s| ==> !IsLineBreak(s[k])
    ensures FirstLine(s) == s
  {
    if s != [] { UnbrokenLine(s[1..]); }
  }

  /** The characters of a one-line reply, before its terminating NUL. */
  predicate PlainLine(line: string) {
    && 1 <= |line| <= 256 && Trimmed(line) && line[0] != '\0' && line[|line| - 1] != '\0'
    && forall k :: 0 <= k < |line| ==> !IsLineBreak(line[k]) && (line[k] as int) < 128
  }

  /** A well-formed reply is judged by exactly the line the daemon wrote. */
  lemma OneLineReplies(line: string, raw: Bytes)
    requires PlainLine(line) && Characters(raw) == line + ['\0']
    ensures MapResponse(raw) == LineVerdict(line)
  {
    assert forall k :: 0 <= k < |raw| ==> (raw[k] as int) as char == (line + ['\0'])[k];
    assert forall k :: 0 <= k < |line| ==> (line + ['\0'])[k] == line[k];
    assert IsAscii(raw);
    var text := line + ['\0'];
    assert text[..|text| - 1] == line;
    assert StripReply(text) == StripReply(line) == line;
    UnbrokenLine(line);
    TrimmedIsFixed(line);
  }

  /** Such a reply is clean only if it is one of the two OK lines. */
  lemma CleanMeansOk(line: string, raw: Bytes, content: Bytes, cut: nat -> nat)
    requires PlainLine(line) && Characters(raw) == line + ['\0'] && |content| <= SCAN_LIMIT
    requires forall k :: 0 <= k < |line| ==> line[k] != '\0'
    ensures Scan(content, Some(raw), cut) == Clean <==> line == "stream: OK" || line == "OK"
    ensures Scan(content, Some(raw), cut) == Malicious <==> EndsWith(line, " FOUND")
  {
    forall k | 0 <= k < |raw| - 1 ensures !IsEnd(raw[k]) {
      assert (raw[k] as int) as char == (line + ['\0'])[k] == line[k];
    }
    VerdictIgnoresFragmentation(content, raw, cut);
    OneLineReplies(line, raw);
    assert "stream: OK"[|"stream: OK"| - 6..] != " FOUND";
    assert !EndsWith("stream: OK", " FOUND") && !EndsWith("OK", " FOUND");
  }

  /** A reply without terminator and line breaks is judged as a whole. */
  lemma UnterminatedReplies(text: string, raw: Bytes)
    requires Characters(raw) == text && 1 <= |text| <= 256 && Trimmed(text) && text[0] != '\0' && text[|text| - 1] != '\0'
    requires forall k :: 0 <= k < |text| ==> !IsLineBreak(text[k]) && (text[k] as int) < 128
    ensures MapResponse(raw) == LineVerdict(text)
  {
    assert IsAscii(raw) by {
      assert forall k :: 0 <= k < |raw| ==> (raw[k] as int) as char == text[k];
    }
    assert !IsReplyBlank(text[0]) && !IsReplyBlank(text[|text| - 1]);
    assert StripReply(text) == text;
    assert FirstLine(text) == text by { UnbrokenLine(text); }
    assert Strip(text) == text by { TrimmedIsFixed(text); }
  }

  /** "OK", a NUL, then " FOUND". */
  const TWO_FACED: Bytes := [79, 75, 0, 32, 70, 79, 85, 78, 68]

  lemma WholeReplyIsMalicious()
    ensures MapResponse(TWO_FACED) == Malicious
  {
    var text := ['O', 'K', '\0', ' ', 'F', 'O', 'U', 'N', 'D'];
    assert Characters(TWO_FACED) == text;
    UnterminatedReplies(text, TWO_FACED);
    assert |" FOUND"| == 6 && text[3..] == " FOUND";
    assert |"stream: OK"| == 10 && |"OK"| == 2;
  }

  lemma FirstPieceIsClean()
    ensures MapResponse(TWO_FACED[..3]) == Clean
  {
    assert Characters(TWO_FACED[..3]) == "OK" + ['\0'];
    OneLineReplies("OK", TWO_FACED[..3]);
  }

  /** The condition is needed: a NUL inside the reply lets fragmentation decide between two verdicts. */
  lemma InteriorNulMakesTheVerdictDepend(pieces: nat -> nat, whole: nat -> nat)
    requires pieces(0) == 3 && whole(0) == 9
    ensures Scan([], Some(TWO_FACED), pieces) == Clean
    ensures Scan([], Some(TWO_FACED), whole) == Malicious
  {
    assert PieceSize(3, RESPONSE_LIMIT, 9) == 3 && PieceSize(9, RESPONSE_LIMIT, 9) == 9;
    assert Stop(TWO_FACED, pieces, RESPONSE_LIMIT, 0, 0) == 3;
    StopIsBounded(TWO_FACED, whole, RESPONSE_LIMIT, 9, 1);
    assert Stop(TWO_FACED, whole, RESPONSE_LIMIT, 0, 0) == 9;
    assert TWO_FACED[..9] == TWO_FACED;
    WholeReplyIsMalicious();
    FirstPieceIsClean();
  }
}
