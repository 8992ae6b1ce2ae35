/** Every verdict of a scan, for every content, reply and fragmentation, by the one line a reply is read as. */
module ClamdVerdicts {
  import opened ByteStrings
  import opened Clamd
  import opened Text

  predicate AllReplyBlank(s: string, lo: nat, hi: nat)
    requires lo <= hi <= |s|
  {
    forall k :: lo <= k < hi ==> s[k] in " \t\r\n\0"
  }

  /** The characters below 128 at which a line ends: LF, VT, FF, CR and the three separators FS, GS and RS. */
  predicate EndsLine(c: char) {
    c in {'\n', '\U{B}', '\U{C}', '\r', '\U{1C}', '\U{1D}', '\U{1E}'}
  }

  predicate NoLineBreak(s: string, lo: nat, hi: nat)
    requires lo <= hi <= |s|
  {
    forall k :: lo <= k < hi ==> !EndsLine(s[k])
  }

  /** What is between the outer blanks and NULs of a reply is `s[a..b]`, and its first line ends at `e`. */
  predicate FirstLineAt(s: string, a: nat, e: nat, b: nat) {
    && a < b <= |s| && AllReplyBlank(s, 0, a) && AllReplyBlank(s, b, |s|)
    && s[a] !in " \t\r\n\0" && s[b - 1] !in " \t\r\n\0"
    && a <= e <= b && NoLineBreak(s, a, e) && (e == b || EndsLine(s[e]))
  }

  /** The reply can be read, and its first line, whitespace stripped, is `line`: ASCII, at most 512 bytes, 1 to 256 characters. */
  ghost predicate Reads(raw: Bytes, line: string) {
    && 1 <= |raw| <= 512 && (forall k :: 0 <= k < |raw| ==> raw[k] < 128)
    && 1 <= |line| <= 256
    && exists a: nat, e: nat, b: nat :: FirstLineAt(Characters(raw), a, e, b) && line == Strip(Characters(raw)[a..e])
  }

  lemma {:induction false} StripReplyCuts(s: string) returns (a: nat, b: nat)
    ensures a <= b <= |s| && StripReply(s) == s[a..b] && AllReplyBlank(s, 0, a) && AllReplyBlank(s, b, |s|)
    ensures a < b ==> s[a] !in " \t\r\n\0" && s[b - 1] !in " \t\r\n\0"
    decreases |s|
  {
    if s != [] && IsReplyBlank(s[0]) {
      var c, d := StripReplyCuts(s[1..]);
      a, b := c + 1, d + 1;
      assert s[1..][c..d] == s[a..b];
      forall k | 0 <= k < a ensures s[k] in " \t\r\n\0" { assert k > 0 ==> s[k] == s[1..][k - 1]; }
      forall k | b <= k < |s| ensures s[k] in " \t\r\n\0" { assert s[k] == s[1..][k - 1]; }
    } else if s != [] && IsReplyBlank(s[|s| - 1]) {
      var front := s[..|s| - 1];
      a, b := StripReplyCuts(front);
      assert front[a..b] == s[a..b];
      forall k | b <= k < |s| ensures s[k] in " \t\r\n\0" { assert k < |front| ==> s[k] == front[k]; }
    } else {
      a, b := 0, |s|;
      assert s[0..|s|] == s;
    }
  }

  lemma {:induction false} FirstLineEnds(s: string) returns (e: nat)
    ensures e <= |s| && FirstLine(s) == s[..e] && NoLineBreak(s, 0, e) && (e == |s| || EndsLine(s[e]))
  {
    if s == [] || IsLineBreak(s[0]) {
      e := 0;
    } else {
      var rest := FirstLineEnds(s[1..]);
      e := rest + 1;
      assert [s[0]] + s[1..][..rest] == s[..e];
      forall k | 0 <= k < e ensures !EndsLine(s[k]) { assert k > 0 ==> s[k] == s[1..][k - 1]; }
    }
  }

  /** The text between the outer blanks, and its first line, are determined by the reply. */
  lemma FirstLineIsUnique(s: string, a: nat, e: nat, b: nat, c: nat, f: nat, d: nat)
    requires FirstLineAt(s, a, e, b) && FirstLineAt(s, c, f, d)
    ensures a == c && e == f && b == d
  {
  }

  /** Where the first line of a reply is, if it has anything but blanks. */
  lemma FirstLineIsFound(s: string) returns (a: nat, e: nat, b: nat)
    requires StripReply(s) != []
    ensures FirstLineAt(s, a, e, b) && FirstLine(StripReply(s)) == s[a..e]
  {
    a, b := StripReplyCuts(s);
    var t := s[a..b];
    var n := FirstLineEnds(t);
    e := a + n;
    assert t[..n] == s[a..e];
    forall k | a <= k < e ensures !EndsLine(s[k]) { assert s[k] == t[k - a]; }
    assert n < |t| ==> t[n] == s[e];
  }

  lemma BlankRepliesHaveNoLine(s: string, a: nat, e: nat, b: nat)
    requires StripReply(s) == []
    ensures !FirstLineAt(s, a, e, b)
  {
    var c, d := StripReplyCuts(s);
    assert a < |s| ==> s[a] in " \t\r\n\0";
  }

  /** What a line means: OK is clean, FOUND is malicious, ERROR is an error, and nothing else is known. */
  predicate Means(line: string, verdict: Verdict) {
    match verdict
    case Clean => line == "OK" || line == "stream: OK"
    case Malicious => EndsWith(line, " FOUND")
    case ScanError => EndsWith(line, "ERROR")
    case Unknown => line != "OK" && line != "stream: OK" && !EndsWith(line, " FOUND") && !EndsWith(line, "ERROR")
  }

  lemma EndingsExclude(line: string)
    ensures !(EndsWith(line, " FOUND") && EndsWith(line, "ERROR"))
    ensures line == "OK" || line == "stream: OK" ==> !EndsWith(line, " FOUND") && !EndsWith(line, "ERROR")
  {
    assert EndsWith(line, " FOUND") ==> line[|line| - 1] == " FOUND"[5];
    assert EndsWith(line, "ERROR") ==> line[|line| - 1] == "ERROR"[4];
    assert line == "OK" ==> line[|line| - 1] == 'K';
    assert line == "stream: OK" ==> line[|line| - 1] == 'K';
  }

  lemma LinesHaveOneMeaning(line: string, verdict: Verdict)
    requires 1 <= |line| <= 256
    ensures LineVerdict(line) == verdict <==> Means(line, verdict)
  {
    EndingsExclude(line);
  }

  lemma ReadRepliesMeanTheirLine(raw: Bytes, line: string, verdict: Verdict)
    requires Reads(raw, line)
    ensures MapResponse(raw) == verdict <==> Means(line, verdict)
  {
    var s := Characters(raw);
    var c: nat, f: nat, d: nat :| FirstLineAt(s, c, f, d) && line == Strip(s[c..f]);
    if StripReply(s) == [] {
      BlankRepliesHaveNoLine(s, c, f, d);
    } else {
      var a, e, b := FirstLineIsFound(s);
      FirstLineIsUnique(s, a, e, b, c, f, d);
      assert IsAscii(raw);
      LinesHaveOneMeaning(line, verdict);
    }
  }

  lemma UnreadRepliesAreUnknown(raw: Bytes)
    requires forall line :: !Reads(raw, line)
    ensures MapResponse(raw) == Unknown
  {
    var s := Characters(raw);
    if 1 <= |raw| <= 512 && IsAscii(raw) && StripReply(s) != [] {
      var a, e, b := FirstLineIsFound(s);
      var found := Strip(s[a..e]);
      assert !Reads(raw, found);
    }
  }

  /** A reply that reads as a line means what the line means; a reply that cannot be read is inconclusive. */
  lemma RepliesMeanTheirLine(raw: Bytes, verdict: Verdict)
    ensures forall line :: Reads(raw, line) ==> (MapResponse(raw) == verdict <==> Means(line, verdict))
    ensures (forall line :: !Reads(raw, line)) ==> MapResponse(raw) == Unknown
  {
    forall line | Reads(raw, line) ensures MapResponse(raw) == verdict <==> Means(line, verdict) {
      ReadRepliesMeanTheirLine(raw, line, verdict);
    }
    if forall line :: !Reads(raw, line) { UnreadRepliesAreUnknown(raw); }
  }

  /**
   Every verdict of a scan. A payload over the limit and an exchange that raises are errors; otherwise the received bytes
   decide: a reply that reads as a line is judged by it, any other reply is inconclusive.
   */
  lemma ScanAnswers(content: Bytes, reply: Option<Bytes>, cut: nat -> nat, verdict: Verdict)
    ensures |content| > SCAN_LIMIT || reply.None? ==> Scan(content, reply, cut) == ScanError
    ensures |content| <= SCAN_LIMIT && reply.Some? ==>
      var raw := Receive(reply.value, cut, RESPONSE_LIMIT);
      && (forall line :: Reads(raw, line) ==> (Scan(content, reply, cut) == verdict <==> Means(line, verdict)))
      && ((forall line :: !Reads(raw, line)) ==> Scan(content, reply, cut) == Unknown)
  {
    if reply.Some? { RepliesMeanTheirLine(Receive(reply.value, cut, RESPONSE_LIMIT), verdict); }
  }

  /** Failures never become CLEAN: a clean verdict is a payload within the limit and a reply received as an OK line. */
  lemma CleanIsEarned(content: Bytes, reply: Option<Bytes>, cut: nat -> nat)
    ensures Scan(content, reply, cut) == Clean <==>
      && |content| <= 5 * 1024 * 1024 && reply.Some?
      && (Reads(Receive(reply.value, cut, 512), "OK") || Reads(Receive(reply.value, cut, 512), "stream: OK"))
  {
    ScanAnswers(content, reply, cut, Clean);
  }
}
