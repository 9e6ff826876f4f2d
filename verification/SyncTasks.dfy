/** Markers of sync tasks: one per source message, recognised by the sync task that wrote them and by no other. */
module SyncTasks {

  import opened Bytes
  import opened Decimal
  import opened HeaderText
  import opened SyncHeaders
  import opened SyncTime

  predicate MarkerBytes(s: seq<Byte>) {
    forall i :: 0 <= i < |s| ==> IdentifierByte(s[i]) || s[i] == DOT
  }

  lemma MarkerMayBePrinted(token: seq<Byte>, uidValidity: uint32, uid: uint32)
    requires ValidTaskToken(token)
    ensures ValidMarker(Marker(token, uidValidity, uid))
  {
    NumberPart(uidValidity);
    NumberPart(uid);
    var a, b := Padded(uidValidity, 10), Padded(uid, 10);
    hide Padded;
    assert MarkerBytes(VERSION + [DOT]) && MarkerBytes(token) && MarkerBytes(a) && MarkerBytes(b);
    assert MarkerBytes(VERSION + [DOT] + token);
    assert MarkerBytes(VERSION + [DOT] + token + [DOT]);
    assert MarkerBytes(VERSION + [DOT] + token + [DOT] + a);
    assert MarkerBytes(VERSION + [DOT] + token + [DOT] + a + [DOT]);
    assert MarkerBytes(Marker(token, uidValidity, uid));
  }

  lemma FourParts(a: seq<Byte>, b: seq<Byte>, c: seq<Byte>, d: seq<Byte>)
    requires DOT !in a && DOT !in b && DOT !in c && DOT !in d
    ensures Split(a + [DOT] + b + [DOT] + c + [DOT] + d, DOT) == [a, b, c, d]
  {
    hide Split;
    var cd := c + [DOT] + d;
    var bcd := b + [DOT] + cd;
    assert b + [DOT] + c + [DOT] + d == bcd;
    assert a + [DOT] + b + [DOT] + c + [DOT] + d == a + [DOT] + bcd;
    SplitAt(a, DOT, bcd);
    SplitAt(b, DOT, cd);
    SplitAt(c, DOT, d);
    SplitOne(d, DOT);
  }

  lemma MarkerParts(token: seq<Byte>, uidValidity: uint32, uid: uint32)
    requires ValidTaskToken(token)
    ensures Split(Marker(token, uidValidity, uid), DOT) == [VERSION, token, Padded(uidValidity, 10), Padded(uid, 10)]
  {
    NumberPart(uidValidity);
    NumberPart(uid);
    hide Split, Padded;
    FourParts(VERSION, token, Padded(uidValidity, 10), Padded(uid, 10));
  }

  lemma NumberPart(n: uint32)
    ensures |Padded(n, 10)| == 10 && Value(Padded(n, 10)) == n && DOT !in Padded(n, 10) && AllDigits(Padded(n, 10))
  {
    assert Power10(10) == 10_000_000_000 by {
      assert Power10(5) == 100_000;
    }
    PaddedIsRead(n, 10);
  }

  /** A marker is made for every valid token and nonzero pair, it may be printed, and it says which it was:
      no two source messages, of one task or of two, share a marker. */
  lemma MarkersAreUnique(token: seq<Byte>, uidValidity: uint32, uid: uint32,
                         other: seq<Byte>, otherValidity: uint32, otherUid: uint32)
    requires MessageSyncMarker(token, uidValidity, uid).Ok? && MessageSyncMarker(other, otherValidity, otherUid).Ok?
    ensures ValidMarker(MessageSyncMarker(token, uidValidity, uid).value)
    ensures MessageSyncMarker(token, uidValidity, uid) == MessageSyncMarker(other, otherValidity, otherUid)
       <==> ValidateTaskToken(token) == ValidateTaskToken(other) && uidValidity == otherValidity && uid == otherUid
  {
    var a, b := ValidateTaskToken(token).value, ValidateTaskToken(other).value;
    hide ValidateTaskToken, Split, Marker, Padded, ValidMarker, ValidTaskToken;
    MarkerMayBePrinted(a, uidValidity, uid);
    MarkerParts(a, uidValidity, uid);
    MarkerParts(b, otherValidity, otherUid);
    NumberPart(uidValidity);
    NumberPart(uid);
    NumberPart(otherValidity);
    NumberPart(otherUid);
    var p, q := Split(Marker(a, uidValidity, uid), DOT), Split(Marker(b, otherValidity, otherUid), DOT);
    assert p[1] == a && q[1] == b && p[2] == Padded(uidValidity, 10) && q[2] == Padded(otherValidity, 10);
    assert p[3] == Padded(uid, 10) && q[3] == Padded(otherUid, 10);
  }

  // ----- recognising a task's copies -----

  /** What strconv.ParseUint accepts in base 10 for 32 bits, and a positive number. */
  predicate PositiveUint32(text: seq<Byte>) {
    text != [] && AllDigits(text) && 0 < Value(text) < 0x1_0000_0000
  }

  predicate OfTask(value: seq<Byte>, token: seq<Byte>) {
    var parts := Split(value, DOT);
    |parts| == 4 && parts[0] == VERSION && parts[1] == token && PositiveUint32(parts[2]) && PositiveUint32(parts[3])
  }

  predicate MarksTask(line: seq<Byte>, token: seq<Byte>) {
    Names(line, MARKER_HEADER) && OfTask(TrimSpace(FieldOf(line).value), token)
  }

  /** Some line of these marks a copy of that sync task. */
  predicate Marked(lines: seq<seq<Byte>>, token: seq<Byte>) {
    exists i :: 0 <= i < |lines| && MarksTask(lines[i], token)
  }

  predicate HasMarkerForTask(raw: seq<Byte>, token: seq<Byte>) {
    ValidateTaskToken(token).Ok? && Marked(HeaderLines(raw), ValidateTaskToken(token).value)
  }

  lemma MarksTaskMeans(line: seq<Byte>, token: seq<Byte>)
    ensures !Names(line, MARKER_HEADER) ==> !MarksTask(line, token)
    ensures Names(line, MARKER_HEADER) ==> FieldOf(line).Field?
    ensures Names(line, MARKER_HEADER) ==>
              var parts := Split(TrimSpace(FieldOf(line).value), DOT);
              MarksTask(line, token) <==>
              |parts| == 4 && parts[0] == VERSION && parts[1] == token
              && PositiveUint32(parts[2]) && PositiveUint32(parts[3])
  {
    hide Split, TrimSpace, FieldOf, FoldsTo;
  }

  method HasSyncMarkerForTask(raw: seq<Byte>, taskToken: seq<Byte>) returns (found: bool)
    ensures found <==> HasMarkerForTask(raw, taskToken)
  {
    hide FoldsTo, TrimSpace, FieldOf, Split, PositiveUint32, ValidateTaskToken, HeaderLines, MarksTask, Names;
    var validated := ValidateTaskToken(taskToken);
    if validated.Error? {
      return false;
    }
    var lines := HeaderLines(raw);
    for i := 0 to |lines|
      invariant forall k :: 0 <= k < i ==> !MarksTask(lines[k], validated.value)
    {
      var line := lines[i];
      MarksTaskMeans(line, validated.value);
      if !Names(line, MARKER_HEADER) {
        continue;
      }
      var parts := Split(TrimSpace(FieldOf(line).value), DOT);
      if |parts| != 4 || parts[0] != VERSION || parts[1] != validated.value {
        continue;
      }
      if PositiveUint32(parts[2]) && PositiveUint32(parts[3]) {
        return true;
      }
    }
    return false;
  }

  lemma MarkerIsOfItsTaskOnly(token: seq<Byte>, uidValidity: uint32, uid: uint32, other: seq<Byte>)
    requires ValidTaskToken(token) && uidValidity > 0 && uid > 0
    ensures OfTask(Marker(token, uidValidity, uid), other) <==> token == other
  {
    hide Split, Marker, Padded;
    MarkerParts(token, uidValidity, uid);
    NumberPart(uidValidity);
    NumberPart(uid);
  }

  /** The copy a task writes is recognised as that task's, and as another's only if the source already was. */
  lemma CopyIsRecognized(
    raw: seq<Byte>, taskToken: seq<Byte>, uidValidity: uint32, uid: uint32, t: Moment, parser: Parser, other: seq<Byte>)
    requires raw != [] && Printable(t) && MessageSyncMarker(taskToken, uidValidity, uid).Ok?
    requires ValidateTaskToken(other).Ok?
    requires !HasHeaderValue(raw, MARKER_HEADER, MessageSyncMarker(taskToken, uidValidity, uid).value)
    ensures var out := AddSyncHeaders(raw, MessageSyncMarker(taskToken, uidValidity, uid).value, t, parser);
            && out.Ok?
            && HasMarkerForTask(out.value, taskToken)
            && (ValidateTaskToken(other) != ValidateTaskToken(taskToken) ==>
                  HasMarkerForTask(out.value, other) ==> HasMarkerForTask(raw, other))
  {
    var token, rival := ValidateTaskToken(taskToken).value, ValidateTaskToken(other).value;
    var marker := Marker(token, uidValidity, uid);
    MarkerMayBePrinted(token, uidValidity, uid);
    MarkerIsOfItsTaskOnly(token, uidValidity, uid, token);
    MarkerIsOfItsTaskOnly(token, uidValidity, uid, rival);
    MarkerIsToken(marker);
    hide OfTask, ValidateTaskToken, Marker;
    CopyMarksTasks(raw, marker, t, parser, token);
    CopyMarksTasks(raw, marker, t, parser, rival);
  }

  /** The header lines of a first copy: a timestamp, the marker and, but for a source without a header, the
      header lines of the source. */
  lemma LinesOfCopy(raw: seq<Byte>, marker: seq<Byte>, value: seq<Byte>)
    returns (first: seq<Byte>, second: seq<Byte>, rest: seq<seq<Byte>>)
    requires Token(marker) && Token(value)
    ensures HeaderLines(Prepend(TIMESTAMP_HEADER, value, Prepend(MARKER_HEADER, marker, raw))) == [first, second] + rest
    ensures FieldOf(first) == Field(TIMESTAMP_HEADER, [SPACE] + value) && Says(second, MARKER_HEADER, marker)
    ensures rest == HeaderLines(raw) || rest == []
  {
    hide *;
    HeadersAreTokens();
    first, second, rest := LinesOfTwo(TIMESTAMP_HEADER, value, MARKER_HEADER, marker, raw);
  }

  lemma CopyMarksTasks(raw: seq<Byte>, marker: seq<Byte>, t: Moment, parser: Parser, token: seq<Byte>)
    requires raw != [] && ValidMarker(marker) && Printable(t) && !HasHeaderValue(raw, MARKER_HEADER, marker)
    ensures AddSyncHeaders(raw, marker, t, parser).Ok?
    ensures var out := AddSyncHeaders(raw, marker, t, parser).value;
            && (OfTask(marker, token) ==> Marked(HeaderLines(out), token))
            && (!OfTask(marker, token) ==> Marked(HeaderLines(out), token) ==> Marked(HeaderLines(raw), token))
  {
    MarkerIsToken(marker);
    FormatIsToken(t);
    hide Prepend, Format, HeaderLines, OfTask, ValidMarker, HasHeaderValue, Token, Says, MarksTask, FieldOf;
    var first, second, rest := LinesOfCopy(raw, marker, Format(Truncated(t)));
    SaysMarksTask(second, marker, token);
    TimestampMarksNoTask(first, Format(Truncated(t)), token);
    MarkedBehindTwo(first, second, rest, token);
  }

  lemma MarkedBehindTwo(first: seq<Byte>, second: seq<Byte>, rest: seq<seq<Byte>>, token: seq<Byte>)
    requires !MarksTask(first, token)
    ensures Marked([first, second] + rest, token) <==> MarksTask(second, token) || Marked(rest, token)
  {
    hide MarksTask;
    var all := [first, second] + rest;
    assert all[0] == first && all[1] == second && forall i :: 0 <= i < |rest| ==> all[i + 2] == rest[i];
    if Marked(all, token) && !MarksTask(second, token) {
      var i :| 0 <= i < |all| && MarksTask(all[i], token);
      assert i >= 2 && rest[i - 2] == all[i];
    }
  }

  lemma SaysMarksTask(line: seq<Byte>, marker: seq<Byte>, token: seq<Byte>)
    requires Says(line, MARKER_HEADER, marker)
    ensures MarksTask(line, token) <==> OfTask(marker, token)
  {
  }

  lemma TimestampMarksNoTask(line: seq<Byte>, value: seq<Byte>, token: seq<Byte>)
    requires FieldOf(line) == Field(TIMESTAMP_HEADER, [SPACE] + value)
    ensures !MarksTask(line, token)
  {
    HeadersAreTokens();
    TokenIsTrimmed(TIMESTAMP_HEADER);
    if FoldsTo(TIMESTAMP_HEADER, MARKER_HEADER) {
      AsciiFoldsInPlace(TIMESTAMP_HEADER, MARKER_HEADER);
    }
  }
}
