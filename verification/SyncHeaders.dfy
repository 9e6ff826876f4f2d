/**
 The two headers a copied message carries: which source message it is, and when it was first copied.
 Printing puts them in front of the raw bytes; recovery reads them back.
 */
module SyncHeaders {

  import opened Bytes
  import opened Decimal
  import opened HeaderText
  import opened SyncTime

  datatype Result<T> = Ok(value: T) | Error

  /** X-Rolltop-Sync-ID */
  const MARKER_HEADER: seq<Byte> := [88, 45, 82, 111, 108, 108, 116, 111, 112, 45, 83, 121, 110, 99, 45, 73, 68]

  /** X-Rolltop-Synced-At */
  const TIMESTAMP_HEADER: seq<Byte> :=
    [88, 45, 82, 111, 108, 108, 116, 111, 112, 45, 83, 121, 110, 99, 101, 100, 45, 65, 116]

  predicate IdentifierByte(b: Byte) {
    97 <= b <= 122 || 65 <= b <= 90 || 48 <= b <= 57 || b == DASH || b == UNDERSCORE
  }

  predicate ValidTaskToken(token: seq<Byte>) {
    0 < |token| <= 128 && forall i :: 0 <= i < |token| ==> IdentifierByte(token[i])
  }

  predicate ValidMarker(marker: seq<Byte>) {
    0 < |marker| <= 240 && forall i :: 0 <= i < |marker| ==> IdentifierByte(marker[i]) || marker[i] == DOT
  }

  function ValidateTaskToken(token: seq<Byte>): Result<seq<Byte>> {
    if ValidTaskToken(TrimSpace(token)) then Ok(TrimSpace(token)) else Error
  }

  function ValidateMarker(marker: seq<Byte>): Result<seq<Byte>> {
    if ValidMarker(TrimSpace(marker)) then Ok(TrimSpace(marker)) else Error
  }

  // ----- the marker of one source message -----

  type uint32 = n: int | 0 <= n < 0x1_0000_0000

  /** v1 */
  const VERSION: seq<Byte> := [118, 49]

  function Marker(token: seq<Byte>, uidValidity: uint32, uid: uint32): seq<Byte> {
    VERSION + [DOT] + token + [DOT] + Padded(uidValidity, 10) + [DOT] + Padded(uid, 10)
  }

  function MessageSyncMarker(taskToken: seq<Byte>, uidValidity: uint32, uid: uint32): Result<seq<Byte>> {
    match ValidateTaskToken(taskToken)
    case Error => Error
    case Ok(token) => if uidValidity == 0 || uid == 0 then Error else Ok(Marker(token, uidValidity, uid))
  }

  // ----- reading -----

  predicate HasHeaderValue(raw: seq<Byte>, name: seq<Byte>, value: seq<Byte>) {
    exists i :: 0 <= i < |HeaderLines(raw)| && Says(HeaderLines(raw)[i], name, value)
  }

  /** What the pair of lines starting at i records for the marker, if it is a pair that records anything. */
  function Recorded(lines: seq<seq<Byte>>, i: nat, marker: seq<Byte>, parser: Parser): Option<Civil>
    requires i + 1 < |lines|
  {
    if Names(lines[i], TIMESTAMP_HEADER) && Says(lines[i + 1], MARKER_HEADER, marker) then
      match ParseTime(TrimSpace(FieldOf(lines[i]).value), parser)
      case Some(time) => if 1 <= time.year <= 9999 then Some(time) else None
      case None => None
    else None
  }

  /** The first record for the marker from line i on. */
  function RecordFrom(lines: seq<seq<Byte>>, i: nat, marker: seq<Byte>, parser: Parser): Option<Civil>
    decreases |lines| - i
  {
    if i + 1 >= |lines| then None
    else if Recorded(lines, i, marker, parser).Some? then Recorded(lines, i, marker, parser)
    else RecordFrom(lines, i + 1, marker, parser)
  }

  function TimestampForMarker(raw: seq<Byte>, marker: seq<Byte>, parser: Parser): Option<Civil> {
    match ValidateMarker(marker)
    case Error => None
    case Ok(valid) => RecordFrom(HeaderLines(raw), 0, valid, parser)
  }

  // ----- printing -----

  function Prepend(name: seq<Byte>, value: seq<Byte>, raw: seq<Byte>): seq<Byte> {
    PrintedField(name, value) + LineEnding(raw) + raw
  }

  function AddSyncMarkerHeader(raw: seq<Byte>, marker: seq<Byte>): Result<seq<Byte>> {
    if raw == [] then Error
    else
      match ValidateMarker(marker)
      case Error => Error
      case Ok(valid) =>
        if HasHeaderValue(raw, MARKER_HEADER, valid) then Ok(raw) else Ok(Prepend(MARKER_HEADER, valid, raw))
  }

  type Moment = t: Civil | Real(t) witness ZERO_TIME

  /** The times that are printed: from the second after the zero time to the end of year 9999. */
  predicate Printable(t: Moment) {
    t != ZERO_TIME && 1 <= t.year <= 9999
  }

  function AddSyncHeaders(raw: seq<Byte>, marker: seq<Byte>, syncedAt: Moment, parser: Parser): Result<seq<Byte>> {
    if raw == [] then Error
    else
      match ValidateMarker(marker)
      case Error => Error
      case Ok(valid) =>
        if !Printable(syncedAt) then Error
        else
          var value := Format(Truncated(syncedAt));
          if !HasHeaderValue(raw, MARKER_HEADER, valid) then
            Ok(Prepend(TIMESTAMP_HEADER, value, Prepend(MARKER_HEADER, valid, raw)))
          else if TimestampForMarker(raw, valid, parser).Some? then Ok(raw)
          else Ok(Prepend(TIMESTAMP_HEADER, value, raw))
  }

  // ----- what is read from what was printed -----

  lemma MarkerIsToken(marker: seq<Byte>)
    requires ValidMarker(marker)
    ensures Token(marker) && ValidateMarker(marker) == Ok(marker)
  {
    TokenIsTrimmed(marker);
  }

  lemma HeadersAreTokens()
    ensures Token(MARKER_HEADER) && Token(TIMESTAMP_HEADER) && COLON !in MARKER_HEADER && COLON !in TIMESTAMP_HEADER
  {
  }

  /** A printed field comes first among the header lines and says what was printed. */
  lemma PrependIsRead(name: seq<Byte>, value: seq<Byte>, raw: seq<Byte>) returns (first: seq<Byte>)
    requires Token(name) && COLON !in name && Token(value)
    ensures Says(first, name, value) && FieldOf(first) == Field(name, [SPACE] + value)
    ensures var lines := HeaderLines(Prepend(name, value, raw));
            lines == [first] + HeaderLines(raw) || (BlankFirst(raw) && lines == [first])
    ensures !BlankFirst(Prepend(name, value, raw))
  {
    first := HeaderOfPrepended(PrintedField(name, value), raw);
    PrintedFieldSays(name, value, first);
    assert Prepend(name, value, raw)[0] == name[0];
  }

  lemma LinesOfTwo(name: seq<Byte>, value: seq<Byte>, other: seq<Byte>, otherValue: seq<Byte>, raw: seq<Byte>)
    returns (first: seq<Byte>, second: seq<Byte>, rest: seq<seq<Byte>>)
    requires Token(name) && COLON !in name && Token(value)
    requires Token(other) && COLON !in other && Token(otherValue)
    ensures HeaderLines(Prepend(name, value, Prepend(other, otherValue, raw))) == [first, second] + rest
    ensures FieldOf(first) == Field(name, [SPACE] + value)
    ensures FieldOf(second) == Field(other, [SPACE] + otherValue) && Says(second, other, otherValue)
    ensures rest == HeaderLines(raw) || rest == []
  {
    hide *;
    second := PrependIsRead(other, otherValue, raw);
    var marked := Prepend(other, otherValue, raw);
    first := PrependIsRead(name, value, marked);
    rest := HeaderLines(marked)[1..];
    assert HeaderLines(marked) == [second] + rest;
    assert [first, second] + rest == [first] + ([second] + rest);
  }

  lemma RecordsFromNext(first: seq<Byte>, lines: seq<seq<Byte>>, i: nat, marker: seq<Byte>, parser: Parser)
    ensures RecordFrom([first] + lines, i + 1, marker, parser) == RecordFrom(lines, i, marker, parser)
    decreases |lines| - i
  {
    hide Recorded;
    if i + 1 < |lines| {
      RecordedFromNext(first, lines, i, marker, parser);
      RecordsFromNext(first, lines, i + 1, marker, parser);
    }
  }

  lemma RecordedFromNext(first: seq<Byte>, lines: seq<seq<Byte>>, i: nat, marker: seq<Byte>, parser: Parser)
    requires i + 1 < |lines|
    ensures Recorded([first] + lines, i + 1, marker, parser) == Recorded(lines, i, marker, parser)
  {
    hide Says, Names;
    assert ([first] + lines)[i + 1] == lines[i] && ([first] + lines)[i + 2] == lines[i + 1];
  }

  /** A printed timestamp records its time for the marker of the next line, and nothing for any other. */
  lemma PrintedTimestampRecords(first: seq<Byte>, next: seq<Byte>, marker: seq<Byte>, t: Moment, parser: Parser)
    requires Printable(t)
    requires Says(first, TIMESTAMP_HEADER, Format(Truncated(t)))
    ensures Recorded([first, next], 0, marker, parser) ==
            if Says(next, MARKER_HEADER, marker) then Some(Truncated(t)) else None
  {
    hide FieldOf, TrimSpace, FoldsTo, Format, ParseTime, Truncated;
    TruncatedTwice(t);
    PrintedTimeIsRead(Truncated(t), parser);
  }

  lemma TruncatedTwice(t: Moment)
    ensures Real(Truncated(t)) && Truncated(Truncated(t)) == Truncated(t) && Truncated(t).year == t.year
  {
  }

  lemma RecordsBehindTimestamp(
    first: seq<Byte>, lines: seq<seq<Byte>>, marker: seq<Byte>, t: Moment, parser: Parser)
    requires Printable(t) && lines != []
    requires Says(first, TIMESTAMP_HEADER, Format(Truncated(t)))
    ensures RecordFrom([first] + lines, 0, marker, parser) ==
            if Says(lines[0], MARKER_HEADER, marker) then Some(Truncated(t)) else RecordFrom(lines, 0, marker, parser)
  {
    PrintedTimestampRecords(first, lines[0], marker, t, parser);
    RecordsFromNext(first, lines, 0, marker, parser);
    SameFirstPair(first, lines, marker, parser);
    hide Says, Recorded, Format, Truncated;
  }

  lemma SameFirstPair(first: seq<Byte>, lines: seq<seq<Byte>>, marker: seq<Byte>, parser: Parser)
    requires lines != []
    ensures Recorded([first] + lines, 0, marker, parser) == Recorded([first, lines[0]], 0, marker, parser)
  {
    hide Says, Names, ParseTime, FieldOf, TrimSpace;
    assert ([first] + lines)[1] == lines[0];
  }

  lemma BlankSaysNothing(raw: seq<Byte>, name: seq<Byte>, value: seq<Byte>)
    requires BlankFirst(raw)
    ensures !Says(HeaderLines(raw)[0], name, value)
  {
    var head := raw[..HeaderEnd(raw)];
    var first := HeaderLines(raw)[0];
    assert |head| > 0 && raw[0] == LF ==> head[0] == LF;
    assert |head| > 1 && raw[0] == CR ==> head[0] == CR && head[1] == LF;
    assert |head| == 1 && raw[0] == CR ==> head == [CR];
    if LF !in head {
      SplitOne(head, LF);
    } else if raw[0] == LF {
      FirstIndex(head, [LF], 0);
    } else {
      assert At(head, [LF], 1);
      FirstIndex(head, [LF], 1);
      assert first == head[..1] == [CR];
    }
  }

  /** A timestamp put in front is found if the marker is on the first line; else what was recorded before, if
      anything, is all there is. */
  lemma TimestampInFront(raw: seq<Byte>, marker: seq<Byte>, t: Moment, parser: Parser)
    requires ValidMarker(marker) && Printable(t)
    ensures var out := Prepend(TIMESTAMP_HEADER, Format(Truncated(t)), raw);
            if Says(HeaderLines(raw)[0], MARKER_HEADER, marker)
            then TimestampForMarker(out, marker, parser) == Some(Truncated(t))
            else TimestampForMarker(raw, marker, parser).None? ==> TimestampForMarker(out, marker, parser).None?
  {
    var value := Format(Truncated(t));
    HeadersAreTokens();
    MarkerIsToken(marker);
    PrintedTimeIsRead(Truncated(t), parser);
    hide Says, Names, HeaderLines, Format, Prepend, RecordFrom;
    var first := PrependIsRead(TIMESTAMP_HEADER, value, raw);
    if BlankFirst(raw) {
      BlankSaysNothing(raw, MARKER_HEADER, marker);
    }
    RecordsBehindTimestamp(first, HeaderLines(raw), marker, t, parser);
    RecordsOfOne(first, marker, parser);
  }

  lemma RecordsOfOne(line: seq<Byte>, marker: seq<Byte>, parser: Parser)
    ensures RecordFrom([line], 0, marker, parser).None?
  {
  }

  lemma ValueStays(name: seq<Byte>, value: seq<Byte>, raw: seq<Byte>, other: seq<Byte>, valueOfOther: seq<Byte>)
    requires Token(name) && COLON !in name && Token(value) && !BlankFirst(raw)
    ensures HasHeaderValue(raw, other, valueOfOther) ==> HasHeaderValue(Prepend(name, value, raw), other, valueOfOther)
  {
    hide Says, HeaderLines, Prepend;
    var first := PrependIsRead(name, value, raw);
    if HasHeaderValue(raw, other, valueOfOther) {
      var i :| 0 <= i < |HeaderLines(raw)| && Says(HeaderLines(raw)[i], other, valueOfOther);
      assert HeaderLines(Prepend(name, value, raw))[i + 1] == HeaderLines(raw)[i];
    }
  }

  lemma ValueIsThere(name: seq<Byte>, value: seq<Byte>, raw: seq<Byte>)
    requires Token(name) && COLON !in name && Token(value)
    ensures HasHeaderValue(Prepend(name, value, raw), name, value)
    ensures Says(HeaderLines(Prepend(name, value, raw))[0], name, value)
  {
    hide Says, HeaderLines, Prepend;
    var first := PrependIsRead(name, value, raw);
    assert HeaderLines(Prepend(name, value, raw))[0] == first;
  }

  /** When a message takes a lasting record: it lacks the marker, or its marker is recorded already, or the marker
      is its first line, where the timestamp lands beside it. */
  predicate TakesRecord(raw: seq<Byte>, marker: seq<Byte>, parser: Parser) {
    || !HasHeaderValue(raw, MARKER_HEADER, marker)
    || TimestampForMarker(raw, marker, parser).Some?
    || Says(HeaderLines(raw)[0], MARKER_HEADER, marker)
  }

  /** What is read back after printing: the first transfer time there was, or this one to the second. */
  lemma PrintedIsRead(raw: seq<Byte>, marker: seq<Byte>, t: Moment, parser: Parser)
    requires raw != [] && ValidMarker(marker) && Printable(t)
    ensures AddSyncHeaders(raw, marker, t, parser).Ok?
    ensures var out := AddSyncHeaders(raw, marker, t, parser).value;
            var present := HasHeaderValue(raw, MARKER_HEADER, marker);
            var before := TimestampForMarker(raw, marker, parser);
            TimestampForMarker(out, marker, parser) ==
            if !TakesRecord(raw, marker, parser) then None
            else if present && before.Some? then before else Some(Truncated(t))
    ensures TakesRecord(raw, marker, parser) ==>
              HasHeaderValue(AddSyncHeaders(raw, marker, t, parser).value, MARKER_HEADER, marker)
  {
    HeadersAreTokens();
    MarkerIsToken(marker);
    FormatIsToken(t);
    hide Says, HeaderLines, Prepend, Format, HasHeaderValue, TimestampForMarker;
    var value := Format(Truncated(t));
    if !HasHeaderValue(raw, MARKER_HEADER, marker) {
      var marked := Prepend(MARKER_HEADER, marker, raw);
      ValueIsThere(MARKER_HEADER, marker, raw);
      var first := PrependIsRead(MARKER_HEADER, marker, raw);
      TimestampInFront(marked, marker, t, parser);
      ValueStays(TIMESTAMP_HEADER, value, marked, MARKER_HEADER, marker);
    } else if TimestampForMarker(raw, marker, parser).None? {
      TimestampInFront(raw, marker, t, parser);
      if BlankFirst(raw) {
        BlankSaysNothing(raw, MARKER_HEADER, marker);
      } else {
        ValueStays(TIMESTAMP_HEADER, value, raw, MARKER_HEADER, marker);
      }
    }
  }

  lemma FormatIsToken(t: Moment)
    requires Printable(t)
    ensures Token(Format(Truncated(t)))
  {
    TruncatedTwice(t);
    PrintedTimeIsRead(Truncated(t), _ => None);
  }

  /** Reapplying with any later time leaves the bytes alone exactly for a message that takes a lasting record;
      on any other, every attempt puts one more timestamp in front. */
  lemma ReapplyingIsIdempotent(raw: seq<Byte>, marker: seq<Byte>, t: Moment, later: Moment, parser: Parser)
    requires raw != [] && ValidMarker(marker) && Printable(t) && Printable(later)
    ensures var out := AddSyncHeaders(raw, marker, t, parser).value;
            AddSyncHeaders(out, marker, later, parser) == Ok(out) <==> TakesRecord(raw, marker, parser)
  {
    hide *;
    PrintedIsRead(raw, marker, t, parser);
    AddingShows(raw, marker, t, parser);
    AddingShows(AddSyncHeaders(raw, marker, t, parser).value, marker, later, parser);
  }

  /** Only a message that can already be read is left alone. */
  lemma AddingShows(raw: seq<Byte>, marker: seq<Byte>, t: Moment, parser: Parser)
    requires raw != [] && ValidMarker(marker) && Printable(t)
    ensures AddSyncHeaders(raw, marker, t, parser).Ok? && AddSyncHeaders(raw, marker, t, parser).value != []
    ensures AddSyncHeaders(raw, marker, t, parser) == Ok(raw) <==>
            HasHeaderValue(raw, MARKER_HEADER, marker) && TimestampForMarker(raw, marker, parser).Some?
  {
    TruncatedTwice(t);
    var value := Format(Truncated(t));
    hide *;
    AddingIs(raw, marker, t, parser);
    PrintingLengthens(MARKER_HEADER, marker, raw);
    PrintingLengthens(TIMESTAMP_HEADER, value, raw);
    PrintingLengthens(TIMESTAMP_HEADER, value, Prepend(MARKER_HEADER, marker, raw));
  }

  /** The same for a marker that is valid as it stands. */
  lemma AddingIs(raw: seq<Byte>, marker: seq<Byte>, t: Moment, parser: Parser)
    requires raw != [] && ValidMarker(marker) && Printable(t)
    ensures AddSyncHeaders(raw, marker, t, parser) ==
            Ok(if !HasHeaderValue(raw, MARKER_HEADER, marker)
               then Prepend(TIMESTAMP_HEADER, Format(Truncated(t)), Prepend(MARKER_HEADER, marker, raw))
               else if TimestampForMarker(raw, marker, parser).Some? then raw
               else Prepend(TIMESTAMP_HEADER, Format(Truncated(t)), raw))
  {
    MarkerIsToken(marker);
    ValidIsTrimmed(marker);
    hide HasHeaderValue, TimestampForMarker, Prepend, Format, Truncated, ValidateMarker, Says, HeaderLines;
  }

  lemma ValidIsTrimmed(marker: seq<Byte>)
    requires ValidMarker(marker)
    ensures ValidateMarker(marker) == Ok(marker)
  {
    MarkerIsToken(marker);
    TokenIsTrimmed(marker);
    hide TrimSpace, Token;
  }

  lemma PrintingLengthens(name: seq<Byte>, value: seq<Byte>, raw: seq<Byte>)
    ensures |Prepend(name, value, raw)| > |raw|
  {
    hide LineEnding;
  }

  /** A message, "A: a", that has the marker "m" on its second line, without a timestamp beside it. */
  function Unpaired(): seq<Byte> {
    Prepend([65], [97], Prepend(MARKER_HEADER, [109], [120]))
  }

  /** On it every attempt puts one more timestamp in front, and none of them is ever read back. */
  lemma UnpairedMarkerKeepsGrowing(t: Moment, later: Moment, parser: Parser)
    requires Printable(t) && Printable(later)
    ensures AddSyncHeaders(Unpaired(), [109], t, parser).Ok?
    ensures var raw, marker := Unpaired(), [109];
            var out := AddSyncHeaders(raw, marker, t, parser).value;
            && raw != [] && ValidMarker(marker) && HasHeaderValue(raw, MARKER_HEADER, marker)
            && AddSyncHeaders(out, marker, later, parser) != Ok(out)
            && TimestampForMarker(out, marker, parser) == None
  {
    var raw, marker := Unpaired(), [109];
    UnpairedTakesNoRecord(parser);
    hide *;
    ReapplyingIsIdempotent(raw, marker, t, later, parser);
    PrintedIsRead(raw, marker, t, parser);
  }

  lemma UnpairedTakesNoRecord(parser: Parser)
    ensures Unpaired() != [] && ValidMarker([109]) && HasHeaderValue(Unpaired(), MARKER_HEADER, [109])
    ensures !TakesRecord(Unpaired(), [109], parser)
  {
    hide *;
    UnpairedIs();
    PrintingLengthens([65], [97], Prepend(MARKER_HEADER, [109], [120]));
    ShortMarker();
    var lines := UnpairedLines();
    NothingRecorded(lines, [109], parser);
    MarkerUnrecorded(Unpaired(), lines, [109], parser);
  }

  lemma ShortMarker()
    ensures ValidMarker([109]) && ValidateMarker([109]) == Ok([109])
  {
    TokenIsTrimmed([109]);
    hide TrimSpace;
  }

  lemma MarkerUnrecorded(raw: seq<Byte>, lines: seq<seq<Byte>>, marker: seq<Byte>, parser: Parser)
    requires lines == HeaderLines(raw) && 2 <= |lines| && !Names(lines[0], MARKER_HEADER)
    requires Says(lines[1], MARKER_HEADER, marker) && RecordFrom(lines, 0, marker, parser) == None
    requires ValidateMarker(marker) == Ok(marker)
    ensures HasHeaderValue(raw, MARKER_HEADER, marker) && !TakesRecord(raw, marker, parser)
  {
    hide HeaderLines, Names, RecordFrom, ValidateMarker, TrimSpace;
  }

  lemma UnpairedLines() returns (lines: seq<seq<Byte>>)
    ensures lines == HeaderLines(Unpaired()) && 2 <= |lines| <= 3
    ensures Says(lines[1], MARKER_HEADER, [109]) && !Names(lines[1], TIMESTAMP_HEADER)
    ensures !Names(lines[0], MARKER_HEADER) && !Names(lines[0], TIMESTAMP_HEADER)
  {
    hide *;
    HeadersAreTokens();
    ShortTokens();
    OneLineOfText();
    OtherNames();
    lines := TwoNamedLines([65], [97], MARKER_HEADER, [109], TIMESTAMP_HEADER, [120]);
    UnpairedIs();
  }

  lemma UnpairedIs()
    ensures Unpaired() == Prepend([65], [97], Prepend(MARKER_HEADER, [109], [120]))
  {
  }

  lemma ShortTokens()
    ensures Token([65]) && Token([97]) && Token([109]) && COLON !in [65]
  {
  }

  lemma TwoNamedLines(name: seq<Byte>, value: seq<Byte>, other: seq<Byte>, otherValue: seq<Byte>, third: seq<Byte>,
                      raw: seq<Byte>)
    returns (lines: seq<seq<Byte>>)
    requires Token(name) && COLON !in name && Token(value) && Token(other) && COLON !in other && Token(otherValue)
    requires !FoldsTo(name, other) && !FoldsTo(name, third) && !FoldsTo(other, third) && |HeaderLines(raw)| <= 1
    ensures lines == HeaderLines(Prepend(name, value, Prepend(other, otherValue, raw))) && 2 <= |lines| <= 3
    ensures Says(lines[1], other, otherValue) && !Names(lines[1], third)
    ensures !Names(lines[0], other) && !Names(lines[0], third)
  {
    hide *;
    var first, second, rest := LinesOfTwo(name, value, other, otherValue, raw);
    NamedOtherwise(first, name, [SPACE] + value, other);
    NamedOtherwise(first, name, [SPACE] + value, third);
    NamedOtherwise(second, other, [SPACE] + otherValue, third);
    lines := [first, second] + rest;
  }

  lemma NamedOtherwise(line: seq<Byte>, name: seq<Byte>, rest: seq<Byte>, other: seq<Byte>)
    requires Token(name) && FieldOf(line) == Field(name, rest) && !FoldsTo(name, other)
    ensures !Names(line, other)
  {
    hide FoldsTo, FieldOf, TrimSpace;
    TokenIsTrimmed(name);
  }

  /** Two or three lines, the second of which is the marker, with no timestamp among the first two. */
  lemma NothingRecorded(lines: seq<seq<Byte>>, marker: seq<Byte>, parser: Parser)
    requires 2 <= |lines| <= 3 && !Names(lines[0], TIMESTAMP_HEADER) && !Names(lines[1], TIMESTAMP_HEADER)
    ensures RecordFrom(lines, 0, marker, parser) == None
  {
    hide Names, Says, ParseTime;
    assert RecordFrom(lines, 2, marker, parser) == None;
    assert RecordFrom(lines, 1, marker, parser) == None;
  }

  lemma OneLineOfText()
    ensures |HeaderLines([120])| == 1
  {
    SplitOne([120], LF);
    assert [120][..HeaderEnd([120])] == [120];
  }

  lemma OtherNames()
    ensures !FoldsTo([65], MARKER_HEADER) && !FoldsTo([65], TIMESTAMP_HEADER) && !FoldsTo(MARKER_HEADER, TIMESTAMP_HEADER)
  {
    hide FoldsTo;
    OtherLetter([65], MARKER_HEADER);
    OtherLetter([65], TIMESTAMP_HEADER);
    OtherLength(MARKER_HEADER, TIMESTAMP_HEADER);
  }

  lemma OtherLetter(s: seq<Byte>, name: seq<Byte>)
    requires s != [] && name != [] && s[0] < 128 && LowerAscii(s[0]) != LowerAscii(name[0])
    ensures !FoldsTo(s, name)
  {
  }

  lemma OtherLength(s: seq<Byte>, name: seq<Byte>)
    requires |s| != |name| && forall i :: 0 <= i < |s| ==> s[i] < 128
    ensures !FoldsTo(s, name)
  {
    hide LowerAscii;
    if FoldsTo(s, name) {
      AsciiFoldsInPlace(s, name);
    }
  }

  /** The promise for a message that was never copied: its transfer time is read back to the second, whatever else
      the message says and however its lines end; copying again changes nothing; and its bytes are all there. */
  lemma FirstTransferIsKept(raw: seq<Byte>, marker: seq<Byte>, t: Moment, later: Moment, parser: Parser)
    requires raw != [] && ValidMarker(marker) && Printable(t) && Printable(later)
    requires !HasHeaderValue(raw, MARKER_HEADER, marker)
    ensures AddSyncHeaders(raw, marker, t, parser).Ok?
    ensures var out := AddSyncHeaders(raw, marker, t, parser).value;
            && TimestampForMarker(out, marker, parser) == Some(Truncated(t))
            && AddSyncHeaders(out, marker, later, parser) == Ok(out)
            && |out| >= |raw| && out[|out| - |raw|..] == raw
  {
    MarkerIsToken(marker);
    PrintedIsRead(raw, marker, t, parser);
    ReapplyingIsIdempotent(raw, marker, t, later, parser);
    hide TimestampForMarker, Format, PrintedField;
  }

  /** White space around the marker argument does not matter. */
  lemma MarkerIsTrimmed(raw: seq<Byte>, marker: seq<Byte>, t: Moment, parser: Parser)
    requires ValidateMarker(marker).Ok?
    ensures var valid := ValidateMarker(marker).value;
            && ValidMarker(valid)
            && AddSyncMarkerHeader(raw, marker) == AddSyncMarkerHeader(raw, valid)
            && AddSyncHeaders(raw, marker, t, parser) == AddSyncHeaders(raw, valid, t, parser)
            && TimestampForMarker(raw, marker, parser) == TimestampForMarker(raw, valid, parser)
  {
    hide ValidateMarker, ValidMarker, HasHeaderValue, RecordFrom, Prepend, Format;
    ValidatedTwice(marker);
  }

  lemma ValidatedTwice(marker: seq<Byte>)
    requires ValidateMarker(marker).Ok?
    ensures ValidMarker(ValidateMarker(marker).value)
    ensures ValidateMarker(ValidateMarker(marker).value) == ValidateMarker(marker)
  {
    hide TrimSpace;
    MarkerIsToken(ValidateMarker(marker).value);
  }

  // ----- the scans -----

  method FindHeaderValue(raw: seq<Byte>, name: seq<Byte>, expected: seq<Byte>) returns (found: bool)
    ensures found <==> HasHeaderValue(raw, name, expected)
  {
    hide FoldsTo, TrimSpace, FieldOf, HeaderLines;
    var lines := HeaderLines(raw);
    for i := 0 to |lines|
      invariant forall k :: 0 <= k < i ==> !Says(lines[k], name, expected)
    {
      var line := lines[i];
      if !Names(line, name) {
        continue;
      }
      if TrimSpace(FieldOf(line).value) == expected {
        return true;
      }
    }
    return false;
  }

  method SyncTimestampForMarker(raw: seq<Byte>, marker: seq<Byte>, parser: Parser) returns (result: Option<Civil>)
    ensures result == TimestampForMarker(raw, marker, parser)
  {
    var validated := ValidateMarker(marker);
    if validated.Error? {
      return None;
    }
    hide FoldsTo, TrimSpace, FieldOf, ParseTime, ValidateMarker, HeaderLines;
    var lines := HeaderLines(raw);
    var i := 0;
    while i + 1 < |lines|
      invariant i <= |lines|
      invariant RecordFrom(lines, i, validated.value, parser) == RecordFrom(lines, 0, validated.value, parser)
    {
      var at := i;
      i := i + 1;
      if !Names(lines[at], TIMESTAMP_HEADER) {
        continue;
      }
      if !Names(lines[at + 1], MARKER_HEADER) || TrimSpace(FieldOf(lines[at + 1]).value) != validated.value {
        continue;
      }
      var parsed := ParseTime(TrimSpace(FieldOf(lines[at]).value), parser);
      if parsed.None? {
        continue;
      }
      if 1 <= parsed.value.year <= 9999 {
        return parsed;
      }
    }
    return None;
  }
}
