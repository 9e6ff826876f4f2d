/** Reading the header of a raw message: where it ends, its lines, and the field on a line. */
module HeaderText {

  import opened Bytes
  import opened Utf8

  const CRLF: seq<Byte> := [CR, LF]
  const CRLF_CRLF: seq<Byte> := [CR, LF, CR, LF]
  const LF_LF: seq<Byte> := [LF, LF]

  predicate At(s: seq<Byte>, pattern: seq<Byte>, i: nat) {
    i + |pattern| <= |s| && s[i..i + |pattern|] == pattern
  }

  function IndexFrom(s: seq<Byte>, pattern: seq<Byte>, from: nat): (r: int)
    ensures r == -1 || (from <= r && At(s, pattern, r))
    ensures forall k :: from <= k && (r == -1 || k < r) ==> !At(s, pattern, k)
    decreases |s| - from
  {
    if from + |pattern| > |s| then -1
    else if At(s, pattern, from) then from
    else IndexFrom(s, pattern, from + 1)
  }

  /** The first occurrence, or -1. */
  function Index(s: seq<Byte>, pattern: seq<Byte>): (r: int)
    ensures r == -1 || (0 <= r && At(s, pattern, r))
    ensures forall k: nat :: r == -1 || k < r ==> !At(s, pattern, k)
  {
    IndexFrom(s, pattern, 0)
  }

  /** What the separator separates; always at least one part. */
  function Split(s: seq<Byte>, separator: Byte): (parts: seq<seq<Byte>>)
    ensures parts != []
  {
    var i := Index(s, [separator]);
    if i < 0 then [s] else [s[..i]] + Split(s[i + 1..], separator)
  }

  function Lines(s: seq<Byte>): (lines: seq<seq<Byte>>)
    ensures lines != []
  {
    Split(s, LF)
  }

  /** The header ends at the first CRLF CRLF; only without one does LF LF end it. */
  function HeaderEnd(raw: seq<Byte>): (end: nat)
    ensures end <= |raw|
  {
    var crlf, lf := Index(raw, CRLF_CRLF), Index(raw, LF_LF);
    if crlf >= 0 then crlf else if lf >= 0 then lf else |raw|
  }

  function HeaderLines(raw: seq<Byte>): (lines: seq<seq<Byte>>)
    ensures lines != []
  {
    Lines(raw[..HeaderEnd(raw)])
  }

  function TrimLeft(s: seq<Byte>): seq<Byte> {
    if s != [] && RuneWidth(s) > 0 && StartsWithSpace(s) then TrimLeft(s[RuneWidth(s)..]) else s
  }

  /** The last w bytes are one white-space rune. */
  predicate EndsWithSpaceOf(s: seq<Byte>, w: nat) {
    0 < w <= |s| && RuneWidth(s[|s| - w..]) == w && StartsWithSpace(s[|s| - w..])
  }

  function TrimRight(s: seq<Byte>): seq<Byte> {
    if EndsWithSpaceOf(s, 1) then TrimRight(s[..|s| - 1])
    else if EndsWithSpaceOf(s, 2) then TrimRight(s[..|s| - 2])
    else if EndsWithSpaceOf(s, 3) then TrimRight(s[..|s| - 3])
    else s
  }

  function TrimSpace(s: seq<Byte>): seq<Byte> {
    TrimRight(TrimLeft(s))
  }

  function LowerAscii(b: Byte): Byte {
    if 65 <= b <= 90 then b + 32 else b
  }

  /** Case folding against an ASCII name: besides the two cases of a letter, U+017F folds to s and U+212A to k. */
  predicate FoldsTo(s: seq<Byte>, name: seq<Byte>) {
    if name == [] then s == []
    else
      || (s != [] && LowerAscii(s[0]) == LowerAscii(name[0]) && FoldsTo(s[1..], name[1..]))
      || (LowerAscii(name[0]) == 115 && |s| >= 2 && s[..2] == [0xC5, 0xBF] && FoldsTo(s[2..], name[1..]))
      || (LowerAscii(name[0]) == 107 && |s| >= 3 && s[..3] == [0xE2, 0x84, 0xAA] && FoldsTo(s[3..], name[1..]))
  }

  datatype Field = Field(name: seq<Byte>, value: seq<Byte>) | NoField

  function Unended(line: seq<Byte>): seq<Byte> {
    if line != [] && line[|line| - 1] == CR then line[..|line| - 1] else line
  }

  /** The line without a final CR, cut at its first colon. */
  function FieldOf(line: seq<Byte>): Field {
    var text := Unended(line);
    var i := Index(text, [COLON]);
    if i < 0 then NoField else Field(text[..i], text[i + 1..])
  }

  predicate Names(line: seq<Byte>, name: seq<Byte>) {
    FieldOf(line).Field? && FoldsTo(TrimSpace(FieldOf(line).name), name)
  }

  predicate Says(line: seq<Byte>, name: seq<Byte>, value: seq<Byte>) {
    Names(line, name) && TrimSpace(FieldOf(line).value) == value
  }

  // ----- printing a field and reading it back -----

  /** Printable ASCII without spaces: what header names and their values here are made of. */
  predicate Token(s: seq<Byte>) {
    s != [] && forall i :: 0 <= i < |s| ==> 33 <= s[i] <= 126
  }

  function PrintedField(name: seq<Byte>, value: seq<Byte>): seq<Byte> {
    name + [COLON, SPACE] + value
  }

  lemma TokenIsTrimmed(s: seq<Byte>)
    requires Token(s)
    ensures TrimSpace(s) == s && TrimSpace([SPACE] + s) == s
  {
    assert TrimRight(s) == s by {
      forall w | w in {1, 2, 3} ensures !EndsWithSpaceOf(s, w) {
        if w <= |s| {
          assert s[|s| - w..][w - 1] == s[|s| - 1];
        }
      }
    }
    assert TrimLeft(s) == s;
    assert RuneWidth([SPACE] + s) == 1 && ([SPACE] + s)[1..] == s;
  }

  lemma {:induction false} FoldsToItself(s: seq<Byte>)
    ensures FoldsTo(s, s)
  {
    if s != [] {
      FoldsToItself(s[1..]);
    }
  }

  lemma {:induction false} AsciiFoldsInPlace(s: seq<Byte>, name: seq<Byte>)
    requires FoldsTo(s, name) && forall i :: 0 <= i < |s| ==> s[i] < 128
    ensures |s| == |name|
  {
    if name != [] {
      AsciiFoldsInPlace(s[1..], name[1..]);
    }
  }

  lemma FirstIndex(s: seq<Byte>, pattern: seq<Byte>, i: nat)
    requires At(s, pattern, i) && forall k: nat :: k < i ==> !At(s, pattern, k)
    ensures Index(s, pattern) == i
  {
  }

  /** A printed field, with or without the CR of its line, says what was printed. */
  lemma PrintedFieldSays(name: seq<Byte>, value: seq<Byte>, line: seq<Byte>)
    requires Token(name) && Token(value) && COLON !in name
    requires Unended(line) == PrintedField(name, value)
    ensures Says(line, name, value) && FieldOf(line) == Field(name, [SPACE] + value)
  {
    PrintedFieldIsCut(name, value, line);
    TokenIsTrimmed(name);
    TokenIsTrimmed(value);
    FoldsToItself(name);
    hide FieldOf, FoldsTo, TrimSpace;
  }

  lemma PrintedFieldIsCut(name: seq<Byte>, value: seq<Byte>, line: seq<Byte>)
    requires COLON !in name && Unended(line) == PrintedField(name, value)
    ensures FieldOf(line) == Field(name, [SPACE] + value)
  {
    var text := PrintedField(name, value);
    assert At(text, [COLON], |name|);
    forall k: nat | k < |name| ensures !At(text, [COLON], k) {
      assert text[k] == name[k];
    }
    FirstIndex(text, [COLON], |name|);
    assert text[..|name|] == name && text[|name| + 1..] == [SPACE] + value;
  }

  // ----- a line put in front of a message -----

  /** The line ending a message is written with, judged by its first LF; CRLF when it has none. */
  function LineEnding(raw: seq<Byte>): seq<Byte> {
    var first := Index(raw, [LF]);
    if first >= 0 && (first == 0 || raw[first - 1] != CR) then [LF] else CRLF
  }

  /** A line of text: something, without CR or LF. */
  predicate OneLine(line: seq<Byte>) {
    line != [] && CR !in line && LF !in line
  }

  lemma IndexShifts(prefix: seq<Byte>, raw: seq<Byte>, pattern: seq<Byte>)
    requires pattern != [] && forall k: nat :: k < |prefix| ==> !At(prefix + raw, pattern, k)
    ensures Index(prefix + raw, pattern) == if Index(raw, pattern) < 0 then -1 else |prefix| + Index(raw, pattern)
  {
    var all := prefix + raw;
    forall k: nat | |prefix| <= k ensures At(all, pattern, k) <==> At(raw, pattern, k - |prefix|) {
      if k + |pattern| <= |all| {
        assert all[k..k + |pattern|] == raw[k - |prefix|..k - |prefix| + |pattern|];
      }
    }
    if Index(raw, pattern) >= 0 {
      FirstIndex(all, pattern, |prefix| + Index(raw, pattern));
    }
  }

  lemma SplitAt(part: seq<Byte>, separator: Byte, rest: seq<Byte>)
    requires separator !in part
    ensures Split(part + [separator] + rest, separator) == [part] + Split(rest, separator)
  {
    var s := part + [separator] + rest;
    assert At(s, [separator], |part|);
    forall k: nat | k < |part| ensures !At(s, [separator], k) {
      assert s[k] == part[k];
    }
    FirstIndex(s, [separator], |part|);
    assert s[..|part|] == part && s[|part| + 1..] == rest;
  }

  lemma SplitOne(part: seq<Byte>, separator: Byte)
    requires separator !in part
    ensures Split(part, separator) == [part]
  {
    assert forall k: nat :: At(part, [separator], k) ==> part[k] == separator;
  }

  lemma LinesOfPrepended(line: seq<Byte>, ending: seq<Byte>, rest: seq<Byte>)
    requires OneLine(line) && (ending == [LF] || ending == CRLF)
    ensures Lines(line + ending + rest) == [line + ending[..|ending| - 1]] + Lines(rest)
  {
    var text := line + ending[..|ending| - 1];
    assert line + ending + rest == text + [LF] + rest;
    SplitAt(text, LF, rest);
  }

  /** Whether a blank line comes first, so that a line put in front of it is a header of its own. */
  predicate BlankFirst(raw: seq<Byte>) {
    (raw != [] && raw[0] == LF) || CRLF <= raw
  }

  /** No double line ending starts inside a line and the ending behind it, but for a blank line that follows. */
  lemma NoDoubleEndingInside(line: seq<Byte>, raw: seq<Byte>, k: nat)
    requires OneLine(line) && k < |line| + |LineEnding(raw)|
    ensures var s := line + LineEnding(raw) + raw;
            && (At(s, CRLF_CRLF, k) <==> k == |line| && CRLF <= raw && LineEnding(raw) == CRLF)
            && (At(s, LF_LF, k) <==> k == |line| && raw != [] && raw[0] == LF)
  {
    var ending := LineEnding(raw);
    var s := line + ending + raw;
    if raw != [] && raw[0] == LF {
      assert At(raw, [LF], 0);
      assert ending == [LF];
    }
    assert k + 2 <= |s| ==> s[k..k + 2] == [s[k], s[k + 1]];
    assert k + 4 <= |s| ==> s[k..k + 4] == [s[k], s[k + 1], s[k + 2], s[k + 3]];
    if k < |line| {
      assert s[k] == line[k];
    } else {
      assert s[k] == ending[k - |line|];
      assert forall j :: k <= j < |s| ==> s[j] == if j < |line| + |ending| then ending[j - |line|]
                                               else raw[j - |line| - |ending|];
    }
  }

  /** Putting a line in front of a message puts it in front of the header lines; only before a blank line can it
      become the whole header. */
  lemma HeaderOfPrepended(line: seq<Byte>, raw: seq<Byte>) returns (first: seq<Byte>)
    requires OneLine(line)
    ensures Unended(first) == line
    ensures var lines := HeaderLines(line + LineEnding(raw) + raw);
            lines == [first] + HeaderLines(raw) || (BlankFirst(raw) && lines == [first])
  {
    var ending := LineEnding(raw);
    var prefix := line + ending;
    var s := prefix + raw;
    forall k: nat | k < |prefix|
      ensures At(s, CRLF_CRLF, k) <==> k == |line| && CRLF <= raw && ending == CRLF
      ensures At(s, LF_LF, k) <==> k == |line| && raw != [] && raw[0] == LF
    {
      NoDoubleEndingInside(line, raw, k);
    }
    if At(s, CRLF_CRLF, |line|) {
      FirstIndex(s, CRLF_CRLF, |line|);
      first := OnlyLine(line, s);
    } else {
      IndexShifts(prefix, raw, CRLF_CRLF);
      if Index(raw, CRLF_CRLF) < 0 && At(s, LF_LF, |line|) {
        FirstIndex(s, LF_LF, |line|);
        first := OnlyLine(line, s);
      } else {
        if Index(raw, CRLF_CRLF) < 0 {
          IndexShifts(prefix, raw, LF_LF);
        }
        assert s[..HeaderEnd(s)] == line + ending + raw[..HeaderEnd(raw)];
        LinesOfPrepended(line, ending, raw[..HeaderEnd(raw)]);
        first := line + ending[..|ending| - 1];
      }
    }
  }

  lemma OnlyLine(line: seq<Byte>, s: seq<Byte>) returns (first: seq<Byte>)
    requires OneLine(line) && line <= s && HeaderEnd(s) == |line|
    ensures HeaderLines(s) == [first] && Unended(first) == line
  {
    first := line;
    SplitOne(line, LF);
    assert s[..|line|] == line;
  }

  // ----- trimming twice -----

  lemma TrimRightIsTrimmed(s: seq<Byte>)
    ensures TrimRight(TrimRight(s)) == TrimRight(s) && TrimRight(s) <= s
  {
  }

  predicate SpaceLeads(s: seq<Byte>) {
    s != [] && RuneWidth(s) > 0 && StartsWithSpace(s)
  }

  lemma {:induction false} TrimLeftLeavesNoSpace(s: seq<Byte>)
    ensures !SpaceLeads(TrimLeft(s))
  {
    hide RuneWidth, StartsWithSpace;
    if SpaceLeads(s) {
      TrimLeftLeavesNoSpace(s[RuneWidth(s)..]);
    }
  }

  lemma SpaceLeadsLonger(s: seq<Byte>, t: seq<Byte>)
    requires s <= t && SpaceLeads(s)
    ensures SpaceLeads(t)
  {
    assert t == s + t[|s|..];
    RuneWidthPrefix(s, t[|s|..]);
  }

  lemma TrimIsTrimmed(s: seq<Byte>)
    ensures TrimSpace(TrimSpace(s)) == TrimSpace(s)
  {
    var left, both := TrimLeft(s), TrimSpace(s);
    TrimLeftLeavesNoSpace(s);
    TrimRightIsTrimmed(left);
    hide RuneWidth, StartsWithSpace, TrimRight, EndsWithSpaceOf;
    if SpaceLeads(both) {
      SpaceLeadsLonger(both, left);
    }
    assert TrimLeft(both) == both;
  }
}
