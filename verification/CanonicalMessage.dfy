/** Line-ending canonicalisation: CRLF and lone CR become LF, streamed to a hash as slices of the input. */
module CanonicalMessage {

  import opened Bytes

  // ----- lines of a message -----

  /** One lexeme of a message: a byte of content, or a line ending in one of its three spellings. */
  datatype Ending = Crlf | LoneCr | LoneLf
  datatype Lexeme = Content(value: Byte) | Line(ending: Ending)

  function Spelling(ending: Ending): seq<Byte> {
    match ending
    case Crlf => [CR, LF]
    case LoneCr => [CR]
    case LoneLf => [LF]
  }

  function Text(lexeme: Lexeme): seq<Byte> {
    match lexeme case Content(value) => [value] case Line(ending) => Spelling(ending)
  }

  function Spell(lexemes: seq<Lexeme>): seq<Byte> {
    if lexemes == [] then [] else Text(lexemes[0]) + Spell(lexemes[1..])
  }

  /** The lexemes of a message, taking CR LF as one ending wherever it occurs. */
  function Lexemes(raw: seq<Byte>): seq<Lexeme> {
    if raw == [] then []
    else if raw[0] == CR && |raw| > 1 && raw[1] == LF then [Line(Crlf)] + Lexemes(raw[2..])
    else if raw[0] == CR then [Line(LoneCr)] + Lexemes(raw[1..])
    else if raw[0] == LF then [Line(LoneLf)] + Lexemes(raw[1..])
    else [Content(raw[0])] + Lexemes(raw[1..])
  }

  lemma SpellCons(lexeme: Lexeme, rest: seq<Lexeme>)
    ensures Spell([lexeme] + rest) == Text(lexeme) + Spell(rest)
  {
    assert ([lexeme] + rest)[1..] == rest;
  }

  /** Reading loses nothing: the lexemes spell the message again. */
  lemma {:induction false} LexemesSpell(raw: seq<Byte>)
    ensures Spell(Lexemes(raw)) == raw
  {
    if raw != [] {
      var n := if raw[0] == CR && |raw| > 1 && raw[1] == LF then 2 else 1;
      LexemesSpell(raw[n..]);
      SpellCons(Lexemes(raw)[0], Lexemes(raw[n..]));
      assert Text(Lexemes(raw)[0]) == raw[..n];
      assert raw == raw[..n] + raw[n..];
    }
  }

  /** Two messages that say the same lines, each ending possibly spelled another way. */
  ghost predicate SameLines(a: seq<Byte>, b: seq<Byte>) {
    var x, y := Lexemes(a), Lexemes(b);
    && |x| == |y|
    && forall i :: 0 <= i < |x| ==> x[i] == y[i] || (x[i].Line? && y[i].Line?)
  }

  // ----- the normal form -----

  function Normalize(raw: seq<Byte>): seq<Byte> {
    if raw == [] then []
    else if raw[0] == CR then [LF] + Normalize(raw[if |raw| > 1 && raw[1] == LF then 2 else 1..])
    else [raw[0]] + Normalize(raw[1..])
  }

  /** The normal form keeps the lexemes one for one and spells every ending LF. */
  lemma {:induction false} NormalForm(raw: seq<Byte>)
    ensures |Normalize(raw)| == |Lexemes(raw)|
    ensures forall i :: 0 <= i < |Lexemes(raw)| ==>
              Normalize(raw)[i] == match Lexemes(raw)[i] case Content(value) => value case Line(_) => LF
    ensures forall i :: 0 <= i < |Lexemes(raw)| && Lexemes(raw)[i].Content? ==>
              Lexemes(raw)[i].value != CR && Lexemes(raw)[i].value != LF
  {
    if raw != [] {
      NormalForm(raw[if raw[0] == CR && |raw| > 1 && raw[1] == LF then 2 else 1..]);
    }
  }

  lemma NoCarriageReturn(raw: seq<Byte>)
    ensures CR !in Normalize(raw)
  {
    NormalForm(raw);
  }

  lemma {:induction false} PlainIsNormal(raw: seq<Byte>)
    requires CR !in raw
    ensures Normalize(raw) == raw
  {
    if raw != [] {
      PlainIsNormal(raw[1..]);
    }
  }

  lemma NormalizeIsIdempotent(raw: seq<Byte>)
    ensures Normalize(Normalize(raw)) == Normalize(raw)
  {
    NoCarriageReturn(raw);
    PlainIsNormal(Normalize(raw));
  }

  /** Equal normal forms mean exactly: the same lines, up to the spelling of their endings. */
  lemma EqualNormalForms(a: seq<Byte>, b: seq<Byte>)
    ensures Normalize(a) == Normalize(b) <==> SameLines(a, b)
  {
    NormalForm(a);
    NormalForm(b);
    var x, y := Lexemes(a), Lexemes(b);
    if Normalize(a) == Normalize(b) {
      forall i | 0 <= i < |x| ensures x[i] == y[i] || (x[i].Line? && y[i].Line?) {
        assert Normalize(a)[i] == Normalize(b)[i];
      }
    }
    if SameLines(a, b) {
      forall i | 0 <= i < |x| ensures Normalize(a)[i] == Normalize(b)[i] {
      }
    }
  }

  // ----- the stream -----

  function Joined(writes: seq<seq<Byte>>): seq<Byte> {
    if writes == [] then [] else Joined(writes[..|writes| - 1]) + writes[|writes| - 1]
  }

  lemma JoinedSnoc(writes: seq<seq<Byte>>, write: seq<Byte>)
    ensures Joined(writes + [write]) == Joined(writes) + write
  {
    assert (writes + [write])[..|writes|] == writes;
  }

  lemma {:induction false} NormalizeRun(run: seq<Byte>, rest: seq<Byte>)
    requires CR !in run
    ensures Normalize(run + rest) == run + Normalize(rest)
  {
    if run == [] {
      assert run + rest == rest;
    } else {
      NormalizeRun(run[1..], rest);
      assert (run + rest)[1..] == run[1..] + rest;
    }
  }

  /** Where the line ending that starts at i ends. */
  function AfterEnding(raw: seq<Byte>, i: nat): (j: nat)
    requires i < |raw| && raw[i] == CR
    ensures i < j <= |raw|
  {
    if i + 1 < |raw| && raw[i + 1] == LF then i + 2 else i + 1
  }

  lemma NormalizeUpToEnding(raw: seq<Byte>, start: nat, i: nat)
    requires start <= i < |raw| && CR !in raw[start..i] && raw[i] == CR
    ensures Normalize(raw[start..]) == raw[start..i] + [LF] + Normalize(raw[AfterEnding(raw, i)..])
  {
    NormalizeRun(raw[start..i], raw[i..]);
    assert raw[start..] == raw[start..i] + raw[i..];
    assert raw[i..][AfterEnding(raw, i) - i..] == raw[AfterEnding(raw, i)..];
  }

  /** What was written so far, followed by the normal form of what is left from start on, is the normal form. */
  ghost predicate Streamed(writes: seq<seq<Byte>>, raw: seq<Byte>, start: nat)
    requires start <= |raw|
  {
    Joined(writes) + Normalize(raw[start..]) == Normalize(raw)
  }

  lemma WriteKeeps(writes: seq<seq<Byte>>, raw: seq<Byte>, start: nat, i: nat)
    requires start <= i < |raw| && CR !in raw[start..i] && raw[i] == CR && Streamed(writes, raw, start)
    ensures Streamed((if start < i then writes + [raw[start..i]] else writes) + [[LF]], raw, AfterEnding(raw, i))
  {
    hide Normalize, Joined;
    NormalizeUpToEnding(raw, start, i);
    var run := raw[start..i];
    var before := if start < i then writes + [run] else writes;
    JoinedSnoc(writes, run);
    JoinedSnoc(before, [LF]);
    assert Joined(before) == Joined(writes) + run;
  }

  lemma StreamEnds(writes: seq<seq<Byte>>, raw: seq<Byte>, start: nat)
    requires start <= |raw| && Streamed(writes, raw, start) && CR !in raw[start..]
    ensures Joined(if start < |raw| then writes + [raw[start..]] else writes) == Normalize(raw)
  {
    PlainIsNormal(raw[start..]);
    JoinedSnoc(writes, raw[start..]);
  }

  /** No write is empty, and together they are the normal form. */
  method WriteCanonicalMessage(raw: seq<Byte>) returns (writes: seq<seq<Byte>>)
    ensures Joined(writes) == Normalize(raw)
    ensures [] !in writes
  {
    writes := [];
    var start, i := 0, 0;
    assert Streamed(writes, raw, 0) by {
      assert raw[0..] == raw;
    }
    hide Streamed;
    while i < |raw|
      invariant 0 <= start <= i <= |raw|
      invariant CR !in raw[start..i]
      invariant Streamed(writes, raw, start)
      invariant [] !in writes
    {
      if raw[i] != CR {
        i := i + 1;
        continue;
      }
      WriteKeeps(writes, raw, start, i);
      ghost var next := AfterEnding(raw, i);
      if start < i {
        writes := writes + [raw[start..i]];
      }
      writes := writes + [[LF]];
      if i + 1 < |raw| && raw[i + 1] == LF {
        i := i + 1;
      }
      start := i + 1;
      i := i + 1;
      assert start == next && raw[start..i] == [];
    }
    assert raw[start..i] == raw[start..];
    StreamEnds(writes, raw, start);
    if start < |raw| {
      writes := writes + [raw[start..]];
    }
  }
}
