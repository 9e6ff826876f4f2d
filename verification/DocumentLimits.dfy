/** The byte limits on indexed text: clip at a rune, drop invalid bytes, break up unbroken runs, clip again. */
module DocumentLimits {

  import opened Bytes
  import opened Utf8

  const MAX_INDEXED_TOKEN_RUN_BYTES := 8 * 1024

  // ----- what each stage computes -----

  /** The last position at or before cut where a rune starts, or 0. */
  function BackUp(s: seq<Byte>, cut: nat): (r: nat)
    requires cut < |s|
    ensures r <= cut && (r == 0 || RuneStart(s[r]))
    ensures forall k :: r < k <= cut ==> !RuneStart(s[k])
  {
    if cut == 0 || RuneStart(s[cut]) then cut else BackUp(s, cut - 1)
  }

  function Clip(s: seq<Byte>, limit: nat): (r: seq<Byte>)
    ensures r <= s && |r| <= limit
  {
    if |s| <= limit then s else s[..BackUp(s, limit)]
  }

  /** How many bytes the scan takes at once: a rune, or one byte where none starts. */
  function Step(s: seq<Byte>): (width: nat)
    requires s != []
    ensures 0 < width <= |s|
  {
    if RuneWidth(s) == 0 then 1 else RuneWidth(s)
  }

  /** What it adds to the run: a byte that starts no rune is counted as the three of U+FFFD. */
  function Weight(s: seq<Byte>): nat
    requires s != []
  {
    if RuneWidth(s) == 0 then 3 else RuneWidth(s)
  }

  predicate SpaceFirst(s: seq<Byte>)
    requires s != []
  {
    RuneWidth(s) > 0 && StartsWithSpace(s)
  }

  /** The text with a space wherever a run, already run bytes long, would grow too long. */
  function Split(s: seq<Byte>, run: nat): seq<Byte> {
    if s == [] then []
    else
      var head, tail := s[..Step(s)], s[Step(s)..];
      if SpaceFirst(s) then head + Split(tail, 0)
      else if run + Weight(s) > MAX_INDEXED_TOKEN_RUN_BYTES then [SPACE] + head + Split(tail, Weight(s))
      else head + Split(tail, run + Weight(s))
  }

  function BoundedText(value: seq<Byte>, limit: int): seq<Byte> {
    if limit <= 0 || value == [] then [] else Clip(Split(Scrub(Clip(value, limit)), 0), limit)
  }

  // ----- runs -----

  /** No run of the text, the first one entered with run bytes behind it, is too long. */
  ghost predicate RunsFrom(s: seq<Byte>, run: nat) {
    if s == [] then true
    else if SpaceFirst(s) then RunsFrom(s[Step(s)..], 0)
    else run + Weight(s) <= MAX_INDEXED_TOKEN_RUN_BYTES && RunsFrom(s[Step(s)..], run + Weight(s))
  }

  /** Valid text without a space in it. */
  ghost predicate Unbroken(s: seq<Byte>) {
    s == [] || (RuneWidth(s) > 0 && !StartsWithSpace(s) && Unbroken(s[RuneWidth(s)..]))
  }

  ghost predicate IsRunOf(run: seq<Byte>, before: seq<Byte>, s: seq<Byte>) {
    Valid(before) && Unbroken(run) && before + run <= s
  }

  /** Every stretch of runes without a space is within the limit. */
  ghost predicate RunsBounded(s: seq<Byte>) {
    forall before, run :: IsRunOf(run, before, s) ==> |run| <= MAX_INDEXED_TOKEN_RUN_BYTES
  }

  lemma UnbrokenIsValid(s: seq<Byte>)
    requires Unbroken(s)
    ensures Valid(s)
  {
    if s != [] {
      UnbrokenIsValid(s[RuneWidth(s)..]);
    }
  }

  lemma {:induction false} UnbrokenFits(run: seq<Byte>, after: seq<Byte>, behind: nat)
    requires Unbroken(run) && RunsFrom(run + after, behind) && behind <= MAX_INDEXED_TOKEN_RUN_BYTES
    ensures behind + |run| <= MAX_INDEXED_TOKEN_RUN_BYTES
  {
    hide RuneWidth, StartsWithSpace;
    if run != [] {
      var w := RuneWidth(run);
      RuneWidthPrefix(run, after);
      assert (run + after)[w..] == run[w..] + after;
      UnbrokenFits(run[w..], after, behind + w);
    }
  }

  lemma {:induction false} RunFits(before: seq<Byte>, run: seq<Byte>, after: seq<Byte>, behind: nat)
    requires Valid(before) && Unbroken(run)
    requires RunsFrom(before + run + after, behind) && behind <= MAX_INDEXED_TOKEN_RUN_BYTES
    ensures |run| <= MAX_INDEXED_TOKEN_RUN_BYTES
  {
    hide RuneWidth, StartsWithSpace;
    if before == [] {
      assert before + run + after == run + after;
      UnbrokenFits(run, after, behind);
    } else {
      var w := RuneWidth(before);
      RuneWidthPrefix(before, run + after);
      assert before + run + after == before + (run + after);
      assert (before + run + after)[w..] == before[w..] + run + after;
      RunFits(before[w..], run, after, if SpaceFirst(before) then 0 else behind + w);
    }
  }

  lemma Shift(before: seq<Byte>, run: seq<Byte>, head: seq<Byte>, tail: seq<Byte>)
    ensures before + run + (head + tail) == (before + run + head) + [] + tail
    ensures before + run + (head + tail) == before + (run + head) + tail
  {
  }

  /** The scan sees too long a run only where there is one: before is what came first, run the open run. */
  lemma {:induction false} LongRunExists(s: seq<Byte>, before: seq<Byte>, run: seq<Byte>, rest: seq<Byte>)
    requires s == before + run + rest && Valid(before) && Unbroken(run) && Valid(rest)
    requires RunsBounded(s)
    ensures RunsFrom(rest, |run|)
    decreases |rest|
  {
    hide RuneWidth, StartsWithSpace, RunsBounded;
    if rest != [] {
      var w := RuneWidth(rest);
      var head := rest[..w];
      assert rest == head + rest[w..];
      Shift(before, run, head, rest[w..]);
      RuneAlone(rest);
      OneRune(rest);
      if SpaceFirst(rest) {
        UnbrokenIsValid(run);
        ValidConcat(before, run);
        ValidConcat(before + run, head);
        LongRunExists(s, before + run + head, [], rest[w..]);
      } else {
        assert head[w..] == [];
        UnbrokenConcat(run, head);
        RunIsBounded(s, before, run + head);
        LongRunExists(s, before, run + head, rest[w..]);
      }
    }
  }

  lemma RunIsBounded(s: seq<Byte>, before: seq<Byte>, run: seq<Byte>)
    requires RunsBounded(s) && Valid(before) && Unbroken(run) && before + run <= s
    ensures |run| <= MAX_INDEXED_TOKEN_RUN_BYTES
  {
    assert IsRunOf(run, before, s);
  }

  lemma {:induction false} UnbrokenConcat(a: seq<Byte>, b: seq<Byte>)
    requires Unbroken(a) && Unbroken(b)
    ensures Unbroken(a + b)
  {
    hide RuneWidth, StartsWithSpace;
    if a == [] {
      assert a + b == b;
    } else {
      var w := RuneWidth(a);
      RuneWidthPrefix(a, b);
      UnbrokenConcat(a[w..], b);
      assert (a + b)[w..] == a[w..] + b;
    }
  }

  /** The scan's account of the runs is the declarative one. */
  lemma RunsFromIsBounded(s: seq<Byte>)
    requires Valid(s)
    ensures RunsFrom(s, 0) <==> RunsBounded(s)
  {
    if RunsBounded(s) {
      assert s == [] + [] + s;
      LongRunExists(s, [], [], s);
    }
    if RunsFrom(s, 0) {
      forall before, run | IsRunOf(run, before, s) ensures |run| <= MAX_INDEXED_TOKEN_RUN_BYTES {
        var after := s[|before + run|..];
        assert s == before + run + after;
        RunFits(before, run, after, 0);
      }
    }
  }

  // ----- what the splitter does -----

  lemma SpaceLeads(text: seq<Byte>)
    ensures RuneWidth([SPACE] + text) == 1 && SpaceFirst([SPACE] + text) && ([SPACE] + text)[1..] == text
  {
  }

  lemma {:induction false} SplitBreaksRuns(s: seq<Byte>, run: nat)
    requires Valid(s) && run <= MAX_INDEXED_TOKEN_RUN_BYTES
    ensures Valid(Split(s, run)) && RunsFrom(Split(s, run), run)
  {
    hide RuneWidth, StartsWithSpace;
    if s != [] {
      var w := RuneWidth(s);
      var head, tail := s[..w], s[w..];
      RuneAlone(s);
      OneRune(s);
      var next := if SpaceFirst(s) then 0 else if run + w > MAX_INDEXED_TOKEN_RUN_BYTES then w else run + w;
      SplitBreaksRuns(tail, next);
      ValidConcat(head, Split(tail, next));
      RuneWidthPrefix(head, Split(tail, next));
      var text := head + Split(tail, next);
      assert text[w..] == Split(tail, next);
      if !SpaceFirst(s) && run + w > MAX_INDEXED_TOKEN_RUN_BYTES {
        SpaceLeads(text);
        assert Split(s, run) == [SPACE] + text;
      }
    }
  }

  /** It leaves a text alone exactly when no run of it is too long. */
  lemma {:induction false} SplitFixes(s: seq<Byte>, run: nat)
    requires Valid(s)
    ensures |Split(s, run)| >= |s|
    ensures RunsFrom(s, run) ==> Split(s, run) == s
    ensures |Split(s, run)| == |s| ==> RunsFrom(s, run)
  {
    hide RuneWidth, StartsWithSpace;
    if s != [] {
      var w := RuneWidth(s);
      SplitFixes(s[w..], if SpaceFirst(s) then 0 else if run + w > MAX_INDEXED_TOKEN_RUN_BYTES then w else run + w);
    }
  }

  /** t is s with spaces put in. */
  ghost predicate SpacedOut(s: seq<Byte>, t: seq<Byte>) {
    if t == [] then s == []
    else (t[0] == SPACE && SpacedOut(s, t[1..])) || (s != [] && s[0] == t[0] && SpacedOut(s[1..], t[1..]))
  }

  lemma {:induction false} SpacedOutAfter(head: seq<Byte>, s: seq<Byte>, t: seq<Byte>)
    requires SpacedOut(s, t)
    ensures SpacedOut(head + s, head + t)
  {
    if head == [] {
      assert head + s == s && head + t == t;
    } else {
      SpacedOutAfter(head[1..], s, t);
      assert (head + s)[1..] == head[1..] + s && (head + t)[1..] == head[1..] + t;
    }
  }

  lemma {:induction false} SplitSpacesOut(s: seq<Byte>, run: nat)
    ensures SpacedOut(s, Split(s, run))
  {
    hide SpacedOut, RuneWidth, StartsWithSpace;
    if s == [] {
      NothingSpacedOut();
    } else {
      var head, tail := s[..Step(s)], s[Step(s)..];
      var breaks := !SpaceFirst(s) && run + Weight(s) > MAX_INDEXED_TOKEN_RUN_BYTES;
      var next := if SpaceFirst(s) then 0 else if breaks then Weight(s) else run + Weight(s);
      SplitSpacesOut(tail, next);
      SpacedOutAfter(head, tail, Split(tail, next));
      assert head + tail == s;
      assert [SPACE] + head + Split(tail, next) == [SPACE] + (head + Split(tail, next));
      if breaks {
        SpaceBefore(s, head + Split(tail, next));
      }
      assert Split(s, run) == if breaks then [SPACE] + head + Split(tail, next) else head + Split(tail, next);
    }
  }

  lemma NothingSpacedOut()
    ensures SpacedOut([], [])
  {
  }

  lemma SpaceBefore(s: seq<Byte>, t: seq<Byte>)
    requires SpacedOut(s, t)
    ensures SpacedOut(s, [SPACE] + t)
  {
    assert ([SPACE] + t)[1..] == t;
  }

  lemma {:induction false} SpacedOutPrefix(s: seq<Byte>, t: seq<Byte>, k: nat) returns (j: nat)
    requires SpacedOut(s, t) && k <= |t|
    ensures j <= |s| && SpacedOut(s[..j], t[..k])
  {
    if k == 0 {
      j := 0;
    } else if t[0] == SPACE && SpacedOut(s, t[1..]) {
      j := SpacedOutPrefix(s, t[1..], k - 1);
      assert t[1..][..k - 1] == t[..k][1..];
    } else {
      var i := SpacedOutPrefix(s[1..], t[1..], k - 1);
      j := i + 1;
      assert t[1..][..k - 1] == t[..k][1..] && s[1..][..i] == s[..j][1..];
    }
  }

  // ----- what clipping does -----

  lemma {:induction false} StartNearby(s: seq<Byte>, k: nat) returns (j: nat)
    requires Valid(s) && k < |s|
    ensures j <= k < j + 4 && RuneStart(s[j])
  {
    var w := RuneWidth(s);
    if k < w {
      j := 0;
      RuneStartsOnce(s, 0);
    } else {
      j := StartNearby(s[w..], k - w);
      j := j + w;
    }
  }

  /** Clipping keeps valid text valid and its runs short, and gives up at most three bytes of the limit. */
  lemma ClipIsWellFormed(s: seq<Byte>, limit: nat)
    requires Valid(s)
    ensures Valid(Clip(s, limit))
    ensures RunsBounded(s) ==> RunsBounded(Clip(s, limit))
    ensures Clip(s, limit) == s || |Clip(s, limit)| + 3 >= limit
  {
    if |s| > limit {
      var j := StartNearby(s, limit);
      ValidCut(s, BackUp(s, limit));
      assert Clip(s, limit) <= s;
      if RunsBounded(s) {
        forall before, run | IsRunOf(run, before, Clip(s, limit)) ensures |run| <= MAX_INDEXED_TOKEN_RUN_BYTES {
          assert IsRunOf(run, before, s);
        }
      }
    }
  }

  // ----- the bounded text -----

  /** Text the index may take as it is. */
  ghost predicate Indexable(s: seq<Byte>, limit: int) {
    Valid(s) && |s| <= limit && RunsBounded(s)
  }

  lemma BoundedTextIsIndexable(value: seq<Byte>, limit: int)
    requires limit >= 0
    ensures Indexable(BoundedText(value, limit), limit)
  {
    hide RuneWidth, RunsBounded;
    if limit == 0 || value == [] {
      RunsFromIsBounded([]);
    } else {
      var clean := Scrub(Clip(value, limit));
      ScrubIsValid(Clip(value, limit));
      SplitBreaksRuns(clean, 0);
      RunsFromIsBounded(Split(clean, 0));
      ClipIsWellFormed(Split(clean, 0), limit);
    }
  }

  /** Exactly the indexable texts come through unchanged; so bounding twice is bounding once. */
  lemma BoundedTextFixes(value: seq<Byte>, limit: int)
    requires limit >= 0
    ensures BoundedText(value, limit) == value <==> Indexable(value, limit)
    ensures BoundedText(BoundedText(value, limit), limit) == BoundedText(value, limit)
  {
    BoundedTextIsIndexable(value, limit);
    IndexableIsKept(BoundedText(value, limit), limit);
    if Indexable(value, limit) {
      IndexableIsKept(value, limit);
    }
  }

  lemma IndexableIsKept(value: seq<Byte>, limit: int)
    requires Indexable(value, limit)
    ensures BoundedText(value, limit) == value
  {
    ScrubFixesValidOnly(value);
    RunsFromIsBounded(value);
    SplitFixes(value, 0);
  }

  lemma ScrubClip(value: seq<Byte>, limit: nat)
    ensures Scrub(Clip(value, limit)) <= Scrub(value)
  {
    hide RuneWidth;
    var clipped := Clip(value, limit);
    if clipped != [] {
      var rest := value[|clipped|..];
      assert value == clipped + rest;
      assert rest == [] || rest[0] == value[|clipped|];
      ScrubConcat(clipped, rest);
    }
  }

  /** Apart from dropped bytes and the cut at the end, only spaces are added. */
  lemma OnlySpacesAreAdded(value: seq<Byte>, limit: int) returns (kept: seq<Byte>)
    requires limit > 0
    ensures kept <= Scrub(value) && SpacedOut(kept, BoundedText(value, limit))
  {
    hide RuneWidth;
    if value == [] {
      kept := [];
    } else {
      var clean := Scrub(Clip(value, limit));
      var split := Split(clean, 0);
      ScrubClip(value, limit);
      SplitSpacesOut(clean, 0);
      var j := SpacedOutPrefix(clean, split, |Clip(split, limit)|);
      kept := clean[..j];
      assert split[..|Clip(split, limit)|] == BoundedText(value, limit);
    }
  }

  /** Of valid text nothing is dropped until the limit, less at most three bytes, is used up. */
  lemma LittleIsLost(value: seq<Byte>, limit: int)
    requires limit > 0 && Valid(value)
    ensures SpacedOut(value, BoundedText(value, limit)) || |BoundedText(value, limit)| + 3 >= limit
  {
    hide RuneWidth, RunsBounded;
    var clipped := Clip(value, limit);
    var split := Split(clipped, 0);
    ClipIsWellFormed(value, limit);
    ScrubFixesValidOnly(clipped);
    SplitFixes(clipped, 0);
    SplitSpacesOut(clipped, 0);
    SplitBreaksRuns(clipped, 0);
    ClipIsWellFormed(split, limit);
  }

  // ----- joining -----

  function Separator(result: seq<Byte>): seq<Byte> {
    if result == [] then [] else [SPACE]
  }

  /** The non-empty values put behind result, one space between texts, nothing cut. */
  function SpaceJoined(result: seq<Byte>, values: seq<seq<Byte>>): seq<Byte>
    decreases |values|
  {
    if values == [] then result
    else if values[0] == [] then SpaceJoined(result, values[1..])
    else SpaceJoined(result + Separator(result) + values[0], values[1..])
  }

  function Remaining(result: seq<Byte>, limit: int): int {
    limit - |result| - |Separator(result)|
  }

  /** One value more, bounded by the room left. */
  function Append(result: seq<Byte>, value: seq<Byte>, limit: int): seq<Byte> {
    result + Separator(result) + BoundedText(value, Remaining(result, limit))
  }

  /** The same within a limit: each value is bounded by the room left, and the first that is longer ends it. */
  function JoinFrom(result: seq<Byte>, values: seq<seq<Byte>>, limit: int): seq<Byte>
    decreases |values|
  {
    if values == [] then result
    else if values[0] == [] then JoinFrom(result, values[1..], limit)
    else
      var remaining := Remaining(result, limit);
      if remaining <= 0 then result
      else if |values[0]| > remaining then Append(result, values[0], limit)
      else JoinFrom(Append(result, values[0], limit), values[1..], limit)
  }

  lemma {:induction false} RunsAcrossSpace(a: seq<Byte>, b: seq<Byte>, run: nat)
    requires Valid(a) && RunsFrom(a, run) && RunsFrom(b, 0)
    ensures RunsFrom(a + ([SPACE] + b), run)
  {
    hide RuneWidth, StartsWithSpace;
    if a == [] {
      assert a + ([SPACE] + b) == [SPACE] + b;
      SpaceLeads(b);
    } else {
      var w := RuneWidth(a);
      RuneWidthPrefix(a, [SPACE] + b);
      assert (a + ([SPACE] + b))[w..] == a[w..] + ([SPACE] + b);
      RunsAcrossSpace(a[w..], b, if SpaceFirst(a) then 0 else run + w);
    }
  }

  lemma AppendIsIndexable(result: seq<Byte>, text: seq<Byte>, limit: int)
    requires Indexable(result, limit) && Indexable(text, limit - |result| - |Separator(result)|)
    ensures Indexable(result + Separator(result) + text, limit)
  {
    hide RuneWidth, StartsWithSpace, RunsBounded;
    RunsFromIsBounded(result);
    RunsFromIsBounded(text);
    if result == [] {
      assert result + Separator(result) + text == text;
    } else {
      assert result + Separator(result) + text == result + ([SPACE] + text);
      SpaceLeads(text);
      ValidConcat(result, [SPACE] + text);
      RunsAcrossSpace(result, text, 0);
      RunsFromIsBounded(result + ([SPACE] + text));
    }
  }

  /** However the values are broken, the join is text the index may take. */
  lemma {:induction false} JoinIsIndexable(result: seq<Byte>, values: seq<seq<Byte>>, limit: int)
    requires Indexable(result, limit)
    ensures Indexable(JoinFrom(result, values, limit), limit)
    decreases |values|
  {
    hide Indexable;
    if values != [] {
      if values[0] == [] {
        JoinIsIndexable(result, values[1..], limit);
      } else if Remaining(result, limit) > 0 {
        BoundedTextIsIndexable(values[0], Remaining(result, limit));
        AppendIsIndexable(result, BoundedText(values[0], Remaining(result, limit)), limit);
        JoinIsIndexable(Append(result, values[0], limit), values[1..], limit);
      }
    }
  }

  lemma SpaceJoinedGrows(result: seq<Byte>, values: seq<seq<Byte>>)
    ensures |result| <= |SpaceJoined(result, values)|
    decreases |values|
  {
  }

  /** Indexable values that fit together lose nothing. */
  lemma {:induction false} JoinKeepsWhatFits(result: seq<Byte>, values: seq<seq<Byte>>, limit: int)
    requires forall value :: value in values ==> Indexable(value, limit)
    requires |SpaceJoined(result, values)| <= limit
    ensures JoinFrom(result, values, limit) == SpaceJoined(result, values)
    decreases |values|
  {
    hide Valid, RunsBounded;
    if values != [] {
      var longer := result + Separator(result) + values[0];
      if values[0] == [] {
        JoinKeepsWhatFits(result, values[1..], limit);
      } else {
        SpaceJoinedGrows(longer, values[1..]);
        var remaining := Remaining(result, limit);
        assert Indexable(values[0], limit) && |longer| <= limit;
        assert Indexable(values[0], remaining);
        BoundedTextFixes(values[0], remaining);
        assert JoinFrom(result, values, limit) == JoinFrom(longer, values[1..], limit);
        JoinKeepsWhatFits(longer, values[1..], limit);
      }
    }
  }

  // ----- the loops -----

  method CutAtRuneStart(value: seq<Byte>, limit: nat) returns (cut: nat)
    requires limit < |value|
    ensures cut == BackUp(value, limit)
  {
    cut := limit;
    while cut > 0 && !RuneStart(value[cut])
      invariant cut <= limit && BackUp(value, cut) == BackUp(value, limit)
    {
      cut := cut - 1;
    }
  }

  /** The state of the scan: what was written, the bytes read but not yet written, and what is to come. */
  ghost predicate Scanned(value: seq<Byte>, result: seq<Byte>, lastWritten: nat, offset: nat, runBytes: nat)
    requires lastWritten <= offset <= |value|
  {
    Split(value, 0) == result + value[lastWritten..offset] + Split(value[offset..], runBytes)
  }

  lemma ScanBegins(value: seq<Byte>)
    ensures Scanned(value, [], 0, 0, 0)
  {
    assert value[0..] == value;
  }

  lemma ScanKeeps(value: seq<Byte>, result: seq<Byte>, lastWritten: nat, offset: nat, runBytes: nat)
    requires lastWritten <= offset < |value| && Scanned(value, result, lastWritten, offset, runBytes)
    ensures var rest := value[offset..];
            var next := offset + Step(rest);
            if SpaceFirst(rest) then Scanned(value, result, lastWritten, next, 0)
            else if runBytes + Weight(rest) > MAX_INDEXED_TOKEN_RUN_BYTES
            then Scanned(value, result + value[lastWritten..offset] + [SPACE], offset, next, Weight(rest))
            else Scanned(value, result, lastWritten, next, runBytes + Weight(rest))
  {
    hide SpaceFirst, RuneWidth;
    var rest := value[offset..];
    var next := offset + Step(rest);
    var read, head, tail := value[lastWritten..offset], value[offset..next], value[next..];
    assert rest[Step(rest)..] == tail && rest[..Step(rest)] == head;
    assert value[lastWritten..next] == read + head;
    forall more ensures result + read + (head + more) == result + (read + head) + more {
    }
    forall more ensures result + read + ([SPACE] + head + more) == result + read + [SPACE] + head + more {
    }
  }

  lemma ScanEnds(value: seq<Byte>, result: seq<Byte>, lastWritten: nat, runBytes: nat)
    requires lastWritten <= |value| && Scanned(value, result, lastWritten, |value|, runBytes)
    ensures Split(value, 0) == result + value[lastWritten..]
    ensures result == [] && lastWritten == 0 ==> Split(value, 0) == value
  {
    assert value[lastWritten..|value|] == value[lastWritten..];
  }

  method SplitOversizedIndexTokens(value: seq<Byte>) returns (text: seq<Byte>)
    ensures text == Split(value, 0)
  {
    var runBytes: nat, lastWritten, offset, changed := 0, 0, 0, false;
    var result: seq<Byte> := [];
    ScanBegins(value);
    hide *;
    while offset < |value|
      invariant lastWritten <= offset <= |value|
      invariant Scanned(value, result, lastWritten, offset, runBytes)
      invariant !changed ==> result == [] && lastWritten == 0
    {
      ScanKeeps(value, result, lastWritten, offset, runBytes);
      var rest := value[offset..];
      var next := offset + Step(rest);
      if SpaceFirst(rest) {
        runBytes := 0;
      } else {
        if runBytes + Weight(rest) > MAX_INDEXED_TOKEN_RUN_BYTES {
          result := result + value[lastWritten..offset] + [SPACE];
          lastWritten := offset;
          runBytes := 0;
          changed := true;
        }
        runBytes := runBytes + Weight(rest);
      }
      assert Scanned(value, result, lastWritten, next, runBytes);
      offset := next;
    }
    ScanEnds(value, result, lastWritten, runBytes);
    if !changed {
      return value;
    }
    return result + value[lastWritten..];
  }

  method BoundedIndexText(value: seq<Byte>, limit: int) returns (text: seq<Byte>)
    ensures text == BoundedText(value, limit)
  {
    if limit <= 0 || value == [] {
      return [];
    }
    text := value;
    if |text| > limit {
      var cut := CutAtRuneStart(text, limit);
      text := text[..cut];
    }
    text := Scrub(text);
    text := SplitOversizedIndexTokens(text);
    if |text| <= limit {
      return;
    }
    var cut := CutAtRuneStart(text, limit);
    return text[..cut];
  }

  /** The state of the join: result for the first i values, the rest still to come. */
  ghost predicate Joining(values: seq<seq<Byte>>, result: seq<Byte>, i: nat, limit: int)
    requires i <= |values|
  {
    JoinFrom([], values, limit) == JoinFrom(result, values[i..], limit)
  }

  lemma JoinKeeps(values: seq<seq<Byte>>, result: seq<Byte>, i: nat, limit: int)
    requires i < |values| && Joining(values, result, i, limit)
    ensures var remaining := Remaining(result, limit);
            if values[i] == [] then Joining(values, result, i + 1, limit)
            else if remaining <= 0 then JoinFrom([], values, limit) == result
            else if |values[i]| > remaining then JoinFrom([], values, limit) == Append(result, values[i], limit)
            else Joining(values, Append(result, values[i], limit), i + 1, limit)
  {
    hide Append;
    assert values[i..][1..] == values[i + 1..];
  }

  lemma AppendInSteps(result: seq<Byte>, value: seq<Byte>, limit: int)
    ensures result == [] ==> Append(result, value, limit) == result + BoundedText(value, limit)
    ensures result != [] ==> Append(result, value, limit) == result + [SPACE] + BoundedText(value, limit - |result| - 1)
  {
    hide BoundedText;
  }

  method BoundedIndexJoin(values: seq<seq<Byte>>, limit: int) returns (result: seq<Byte>)
    ensures result == if limit <= 0 then [] else JoinFrom([], values, limit)
    ensures limit > 0 ==> Indexable(result, limit)
  {
    if limit <= 0 || values == [] {
      return [];
    }
    RunsFromIsBounded([]);
    JoinIsIndexable([], values, limit);
    result := [];
    assert values[0..] == values;
    assert Joining(values, result, 0, limit);
    assert forall done :: Joining(values, done, |values|, limit) ==> JoinFrom([], values, limit) == done;
    hide *;
    for i := 0 to |values|
      invariant Joining(values, result, i, limit)
    {
      JoinKeeps(values, result, i, limit);
      AppendInSteps(result, values[i], limit);
      var value := values[i];
      if value == [] {
        continue;
      }
      var separator := if |result| > 0 then 1 else 0;
      var remaining := limit - |result| - separator;
      assert remaining == Remaining(result, limit);
      if remaining <= 0 {
        return;
      }
      if separator > 0 {
        result := result + [SPACE];
      }
      var text := BoundedIndexText(value, remaining);
      result := result + text;
      if |value| > remaining {
        return;
      }
    }
  }
}
