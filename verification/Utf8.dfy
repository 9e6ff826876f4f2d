/** UTF-8 as the Go library decodes it: the shortest form only, no surrogates, nothing above U+10FFFF. */
module Utf8 {

  import opened Bytes

  predicate RuneStart(b: Byte) {
    !(0x80 <= b < 0xC0)
  }

  predicate Within(s: seq<Byte>, i: nat, low: int, high: int) {
    i < |s| && low <= s[i] <= high
  }

  predicate Continues(s: seq<Byte>, i: nat) {
    Within(s, i, 0x80, 0xBF)
  }

  /** The length of the rune that s starts with, or 0 when its first byte starts no rune. */
  function RuneWidth(s: seq<Byte>): (width: nat)
    ensures width <= 4 && width <= |s|
  {
    if s == [] then 0
    else if s[0] < 0x80 then 1
    else if 0xC2 <= s[0] <= 0xDF then if Continues(s, 1) then 2 else 0
    else if 0xE0 <= s[0] <= 0xEF then
      if Within(s, 1, if s[0] == 0xE0 then 0xA0 else 0x80, if s[0] == 0xED then 0x9F else 0xBF) && Continues(s, 2)
      then 3 else 0
    else if 0xF0 <= s[0] <= 0xF4 then
      if && Within(s, 1, if s[0] == 0xF0 then 0x90 else 0x80, if s[0] == 0xF4 then 0x8F else 0xBF)
         && Continues(s, 2) && Continues(s, 3)
      then 4 else 0
    else 0
  }

  /** White space as Unicode lists it: U+0009..000D, 0020, 0085, 00A0, 1680, 2000..200A, 2028, 2029, 202F, 205F, 3000. */
  predicate StartsWithSpace(s: seq<Byte>) {
    || Within(s, 0, 0x09, 0x0D) || Within(s, 0, 0x20, 0x20)
    || (|s| >= 2 && s[0] == 0xC2 && s[1] in {0x85, 0xA0})
    || (|s| >= 3 && s[0] == 0xE1 && s[1] == 0x9A && s[2] == 0x80)
    || (|s| >= 3 && s[0] == 0xE2 && s[1] == 0x80 && (0x80 <= s[2] <= 0x8A || s[2] in {0xA8, 0xA9, 0xAF}))
    || (|s| >= 3 && s[0] == 0xE2 && s[1] == 0x81 && s[2] == 0x9F)
    || (|s| >= 3 && s[0] == 0xE3 && s[1] == 0x80 && s[2] == 0x80)
  }

  ghost predicate Valid(s: seq<Byte>) {
    s == [] || (RuneWidth(s) > 0 && Valid(s[RuneWidth(s)..]))
  }

  /** Valid text drops its invalid bytes one by one, as strings.ToValidUTF8 with an empty replacement does. */
  function Scrub(s: seq<Byte>): seq<Byte> {
    if s == [] then []
    else if RuneWidth(s) == 0 then Scrub(s[1..])
    else s[..RuneWidth(s)] + Scrub(s[RuneWidth(s)..])
  }

  /** What follows a rune does not change how it is read, unless it continues a rune that was cut short. */
  lemma RuneWidthPrefix(s: seq<Byte>, t: seq<Byte>)
    requires s != []
    requires RuneWidth(s) > 0 || t == [] || RuneStart(t[0])
    ensures RuneWidth(s + t) == RuneWidth(s)
    ensures RuneWidth(s) > 0 ==> (StartsWithSpace(s + t) <==> StartsWithSpace(s))
  {
    if t == [] {
      assert s + t == s;
    }
  }

  /** A rune starts where it starts and nowhere inside. */
  lemma RuneStartsOnce(s: seq<Byte>, k: nat)
    requires k < RuneWidth(s)
    ensures RuneStart(s[k]) <==> k == 0
  {
  }

  lemma RuneAlone(s: seq<Byte>)
    requires RuneWidth(s) > 0
    ensures RuneWidth(s[..RuneWidth(s)]) == RuneWidth(s)
    ensures StartsWithSpace(s[..RuneWidth(s)]) <==> StartsWithSpace(s)
  {
  }

  lemma {:induction false} ValidConcat(a: seq<Byte>, b: seq<Byte>)
    requires Valid(a) && Valid(b)
    ensures Valid(a + b)
  {
    hide RuneWidth;
    if a == [] {
      assert a + b == b;
    } else {
      var w := RuneWidth(a);
      RuneWidthPrefix(a, b);
      ValidConcat(a[w..], b);
      assert (a + b)[w..] == a[w..] + b;
    }
  }

  /** Valid text may be cut wherever a rune starts. */
  lemma {:induction false} ValidCut(s: seq<Byte>, k: nat)
    requires Valid(s) && k <= |s| && (k == |s| || RuneStart(s[k]))
    ensures Valid(s[..k]) && Valid(s[k..])
  {
    hide RuneWidth;
    if 0 < k {
      var w := RuneWidth(s);
      if k < w {
        RuneStartsOnce(s, k);
      }
      ValidCut(s[w..], k - w);
      assert s[w..][..k - w] == s[..k][w..] && s[w..][k - w..] == s[k..];
      RuneAlone(s);
      RuneWidthPrefix(s[..w], s[w..k]);
      assert s[..w] + s[w..k] == s[..k];
    }
  }

  lemma {:induction false} ScrubIsValid(s: seq<Byte>)
    ensures Valid(Scrub(s)) && |Scrub(s)| <= |s|
  {
    if s != [] {
      if RuneWidth(s) == 0 {
        ScrubIsValid(s[1..]);
      } else {
        var w := RuneWidth(s);
        ScrubIsValid(s[w..]);
        OneRune(s);
        ValidConcat(s[..w], Scrub(s[w..]));
      }
    }
  }

  lemma OneRune(s: seq<Byte>)
    requires RuneWidth(s) > 0
    ensures Valid(s[..RuneWidth(s)])
  {
    RuneAlone(s);
    assert s[..RuneWidth(s)][RuneWidth(s)..] == [];
  }

  /** Only valid text is left alone. */
  lemma {:induction false} ScrubFixesValidOnly(s: seq<Byte>)
    ensures Scrub(s) == s <==> Valid(s)
  {
    ScrubIsValid(s);
    if Valid(s) && s != [] {
      ScrubFixesValidOnly(s[RuneWidth(s)..]);
    }
  }

  lemma Associate(x: seq<Byte>, y: seq<Byte>, z: seq<Byte>)
    ensures x + (y + z) == (x + y) + z
  {
  }

  lemma ScrubStep(head: seq<Byte>, tail: seq<Byte>)
    requires head != [] && |head| == if RuneWidth(head + tail) == 0 then 1 else RuneWidth(head + tail)
    ensures Scrub(head + tail) == (if RuneWidth(head + tail) == 0 then [] else head) + Scrub(tail)
  {
    hide RuneWidth;
    assert (head + tail)[|head|..] == tail;
  }

  /** Scrubbing goes piece by piece when the second piece starts a rune. */
  lemma {:induction false} ScrubConcat(a: seq<Byte>, b: seq<Byte>)
    requires b == [] || RuneStart(b[0])
    ensures Scrub(a + b) == Scrub(a) + Scrub(b)
  {
    hide RuneWidth;
    if a == [] {
      assert a + b == b;
    } else {
      RuneWidthPrefix(a, b);
      var n := if RuneWidth(a) == 0 then 1 else RuneWidth(a);
      var head, tail := a[..n], a[n..];
      assert a + b == head + (tail + b) && a == head + tail;
      ScrubStep(head, tail);
      ScrubStep(head, tail + b);
      ScrubConcat(tail, b);
      Associate(if RuneWidth(a) == 0 then [] else head, Scrub(tail), Scrub(b));
    }
  }
}
