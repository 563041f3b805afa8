/**
 * The partial-JSON field extractor: the regular expression
 *
 *     "<name>":\s*"([^"\\]*(\\.[^"\\]*)*)"      (closing quote required)
 *     "<name>":\s*"([^"\\]*(\\.[^"\\]*)*)"?     (closing quote optional)
 *
 * run with `String.prototype.match` (no `g` flag), written as a scanner. The
 * capture is the raw escaped text between the quotes; escapes are not decoded.
 * `MatchesAt` states the regular expression's matches declaratively and
 * `ExtractIsLeftmostGreedyMatch` proves that the scanner returns the capture
 * of the leftmost, greedy one.
 */
module FieldExtractor {
  import opened Wrappers
  import opened JsText

  /** Whether the pattern ends in `"` or in `"?`. */
  datatype Closing = Required | Optional

  /** The literal `"<name>":` that starts the pattern. */
  function Key(name: string): (k: string)
    ensures |k| == |name| + 3 && k[0] == '"' && k[1..|k| - 2] == name
    ensures k[|k| - 2] == '"' && k[|k| - 1] == ':'
  {
    ['"'] + name + ['"', ':']
  }

  /** `[^"\\]*(\\.[^"\\]*)*`: a run of characters other than `"` and `\`,
      and of backslashes each paired with one following character that `.`
      accepts. Such a text contains no unescaped `"` and does not end on an
      unpaired backslash. */
  predicate Escaped(v: string)
    decreases |v|
  {
    || v == []
    || (v[0] != '"' && v[0] != '\\' && Escaped(v[1..]))
    || (|v| >= 2 && v[0] == '\\' && !IsLineTerminator(v[1]) && Escaped(v[2..]))
  }

  /** The first position at or after `k` that `\s*` does not consume. */
  function SkipSpace(s: string, k: nat): (j: nat)
    requires k <= |s|
    ensures k <= j <= |s|
    ensures forall m :: k <= m < j ==> IsSpace(s[m])
    ensures j < |s| ==> !IsSpace(s[j])
    decreases |s| - k
  {
    if k < |s| && IsSpace(s[k]) then SkipSpace(s, k + 1) else k
  }

  /** Why the greedy value group stops. */
  datatype Stop =
    | AtQuote              // at an unescaped `"`
    | AtBadEscape          // at a `\` followed by a line terminator
    | AtTrailingBackslash  // at a `\` that is the last character
    | AtEnd                // at the end of the text

  datatype Scanned = Scanned(stopAt: nat, stop: Stop)

  /** Runs the value group greedily from position `k`. */
  function Scan(s: string, k: nat): (r: Scanned)
    requires k <= |s|
    ensures k <= r.stopAt <= |s|
    ensures r.stop == AtQuote ==> r.stopAt < |s| && s[r.stopAt] == '"'
    ensures r.stop == AtBadEscape ==>
              r.stopAt + 1 < |s| && s[r.stopAt] == '\\' && IsLineTerminator(s[r.stopAt + 1])
    ensures r.stop == AtTrailingBackslash ==> r.stopAt + 1 == |s| && s[r.stopAt] == '\\'
    ensures r.stop == AtEnd ==> r.stopAt == |s|
    decreases |s| - k
  {
    if k == |s| then Scanned(k, AtEnd)
    else if s[k] == '"' then Scanned(k, AtQuote)
    else if s[k] == '\\' then
      if k + 1 == |s| then Scanned(k, AtTrailingBackslash)
      else if IsLineTerminator(s[k + 1]) then Scanned(k, AtBadEscape)
      else Scan(s, k + 2)
    else Scan(s, k + 1)
  }

  /** Position just after the opening quote of the value, when the text at `p`
      is `"<name>":`, then white space, then `"`. */
  function ValueStart(s: string, name: string, p: nat): (r: Option<nat>)
    requires p <= |s|
    ensures r.Some? ==> p + |Key(name)| < r.value <= |s| && s[r.value - 1] == '"'
  {
    var key := Key(name);
    if p + |key| <= |s| && s[p..p + |key|] == key then
      var q := SkipSpace(s, p + |key|);
      if q < |s| && s[q] == '"' then Some(q + 1) else None
    else None
  }

  /** The capture of the pattern when the regex engine starts at `p`. */
  function MatchAt(s: string, name: string, closing: Closing, p: nat): Option<string>
    requires p <= |s|
  {
    match ValueStart(s, name, p)
    case None => None
    case Some(v0) =>
      var sc := Scan(s, v0);
      if closing == Required && sc.stop != AtQuote then None else Some(s[v0..sc.stopAt])
  }

  /** The leftmost start position at or after `p` where the pattern matches. */
  function FirstMatch(s: string, name: string, closing: Closing, p: nat): (r: Option<nat>)
    requires p <= |s|
    ensures r.Some? ==> p <= r.value <= |s| && MatchAt(s, name, closing, r.value).Some?
    ensures forall q :: p <= q <= |s| && (r.None? || q < r.value) ==>
              MatchAt(s, name, closing, q).None?
    decreases |s| - p
  {
    if MatchAt(s, name, closing, p).Some? then Some(p)
    else if p == |s| then None
    else FirstMatch(s, name, closing, p + 1)
  }

  /** `s.match(pattern)?.[1]`: the capture of the leftmost match, if any. */
  function Extract(s: string, name: string, closing: Closing): Option<string> {
    match FirstMatch(s, name, closing, 0)
    case None => None
    case Some(p) => MatchAt(s, name, closing, p)
  }

  /** The pattern matches with the engine started at `p`, its opening quote of
      the value at `q` and capture `v` (any match, greedy or not). */
  ghost predicate MatchesAt(s: string, name: string, closing: Closing, p: nat, q: nat, v: string) {
    var key := Key(name);
    && p + |key| <= q < |s|
    && s[p..p + |key|] == key
    && (forall m :: p + |key| <= m < q ==> IsSpace(s[m]))
    && s[q] == '"'
    && q + 1 + |v| <= |s|
    && s[q + 1..q + 1 + |v|] == v
    && Escaped(v)
    && (closing == Required ==> q + 1 + |v| < |s| && s[q + 1 + |v|] == '"')
  }

  // ---------------------------------------------------------------------------
  // The scanner against the declarative pattern

  /** What the scan consumes is a value of the pattern. */
  lemma {:induction false} ScanEscaped(s: string, k: nat)
    requires k <= |s|
    ensures Escaped(s[k..Scan(s, k).stopAt])
    decreases |s| - k
  {
    var e := Scan(s, k).stopAt;
    if k < |s| && s[k] != '"' {
      if s[k] == '\\' {
        if k + 1 < |s| && !IsLineTerminator(s[k + 1]) {
          ScanEscaped(s, k + 2);
          assert s[k..e][2..] == s[k + 2..e];
        }
      } else {
        ScanEscaped(s, k + 1);
        assert s[k..e][1..] == s[k + 1..e];
      }
    }
  }

  /** The scan is greedy: every value of the pattern starting at `k` ends no
      later than the scan, and one followed by `"` ends exactly where it does. */
  lemma {:induction false} ScanLongest(s: string, k: nat, e: nat)
    requires k <= e <= |s| && Escaped(s[k..e])
    ensures e <= Scan(s, k).stopAt
    ensures e < |s| && s[e] == '"' ==> Scan(s, k) == Scanned(e, AtQuote)
    decreases e - k
  {
    if k < e {
      var u := s[k..e];
      if s[k] == '\\' {
        assert u[2..] == s[k + 2..e];
        ScanLongest(s, k + 2, e);
      } else {
        assert u[1..] == s[k + 1..e];
        ScanLongest(s, k + 1, e);
      }
    }
  }

  /** A value of the pattern followed by `"` is closed by that quote: the value
      never ends on a backslash that would escape it. */
  lemma EscapedThenQuoteCloses(v: string)
    requires Escaped(v)
    ensures Scan(v + ['"'], 0) == Scanned(|v|, AtQuote)
  {
    var s := v + ['"'];
    assert s[0..|v|] == v;
    ScanLongest(s, 0, |v|);
  }

  lemma {:induction false} SkipSpaceIs(s: string, k: nat, q: nat)
    requires k <= q < |s| && !IsSpace(s[q])
    requires forall m :: k <= m < q ==> IsSpace(s[m])
    ensures SkipSpace(s, k) == q
    decreases q - k
  {
    if k < q { SkipSpaceIs(s, k + 1, q); }
  }

  /** A slice of `s` is a prefix of any longer slice from the same start. */
  lemma SlicePrefix(s: string, a: nat, b: nat, c: nat)
    requires a <= b <= c <= |s|
    ensures s[a..b] <= s[a..c]
  {
    assert s[a..c][..b - a] == s[a..b];
  }

  /** Any match of the pattern at `p` is found by the scanner, whose capture
      extends it. */
  lemma GreedyAt(s: string, name: string, closing: Closing, p: nat, q: nat, v: string)
    requires MatchesAt(s, name, closing, p, q, v)
    ensures ValueStart(s, name, p) == Some(q + 1)
    ensures MatchAt(s, name, closing, p).Some? && v <= MatchAt(s, name, closing, p).value
  {
    SkipSpaceIs(s, p + |Key(name)|, q);
    ScanLongest(s, q + 1, q + 1 + |v|);
    SlicePrefix(s, q + 1, q + 1 + |v|, Scan(s, q + 1).stopAt);
  }

  /** The scanner's verdict at one start position agrees with the pattern:
      it finds a match when there is one, and its capture is the longest. */
  lemma MatchAtIsGreedyMatch(s: string, name: string, closing: Closing, p: nat)
    requires p <= |s|
    ensures MatchAt(s, name, closing, p).Some? ==>
              exists q :: MatchesAt(s, name, closing, p, q, MatchAt(s, name, closing, p).value)
    ensures MatchAt(s, name, closing, p).None? ==>
              forall q, v :: !MatchesAt(s, name, closing, p, q, v)
    ensures MatchAt(s, name, closing, p).Some? ==>
              forall q, v :: MatchesAt(s, name, closing, p, q, v) ==>
                v <= MatchAt(s, name, closing, p).value
  {
    forall q: nat, v | MatchesAt(s, name, closing, p, q, v)
      ensures MatchAt(s, name, closing, p).Some? && v <= MatchAt(s, name, closing, p).value
    {
      GreedyAt(s, name, closing, p, q, v);
    }
    var r := MatchAt(s, name, closing, p);
    if r.Some? {
      var v0 := ValueStart(s, name, p).value;
      ScanEscaped(s, v0);
      assert MatchesAt(s, name, closing, p, v0 - 1, r.value);
    }
  }

  /** `Extract` returns the capture of the leftmost match of the pattern, and of
      the greedy match at that position; it returns nothing exactly when the
      pattern matches nowhere. */
  lemma ExtractIsLeftmostGreedyMatch(s: string, name: string, closing: Closing)
    ensures Extract(s, name, closing).Some? <==>
              exists p, q, v :: MatchesAt(s, name, closing, p, q, v)
    ensures Extract(s, name, closing).Some? ==>
              exists q :: MatchesAt(s, name, closing, FirstMatch(s, name, closing, 0).value, q,
                                    Extract(s, name, closing).value)
    ensures Extract(s, name, closing).Some? ==>
              forall p, q, v :: MatchesAt(s, name, closing, p, q, v) ==>
                FirstMatch(s, name, closing, 0).value <= p
    ensures Extract(s, name, closing).Some? ==>
              forall q, v :: MatchesAt(s, name, closing, FirstMatch(s, name, closing, 0).value, q, v) ==>
                v <= Extract(s, name, closing).value
  {
    Leftmost(s, name, closing);
    if Extract(s, name, closing).Some? {
      var p := FirstMatch(s, name, closing, 0).value;
      MatchAtIsGreedyMatch(s, name, closing, p);
      assert Extract(s, name, closing) == MatchAt(s, name, closing, p);
    }
  }

  /** No match of the pattern starts left of `FirstMatch`. */
  lemma Leftmost(s: string, name: string, closing: Closing)
    ensures forall p, q, v :: MatchesAt(s, name, closing, p, q, v) ==>
              FirstMatch(s, name, closing, 0).Some? && FirstMatch(s, name, closing, 0).value <= p
  {
    forall p, q, v | MatchesAt(s, name, closing, p, q, v)
      ensures FirstMatch(s, name, closing, 0).Some? && FirstMatch(s, name, closing, 0).value <= p
    {
      GreedyAt(s, name, closing, p, q, v);
      assert MatchAt(s, name, closing, p).Some?;
    }
  }

  /** Both patterns capture raw escaped text: no unescaped `"`, no unpaired `\`. */
  lemma ExtractEscaped(s: string, name: string, closing: Closing)
    ensures Extract(s, name, closing).Some? ==> Escaped(Extract(s, name, closing).value)
  {
    if Extract(s, name, closing).Some? {
      ScanEscaped(s, ValueStart(s, name, FirstMatch(s, name, closing, 0).value).value);
    }
  }

  /** The strict pattern only matches when the closing quote is present: its
      capture is immediately followed by `"` in the text. */
  lemma StrictNeedsClosingQuote(s: string, name: string)
    ensures Extract(s, name, Required).Some? ==>
              var p := FirstMatch(s, name, Required, 0).value;
              var v0 := ValueStart(s, name, p).value;
              var v := Extract(s, name, Required).value;
              v0 + |v| < |s| && s[v0..v0 + |v|] == v && s[v0 + |v|] == '"'
  {
  }

  /** Wherever the strict pattern matches, the lenient one matches too, no
      further to the right. */
  lemma StrictImpliesLenient(s: string, name: string)
    ensures Extract(s, name, Required).Some? ==>
              && Extract(s, name, Optional).Some?
              && FirstMatch(s, name, Optional, 0).value <= FirstMatch(s, name, Required, 0).value
  {
    if Extract(s, name, Required).Some? {
      assert MatchAt(s, name, Optional, FirstMatch(s, name, Required, 0).value).Some?;
    }
  }

  // ---------------------------------------------------------------------------
  // Appending text to the buffer

  lemma {:induction false} SkipSpaceExtend(s: string, t: string, k: nat, q: nat)
    requires k <= q < |s| && !IsSpace(s[q])
    ensures SkipSpace(s + t, k) == SkipSpace(s, k) <= q
    decreases q - k
  {
    if k < q && IsSpace(s[k]) { SkipSpaceExtend(s, t, k + 1, q); }
  }

  /** The header test at `p` is settled once a non-space character follows the key. */
  lemma ValueStartExtend(s: string, t: string, name: string, p: nat, q: nat)
    requires p + |Key(name)| <= q < |s| && !IsSpace(s[q])
    ensures ValueStart(s + t, name, p) == ValueStart(s, name, p)
    ensures ValueStart(s, name, p).Some? ==> ValueStart(s, name, p).value <= q + 1
  {
    var key := Key(name);
    assert (s + t)[p..p + |key|] == s[p..p + |key|];
    SkipSpaceExtend(s, t, p + |key|, q);
  }

  /** A scan that stopped at a quote or at a bad escape is not changed by more text. */
  lemma {:induction false} ScanExtendSettled(s: string, t: string, k: nat)
    requires k <= |s|
    requires Scan(s, k).stop == AtQuote || Scan(s, k).stop == AtBadEscape
    ensures Scan(s + t, k) == Scan(s, k)
    decreases |s| - k
  {
    if s[k] == '\\' {
      if k + 1 < |s| && !IsLineTerminator(s[k + 1]) { ScanExtendSettled(s, t, k + 2); }
    } else if s[k] != '"' {
      ScanExtendSettled(s, t, k + 1);
    }
  }

  /** With more text a scan stops no earlier. */
  lemma {:induction false} ScanExtendGrows(s: string, t: string, k: nat)
    requires k <= |s|
    ensures Scan(s, k).stopAt <= Scan(s + t, k).stopAt
    decreases |s| - k
  {
    if k < |s| && s[k] == '\\' {
      if k + 1 < |s| && !IsLineTerminator(s[k + 1]) { ScanExtendGrows(s, t, k + 2); }
    } else if k < |s| && s[k] != '"' {
      ScanExtendGrows(s, t, k + 1);
    }
  }

  /** A scan from `k` cannot run past a `"` at `q` that is not escapable. */
  lemma {:induction false} ScanSettledBefore(s: string, k: nat, q: nat)
    requires k <= q < |s| && s[q] == '"'
    requires q == k || s[q - 1] != '\\'
    ensures Scan(s, k).stop == AtQuote || Scan(s, k).stop == AtBadEscape
    ensures Scan(s, k).stopAt <= q
    decreases q - k
  {
    if k < q && s[k] != '"' {
      if s[k] == '\\' {
        if !IsLineTerminator(s[k + 1]) { ScanSettledBefore(s, k + 2, q); }
      } else {
        ScanSettledBefore(s, k + 1, q);
      }
    }
  }

  /** The character before the opening quote of a value is `:` or white space. */
  lemma BeforeOpeningQuote(s: string, name: string, p: nat)
    requires p <= |s| && ValueStart(s, name, p).Some?
    ensures var o := ValueStart(s, name, p).value - 1;
            s[o - 1] == ':' || IsSpace(s[o - 1])
  {
    var key := Key(name);
    var o := ValueStart(s, name, p).value - 1;
    if o == p + |key| {
      assert s[p..p + |key|][|key| - 1] == s[o - 1];
    }
  }

  /** Before the leftmost match, the pattern's verdict no longer depends on
      text appended later (for the strict pattern, whose match ends in `"`). */
  lemma EarlierStaysUnmatched(s: string, t: string, name: string, closing: Closing, i: nat, j: nat)
    requires j < i <= |s| && ValueStart(s, name, i).Some?
    requires closing == Required ==> Scan(s, ValueStart(s, name, i).value).stop == AtQuote
    requires MatchAt(s, name, closing, j).None?
    ensures MatchAt(s + t, name, closing, j).None?
  {
    var o := ValueStart(s, name, i).value - 1;
    ValueStartExtend(s, t, name, j, o);
    match ValueStart(s, name, j)
    case None =>
    case Some(v0) =>
      if v0 == o + 1 {
        ScanExtendSettled(s, t, v0);
      } else {
        BeforeOpeningQuote(s, name, i);
        ScanSettledBefore(s, v0, o);
        ScanExtendSettled(s, t, v0);
      }
      assert (s + t)[v0..Scan(s, v0).stopAt] == s[v0..Scan(s, v0).stopAt];
  }

  /** The leftmost match is at `i` when the pattern matches there and at no
      position from `k` up to `i`. */
  lemma {:induction false} FirstMatchIs(s: string, name: string, closing: Closing, k: nat, i: nat)
    requires k <= i <= |s| && MatchAt(s, name, closing, i).Some?
    requires forall j :: k <= j < i ==> MatchAt(s, name, closing, j).None?
    ensures FirstMatch(s, name, closing, k) == Some(i)
    decreases i - k
  {
    if k < i { FirstMatchIs(s, name, closing, k + 1, i); }
  }

  /** A strict match at `i` is not changed by more text. */
  lemma StrictAtStable(s: string, t: string, name: string, i: nat)
    requires i <= |s| && MatchAt(s, name, Required, i).Some?
    ensures MatchAt(s + t, name, Required, i) == MatchAt(s, name, Required, i)
  {
    var o := ValueStart(s, name, i).value - 1;
    ValueStartExtend(s, t, name, i, o);
    ScanExtendSettled(s, t, o + 1);
    var e := Scan(s, o + 1).stopAt;
    assert (s + t)[o + 1..e] == s[o + 1..e];
  }

  /** Once the strict pattern matches, appending text never changes its capture:
      the capture is settled by its closing quote. */
  lemma StrictStable(s: string, t: string, name: string)
    ensures Extract(s, name, Required).Some? ==>
              Extract(s + t, name, Required) == Extract(s, name, Required)
  {
    if Extract(s, name, Required).Some? {
      var i := FirstMatch(s, name, Required, 0).value;
      forall j | 0 <= j < i ensures MatchAt(s + t, name, Required, j).None? {
        EarlierStaysUnmatched(s, t, name, Required, i, j);
      }
      StrictAtStable(s, t, name, i);
      FirstMatchIs(s + t, name, Required, 0, i);
    }
  }

  /** The lenient capture at one start position only grows with more text. */
  lemma LenientAtGrows(s: string, t: string, name: string, i: nat)
    requires i <= |s| && ValueStart(s, name, i).Some?
    ensures MatchAt(s + t, name, Optional, i).Some?
    ensures MatchAt(s, name, Optional, i).value <= MatchAt(s + t, name, Optional, i).value
  {
    var o := ValueStart(s, name, i).value - 1;
    ValueStartExtend(s, t, name, i, o);
    ScanExtendGrows(s, t, o + 1);
    var e := Scan(s, o + 1).stopAt;
    var e' := Scan(s + t, o + 1).stopAt;
    SlicePrefix(s + t, o + 1, e, e');
    assert (s + t)[o + 1..e] == s[o + 1..e];
  }

  /** Appending text to the buffer only extends the lenient capture: the
      previous capture is a prefix of the new one (monotonic extension). */
  lemma LenientGrows(s: string, t: string, name: string)
    ensures Extract(s, name, Optional).Some? ==>
              && Extract(s + t, name, Optional).Some?
              && Extract(s, name, Optional).value <= Extract(s + t, name, Optional).value
  {
    if Extract(s, name, Optional).Some? {
      var i := FirstMatch(s, name, Optional, 0).value;
      forall j | 0 <= j < i ensures MatchAt(s + t, name, Optional, j).None? {
        EarlierStaysUnmatched(s, t, name, Optional, i, j);
      }
      LenientAtGrows(s, t, name, i);
      FirstMatchIs(s + t, name, Optional, 0, i);
    }
  }
}
