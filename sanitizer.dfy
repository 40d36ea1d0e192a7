/** The clean-up `process_file` applies to a completion before returning it:
    `re.sub(r"<think>.*?</think>", "", s.strip(), flags=re.DOTALL).strip()`.

    The regular-expression substitution is modelled as the scan Python's `re`
    module performs: at each position, if `<think>` starts there and a
    `</think>` follows it, the shortest such match (up to the NEAREST following
    `</think>`) is dropped and the scan resumes after it; otherwise one
    character is copied and the scan moves on by one. `DOTALL` makes `.` match
    every character, so a span may cross line breaks: no character is special
    inside a span. */
module Sanitizer {
  import opened Wrappers
  import opened Text

  const Open: string := "<think>"
  const Close: string := "</think>"

  /** `<think>` starts at position `i` of `s`. */
  predicate OpenAt(s: string, i: nat) {
    i + 7 <= |s|
    && s[i] == '<' && s[i + 1] == 't' && s[i + 2] == 'h' && s[i + 3] == 'i'
    && s[i + 4] == 'n' && s[i + 5] == 'k' && s[i + 6] == '>'
  }

  /** `</think>` starts at position `i` of `s`. */
  predicate CloseAt(s: string, i: nat) {
    i + 8 <= |s|
    && s[i] == '<' && s[i + 1] == '/' && s[i + 2] == 't' && s[i + 3] == 'h'
    && s[i + 4] == 'i' && s[i + 5] == 'n' && s[i + 6] == 'k' && s[i + 7] == '>'
  }

  /** The two tests above are "the marker text occurs here". */
  lemma {:induction false} MarkersAt(s: string, i: nat)
    ensures OpenAt(s, i) <==> i + |Open| <= |s| && s[i..i + |Open|] == Open
    ensures CloseAt(s, i) <==> i + |Close| <= |s| && s[i..i + |Close|] == Close
  {
    OpenAtSlice(s, i);
    CloseAtSlice(s, i);
  }

  lemma {:induction false} OpenAtSlice(s: string, i: nat)
    ensures OpenAt(s, i) <==> i + |Open| <= |s| && s[i..i + |Open|] == Open
  {
    if i + |Open| <= |s| {
      var w := s[i..i + |Open|];
      assert Open == ['<', 't', 'h', 'i', 'n', 'k', '>'];
      assert forall m :: 0 <= m < |Open| ==> w[m] == s[i + m];
    }
  }

  lemma {:induction false} CloseAtSlice(s: string, i: nat)
    ensures CloseAt(s, i) <==> i + |Close| <= |s| && s[i..i + |Close|] == Close
  {
    if i + |Close| <= |s| {
      var w := s[i..i + |Close|];
      assert Close == ['<', '/', 't', 'h', 'i', 'n', 'k', '>'];
      assert forall m :: 0 <= m < |Close| ==> w[m] == s[i + m];
    }
  }

  /** Whether a marker starts at a position depends only on the characters
      from that position on ... */
  lemma {:induction false} MarkersShift(s: string, d: nat, j: nat)
    requires d <= |s|
    ensures OpenAt(s, d + j) == OpenAt(s[d..], j)
    ensures CloseAt(s, d + j) == CloseAt(s[d..], j)
  {
  }

  /** ... and only on the next seven (`<think>`) or eight (`</think>`) of them. */
  lemma {:induction false} MarkersPrefix(x: string, y: string, j: nat)
    ensures j + |Open| <= |x| ==> OpenAt(x + y, j) == OpenAt(x, j)
    ensures j + |Close| <= |x| ==> CloseAt(x + y, j) == CloseAt(x, j)
  {
  }

  /** No `</think>` starts inside a `<think>`. */
  lemma {:induction false} CloseNotInOpen(s: string, p: nat, j: nat)
    requires OpenAt(s, p) && p <= j < p + |Open|
    ensures !CloseAt(s, j)
  {
  }

  /** The position of the nearest `</think>` starting at or after `from`. */
  function FindClose(s: string, from: nat): (r: Option<nat>)
    decreases |s| - from
    ensures r.Some? ==> from <= r.value && r.value + |Close| <= |s|
  {
    if from + |Close| > |s| then None
    else if CloseAt(s, from) then Some(from)
    else FindClose(s, from + 1)
  }

  /** `FindClose` finds a `</think>`, the first one from `from` on, and finds
      none only when there is none. */
  lemma {:induction false} FindCloseNearest(s: string, from: nat)
    decreases |s| - from
    ensures FindClose(s, from).Some? ==> CloseAt(s, FindClose(s, from).value)
    ensures FindClose(s, from).Some? ==> forall j :: from <= j < FindClose(s, from).value ==> !CloseAt(s, j)
    ensures FindClose(s, from).None? ==> forall j :: from <= j ==> !CloseAt(s, j)
  {
    if from + |Close| <= |s| && !CloseAt(s, from) {
      FindCloseNearest(s, from + 1);
    }
  }

  /** `re.sub(r"<think>.*?</think>", "", s, flags=re.DOTALL)`: the scan
      described above, one step per call. */
  function RemoveSpans(s: string): (r: string)
    decreases |s|
    ensures |r| <= |s|
  {
    if s == [] then []
    else
      var close := FindClose(s, |Open|);
      if OpenAt(s, 0) && close.Some? then RemoveSpans(s[close.value + |Close|..])
      else [s[0]] + RemoveSpans(s[1..])
  }

  /** The whole clean-up: strip, substitute, strip again. */
  function Sanitize(s: string): (r: string)
    ensures |r| <= |s|
    ensures r == [] || (!IsSpace(r[0]) && !IsSpace(r[|r| - 1]))
  {
    Trim(RemoveSpans(Trim(s)))
  }

  /** Text in which no `<think>` starts is copied unchanged, and the scan goes
      on with what follows it as with a text of its own. */
  lemma {:induction false} CopyPrefix(a: string, t: string)
    requires forall j :: 0 <= j < |a| ==> !OpenAt(a + t, j)
    decreases |a|
    ensures RemoveSpans(a + t) == a + RemoveSpans(t)
  {
    if a != [] {
      var s := a + t;
      assert !OpenAt(s, 0);
      assert s[1..] == a[1..] + t;
      forall j | 0 <= j < |a| - 1 ensures !OpenAt(a[1..] + t, j) {
        MarkersShift(s, 1, j);
      }
      CopyPrefix(a[1..], t);
      assert a == [a[0]] + a[1..];
    } else {
      assert a + t == t;
    }
  }

  /** A text with no `<think>` in it passes the substitution unchanged. */
  lemma {:induction false} NoOpenKept(s: string)
    requires forall j :: 0 <= j < |s| ==> !OpenAt(s, j)
    ensures RemoveSpans(s) == s
  {
    assert s + [] == s;
    CopyPrefix(s, []);
  }

  /** A text with no `</think>` in it passes the substitution unchanged,
      whatever `<think>` it holds. */
  lemma {:induction false} NoCloseKept(s: string)
    requires forall j :: 0 <= j < |s| ==> !CloseAt(s, j)
    decreases |s|
    ensures RemoveSpans(s) == s
  {
    if s != [] {
      FindCloseNearest(s, |Open|);
      forall j | 0 <= j < |s| - 1 ensures !CloseAt(s[1..], j) {
        MarkersShift(s, 1, j);
      }
      NoCloseKept(s[1..]);
      assert s == [s[0]] + s[1..];
    }
  }

  /** A span at the very start of the text is dropped, up to the nearest
      `</think>`, and the scan goes on after it. */
  lemma {:induction false} SpanAtStart(m: string, b: string)
    requires forall j :: 0 <= j < |m| ==> !CloseAt(m + Close, j)
    ensures RemoveSpans(Open + m + Close + b) == RemoveSpans(b)
  {
    var s := Open + m + Close + b;
    var k := |Open| + |m|;
    assert OpenAt(s, 0);
    assert s[|Open|..] == (m + Close) + b;
    forall j | |Open| <= j < k ensures !CloseAt(s, j) {
      MarkersShift(s, |Open|, j - |Open|);
      MarkersPrefix(m + Close, b, j - |Open|);
    }
    assert s[k..k + |Close|] == Close;
    MarkersAt(s, k);
    FindCloseNearest(s, |Open|);
    assert FindClose(s, |Open|) == Some(k);
    assert s[k + |Close|..] == b;
  }

  /** A completion that opens with a reasoning span comes out as the text
      after it, when that text holds no further `<think>`. */
  lemma {:induction false} LeadingSpanDropped(m: string, b: string)
    requires forall j :: 0 <= j < |m| ==> !CloseAt(m + Close, j)
    requires forall j :: 0 <= j < |b| ==> !OpenAt(b, j)
    ensures RemoveSpans(Open + m + Close + b) == b
  {
    SpanAtStart(m, b);
    NoOpenKept(b);
  }

  /** The general case, on the pieces of the text: `a` holds no `<think>` and
      `m` holds no `</think>`. Then `a` is kept, the span `<think>m</think>`
      from the leftmost `<think>` to the nearest `</think>` after it is
      dropped, and the rest `b` is cleaned as a text of its own. */
  lemma {:induction false} SpanRemoved(a: string, m: string, b: string)
    requires forall j :: 0 <= j < |a| ==> !OpenAt(a + Open, j)
    requires forall j :: 0 <= j < |m| ==> !CloseAt(m + Close, j)
    ensures RemoveSpans(a + Open + m + Close + b) == a + RemoveSpans(b)
  {
    var t := Open + m + Close + b;
    assert t == Open + (m + Close + b);
    assert a + Open + m + Close + b == a + t;
    NoOpenBefore(a, m + Close + b);
    CopyPrefix(a, t);
    SpanAtStart(m, b);
  }

  /** A `<think>` with no `</think>` after it stays in place, as does
      everything around it. */
  lemma {:induction false} UnclosedKept(a: string, m: string)
    requires forall j :: 0 <= j < |a| ==> !OpenAt(a + Open, j)
    requires forall j :: 0 <= j < |m| ==> !CloseAt(m, j)
    ensures RemoveSpans(a + Open + m) == a + Open + m
  {
    assert a + Open + m == a + (Open + m);
    NoOpenBefore(a, m);
    CopyPrefix(a, Open + m);
    UnclosedAtStart(m);
  }

  /** A `<think>` cannot start in `a` once `a` is followed by one. */
  lemma {:induction false} NoOpenBefore(a: string, rest: string)
    requires forall j :: 0 <= j < |a| ==> !OpenAt(a + Open, j)
    ensures forall j :: 0 <= j < |a| ==> !OpenAt(a + (Open + rest), j)
  {
    assert a + (Open + rest) == (a + Open) + rest;
    forall j | 0 <= j < |a| ensures !OpenAt((a + Open) + rest, j) {
      MarkersPrefix(a + Open, rest, j);
    }
  }

  lemma {:induction false} UnclosedAtStart(m: string)
    requires forall j :: 0 <= j < |m| ==> !CloseAt(m, j)
    ensures RemoveSpans(Open + m) == Open + m
  {
    NoCloseAfterOpen(m);
    NoCloseKept(Open + m);
  }

  lemma {:induction false} NoCloseAfterOpen(m: string)
    requires forall j :: 0 <= j < |m| ==> !CloseAt(m, j)
    ensures forall j :: 0 <= j < |Open + m| ==> !CloseAt(Open + m, j)
  {
    var t := Open + m;
    assert OpenAt(t, 0);
    assert t[|Open|..] == m;
    forall j | 0 <= j < |t| ensures !CloseAt(t, j) {
      if j < |Open| {
        CloseNotInOpen(t, 0, j);
      } else {
        MarkersShift(t, |Open|, j - |Open|);
      }
    }
  }

  /** A `<think>` occurring in a slice of a text occurs in the text. */
  lemma {:induction false} OpenInSlice(s: string, lo: nat, hi: nat, j: nat)
    requires lo <= hi <= |s|
    ensures OpenAt(s[lo..hi], j) ==> OpenAt(s, lo + j)
  {
  }

  /** With no `<think>` in the text, the clean-up is only `strip()`. */
  lemma {:induction false} NoMarkerOnlyTrims(s: string)
    requires forall j :: 0 <= j < |s| ==> !OpenAt(s, j)
    ensures Sanitize(s) == Trim(s)
  {
    var lo, hi := TrimSlice(s);
    var t := Trim(s);
    forall j | 0 <= j < |t| ensures !OpenAt(t, j) {
      OpenInSlice(s, lo, hi, j);
    }
    NoOpenKept(t);
    TrimIdempotent(s);
  }
}
