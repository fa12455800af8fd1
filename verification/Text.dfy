/**
 String primitives of the two host languages: stripping, splitting on a separator and joining.
 A separator is found leftmost first and occurrences do not overlap, as in Python's `str.split(sep)`
 and JavaScript's `String.split(sep)`.
 */
module Text {
  import opened Wrappers

  // ----- Stripping -----

  function StripLeft(s: string, blank: char -> bool): (r: string)
  {
    if s != "" && blank(s[0]) then StripLeft(s[1..], blank) else s
  }

  function StripRight(s: string, blank: char -> bool): (r: string)
  {
    if s != "" && blank(s[|s| - 1]) then StripRight(s[..|s| - 1], blank) else s
  }

  function Strip(s: string, blank: char -> bool): string
  {
    StripRight(StripLeft(s, blank), blank)
  }

  /** Neither end is blank; the empty string is trimmed. */
  predicate Trimmed(s: string, blank: char -> bool)
  {
    s != "" ==> !blank(s[0]) && !blank(s[|s| - 1])
  }

  predicate AllBlank(s: string, blank: char -> bool)
  {
    forall i :: 0 <= i < |s| ==> blank(s[i])
  }

  /** The result is a slice of the input between two blank runs. */
  lemma {:induction false} StripLeftSlice(s: string, blank: char -> bool) returns (n: nat)
    ensures n <= |s| && StripLeft(s, blank) == s[n..] && AllBlank(s[..n], blank)
    ensures n < |s| ==> !blank(s[n])
  {
    if s != "" && blank(s[0]) {
      var m := StripLeftSlice(s[1..], blank);
      n := m + 1;
      assert s[1..][m..] == s[n..];
      assert forall i :: 0 < i < n ==> s[i] == s[1..][..m][i - 1];
    } else {
      n := 0;
    }
  }

  lemma {:induction false} StripRightSlice(s: string, blank: char -> bool) returns (n: nat)
    ensures n <= |s| && StripRight(s, blank) == s[..n] && AllBlank(s[n..], blank)
    ensures n > 0 ==> !blank(s[n - 1])
  {
    if s != "" && blank(s[|s| - 1]) {
      n := StripRightSlice(s[..|s| - 1], blank);
      assert s[..|s| - 1][..n] == s[..n];
      assert forall i :: n <= i < |s| - 1 ==> s[i] == s[..|s| - 1][n..][i - n];
    } else {
      n := |s|;
    }
  }

  lemma StripSlice(s: string, blank: char -> bool) returns (lo: nat, hi: nat)
    ensures lo <= hi <= |s| && Strip(s, blank) == s[lo..hi]
    ensures AllBlank(s[..lo], blank) && AllBlank(s[hi..], blank)
    ensures Trimmed(Strip(s, blank), blank)
  {
    lo := StripLeftSlice(s, blank);
    var n := StripRightSlice(s[lo..], blank);
    hi := lo + n;
    assert s[lo..][..n] == s[lo..hi];
    assert s[lo..][n..] == s[hi..];
  }

  lemma {:induction false} StripLeftBlank(lead: string, s: string, blank: char -> bool)
    requires AllBlank(lead, blank) && (s != "" ==> !blank(s[0]))
    ensures StripLeft(lead + s, blank) == s
  {
    if lead == "" {
      assert lead + s == s;
    } else {
      assert (lead + s)[1..] == lead[1..] + s;
      StripLeftBlank(lead[1..], s, blank);
    }
  }

  lemma {:induction false} StripRightBlank(s: string, tail: string, blank: char -> bool)
    requires AllBlank(tail, blank) && (s != "" ==> !blank(s[|s| - 1]))
    ensures StripRight(s + tail, blank) == s
  {
    if tail == "" {
      assert s + tail == s;
    } else {
      assert (s + tail)[..|s + tail| - 1] == s + tail[..|tail| - 1];
      StripRightBlank(s, tail[..|tail| - 1], blank);
    }
  }

  /** Stripping removes exactly the blanks put around a trimmed, non-empty text. */
  lemma StripPadded(lead: string, s: string, tail: string, blank: char -> bool)
    requires AllBlank(lead, blank) && AllBlank(tail, blank)
    requires s != "" && Trimmed(s, blank)
    ensures Strip(lead + s + tail, blank) == s
  {
    assert lead + s + tail == lead + (s + tail);
    StripLeftBlank(lead, s + tail, blank);
    StripRightBlank(s, tail, blank);
  }

  lemma StripAllBlank(s: string, blank: char -> bool)
    requires AllBlank(s, blank)
    ensures Strip(s, blank) == ""
  {
    assert s + "" == s;
    StripLeftBlank(s, "", blank);
  }

  lemma StripTrimmed(s: string, blank: char -> bool)
    requires Trimmed(s, blank)
    ensures Strip(s, blank) == s
  {
  }

  /** The stripped text is the trimmed slice between two runs of blanks, and there is only one. */
  lemma StripExactly(s: string, blank: char -> bool, r: string)
    ensures r == Strip(s, blank) <==>
              && Trimmed(r, blank)
              && exists lead, tail :: s == lead + r + tail && AllBlank(lead, blank) && AllBlank(tail, blank)
  {
    if r == Strip(s, blank) {
      var lo, hi := StripSlice(s, blank);
      assert s == s[..lo] + r + s[hi..];
    }
    if Trimmed(r, blank) {
      forall lead, tail | s == lead + r + tail && AllBlank(lead, blank) && AllBlank(tail, blank)
        ensures r == Strip(s, blank)
      {
        if r == "" {
          StripAllBlank(s, blank);
        } else {
          StripPadded(lead, r, tail, blank);
        }
      }
    }
  }

  // ----- Searching -----

  predicate OccursAt(text: string, d: string, i: int)
  {
    0 <= i && i + |d| <= |text| && text[i..i + |d|] == d
  }

  predicate Contains(text: string, d: string)
  {
    exists i :: 0 <= i <= |text| && OccursAt(text, d, i)
  }

  function FindFrom(text: string, d: string, i: nat): (r: Option<nat>)
    requires i <= |text|
    ensures r.None? ==> forall k :: i <= k ==> !OccursAt(text, d, k)
    ensures r.Some? ==> i <= r.value && OccursAt(text, d, r.value)
    ensures r.Some? ==> forall k :: i <= k < r.value ==> !OccursAt(text, d, k)
    decreases |text| - i
  {
    if OccursAt(text, d, i) then Some(i)
    else if i == |text| then None
    else FindFrom(text, d, i + 1)
  }

  function Split(text: string, d: string): (parts: seq<string>)
    requires d != ""
    ensures |parts| > 0
    decreases |text|
  {
    match FindFrom(text, d, 0)
    case None => [text]
    case Some(i) => [text[..i]] + Split(text[i + |d|..], d)
  }

  function Join(sep: string, parts: seq<string>): string
  {
    if parts == [] then ""
    else if |parts| == 1 then parts[0]
    else parts[0] + sep + Join(sep, parts[1..])
  }

  /** A slice of a text without the separator is without it too. */
  lemma SliceWithout(text: string, d: string, lo: nat, hi: nat)
    requires lo <= hi <= |text| && !Contains(text, d)
    ensures !Contains(text[lo..hi], d)
  {
    forall i | 0 <= i <= hi - lo
      ensures !OccursAt(text[lo..hi], d, i)
    {
      assert !OccursAt(text, d, lo + i);
      if i + |d| <= hi - lo {
        var slice := text[lo..hi][i..i + |d|];
        assert forall k :: 0 <= k < |d| ==> slice[k] == text[lo + i + k];
        assert slice == text[lo + i..lo + i + |d|];
      }
    }
  }

  lemma {:induction false} PartsWithout(text: string, d: string)
    requires d != ""
    ensures forall part :: part in Split(text, d) ==> !Contains(part, d)
    decreases |text|
  {
    match FindFrom(text, d, 0)
    case None =>
    case Some(i) =>
      var head := text[..i];
      forall k | 0 <= k <= |head|
        ensures !OccursAt(head, d, k)
      {
        assert k < i ==> !OccursAt(text, d, k);
        if k + |d| <= |head| {
          assert head[k..k + |d|] == text[k..k + |d|];
        }
      }
      PartsWithout(text[i + |d|..], d);
  }

  lemma ContainsExactly(text: string, d: string)
    ensures Contains(text, d) <==> exists before, after :: text == before + d + after
  {
    if i :| 0 <= i <= |text| && OccursAt(text, d, i) {
      assert text == text[..i] + d + text[i + |d|..];
    }
    if before, after :| text == before + d + after {
      assert text[|before|..|before| + |d|] == d;
      assert OccursAt(text, d, |before|);
    }
  }

  // ----- What splitting is -----

  /** No separator starts inside the part when the next one follows it. */
  predicate EndsFirst(part: string, d: string)
    requires d != ""
  {
    !Contains(part + d[..|d| - 1], d)
  }

  /** The text is the parts with separators between them, each of them the leftmost there is. */
  predicate Parts(text: string, d: string, parts: seq<string>)
    requires d != ""
  {
    && parts != [] && Join(d, parts) == text
    && (forall k :: 0 <= k < |parts| - 1 ==> EndsFirst(parts[k], d))
    && !Contains(parts[|parts| - 1], d)
  }

  lemma LeftmostEnds(text: string, d: string, i: nat)
    requires d != "" && OccursAt(text, d, i) && forall k :: 0 <= k < i ==> !OccursAt(text, d, k)
    ensures EndsFirst(text[..i], d)
  {
    var head := text[..i] + d[..|d| - 1];
    assert text[i..i + |d|][..|d| - 1] == d[..|d| - 1];
    assert head == text[..i + |d| - 1];
    forall k | 0 <= k <= |head|
      ensures !OccursAt(head, d, k)
    {
      if k + |d| <= |head| {
        assert !OccursAt(text, d, k);
        assert head[k..k + |d|] == text[k..k + |d|];
      }
    }
  }

  lemma {:induction false} SplitParts(text: string, d: string)
    requires d != ""
    ensures Parts(text, d, Split(text, d))
    decreases |text|
  {
    match FindFrom(text, d, 0)
    case None =>
    case Some(i) =>
      var rest := text[i + |d|..];
      SplitParts(rest, d);
      LeftmostEnds(text, d, i);
      PartsCons(text[..i], d, rest, Split(rest, d));
      assert text == text[..i] + d + rest;
  }

  lemma PartsCons(head: string, d: string, rest: string, parts: seq<string>)
    requires d != "" && EndsFirst(head, d) && Parts(rest, d, parts)
    ensures Parts(head + d + rest, d, [head] + parts)
  {
    hide EndsFirst, Contains;
    assert ([head] + parts)[1..] == parts;
  }

  lemma FirstOccurrence(part: string, d: string, rest: string, k: nat)
    requires d != "" && EndsFirst(part, d) && k < |part|
    ensures !OccursAt(part + d + rest, d, k)
  {
    var text, head := part + d + rest, part + d[..|d| - 1];
    assert head == text[..|head|];
    assert !OccursAt(head, d, k);
    assert head[k..k + |d|] == text[k..k + |d|];
  }

  lemma {:induction false} PartsSplit(text: string, d: string, parts: seq<string>)
    requires d != "" && Parts(text, d, parts)
    ensures parts == Split(text, d)
    decreases |parts|
  {
    if |parts| == 1 {
      SplitNone(text, d);
    } else {
      var rest := Join(d, parts[1..]);
      assert Parts(rest, d, parts[1..]);
      PartsSplit(rest, d, parts[1..]);
      assert text == parts[0] + d + rest;
      forall k | 0 <= k < |parts[0]|
        ensures !OccursAt(parts[0] + d + rest, d, k)
      {
        FirstOccurrence(parts[0], d, rest, k);
      }
      SplitHead(parts[0], d, rest);
    }
  }

  /** Splitting is the one way to cut a text at separators, always at the leftmost. */
  lemma SplitExactly(text: string, d: string, parts: seq<string>)
    requires d != ""
    ensures parts == Split(text, d) <==> Parts(text, d, parts)
  {
    SplitParts(text, d);
    if Parts(text, d, parts) {
      PartsSplit(text, d, parts);
    }
  }

  lemma {:induction false} JoinSnoc(sep: string, parts: seq<string>, last: string)
    requires parts != []
    ensures Join(sep, parts + [last]) == Join(sep, parts) + sep + last
  {
    if |parts| == 1 {
      assert (parts + [last])[1..] == [last];
    } else {
      assert (parts + [last])[1..] == parts[1..] + [last];
      JoinSnoc(sep, parts[1..], last);
      assert parts[0] + sep + (Join(sep, parts[1..]) + sep + last) ==
             (parts[0] + sep + Join(sep, parts[1..])) + sep + last;
    }
  }

  lemma SplitNone(text: string, d: string)
    requires d != "" && !Contains(text, d)
    ensures Split(text, d) == [text]
  {
  }

  /** A head that the separator cannot reach into becomes the first part. */
  lemma SplitHead(head: string, d: string, rest: string)
    requires d != ""
    requires forall k :: 0 <= k < |head| ==> !OccursAt(head + d + rest, d, k)
    ensures Split(head + d + rest, d) == [head] + Split(rest, d)
  {
    var text := head + d + rest;
    assert text[|head|..|head| + |d|] == d;
    assert OccursAt(text, d, |head|);
    var found := FindFrom(text, d, 0);
    assert found == Some(|head|);
    assert text[..|head|] == head;
    assert text[|head| + |d|..] == rest;
  }

  /** For a one-character separator the head only has to be free of it. */
  lemma SplitHeadChar(head: string, c: char, rest: string)
    requires c !in head
    ensures Split(head + [c] + rest, [c]) == [head] + Split(rest, [c])
  {
    var text := head + [c] + rest;
    forall k | 0 <= k < |head|
      ensures !OccursAt(text, [c], k)
    {
      assert text[k..k + 1][0] == head[k] != c;
    }
    SplitHead(head, [c], rest);
  }

  lemma ContainsChar(s: string, c: char)
    ensures Contains(s, [c]) <==> c in s
  {
    if c in s {
      var i :| 0 <= i < |s| && s[i] == c;
      assert OccursAt(s, [c], i);
    }
    if Contains(s, [c]) {
      var i :| 0 <= i <= |s| && OccursAt(s, [c], i);
      assert s[i..i + 1][0] == s[i];
    }
  }

  /** Joining on a character and splitting on it again is the identity on parts free of it. */
  lemma {:induction false} SplitJoin(parts: seq<string>, c: char)
    requires parts != [] && forall part :: part in parts ==> c !in part
    ensures Split(Join([c], parts), [c]) == parts
  {
    if |parts| == 1 {
      ContainsChar(parts[0], c);
      SplitNone(parts[0], [c]);
    } else {
      var rest := Join([c], parts[1..]);
      SplitJoin(parts[1..], c);
      SplitHeadChar(parts[0], c, rest);
      assert Join([c], parts) == parts[0] + [c] + rest;
      assert parts == [parts[0]] + parts[1..];
    }
  }
}
