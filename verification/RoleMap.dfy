/**
 The role-map text box of the settings page: one `claim=role` line per entry, printed by
 `roleMapToText` and parsed by `roleMapFromText`.

 A JavaScript record is a map from strings to strings. `Object.entries` lists it in an order of
 JavaScript's own (integer-like keys first), so the printer takes any enumeration of the map.
 */
module RoleMap {
  import opened Text

  type Entry = (string, string)

  /** White space as `String.prototype.trim` knows it. */
  predicate Blank(c: char)
  {
    || '\U{9}' <= c <= '\U{d}' || c == ' ' || c == '\U{a0}' || c == '\U{1680}'
    || '\U{2000}' <= c <= '\U{200a}' || c == '\U{2028}' || c == '\U{2029}'
    || c == '\U{202f}' || c == '\U{205f}' || c == '\U{3000}' || c == '\U{feff}'
  }

  /** Assigning a string to this property of a plain object calls a setter that ignores it. */
  const PROTO := "__proto__"

  // ----- Printing -----

  function Line(e: Entry): string
  {
    e.0 + "=" + e.1
  }

  function Lines(entries: seq<Entry>): (lines: seq<string>)
    ensures |lines| == |entries| && forall i :: 0 <= i < |entries| ==> lines[i] == Line(entries[i])
  {
    seq(|entries|, i requires 0 <= i < |entries| => Line(entries[i]))
  }

  function ToText(entries: seq<Entry>): string
  {
    Join("\n", Lines(entries))
  }

  // ----- Parsing -----

  function AddLine(m: map<string, string>, line: string): map<string, string>
  {
    var parts := Split(line, "=");
    if |parts| < 2 then m
    else
      var claim, role := Strip(parts[0], Blank), Strip(parts[1], Blank);
      if claim != "" && role != "" && claim != PROTO then m[claim := role] else m
  }

  function AddLines(m: map<string, string>, lines: seq<string>): map<string, string>
    decreases |lines|
  {
    if lines == [] then m else AddLine(AddLines(m, lines[..|lines| - 1]), lines[|lines| - 1])
  }

  function FromText(text: string): map<string, string>
  {
    AddLines(map[], Split(text, "\n"))
  }

  method RoleMapFromText(text: string) returns (m: map<string, string>)
    ensures m == FromText(text)
  {
    m := map[];
    var lines := Split(text, "\n");
    for i := 0 to |lines|
      invariant m == AddLines(map[], lines[..i])
    {
      assert lines[..i + 1][..i] == lines[..i];
      var parts := Split(lines[i], "=");
      if |parts| >= 2 {
        var claim, role := Strip(parts[0], Blank), Strip(parts[1], Blank);
        if claim != "" && role != "" {
          if claim != PROTO {
            m := m[claim := role];
          }
        }
      }
    }
    assert lines[..|lines|] == lines;
  }

  // ----- What survives -----

  predicate Clean(s: string)
  {
    s != "" && Trimmed(s, Blank) && '=' !in s && '\n' !in s
  }

  predicate Storable(m: map<string, string>)
  {
    forall k :: k in m ==> Clean(k) && k != PROTO && Clean(m[k])
  }

  /** `entries` lists every entry of `m` once, in some order. */
  predicate Enumerates(entries: seq<Entry>, m: map<string, string>)
  {
    && (forall i :: 0 <= i < |entries| ==> entries[i].0 in m && m[entries[i].0] == entries[i].1)
    && (forall i, j :: 0 <= i < j < |entries| ==> entries[i].0 != entries[j].0)
    && (forall k :: k in m ==> (k, m[k]) in entries)
  }

  // ----- What a line says -----

  /** The code points of the white space of JavaScript's `trim`. */
  lemma BlankExact(c: char)
    ensures
      Blank(c) <==>
      c as int in {9, 10, 11, 12, 13, 32, 160, 5760, 8192, 8193, 8194, 8195, 8196, 8197, 8198, 8199, 8200, 8201, 8202,
                   8232, 8233, 8239, 8287, 12288, 65279}
  {
  }

  /** The claim is what stands before the first "=", the role what follows up to the next one or the end. */
  ghost predicate Fields(line: string, claim: string, role: string)
  {
    exists a, b, rest ::
      && line == a + "=" + b + rest && '=' !in a && '=' !in b && (rest == "" || rest[0] == '=')
      && claim == Strip(a, Blank) && role == Strip(b, Blank)
  }

  /** A line gives an entry if neither field is blank, and the claim is not the one name that is ignored. */
  ghost predicate Gives(line: string, claim: string, role: string)
  {
    Fields(line, claim, role) && claim != "" && role != "" && claim != "__proto__"
  }

  lemma FieldsParsed(line: string, a: string, b: string, rest: string)
    requires line == a + "=" + b + rest && '=' !in a && '=' !in b && (rest == "" || rest[0] == '=')
    ensures |Split(line, "=")| >= 2 && Split(line, "=")[0] == a && Split(line, "=")[1] == b
  {
    assert line == a + "=" + (b + rest);
    SplitHeadChar(a, '=', b + rest);
    if rest == "" {
      assert b + rest == b;
      ContainsChar(b, '=');
      SplitNone(b, "=");
    } else {
      assert b + rest == b + "=" + rest[1..];
      SplitHeadChar(b, '=', rest[1..]);
    }
  }

  lemma JoinTwo(sep: string, parts: seq<string>) returns (rest: string)
    requires |parts| >= 2
    ensures Join(sep, parts) == parts[0] + sep + parts[1] + rest
    ensures rest == if |parts| == 2 then "" else sep + Join(sep, parts[2..])
  {
    rest := if |parts| == 2 then "" else sep + Join(sep, parts[2..]);
    assert parts[1..][1..] == parts[2..];
    assert Join(sep, parts) == parts[0] + sep + (parts[1] + rest);
  }

  lemma ParsedFields(line: string)
    requires |Split(line, "=")| >= 2
    ensures Fields(line, Strip(Split(line, "=")[0], Blank), Strip(Split(line, "=")[1], Blank))
  {
    hide Split, Strip, Contains, EndsFirst, Join;
    var parts := Split(line, "=");
    SplitParts(line, "=");
    PartsWithout(line, "=");
    ContainsChar(parts[0], '=');
    ContainsChar(parts[1], '=');
    var rest := JoinTwo("=", parts);
    assert line == parts[0] + "=" + parts[1] + rest && (rest == "" || rest[0] == '=');
  }

  /** A line adds the one entry it gives, in place of an earlier one of that claim, or nothing. */
  lemma LineExact(m: map<string, string>, line: string)
    ensures forall claim, role :: Gives(line, claim, role) ==> AddLine(m, line) == m[claim := role]
    ensures (forall claim, role :: !Gives(line, claim, role)) ==> AddLine(m, line) == m
  {
    var parts := Split(line, "=");
    forall a, b, rest | line == a + "=" + b + rest && '=' !in a && '=' !in b && (rest == "" || rest[0] == '=')
      ensures |parts| >= 2 && parts[0] == a && parts[1] == b
    {
      FieldsParsed(line, a, b, rest);
    }
    hide Split;
    if |parts| >= 2 {
      ParsedFields(line);
      assert AddLine(m, line) != m ==> Gives(line, Strip(parts[0], Blank), Strip(parts[1], Blank));
    }
  }

  /** Line i is the last one that gives this claim, and gives it this role. */
  ghost predicate LastGiven(lines: seq<string>, claim: string, role: string, i: nat)
  {
    && i < |lines| && Gives(lines[i], claim, role)
    && forall j, other :: i < j < |lines| ==> !Gives(lines[j], claim, other)
  }

  /** What one more line changes. */
  lemma AddLineExact(m: map<string, string>, line: string, claim: string, role: string)
    ensures
      var after := AddLine(m, line);
      claim in after && after[claim] == role <==>
        || Gives(line, claim, role)
        || ((forall other :: !Gives(line, claim, other)) && claim in m && m[claim] == role)
  {
    hide Gives, AddLine;
    LineExact(m, line);
  }

  lemma LastGivenNext(lines: seq<string>, claim: string, role: string)
    requires lines != []
    ensures
      var n := |lines| - 1;
      (exists i: nat :: LastGiven(lines, claim, role, i)) <==>
        || Gives(lines[n], claim, role)
        || ((forall other :: !Gives(lines[n], claim, other))
            && exists i: nat :: LastGiven(lines[..n], claim, role, i))
  {
    hide Gives;
    var n := |lines| - 1;
    if Gives(lines[n], claim, role) {
      assert LastGiven(lines, claim, role, n);
    } else if forall other :: !Gives(lines[n], claim, other) {
      forall i: nat
        ensures LastGiven(lines, claim, role, i) <==> LastGiven(lines[..n], claim, role, i)
      {
        assert i < n ==> lines[..n][i] == lines[i];
      }
    } else {
      var other :| Gives(lines[n], claim, other);
    }
  }

  lemma {:induction false} LinesExact(lines: seq<string>, claim: string, role: string)
    ensures
      var m := AddLines(map[], lines);
      claim in m && m[claim] == role <==> exists i: nat :: LastGiven(lines, claim, role, i)
    decreases |lines|
  {
    if lines == [] {
    } else {
      hide Gives, AddLine, LastGiven;
      var n := |lines| - 1;
      LinesExact(lines[..n], claim, role);
      LastGivenNext(lines, claim, role);
      AddLineExact(AddLines(map[], lines[..n]), lines[n], claim, role);
    }
  }

  /** The parsed map has exactly the entries that the lines of the text give, and of several for one claim the last. */
  lemma ParsedExactly(text: string, lines: seq<string>, claim: string, role: string)
    requires Parts(text, "\n", lines)
    ensures
      var m := FromText(text);
      claim in m && m[claim] == role <==> exists i: nat :: LastGiven(lines, claim, role, i)
  {
    hide LastGiven, Parts;
    SplitExactly(text, "\n", lines);
    LinesExact(lines, claim, role);
  }

  /** The printed text has one line for each entry: claim, "=" and role. */
  lemma PrintedExactly(entries: seq<Entry>, last: Entry)
    ensures ToText([]) == "" && ToText([last]) == last.0 + "=" + last.1
    ensures entries != [] ==> ToText(entries + [last]) == ToText(entries) + "\n" + last.0 + "=" + last.1
  {
    assert Lines(entries + [last]) == Lines(entries) + [Line(last)];
    if entries != [] {
      JoinSnoc("\n", Lines(entries), Line(last));
      assert Join("\n", Lines(entries)) + "\n" + (last.0 + "=" + last.1) ==
             Join("\n", Lines(entries)) + "\n" + last.0 + "=" + last.1;
    }
  }

  // ----- What comes back -----

  /** A field cut out of one line of the text is clean once trimmed, if anything is left of it. */
  lemma FieldClean(line: string, field: string)
    requires '\n' !in line && field in Split(line, "=")
    ensures Strip(field, Blank) != "" ==> Clean(Strip(field, Blank))
  {
    PartsWithout(line, "=");
    ContainsChar(field, '=');
    FieldChars(line, field);
    var lo, hi := StripSlice(field, Blank);
  }

  lemma {:induction false} FieldChars(line: string, field: string)
    requires field in Split(line, "=")
    ensures forall c :: c in field ==> c in line
    decreases |line|
  {
    match FindFrom(line, "=", 0)
    case None =>
    case Some(i) =>
      if field != line[..i] {
        FieldChars(line[i + 1..], field);
      }
  }

  lemma {:induction false} AddLinesStorable(lines: seq<string>)
    requires forall line :: line in lines ==> '\n' !in line
    ensures Storable(AddLines(map[], lines))
  {
    if lines != [] {
      var last := lines[|lines| - 1];
      AddLinesStorable(lines[..|lines| - 1]);
      var parts := Split(last, "=");
      FieldClean(last, parts[0]);
      if |parts| >= 2 {
        FieldClean(last, parts[1]);
      }
    }
  }

  /** Whatever is typed, only storable entries come out. */
  lemma FromTextStorable(text: string)
    ensures Storable(FromText(text))
  {
    PartsWithout(text, "\n");
    forall line | line in Split(text, "\n")
      ensures '\n' !in line
    {
      ContainsChar(line, '\n');
    }
    AddLinesStorable(Split(text, "\n"));
  }

  /** A printed clean entry parses back to itself. */
  lemma AddPrintedLine(m: map<string, string>, e: Entry)
    requires Clean(e.0) && e.0 != PROTO && Clean(e.1)
    ensures AddLine(m, Line(e)) == m[e.0 := e.1]
  {
    SplitHeadChar(e.0, '=', e.1);
    ContainsChar(e.1, '=');
    SplitNone(e.1, "=");
    StripTrimmed(e.0, Blank);
    StripTrimmed(e.1, Blank);
  }

  lemma {:induction false} AddPrintedLines(entries: seq<Entry>)
    requires forall e :: e in entries ==> Clean(e.0) && e.0 != PROTO && Clean(e.1)
    requires forall i, j :: 0 <= i < j < |entries| ==> entries[i].0 != entries[j].0
    ensures forall e :: e in entries ==>
              e.0 in AddLines(map[], Lines(entries)) && AddLines(map[], Lines(entries))[e.0] == e.1
    ensures forall k :: k in AddLines(map[], Lines(entries)) ==> exists e :: e in entries && e.0 == k
  {
    if entries != [] {
      var init, last := entries[..|entries| - 1], entries[|entries| - 1];
      AddPrintedLines(init);
      assert Lines(entries)[..|entries| - 1] == Lines(init);
      AddPrintedLine(AddLines(map[], Lines(init)), last);
      assert entries == init + [last];
    }
  }

  /** Printing and parsing gives the map back exactly when every entry is storable. */
  lemma RoundTrip(m: map<string, string>, entries: seq<Entry>)
    requires Enumerates(entries, m)
    ensures FromText(ToText(entries)) == m <==> Storable(m)
  {
    FromTextStorable(ToText(entries));
    if Storable(m) {
      RoundTripStorable(m, entries);
    }
  }

  lemma EmptyText()
    ensures FromText(ToText([])) == map[]
  {
    assert !Contains("", "\n") && !Contains("", "=");
    SplitNone("", "\n");
    SplitNone("", "=");
    assert FromText("") == AddLines(map[], [""]) == AddLine(AddLines(map[], [""][..0]), "");
  }

  lemma RoundTripStorable(m: map<string, string>, entries: seq<Entry>)
    requires Enumerates(entries, m) && Storable(m)
    ensures FromText(ToText(entries)) == m
  {
    hide Split, AddLine, Join;
    if entries == [] {
      EmptyText();
    } else {
      forall i | 0 <= i < |entries|
        ensures '\n' !in Lines(entries)[i] && Clean(entries[i].0) && entries[i].0 != PROTO && Clean(entries[i].1)
      {
        assert entries[i].0 in m && m[entries[i].0] == entries[i].1;
      }
      SplitJoin(Lines(entries), '\n');
      AddPrintedLines(entries);
      hide AddLines, Lines, Clean;
      assert FromText(ToText(entries)) == AddLines(map[], Lines(entries));
    }
  }

  /** A saved text is stable: showing it again and saving it again changes nothing. */
  lemma SavedTextStable(text: string, entries: seq<Entry>)
    requires Enumerates(entries, FromText(text))
    ensures FromText(ToText(entries)) == FromText(text)
  {
    FromTextStorable(text);
    RoundTripStorable(FromText(text), entries);
  }

  /** The one clean key the form loses: a claim of this name vanishes when the settings are saved. */
  lemma ProtoClaimLost(role: string)
    requires Clean(role)
    ensures Clean(PROTO)
    ensures Enumerates([(PROTO, role)], map[PROTO := role])
    ensures FromText(ToText([(PROTO, role)])) != map[PROTO := role]
  {
    RoundTrip(map[PROTO := role], [(PROTO, role)]);
    assert PROTO in map[PROTO := role];
  }
}
