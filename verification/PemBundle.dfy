/**
 Cutting a PEM bundle into its certificates, and the text the trust store caches for outbound TLS.
 */
module PemBundle {
  import opened Text

  const DELIMITER := "-----END CERTIFICATE-----"
  const MARK := "BEGIN CERTIFICATE"

  /** White space as Python's `str.strip` knows it. */
  predicate Blank(c: char)
  {
    || '\U{9}' <= c <= '\U{d}' || '\U{1c}' <= c <= ' ' || c == '\U{85}' || c == '\U{a0}' || c == '\U{1680}'
    || '\U{2000}' <= c <= '\U{200a}' || c == '\U{2028}' || c == '\U{2029}'
    || c == '\U{202f}' || c == '\U{205f}' || c == '\U{3000}'
  }

  /** The stored form of one certificate. */
  function Block(body: string): string
  {
    body + "\n" + DELIMITER + "\n"
  }

  function Blocks(bodies: seq<string>): (blocks: seq<string>)
    ensures |blocks| == |bodies| && forall i :: 0 <= i < |bodies| ==> blocks[i] == Block(bodies[i])
  {
    seq(|bodies|, i requires 0 <= i < |bodies| => Block(bodies[i]))
  }

  /** The trimmed chunks that hold a certificate header. */
  function Bodies(chunks: seq<string>): seq<string>
  {
    if chunks == [] then []
    else
      var chunk := Strip(chunks[0], Blank);
      (if Contains(chunk, MARK) then [chunk] else []) + Bodies(chunks[1..])
  }

  function SplitPemBundle(pem: string): seq<string>
  {
    Blocks(Bodies(Split(pem, DELIMITER)))
  }

  /** The cached trust-store text for certificates listed in this order. */
  function Blob(pems: seq<string>): string
  {
    Join("\n", Stripped(pems))
  }

  function Stripped(pems: seq<string>): seq<string>
  {
    seq(|pems|, i requires 0 <= i < |pems| => Strip(pems[i], Blank))
  }

  function Concat(pems: seq<string>): string
  {
    if pems == [] then "" else pems[0] + Concat(pems[1..])
  }

  predicate IsBody(body: string)
  {
    Trimmed(body, Blank) && Contains(body, MARK) && !Contains(body, DELIMITER)
  }

  predicate AllBodies(bodies: seq<string>)
  {
    forall i :: 0 <= i < |bodies| ==> IsBody(bodies[i])
  }

  /** A text of the form the splitter produces. */
  ghost predicate IsBlock(pem: string)
  {
    exists body :: IsBody(body) && pem == Block(body)
  }

  ghost predicate AllBlocks(pems: seq<string>)
  {
    forall i :: 0 <= i < |pems| ==> IsBlock(pems[i])
  }

  // ----- What the splitter produces -----

  lemma {:induction false} BodiesOfParts(chunks: seq<string>)
    requires forall i :: 0 <= i < |chunks| ==> !Contains(chunks[i], DELIMITER)
    ensures AllBodies(Bodies(chunks))
  {
    if chunks != [] {
      var lo, hi := StripSlice(chunks[0], Blank);
      SliceWithout(chunks[0], DELIMITER, lo, hi);
      BodiesOfParts(chunks[1..]);
    }
  }

  lemma BodiesOfText(pem: string)
    ensures AllBodies(Bodies(Split(pem, DELIMITER)))
  {
    PartsWithout(pem, DELIMITER);
    BodiesOfParts(Split(pem, DELIMITER));
  }

  lemma SplitGivesBlocks(pem: string)
    ensures AllBlocks(SplitPemBundle(pem))
  {
    BodiesOfText(pem);
  }

  /** The code points of the white space of Python's `str.strip`. */
  lemma BlankExact(c: char)
    ensures
      Blank(c) <==>
      c as int in {9, 10, 11, 12, 13, 28, 29, 30, 31, 32, 133, 160, 5760, 8192, 8193, 8194, 8195, 8196, 8197, 8198,
                   8199, 8200, 8201, 8202, 8232, 8233, 8239, 8287, 12288}
  {
  }

  predicate Ascending(picked: seq<nat>)
  {
    forall k, l :: 0 <= k < l < |picked| ==> picked[k] < picked[l]
  }

  /** The parts from the i-th on that hold a certificate header. */
  function Headed(parts: seq<string>, i: nat): seq<nat>
    requires i <= |parts|
    decreases |parts| - i
  {
    if i == |parts| then []
    else (if Contains(Strip(parts[i], Blank), "BEGIN CERTIFICATE") then [i] else []) + Headed(parts, i + 1)
  }

  lemma {:induction false} HeadedExact(parts: seq<string>, i: nat)
    requires i <= |parts|
    ensures forall k: nat :: k in Headed(parts, i) <==>
                               i <= k < |parts| && Contains(Strip(parts[k], Blank), "BEGIN CERTIFICATE")
    ensures Ascending(Headed(parts, i))
    decreases |parts| - i
  {
    hide Strip, Contains;
    if i < |parts| {
      HeadedExact(parts, i + 1);
      var later := Headed(parts, i + 1);
      forall k | 0 <= k < |later|
        ensures later[k] > i
      {
        assert later[k] in later;
      }
      var here: seq<nat> := if Contains(Strip(parts[i], Blank), "BEGIN CERTIFICATE") then [i] else [];
      assert Headed(parts, i) == here + later;
      hide Headed;
      assert forall k: nat :: k in here + later <==> k in here || k in later;
    }
  }

  lemma {:induction false} BodiesHeaded(parts: seq<string>, i: nat)
    requires i <= |parts|
    ensures |Bodies(parts[i..])| == |Headed(parts, i)|
    ensures forall k :: 0 <= k < |Headed(parts, i)| ==>
              Headed(parts, i)[k] < |parts| && Bodies(parts[i..])[k] == Strip(parts[Headed(parts, i)[k]], Blank)
    decreases |parts| - i
  {
    hide Strip, Contains;
    if i < |parts| {
      BodiesHeaded(parts, i + 1);
      assert parts[i..][1..] == parts[i + 1..];
    }
  }

  /**
   The pieces are, in order, those parts of the text between end markers that hold a certificate header:
   each trimmed and followed by its marker on a line of its own.
   */
  lemma PiecesExact(pem: string, parts: seq<string>)
    requires Parts(pem, "-----END CERTIFICATE-----", parts)
    ensures
      var picked := Headed(parts, 0);
      && Ascending(picked) && |SplitPemBundle(pem)| == |picked|
      && (forall k: nat :: k in picked <==> k < |parts| && Contains(Strip(parts[k], Blank), "BEGIN CERTIFICATE"))
      && (forall k :: 0 <= k < |picked| ==>
            && picked[k] < |parts|
            && SplitPemBundle(pem)[k] == Strip(parts[picked[k]], Blank) + "\n-----END CERTIFICATE-----\n")
  {
    hide Strip, Contains, Bodies, Headed, Split, Parts;
    SplitExactly(pem, DELIMITER, parts);
    HeadedExact(parts, 0);
    BodiesHeaded(parts, 0);
    assert parts[0..] == parts;
    forall k | 0 <= k < |Headed(parts, 0)|
      ensures SplitPemBundle(pem)[k] == Strip(parts[Headed(parts, 0)[k]], Blank) + "\n-----END CERTIFICATE-----\n"
    {
      assert "\n" + DELIMITER + "\n" == "\n-----END CERTIFICATE-----\n";
    }
  }

  // ----- Splitting a rendering of certificate bodies -----

  /** Bodies and delimiters with a line break between them, after `lead` and before `tail`. */
  function Rendered(lead: string, bodies: seq<string>, tail: string): string
    decreases |bodies|
  {
    if bodies == [] then tail
    else lead + bodies[0] + "\n" + DELIMITER + Rendered("\n", bodies[1..], tail)
  }

  /** The delimiter, free of line breaks, cannot start inside a body nor reach over the break after it. */
  lemma NoEarlyDelimiter(lead: string, body: string, rest: string, k: nat)
    requires lead == "" || lead == "\n"
    requires !Contains(body, DELIMITER)
    requires k < |lead + body + "\n"|
    ensures !OccursAt(lead + body + "\n" + DELIMITER + rest, DELIMITER, k)
  {
    var text := lead + body + "\n" + DELIMITER + rest;
    var n := |lead| + |body|;
    assert text[n] == '\n';
    if k + |DELIMITER| > n {
      assert text[k..k + |DELIMITER|][n - k] == '\n' != DELIMITER[n - k];
    } else if k < |lead| {
      assert text[k..k + |DELIMITER|][0] == '\n' != DELIMITER[0];
    } else {
      var j := k - |lead|;
      assert !OccursAt(body, DELIMITER, j);
      assert body[j..j + |DELIMITER|] == text[k..k + |DELIMITER|];
    }
  }

  lemma EmptyTail(tail: string)
    requires tail == "" || tail == "\n"
    ensures Bodies(Split(tail, DELIMITER)) == []
  {
    assert forall k :: !OccursAt(tail, DELIMITER, k);
    SplitNone(tail, DELIMITER);
    StripAllBlank(tail, Blank);
    assert forall k :: !OccursAt("", MARK, k);
    assert Bodies([tail]) == Bodies([tail][1..]);
  }

  lemma BodyNotEmpty(body: string)
    requires Contains(body, MARK)
    ensures body != ""
  {
  }

  lemma SplitFirstBody(lead: string, body: string, rest: string)
    requires lead == "" || lead == "\n"
    requires IsBody(body)
    ensures Split(lead + body + "\n" + DELIMITER + rest, DELIMITER) == [lead + body + "\n"] + Split(rest, DELIMITER)
    ensures Strip(lead + body + "\n", Blank) == body
  {
    var head := lead + body + "\n";
    forall k | 0 <= k < |head|
      ensures !OccursAt(head + DELIMITER + rest, DELIMITER, k)
    {
      NoEarlyDelimiter(lead, body, rest, k);
    }
    SplitHead(head, DELIMITER, rest);
    BodyNotEmpty(body);
    StripPadded(lead, body, "\n", Blank);
  }

  lemma BodiesCons(chunk: string, chunks: seq<string>)
    requires Contains(Strip(chunk, Blank), MARK)
    ensures Bodies([chunk] + chunks) == [Strip(chunk, Blank)] + Bodies(chunks)
  {
  }

  lemma {:induction false} BodiesOfRendered(lead: string, bodies: seq<string>, tail: string)
    requires lead == "" || lead == "\n"
    requires tail == "" || tail == "\n"
    requires AllBodies(bodies)
    ensures Bodies(Split(Rendered(lead, bodies, tail), DELIMITER)) == bodies
    decreases |bodies|
  {
    if bodies == [] {
      EmptyTail(tail);
    } else {
      var rest := Rendered("\n", bodies[1..], tail);
      SplitFirstBody(lead, bodies[0], rest);
      BodiesCons(lead + bodies[0] + "\n", Split(rest, DELIMITER));
      BodiesOfRendered("\n", bodies[1..], tail);
    }
  }

  lemma {:induction false} ConcatRendered(lead: string, bodies: seq<string>)
    requires bodies != []
    ensures lead + Concat(Blocks(bodies)) == Rendered(lead, bodies, "\n")
    decreases |bodies|
  {
    assert Blocks(bodies)[1..] == Blocks(bodies[1..]);
    if |bodies| == 1 {
      assert Concat(Blocks(bodies)[1..]) == "";
      assert Rendered("\n", bodies[1..], "\n") == "\n";
    } else {
      ConcatRendered("\n", bodies[1..]);
      calc {
        lead + Concat(Blocks(bodies));
        lead + (bodies[0] + "\n" + DELIMITER + "\n" + Concat(Blocks(bodies[1..])));
        lead + bodies[0] + "\n" + DELIMITER + ("\n" + Concat(Blocks(bodies[1..])));
        Rendered(lead, bodies, "\n");
      }
    }
  }

  /** Concatenating the pieces of any text and splitting again gives the same pieces. */
  lemma SplitStable(pem: string)
    ensures SplitPemBundle(Concat(SplitPemBundle(pem))) == SplitPemBundle(pem)
  {
    BodiesOfText(pem);
    var bodies := Bodies(Split(pem, DELIMITER));
    if bodies == [] {
      EmptyTail("");
    } else {
      ConcatRendered("", bodies);
      assert "" + Concat(Blocks(bodies)) == Concat(Blocks(bodies));
      BodiesOfRendered("", bodies, "\n");
    }
  }

  // ----- Splitting the cached blob -----

  function Ended(bodies: seq<string>): seq<string>
  {
    seq(|bodies|, i requires 0 <= i < |bodies| => bodies[i] + "\n" + DELIMITER)
  }

  lemma StrippedBlock(body: string)
    requires IsBody(body)
    ensures Strip(Block(body), Blank) == body + "\n" + DELIMITER
  {
    var s := body + "\n" + DELIMITER;
    assert "" + s + "\n" == Block(body);
    BodyNotEmpty(body);
    StripPadded("", s, "\n", Blank);
  }

  lemma {:induction false} JoinRendered(lead: string, bodies: seq<string>)
    requires bodies != []
    ensures lead + Join("\n", Ended(bodies)) == Rendered(lead, bodies, "")
    decreases |bodies|
  {
    assert Ended(bodies)[1..] == Ended(bodies[1..]);
    if |bodies| == 1 {
      assert Rendered("\n", bodies[1..], "") == "";
    } else {
      JoinRendered("\n", bodies[1..]);
      calc {
        lead + Join("\n", Ended(bodies));
        lead + (bodies[0] + "\n" + DELIMITER + "\n" + Join("\n", Ended(bodies[1..])));
        lead + bodies[0] + "\n" + DELIMITER + ("\n" + Join("\n", Ended(bodies[1..])));
        Rendered(lead, bodies, "");
      }
    }
  }

  lemma {:induction false} BodiesOfBlocks(pems: seq<string>) returns (bodies: seq<string>)
    requires AllBlocks(pems)
    ensures AllBodies(bodies) && pems == Blocks(bodies)
  {
    if pems == [] {
      bodies := [];
    } else {
      var last := pems[|pems| - 1];
      var body :| IsBody(body) && last == Block(body);
      var init := BodiesOfBlocks(pems[..|pems| - 1]);
      bodies := init + [body];
    }
  }

  lemma {:induction false} RenderedTail(lead: string, bodies: seq<string>)
    ensures Rendered(lead, bodies, "") + "\n" == Rendered(lead, bodies, "\n")
    decreases |bodies|
  {
    if bodies != [] {
      RenderedTail("\n", bodies[1..]);
      assert lead + bodies[0] + "\n" + DELIMITER + Rendered("\n", bodies[1..], "") + "\n" ==
             lead + bodies[0] + "\n" + DELIMITER + (Rendered("\n", bodies[1..], "") + "\n");
    }
  }

  lemma StrippedBlocks(bodies: seq<string>)
    requires AllBodies(bodies)
    ensures Stripped(Blocks(bodies)) == Ended(bodies)
  {
    forall i | 0 <= i < |bodies|
      ensures Strip(Blocks(bodies)[i], Blank) == Ended(bodies)[i]
    {
      StrippedBlock(bodies[i]);
    }
  }

  /** The cached text is the stored certificates one after the other, without the last line break. */
  lemma BlobExact(pems: seq<string>)
    requires AllBlocks(pems)
    ensures if pems == [] then Blob(pems) == "" else Blob(pems) + "\n" == Concat(pems)
  {
    var bodies := BodiesOfBlocks(pems);
    if pems != [] {
      StrippedBlocks(bodies);
      JoinRendered("", bodies);
      ConcatRendered("", bodies);
      RenderedTail("", bodies);
      assert "" + Join("\n", Ended(bodies)) == Join("\n", Ended(bodies));
      assert "" + Concat(pems) == Concat(pems);
    }
  }

  /** The cached text holds exactly the listed certificates, in that order. */
  lemma BlobSplits(pems: seq<string>)
    requires AllBlocks(pems)
    ensures SplitPemBundle(Blob(pems)) == pems
  {
    var bodies := BodiesOfBlocks(pems);
    if bodies == [] {
      EmptyTail("");
      assert Blob([]) == "";
    } else {
      StrippedBlocks(bodies);
      JoinRendered("", bodies);
      assert "" + Join("\n", Ended(bodies)) == Join("\n", Ended(bodies));
      BodiesOfRendered("", bodies, "");
    }
  }
}
