/**
 The `trusted_ca_certs` table and the cached text that outbound TLS reads.

 Certificate parsing is library code: it enters as a function from PEM text to the parsed
 certificate, `None` standing for a text the library rejects. `stamp(i)` is the i-th reading of the
 clock within one call.
 */
module TrustStore {
  import opened Wrappers
  import opened PemBundle

  datatype ParsedCert = ParsedCert(basicConstraintsCa: Option<bool>, fingerprint: string, subject: string,
                                   issuer: string)

  datatype TrustError = NoCertificates | InvalidPem | NotACa | Duplicate | IntegrityError

  datatype TrustedCa = TrustedCa(
    id: nat, caption: Option<string>, pem: string, cert: ParsedCert,
    enabled: bool, addedBy: nat, addedAt: int)

  type Parser = string -> Option<ParsedCert>

  function Label(caption: Option<string>): Option<string>
  {
    if caption == Some("") then None else caption
  }

  // ----- Which blocks of a bundle are stored -----

  function BlockError(block: string, parse: Parser): Option<TrustError>
  {
    match parse(block)
    case None => Some(InvalidPem)
    case Some(cert) => if cert.basicConstraintsCa == Some(true) then None else Some(NotACa)
  }

  /** The first complaint among the first n blocks. */
  function FirstError(blocks: seq<string>, parse: Parser, n: nat): Option<TrustError>
    requires n <= |blocks|
  {
    if n == 0 then None
    else if FirstError(blocks, parse, n - 1).Some? then FirstError(blocks, parse, n - 1)
    else BlockError(blocks[n - 1], parse)
  }

  function Fingerprint(block: string, parse: Parser): string
  {
    match parse(block)
    case None => ""
    case Some(cert) => cert.fingerprint
  }

  /** Block i brings a fingerprint that neither the table nor an earlier block has. */
  predicate IsNew(blocks: seq<string>, parse: Parser, stored: set<string>, i: nat)
    requires i < |blocks|
  {
    && Fingerprint(blocks[i], parse) !in stored
    && forall j :: 0 <= j < i ==> Fingerprint(blocks[j], parse) != Fingerprint(blocks[i], parse)
  }

  /** The new blocks among the first n, in bundle order. */
  function NewBlocks(blocks: seq<string>, parse: Parser, stored: set<string>, n: nat): seq<nat>
    requires n <= |blocks|
  {
    if n == 0 then []
    else
      NewBlocks(blocks, parse, stored, n - 1) + if IsNew(blocks, parse, stored, n - 1) then [n - 1] else []
  }

  /** The row for one block; SQLite numbers new rows upwards from the largest id in use. */
  function NewRow(block: string, parse: Parser, id: nat, caption: Option<string>, actor: nat, now: int): TrustedCa
    requires BlockError(block, parse) == None
  {
    TrustedCa(id, Label(caption), block, parse(block).value, true, actor, now)
  }

  /** The rows added for the new blocks among the first n. */
  function NewRows(
      blocks: seq<string>, parse: Parser, rows: seq<TrustedCa>, n: nat,
      caption: Option<string>, actor: nat, stamp: nat -> int): seq<TrustedCa>
    requires n <= |blocks| && FirstError(blocks, parse, n) == None
  {
    if n == 0 then []
    else
      var before := NewRows(blocks, parse, rows, n - 1, caption, actor, stamp);
      if IsNew(blocks, parse, Fingerprints(rows), n - 1)
      then before + [NewRow(blocks[n - 1], parse, MaxId(rows) + 1 + |before|, caption, actor, stamp(n - 1))]
      else before
  }

  /** The commit refuses the rows of an actor who is not a stored user. */
  function AddOutcome(
      rows: seq<TrustedCa>, pem: string, caption: Option<string>, actor: nat, actorStored: bool, parse: Parser,
      stamp: nat -> int)
    : Result<seq<TrustedCa>, TrustError>
  {
    var blocks := SplitPemBundle(pem);
    if blocks == [] then Err(NoCertificates)
    else
      match FirstError(blocks, parse, |blocks|)
      case Some(error) => Err(error)
      case None =>
        var added := NewRows(blocks, parse, rows, |blocks|, caption, actor, stamp);
        if added == [] then Err(Duplicate) else if !actorStored then Err(IntegrityError) else Ok(added)
  }

  function MaxId(rows: seq<TrustedCa>): (m: nat)
    ensures forall i :: 0 <= i < |rows| ==> rows[i].id <= m
  {
    if rows == [] then 0
    else
      var m := MaxId(rows[..|rows| - 1]);
      if rows[|rows| - 1].id > m then rows[|rows| - 1].id else m
  }

  function Fingerprints(rows: seq<TrustedCa>): set<string>
  {
    set row | row in rows :: row.cert.fingerprint
  }

  // ----- Queries and updates on the table -----

  predicate NewestFirst(rows: seq<TrustedCa>)
  {
    forall i, j :: 0 <= i < j < |rows| ==> rows[i].addedAt >= rows[j].addedAt
  }

  function Pems(rows: seq<TrustedCa>): (pems: seq<string>)
    ensures |pems| == |rows| && forall i :: 0 <= i < |rows| ==> pems[i] == rows[i].pem
  {
    seq(|rows|, i requires 0 <= i < |rows| => rows[i].pem)
  }

  function IndexOf(rows: seq<TrustedCa>, id: nat): (r: Option<nat>)
    ensures r.Some? ==> r.value < |rows| && rows[r.value].id == id
    ensures r.None? ==> forall i :: 0 <= i < |rows| ==> rows[i].id != id
  {
    if rows == [] then None
    else if rows[|rows| - 1].id == id then Some(|rows| - 1)
    else IndexOf(rows[..|rows| - 1], id)
  }

  // ----- Table invariant -----

  /** Ids and fingerprints are unique, and every row has the certificate of its text. */
  ghost predicate TableOk(rows: seq<TrustedCa>, parse: Parser)
  {
    && (forall i, j :: 0 <= i < j < |rows| ==>
          rows[i].id != rows[j].id && rows[i].cert.fingerprint != rows[j].cert.fingerprint)
    && (forall i :: 0 <= i < |rows| ==> IsBlock(rows[i].pem) && parse(rows[i].pem) == Some(rows[i].cert))
  }

  /** The enabled rows, each once, newest first. */
  ghost predicate ShowsEnabled(order: seq<TrustedCa>, rows: seq<TrustedCa>)
  {
    && (forall i, j :: 0 <= i < j < |order| ==> order[i].id != order[j].id && order[i].addedAt >= order[j].addedAt)
    && (forall row :: row in order <==> row in rows && row.enabled)
  }

  /** Splitting `blob` gives exactly the enabled certificates, newest first. */
  ghost predicate BlobShows(blob: string, rows: seq<TrustedCa>)
  {
    exists order: seq<TrustedCa> ::
      && ShowsEnabled(order, rows)
      && |SplitPemBundle(blob)| == |order|
      && forall i :: 0 <= i < |order| ==> SplitPemBundle(blob)[i] == order[i].pem
  }

  /** A certificate is in the cached text exactly if its row is enabled. */
  lemma ShownExactly(blob: string, rows: seq<TrustedCa>, parse: Parser, row: TrustedCa)
    requires TableOk(rows, parse) && BlobShows(blob, rows) && row in rows
    ensures row.pem in SplitPemBundle(blob) <==> row.enabled
  {
    hide SplitPemBundle, IsBlock;
    var order: seq<TrustedCa> :|
      && ShowsEnabled(order, rows)
      && |SplitPemBundle(blob)| == |order|
      && forall i :: 0 <= i < |order| ==> SplitPemBundle(blob)[i] == order[i].pem;
    if row.pem in SplitPemBundle(blob) {
      var i :| 0 <= i < |order| && SplitPemBundle(blob)[i] == row.pem;
      SameText(rows, parse, order[i], row);
    }
    if row.enabled {
      var i :| 0 <= i < |order| && order[i] == row;
      assert SplitPemBundle(blob)[i] == row.pem;
    }
  }

  /** Two rows of the same text are the same row. */
  lemma SameText(rows: seq<TrustedCa>, parse: Parser, a: TrustedCa, b: TrustedCa)
    requires TableOk(rows, parse) && a in rows && b in rows && a.pem == b.pem
    ensures a == b
  {
    hide IsBlock;
  }

  /** A text that no row has is not in the cached text. */
  lemma GoneFromText(blob: string, rows: seq<TrustedCa>, pem: string)
    requires BlobShows(blob, rows) && forall row :: row in rows ==> row.pem != pem
    ensures pem !in SplitPemBundle(blob)
  {
    hide SplitPemBundle;
  }

  lemma {:induction false} FirstErrorNone(blocks: seq<string>, parse: Parser, n: nat)
    requires n <= |blocks|
    ensures FirstError(blocks, parse, n) == None <==> forall i :: 0 <= i < n ==> BlockError(blocks[i], parse) == None
  {
    if n > 0 {
      FirstErrorNone(blocks, parse, n - 1);
    }
  }

  lemma {:induction false} NewBlocksExact(blocks: seq<string>, parse: Parser, stored: set<string>, n: nat)
    requires n <= |blocks|
    ensures forall k: nat :: k in NewBlocks(blocks, parse, stored, n) <==> k < n && IsNew(blocks, parse, stored, k)
    ensures Ascending(NewBlocks(blocks, parse, stored, n))
  {
    if n > 0 {
      NewBlocksExact(blocks, parse, stored, n - 1);
      var before := NewBlocks(blocks, parse, stored, n - 1);
      var picked := NewBlocks(blocks, parse, stored, n);
      forall k | 0 <= k < |before|
        ensures before[k] < n - 1
      {
        assert before[k] in before;
      }
      assert forall k: nat :: k in picked <==> k in before || (k == n - 1 && IsNew(blocks, parse, stored, n - 1));
    }
  }

  /** The rows are those of the new blocks, in bundle order, with ids above all present ones. */
  lemma {:induction false} NewRowsExact(
      blocks: seq<string>, parse: Parser, rows: seq<TrustedCa>, n: nat,
      caption: Option<string>, actor: nat, stamp: nat -> int)
    requires n <= |blocks| && FirstError(blocks, parse, n) == None
    ensures
      var picked := NewBlocks(blocks, parse, Fingerprints(rows), n);
      var added := NewRows(blocks, parse, rows, n, caption, actor, stamp);
      && |added| == |picked|
      && forall k :: 0 <= k < |added| ==>
           && picked[k] < n
           && BlockError(blocks[picked[k]], parse) == None
           && IsNew(blocks, parse, Fingerprints(rows), picked[k])
           && added[k] == NewRow(blocks[picked[k]], parse, MaxId(rows) + 1 + k, caption, actor, stamp(picked[k]))
  {
    if n > 0 {
      NewRowsExact(blocks, parse, rows, n - 1, caption, actor, stamp);
    }
  }

  /** The library reads the block, as a CA certificate. */
  predicate IsCa(block: string, parse: Parser)
  {
    parse(block).Some? && parse(block).value.basicConstraintsCa == Some(true)
  }

  /** Block i is a certificate that is neither in the table nor earlier in the bundle. */
  predicate Unknown(rows: seq<TrustedCa>, blocks: seq<string>, parse: Parser, i: nat)
  {
    && i < |blocks| && parse(blocks[i]).Some?
    && (forall row :: row in rows ==> row.cert.fingerprint != parse(blocks[i]).value.fingerprint)
    && (forall j :: 0 <= j < i && parse(blocks[j]).Some? ==>
          parse(blocks[j]).value.fingerprint != parse(blocks[i]).value.fingerprint)
  }

  /** Why a bundle is refused: the first bad block decides, before anything else is looked at. */
  predicate AddRefused(
      rows: seq<TrustedCa>, blocks: seq<string>, actorStored: bool, parse: Parser, error: TrustError)
  {
    if blocks == [] then error == NoCertificates
    else if exists i :: 0 <= i < |blocks| && !IsCa(blocks[i], parse) then
      exists i :: 0 <= i < |blocks| && !IsCa(blocks[i], parse)
               && (forall j :: 0 <= j < i ==> IsCa(blocks[j], parse))
               && error == if parse(blocks[i]).None? then InvalidPem else NotACa
    else if forall i :: 0 <= i < |blocks| ==> !Unknown(rows, blocks, parse, i) then error == Duplicate
    else !actorStored && error == IntegrityError
  }

  /** The row of one block, as it is first stored. */
  predicate StoredAs(
      row: TrustedCa, block: string, parse: Parser, caption: Option<string>, actor: nat, now: int)
  {
    && row.pem == block && Some(row.cert) == parse(block)
    && row.enabled && row.addedBy == actor && row.addedAt == now
    && (if caption.Some? && |caption.value| > 0 then row.caption == caption else row.caption == None)
  }

  /** Ids count on from the largest in use. */
  predicate NumberedOn(rows: seq<TrustedCa>, added: seq<TrustedCa>)
  {
    && (forall row, k :: row in rows && 0 <= k < |added| ==> row.id < added[k].id)
    && (forall k :: 0 < k < |added| ==> added[k].id == added[0].id + k)
    && (added != [] ==> added[0].id == 1 || exists row :: row in rows && added[0].id == row.id + 1)
  }

  /**
   A bundle is stored whole or not at all: refused exactly when some block is not a CA certificate, nothing
   is new or the actor is not stored, and otherwise one enabled row for each first occurrence of a
   fingerprint the table lacks.
   */
  lemma AddAllOrNothing(
      rows: seq<TrustedCa>, pem: string, caption: Option<string>, actor: nat, actorStored: bool, parse: Parser,
      stamp: nat -> int)
    ensures
      var blocks := SplitPemBundle(pem);
      var r := AddOutcome(rows, pem, caption, actor, actorStored, parse, stamp);
      var picked := NewBlocks(blocks, parse, Fingerprints(rows), |blocks|);
      && (r.Ok? <==>
            && (forall i :: 0 <= i < |blocks| ==> IsCa(blocks[i], parse))
            && actorStored && exists i :: 0 <= i < |blocks| && Unknown(rows, blocks, parse, i))
      && (r.Err? ==> AddRefused(rows, blocks, actorStored, parse, r.error))
      && (r.Ok? ==>
            && |r.value| == |picked| && NumberedOn(rows, r.value)
            && (forall k: nat :: k in picked <==> Unknown(rows, blocks, parse, k))
            && Ascending(picked)
            && (forall k :: 0 <= k < |picked| ==>
                  && picked[k] < |blocks|
                  && StoredAs(r.value[k], blocks[picked[k]], parse, caption, actor, stamp(picked[k]))))
  {
    var blocks := SplitPemBundle(pem);
    var stored := Fingerprints(rows);
    hide SplitPemBundle, Fingerprints, NewRows, NewBlocks, MaxId, IsNew, NewRow;
    FirstErrorNone(blocks, parse, |blocks|);
    NewBlocksExact(blocks, parse, stored, |blocks|);
    if FirstError(blocks, parse, |blocks|) == None {
      forall i: nat | i < |blocks|
        ensures IsNew(blocks, parse, stored, i) <==> Unknown(rows, blocks, parse, i)
      {
        NewMeansUnknown(rows, blocks, parse, i);
      }
      NewRowsExact(blocks, parse, rows, |blocks|, caption, actor, stamp);
      RowsNumbered(rows, blocks, parse, caption, actor, stamp);
      var picked := NewBlocks(blocks, parse, stored, |blocks|);
      var added := NewRows(blocks, parse, rows, |blocks|, caption, actor, stamp);
      forall k | 0 <= k < |picked|
        ensures StoredAs(added[k], blocks[picked[k]], parse, caption, actor, stamp(picked[k]))
      {
        NewRowFields(blocks[picked[k]], parse, MaxId(rows) + 1 + k, caption, actor, stamp(picked[k]));
      }
      if picked != [] {
        assert picked[0] in picked;
      }
    } else {
      FirstBad(blocks, parse, |blocks|);
    }
  }

  lemma AddedEnabled(
      rows: seq<TrustedCa>, pem: string, caption: Option<string>, actor: nat, actorStored: bool, parse: Parser,
      stamp: nat -> int)
    ensures
      var r := AddOutcome(rows, pem, caption, actor, actorStored, parse, stamp);
      r.Ok? ==> forall row :: row in r.value ==> row.enabled
  {
    hide AddOutcome, SplitPemBundle, NewBlocks, Unknown, NumberedOn;
    AddAllOrNothing(rows, pem, caption, actor, actorStored, parse, stamp);
  }

  lemma NewMeansUnknown(rows: seq<TrustedCa>, blocks: seq<string>, parse: Parser, i: nat)
    requires i < |blocks| && forall j :: 0 <= j < |blocks| ==> BlockError(blocks[j], parse) == None
    ensures IsNew(blocks, parse, Fingerprints(rows), i) <==> Unknown(rows, blocks, parse, i)
  {
  }

  lemma NewRowFields(block: string, parse: Parser, id: nat, caption: Option<string>, actor: nat, now: int)
    requires BlockError(block, parse) == None
    ensures StoredAs(NewRow(block, parse, id, caption, actor, now), block, parse, caption, actor, now)
    ensures NewRow(block, parse, id, caption, actor, now).id == id
  {
  }

  lemma {:induction false} LargestId(rows: seq<TrustedCa>)
    ensures MaxId(rows) == 0 || exists row :: row in rows && row.id == MaxId(rows)
  {
    if rows != [] {
      LargestId(rows[..|rows| - 1]);
    }
  }

  lemma RowsNumbered(
      rows: seq<TrustedCa>, blocks: seq<string>, parse: Parser, caption: Option<string>, actor: nat,
      stamp: nat -> int)
    requires FirstError(blocks, parse, |blocks|) == None
    ensures NumberedOn(rows, NewRows(blocks, parse, rows, |blocks|, caption, actor, stamp))
  {
    hide NewRows, NewBlocks, MaxId, FirstError, IsNew;
    NewRowsExact(blocks, parse, rows, |blocks|, caption, actor, stamp);
    LargestId(rows);
  }

  lemma {:induction false} FirstBad(blocks: seq<string>, parse: Parser, n: nat)
    requires n <= |blocks| && FirstError(blocks, parse, n).Some?
    ensures exists i :: 0 <= i < n && !IsCa(blocks[i], parse)
                && (forall j :: 0 <= j < i ==> IsCa(blocks[j], parse))
                && FirstError(blocks, parse, n) ==
                   Some(if parse(blocks[i]).None? then InvalidPem else NotACa)
  {
    if FirstError(blocks, parse, n - 1).Some? {
      FirstBad(blocks, parse, n - 1);
    } else {
      FirstErrorNone(blocks, parse, n - 1);
      assert !IsCa(blocks[n - 1], parse);
    }
  }

  /** Rows that can join the table. */
  ghost predicate Joinable(rows: seq<TrustedCa>, added: seq<TrustedCa>, parse: Parser)
  {
    && (forall k :: 0 <= k < |added| ==>
          && added[k].id == MaxId(rows) + 1 + k
          && added[k].cert.fingerprint !in Fingerprints(rows)
          && IsBlock(added[k].pem) && parse(added[k].pem) == Some(added[k].cert))
    && (forall k, l :: 0 <= k < l < |added| ==> added[k].cert.fingerprint != added[l].cert.fingerprint)
  }

  lemma JoinKeepsTable(rows: seq<TrustedCa>, added: seq<TrustedCa>, parse: Parser)
    requires TableOk(rows, parse) && Joinable(rows, added, parse)
    ensures TableOk(rows + added, parse)
  {
    hide IsBlock;
  }

  lemma AddedJoinable(
      rows: seq<TrustedCa>, blocks: seq<string>, caption: Option<string>, actor: nat, parse: Parser, stamp: nat -> int)
    requires FirstError(blocks, parse, |blocks|) == None && forall i :: 0 <= i < |blocks| ==> IsBlock(blocks[i])
    ensures Joinable(rows, NewRows(blocks, parse, rows, |blocks|, caption, actor, stamp), parse)
  {
    hide FirstError, NewBlocks, NewRows, MaxId, IsBlock;
    var added := NewRows(blocks, parse, rows, |blocks|, caption, actor, stamp);
    var picked := NewBlocks(blocks, parse, Fingerprints(rows), |blocks|);
    NewRowsExact(blocks, parse, rows, |blocks|, caption, actor, stamp);
    NewBlocksExact(blocks, parse, Fingerprints(rows), |blocks|);
    hide Fingerprints;
    forall k, l | 0 <= k < l < |added|
      ensures added[k].cert.fingerprint != added[l].cert.fingerprint
    {
      assert IsNew(blocks, parse, Fingerprints(rows), picked[l]);
      assert picked[k] < picked[l];
    }
  }

  lemma AddKeepsTable(
      rows: seq<TrustedCa>, pem: string, caption: Option<string>, actor: nat, actorStored: bool, parse: Parser,
      stamp: nat -> int)
    requires TableOk(rows, parse)
    requires AddOutcome(rows, pem, caption, actor, actorStored, parse, stamp).Ok?
    ensures TableOk(rows + AddOutcome(rows, pem, caption, actor, actorStored, parse, stamp).value, parse)
  {
    hide SplitPemBundle, FirstError, NewRows, TableOk, Joinable, IsBlock;
    SplitGivesBlocks(pem);
    AddedJoinable(rows, SplitPemBundle(pem), caption, actor, parse, stamp);
    JoinKeepsTable(rows, AddOutcome(rows, pem, caption, actor, actorStored, parse, stamp).value, parse);
  }

  lemma RemoveKeepsTable(rows: seq<TrustedCa>, parse: Parser, i: nat)
    requires TableOk(rows, parse) && i < |rows|
    ensures TableOk(rows[..i] + rows[i + 1..], parse)
    ensures forall row :: row in rows[..i] + rows[i + 1..] <==> row in rows && row.id != rows[i].id
  {
    hide IsBlock;
  }

  lemma BlobShowsOrder(order: seq<TrustedCa>, rows: seq<TrustedCa>, parse: Parser)
    requires TableOk(rows, parse) && ShowsEnabled(order, rows)
    ensures BlobShows(Blob(Pems(order)), rows)
  {
    hide SplitPemBundle, Blob;
    forall i | 0 <= i < |order|
      ensures IsBlock(order[i].pem)
    {
      assert order[i] in rows;
    }
    BlobSplits(Pems(order));
  }

  // ----- The service -----

  /** The checking loop of adding a bundle: nothing is committed while blocks are being checked. */
  method SelectNew(
      rows: seq<TrustedCa>, blocks: seq<string>, caption: Option<string>, actor: nat, parse: Parser, stamp: nat -> int)
    returns (r: Result<seq<TrustedCa>, TrustError>)
    ensures FirstError(blocks, parse, |blocks|).Some? ==> r == Err(FirstError(blocks, parse, |blocks|).value)
    ensures FirstError(blocks, parse, |blocks|).None? ==>
              r == Ok(NewRows(blocks, parse, rows, |blocks|, caption, actor, stamp))
  {
    hide IsNew, MaxId, Fingerprints;
    var existing := Fingerprints(rows);
    var added: seq<TrustedCa> := [];
    for i := 0 to |blocks|
      invariant FirstError(blocks, parse, i) == None
      invariant existing == Fingerprints(rows) + Seen(blocks, parse, i)
      invariant added == NewRows(blocks, parse, rows, i, caption, actor, stamp)
    {
      FirstErrorStays(blocks, parse, i + 1, |blocks|);
      var parsed := parse(blocks[i]);
      if parsed.None? {
        return Err(InvalidPem);
      }
      if parsed.value.basicConstraintsCa != Some(true) {
        return Err(NotACa);
      }
      SeenNew(blocks, parse, Fingerprints(rows), i);
      if parsed.value.fingerprint !in existing {
        existing := existing + {parsed.value.fingerprint};
        added := added + [NewRow(blocks[i], parse, MaxId(rows) + 1 + |added|, caption, actor, stamp(i))];
      }
    }
    r := Ok(added);
  }

  class TrustService {
    const parse: Parser           // the certificate library
    var rows: seq<TrustedCa>      // the committed table
    var cachedPemBlob: string     // process memory

    ghost predicate Valid()
      reads this
    {
      TableOk(rows, parse)
    }

    /** What outbound TLS trusts is what the table says. */
    ghost predicate Current()
      reads this
    {
      BlobShows(cachedPemBlob, rows)
    }

    constructor (parse: Parser)
      ensures Valid() && this.parse == parse && rows == [] && cachedPemBlob == ""
    {
      this.parse := parse;
      rows, cachedPemBlob := [], "";
    }

    method LoadTrustedCas() returns (order: seq<TrustedCa>)
      requires Valid()
      ensures forall i, j :: 0 <= i < j < |order| ==> order[i].addedAt >= order[j].addedAt
      ensures forall i, j :: 0 <= i < j < |order| ==> order[i].id != order[j].id
      ensures forall row :: row in order <==> row in rows && row.enabled
    {
      hide IsBlock, Inserted;
      order := [];
      for i := 0 to |rows|
        invariant NewestFirst(order) && ShowsEnabled(order, rows[..i])
      {
        ShownNext(order, rows, i);
        if rows[i].enabled {
          order := Inserted(order, rows[i]);
        }
      }
      assert rows[..|rows|] == rows;
    }

    method RefreshCache()
      requires Valid()
      modifies this`cachedPemBlob
      ensures Current()
    {
      var order := LoadTrustedCas();
      cachedPemBlob := Blob(Pems(order));
      BlobShowsOrder(order, rows, parse);
    }

    /** A new process starts with an empty cache and fills it from the table. */
    method Startup()
      requires Valid()
      modifies this`cachedPemBlob
      ensures Current()
    {
      cachedPemBlob := "";
      RefreshCache();
    }

    method AddTrustedCas(pem: string, caption: Option<string>, actor: nat, actorStored: bool, stamp: nat -> int)
      returns (r: Result<seq<TrustedCa>, TrustError>)
      requires Valid()
      modifies this
      ensures Valid()
      ensures r == AddOutcome(old(rows), pem, caption, actor, actorStored, parse, stamp)
      ensures r.Ok? ==> rows == old(rows) + r.value && Current()
      ensures r.Ok? ==> forall row :: row in r.value ==> row.pem in SplitPemBundle(cachedPemBlob)
      ensures r.Err? ==> rows == old(rows) && cachedPemBlob == old(cachedPemBlob)
    {
      var blocks := SplitPemBundle(pem);
      if blocks == [] {
        return Err(NoCertificates);
      }
      r := SelectNew(rows, blocks, caption, actor, parse, stamp);
      if r.Ok? {
        if r.value == [] {
          return Err(Duplicate);
        }
        if !actorStored {
          return Err(IntegrityError);
        }
        AddKeepsTable(rows, pem, caption, actor, actorStored, parse, stamp);
        AddedEnabled(rows, pem, caption, actor, actorStored, parse, stamp);
        rows := rows + r.value;
        RefreshCache();
        hide SplitPemBundle, BlobShows, TableOk;
        forall row | row in r.value
          ensures row.pem in SplitPemBundle(cachedPemBlob)
        {
          ShownExactly(cachedPemBlob, rows, parse, row);
        }
      }
    }

    /** Options left out are None; an empty caption stands for none. */
    method UpdateTrustedCa(id: nat, enabled: Option<bool>, caption: Option<string>) returns (r: Option<TrustedCa>)
      requires Valid()
      modifies this
      ensures Valid() && |rows| == |old(rows)|
      ensures r.Some? <==> exists i :: 0 <= i < |old(rows)| && old(rows)[i].id == id
      ensures forall i :: 0 <= i < |rows| && old(rows)[i].id != id ==> rows[i] == old(rows)[i]
      ensures forall i :: 0 <= i < |rows| && old(rows)[i].id == id ==>
                && r == Some(rows[i])
                && rows[i] == old(rows)[i].(enabled := rows[i].enabled, caption := rows[i].caption)
                && rows[i].enabled == (if enabled.Some? then enabled.value else old(rows)[i].enabled)
                && rows[i].caption == (if caption.None? then old(rows)[i].caption
                                       else if caption.value == "" then None
                                       else caption)
      ensures r.Some? ==> Current() && (r.value.pem in SplitPemBundle(cachedPemBlob) <==> r.value.enabled)
      ensures r.None? ==> cachedPemBlob == old(cachedPemBlob)
    {
      hide IsBlock, SplitPemBundle, BlobShows;
      var found := IndexOf(rows, id);
      if found.None? {
        return None;
      }
      var row := rows[found.value];
      if enabled.Some? {
        row := row.(enabled := enabled.value);
      }
      if caption.Some? {
        row := row.(caption := Label(caption));
      }
      rows := rows[found.value := row];
      RefreshCache();
      assert rows[found.value] == row;
      ShownExactly(cachedPemBlob, rows, parse, row);
      r := Some(row);
    }

    method DeleteTrustedCa(id: nat) returns (deleted: bool)
      requires Valid()
      modifies this
      ensures Valid()
      ensures deleted <==> exists i :: 0 <= i < |old(rows)| && old(rows)[i].id == id
      ensures forall i :: 0 <= i < |old(rows)| && old(rows)[i].id == id ==>
                && rows == old(rows)[..i] + old(rows)[i + 1..] && Current()
                && old(rows)[i].pem !in SplitPemBundle(cachedPemBlob)
      ensures forall row :: row in rows <==> row in old(rows) && row.id != id
      ensures !deleted ==> rows == old(rows) && cachedPemBlob == old(cachedPemBlob)
    {
      hide IsBlock, SplitPemBundle, BlobShows;
      var found := IndexOf(rows, id);
      if found.None? {
        return false;
      }
      var i := found.value;
      RemoveKeepsTable(rows, parse, i);
      forall row | row in rows && row.id != id
        ensures row.pem != rows[i].pem
      {
        if row.pem == rows[i].pem {
          SameText(rows, parse, row, rows[i]);
        }
      }
      ghost var gone := rows[i];
      rows := rows[..i] + rows[i + 1..];
      RefreshCache();
      GoneFromText(cachedPemBlob, rows, gone.pem);
      deleted := true;
    }
  }

  // ----- For the loops -----

  function Seen(blocks: seq<string>, parse: Parser, n: nat): set<string>
    requires n <= |blocks|
  {
    if n == 0 then {} else Seen(blocks, parse, n - 1) + {Fingerprint(blocks[n - 1], parse)}
  }

  lemma {:induction false} SeenExact(blocks: seq<string>, parse: Parser, n: nat)
    requires n <= |blocks|
    ensures forall f :: f in Seen(blocks, parse, n) <==> exists j :: 0 <= j < n && Fingerprint(blocks[j], parse) == f
  {
    if n > 0 {
      SeenExact(blocks, parse, n - 1);
      assert Fingerprint(blocks[n - 1], parse) in Seen(blocks, parse, n);
    }
  }

  lemma SeenNew(blocks: seq<string>, parse: Parser, stored: set<string>, i: nat)
    requires i < |blocks|
    ensures IsNew(blocks, parse, stored, i) <==> Fingerprint(blocks[i], parse) !in stored + Seen(blocks, parse, i)
  {
    SeenExact(blocks, parse, i);
  }

  lemma {:induction false} FirstErrorStays(blocks: seq<string>, parse: Parser, n: nat, m: nat)
    requires n <= m <= |blocks|
    ensures FirstError(blocks, parse, n).Some? ==> FirstError(blocks, parse, m) == FirstError(blocks, parse, n)
    decreases m
  {
    if n < m {
      FirstErrorStays(blocks, parse, n, m - 1);
    }
  }

  /** How many rows are at least as new as `row`. */
  function Place(order: seq<TrustedCa>, row: TrustedCa): (p: nat)
    requires NewestFirst(order)
    ensures p <= |order|
    ensures forall i :: 0 <= i < p ==> order[i].addedAt >= row.addedAt
    ensures forall i :: p <= i < |order| ==> order[i].addedAt < row.addedAt
  {
    if order == [] || order[|order| - 1].addedAt >= row.addedAt then |order|
    else Place(order[..|order| - 1], row)
  }

  function Inserted(order: seq<TrustedCa>, row: TrustedCa): (r: seq<TrustedCa>)
    requires NewestFirst(order)
    ensures NewestFirst(r)
  {
    var p := Place(order, row);
    order[..p] + [row] + order[p..]
  }

  lemma InsertedAt(order: seq<TrustedCa>, row: TrustedCa, i: nat)
    requires NewestFirst(order) && i <= |order|
    ensures
      var p := Place(order, row);
      && |Inserted(order, row)| == |order| + 1
      && Inserted(order, row)[i] == if i < p then order[i] else if i == p then row else order[i - 1]
  {
  }

  lemma InsertedHas(order: seq<TrustedCa>, row: TrustedCa, x: TrustedCa)
    requires NewestFirst(order)
    ensures x in Inserted(order, row) <==> x in order || x == row
  {
    var p := Place(order, row);
    assert order == order[..p] + order[p..];
  }

  lemma InsertedDistinct(order: seq<TrustedCa>, row: TrustedCa, i: nat, j: nat)
    requires NewestFirst(order) && i < j < |Inserted(order, row)|
    requires forall k :: 0 <= k < |order| ==> order[k].id != row.id
    requires forall k, l :: 0 <= k < l < |order| ==> order[k].id != order[l].id
    ensures Inserted(order, row)[i].id != Inserted(order, row)[j].id
  {
    hide Inserted, Place, NewestFirst;
    InsertedAt(order, row, 0);
    InsertedAt(order, row, i);
    InsertedAt(order, row, j);
  }

  /** One more row of the table. */
  lemma ShownNext(order: seq<TrustedCa>, rows: seq<TrustedCa>, i: nat)
    requires i < |rows| && forall j, k :: 0 <= j < k < |rows| ==> rows[j].id != rows[k].id
    requires NewestFirst(order) && ShowsEnabled(order, rows[..i])
    ensures ShowsEnabled(if rows[i].enabled then Inserted(order, rows[i]) else order, rows[..i + 1])
  {
    hide Inserted;
    assert rows[..i + 1] == rows[..i] + [rows[i]];
    if rows[i].enabled {
      forall j | 0 <= j < |order|
        ensures order[j].id != rows[i].id
      {
        assert order[j] in rows[..i];
      }
      forall x: TrustedCa
        ensures x in Inserted(order, rows[i]) <==> x in order || x == rows[i]
      {
        InsertedHas(order, rows[i], x);
      }
      forall j: nat, k: nat | j < k < |Inserted(order, rows[i])|
        ensures Inserted(order, rows[i])[j].id != Inserted(order, rows[i])[k].id
      {
        InsertedDistinct(order, rows[i], j, k);
      }
    }
  }
}
