/**
 The append-only event table and its hash chain.  The digest is any function of the hashed
 fields: where a result needs two of them to differ, it names the two hash payloads of the
 tables at hand that would otherwise collide.
 */
module AuditChain {
  import opened Common
  import Json
  import Redaction

  const REDACTION_LABEL := "secret_values_removed"

  /** The hashed columns of an event row, all but the link to the previous row. */
  datatype Content = Content(
    eventId: string, eventType: string, actor: string,
    agentId: Option<string>, planId: Option<string>, targetPath: Option<string>,
    beforeHash: Option<string>, afterHash: Option<string>, backupId: Option<string>,
    result: string, timestamp: string, redaction: string, payload: Json.Value)

  datatype HashPayload = HashPayload(content: Content, previousEventHash: Option<string>)

  type Digest = HashPayload -> string

  /** A stored row.  The schema version is the one column outside the hash. */
  datatype Row = Row(schemaVersion: int, content: Content, previousEventHash: Option<string>, eventHash: string)

  datatype Detail = PreviousHashMismatch | ContentHashMismatch

  datatype TamperFinding = TamperFinding(eventId: string, detail: Detail)

  function Payload(row: Row): HashPayload {
    HashPayload(row.content, row.previousEventHash)
  }

  function Seal(digest: Digest, content: Content, previous: Option<string>): Row {
    Row(1, content, previous, digest(HashPayload(content, previous)))
  }

  /** The hash of the latest row. */
  function Head(rows: seq<Row>, previous: Option<string>): Option<string> {
    if rows == [] then previous else Some(rows[|rows| - 1].eventHash)
  }

  function RowFindings(digest: Digest, row: Row, previous: Option<string>): seq<TamperFinding> {
    (if row.previousEventHash != previous then [TamperFinding(row.content.eventId, PreviousHashMismatch)] else [])
    + (if row.eventHash != digest(Payload(row)) then [TamperFinding(row.content.eventId, ContentHashMismatch)] else [])
  }

  function Findings(digest: Digest, rows: seq<Row>, previous: Option<string>): seq<TamperFinding> {
    if rows == [] then []
    else RowFindings(digest, rows[0], previous) + Findings(digest, rows[1..], Some(rows[0].eventHash))
  }

  predicate Distinct(rows: seq<Row>) {
    forall i, j :: 0 <= i < j < |rows| ==>
      rows[i].content.eventId != rows[j].content.eventId && rows[i].eventHash != rows[j].eventHash
  }

  // ----- Chains in pieces -----

  lemma {:induction false} FindingsOfConcat(digest: Digest, a: seq<Row>, b: seq<Row>, previous: Option<string>)
    ensures Findings(digest, a + b, previous) == Findings(digest, a, previous) + Findings(digest, b, Head(a, previous))
  {
    if a == [] {
      assert a + b == b;
    } else {
      assert (a + b)[1..] == a[1..] + b;
      FindingsOfConcat(digest, a[1..], b, Some(a[0].eventHash));
    }
  }

  lemma FindingsOfOne(digest: Digest, row: Row, previous: Option<string>)
    ensures Findings(digest, [row], previous) == RowFindings(digest, row, previous)
  {
    assert Findings(digest, [row][1..], Some(row.eventHash)) == [];
  }

  /** The findings around row `k`: before it, at it, and after it. */
  lemma FindingsAround(digest: Digest, a: seq<Row>, row: Row, b: seq<Row>)
    ensures Findings(digest, a + [row] + b, None)
         == Findings(digest, a, None) + RowFindings(digest, row, Head(a, None)) + Findings(digest, b, Some(row.eventHash))
  {
    FindingsOfConcat(digest, a + [row], b, None);
    FindingsOfConcat(digest, a, [row], None);
    FindingsOfOne(digest, row, Head(a, None));
  }

  /** Validation finds nothing exactly when every row carries its own hash and its predecessor's. */
  lemma {:induction false} ValidIffLinked(digest: Digest, rows: seq<Row>, previous: Option<string>)
    ensures Findings(digest, rows, previous) == [] <==>
            forall i :: 0 <= i < |rows| ==>
              rows[i].previousEventHash == Head(rows[..i], previous) && rows[i].eventHash == digest(Payload(rows[i]))
  {
    if rows != [] {
      var row, rest := rows[0], rows[1..];
      ValidIffLinked(digest, rest, Some(row.eventHash));
      forall i | 0 <= i < |rest|
        ensures Head(rows[..i + 1], previous) == Head(rest[..i], Some(row.eventHash))
      {
      }
      assert forall i :: 1 <= i < |rows| ==> rows[i] == rest[i - 1];
    }
  }

  lemma SplitAt(digest: Digest, rows: seq<Row>, k: nat)
    requires k < |rows| && Findings(digest, rows, None) == []
    ensures rows == rows[..k] + [rows[k]] + rows[k + 1..]
    ensures Findings(digest, rows[..k], None) == []
    ensures Findings(digest, rows[k + 1..], Some(rows[k].eventHash)) == []
    ensures rows[k].previousEventHash == Head(rows[..k], None) && rows[k].eventHash == digest(Payload(rows[k]))
  {
    var before, after := rows[..k], rows[k + 1..];
    Pieces(rows, k);
    FindingsAround(digest, before, rows[k], after);
    NothingInNothing(Findings(digest, before, None), RowFindings(digest, rows[k], Head(before, None)),
                     Findings(digest, after, Some(rows[k].eventHash)));
  }

  lemma Pieces<T>(s: seq<T>, k: nat)
    requires k < |s|
    ensures s == s[..k] + [s[k]] + s[k + 1..]
  {
  }

  lemma NothingInNothing<T>(a: seq<T>, b: seq<T>, c: seq<T>)
    requires a + b + c == []
    ensures a == b == c == []
  {
    assert |a + b + c| == |a| + |b| + |c|;
  }

  // ----- Commitment -----

  /** Two rows, one of each table, whose different hash payloads have the same digest. */
  predicate Collide(digest: Digest, a: seq<Row>, b: seq<Row>) {
    exists i, j :: 0 <= i < |a| && 0 <= j < |b| && Payload(a[i]) != Payload(b[j]) && digest(Payload(a[i])) == digest(Payload(b[j]))
  }

  predicate SameHistory(a: seq<Row>, b: seq<Row>) {
    |a| == |b| && forall i :: 0 <= i < |a| ==>
      a[i].content == b[i].content && a[i].previousEventHash == b[i].previousEventHash && a[i].eventHash == b[i].eventHash
  }

  /** The head hash commits to the whole history: two tables that both validate and end in the same
      hash have the same length and agree on every hashed column of every row. */
  lemma {:induction false} HeadCommitsToHistory(digest: Digest, a: seq<Row>, b: seq<Row>)
    requires Findings(digest, a, None) == [] && Findings(digest, b, None) == []
    requires Head(a, None) == Head(b, None)
    ensures SameHistory(a, b) || Collide(digest, a, b)
    decreases |a|
  {
    if a != [] {
      var n, m := |a| - 1, |b| - 1;
      SplitAt(digest, a, n);
      SplitAt(digest, b, m);
      if Payload(a[n]) == Payload(b[m]) {
        HeadCommitsToHistory(digest, a[..n], b[..m]);
        CollisionsStay(digest, a, n, b, m);
      }
    }
  }

  lemma CollisionsStay(digest: Digest, a: seq<Row>, n: nat, b: seq<Row>, m: nat)
    requires n <= |a| && m <= |b|
    ensures Collide(digest, a[..n], b[..m]) ==> Collide(digest, a, b)
  {
    if i, j :| 0 <= i < n && 0 <= j < m && Payload(a[..n][i]) != Payload(b[..m][j])
               && digest(Payload(a[..n][i])) == digest(Payload(b[..m][j])) {
      assert Payload(a[i]) != Payload(b[j]);
    }
  }

  // ----- Tampering with a valid table -----

  /** An edit of any hashed column, the back link aside, is found at the edited row and nowhere
      else, unless the two payloads of that row collide. */
  lemma EditIsFoundAtItsRow(digest: Digest, rows: seq<Row>, k: nat, edited: Content)
    requires k < |rows| && Findings(digest, rows, None) == []
    ensures Findings(digest, rows[k := rows[k].(content := edited)], None)
         == if digest(HashPayload(edited, rows[k].previousEventHash)) != digest(Payload(rows[k]))
            then [TamperFinding(edited.eventId, ContentHashMismatch)] else []
  {
    SplitAt(digest, rows, k);
    var row := rows[k].(content := edited);
    assert rows[k := row] == rows[..k] + [row] + rows[k + 1..];
    FindingsAround(digest, rows[..k], row, rows[k + 1..]);
  }

  /** The findings of a chain whose predecessor changed: its first row's link, if it has a row. */
  lemma BrokenLink(digest: Digest, rows: seq<Row>, previous: Option<string>, other: Option<string>)
    requires Findings(digest, rows, previous) == []
    ensures Findings(digest, rows, other)
         == if rows == [] || other == previous then [] else [TamperFinding(rows[0].content.eventId, PreviousHashMismatch)]
  {
  }

  /** An edited row that is given its new hash validates itself; the finding moves to the link of
      the next row, and the last row has no next row. */
  lemma RehashedEditIsFoundAtItsSuccessor(digest: Digest, rows: seq<Row>, k: nat, edited: Content)
    requires k < |rows| && Findings(digest, rows, None) == []
    ensures var row := Row(rows[k].schemaVersion, edited, rows[k].previousEventHash, digest(HashPayload(edited, rows[k].previousEventHash)));
            Findings(digest, rows[k := row], None)
            == if k + 1 < |rows| && row.eventHash != rows[k].eventHash
               then [TamperFinding(rows[k + 1].content.eventId, PreviousHashMismatch)] else []
  {
    SplitAt(digest, rows, k);
    var row := Row(rows[k].schemaVersion, edited, rows[k].previousEventHash, digest(HashPayload(edited, rows[k].previousEventHash)));
    assert rows[k := row] == rows[..k] + [row] + rows[k + 1..];
    FindingsAround(digest, rows[..k], row, rows[k + 1..]);
    BrokenLink(digest, rows[k + 1..], Some(rows[k].eventHash), Some(row.eventHash));
  }

  /** An edited back link is found twice at its row: it no longer matches, and neither does the hash. */
  lemma EditedBackLinkIsFoundTwice(digest: Digest, rows: seq<Row>, k: nat, link: Option<string>)
    requires k < |rows| && Findings(digest, rows, None) == [] && link != rows[k].previousEventHash
    requires digest(HashPayload(rows[k].content, link)) != digest(Payload(rows[k]))
    ensures var id := rows[k].content.eventId;
            Findings(digest, rows[k := rows[k].(previousEventHash := link)], None)
            == [TamperFinding(id, PreviousHashMismatch), TamperFinding(id, ContentHashMismatch)]
  {
    SplitAt(digest, rows, k);
    var row := rows[k].(previousEventHash := link);
    assert rows[k := row] == rows[..k] + [row] + rows[k + 1..];
    FindingsAround(digest, rows[..k], row, rows[k + 1..]);
  }

  /** A deleted row is found at its successor.  Deleting the last row is not found at all. */
  lemma DeletionIsFoundAtItsSuccessor(digest: Digest, rows: seq<Row>, k: nat)
    requires k < |rows| && Findings(digest, rows, None) == [] && Distinct(rows)
    ensures Findings(digest, rows[..k] + rows[k + 1..], None)
         == if k + 1 < |rows| then [TamperFinding(rows[k + 1].content.eventId, PreviousHashMismatch)] else []
  {
    SplitAt(digest, rows, k);
    FindingsOfConcat(digest, rows[..k], rows[k + 1..], None);
    BrokenLink(digest, rows[k + 1..], Some(rows[k].eventHash), Head(rows[..k], None));
  }

  /** The table an attacker gets who recomputes every link and hash. */
  function Resealed(digest: Digest, contents: seq<Content>): seq<Row> {
    if contents == [] then []
    else
      var before := Resealed(digest, contents[..|contents| - 1]);
      before + [Seal(digest, contents[|contents| - 1], Head(before, None))]
  }

  lemma {:induction false} ResealedValidates(digest: Digest, contents: seq<Content>)
    ensures Findings(digest, Resealed(digest, contents), None) == []
    ensures |Resealed(digest, contents)| == |contents|
    ensures forall i :: 0 <= i < |contents| ==> Resealed(digest, contents)[i].content == contents[i]
  {
    if contents != [] {
      var n := |contents| - 1;
      ResealedValidates(digest, contents[..n]);
      var before := Resealed(digest, contents[..n]);
      var row := Seal(digest, contents[n], Head(before, None));
      FindingsOfConcat(digest, before, [row], None);
      FindingsOfOne(digest, row, Head(before, None));
    }
  }

  /** Validation alone accepts any history that was resealed from its start; its head hash tells
      it from every other history. */
  lemma ResealedHistoryIsToldByItsHead(digest: Digest, contents: seq<Content>, others: seq<Content>)
    requires Head(Resealed(digest, contents), None) == Head(Resealed(digest, others), None)
    ensures contents == others || Collide(digest, Resealed(digest, contents), Resealed(digest, others))
  {
    ResealedValidates(digest, contents);
    ResealedValidates(digest, others);
    var a, b := Resealed(digest, contents), Resealed(digest, others);
    HeadCommitsToHistory(digest, a, b);
    if SameHistory(a, b) {
      forall i | 0 <= i < |contents|
        ensures contents[i] == others[i]
      {
        assert a[i].content == b[i].content;
      }
    }
  }

  // ----- The store -----

  class EventStore {
    const digest: Digest
    var events: seq<Row>

    ghost predicate Valid()
      reads this
    {
      Findings(digest, events, None) == [] && Distinct(events)
    }

    constructor (digest: Digest)
      ensures Valid() && events == [] && this.digest == digest
    {
      this.digest := digest;
      events := [];
    }

    /** Appends one redacted event.  The table refuses an event id or an event hash that it has; whether
        the event's schema and the agent, plan and backup that it refers to pass is given. */
    method Append(event: Content, accepted: bool) returns (appended: bool)
      requires Valid()
      modifies this
      ensures Valid()
      ensures var stored := event.(redaction := REDACTION_LABEL, payload := Redaction.RedactSecrets(event.payload));
              var row := Seal(digest, stored, Head(old(events), None));
              && appended == (accepted && forall r :: r in old(events) ==> r.content.eventId != event.eventId && r.eventHash != row.eventHash)
              && events == if appended then old(events) + [row] else old(events)
    {
      var stored := event.(redaction := REDACTION_LABEL, payload := Redaction.RedactSecrets(event.payload));
      var previous := LatestEventHash();
      var row := Seal(digest, stored, previous);
      appended := accepted && forall r :: r in events ==> r.content.eventId != event.eventId && r.eventHash != row.eventHash;
      if appended {
        FindingsOfConcat(digest, events, [row], None);
        FindingsOfOne(digest, row, previous);
        events := events + [row];
      }
    }

    method LatestEventHash() returns (latest: Option<string>)
      ensures latest == Head(events, None)
    {
      latest := if |events| == 0 then None else Some(events[|events| - 1].eventHash);
    }

    method ValidateHashChain() returns (findings: seq<TamperFinding>)
      ensures findings == Findings(digest, events, None)
    {
      findings := [];
      var previousHash: Option<string> := None;
      var i := 0;
      while i < |events|
        invariant 0 <= i <= |events|
        invariant previousHash == Head(events[..i], None)
        invariant findings == Findings(digest, events[..i], None)
      {
        var row := events[i];
        FindingsOfConcat(digest, events[..i], [row], None);
        FindingsOfOne(digest, row, previousHash);
        assert events[..i + 1] == events[..i] + [row];
        if row.previousEventHash != previousHash {
          findings := findings + [TamperFinding(row.content.eventId, PreviousHashMismatch)];
        }
        if row.eventHash != digest(HashPayload(row.content, row.previousEventHash)) {
          findings := findings + [TamperFinding(row.content.eventId, ContentHashMismatch)];
        }
        previousHash := Some(row.eventHash);
        i := i + 1;
      }
      assert events[..|events|] == events;
    }
  }
}
