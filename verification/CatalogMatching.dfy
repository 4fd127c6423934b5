/** The scoring of catalog entries against an observed entry, and the choice of the best match. */
module CatalogMatching {
  import opened Common
  import AgentConfig

  type ObservedEntry = AgentConfig.ObservedEntry

  datatype Backend = Backend(kind: string, command: Option<string>, args: seq<string>, url: Option<string>)

  /** A catalog entry; routable stands for its review, lifecycle and schema checks. */
  datatype CatalogEntry = CatalogEntry(
    catalogId: string, name: string, aliases: seq<string>, hubPath: string, backend: Backend, routable: bool)

  datatype Confidence = Weak | Medium | High

  datatype Reason = ExactHubUrl | ExactBackendFingerprint | NormalizedBackendUrl | AliasName | MountName | NotRoutable

  datatype Match = Match(catalogId: string, confidence: Confidence, reasons: seq<Reason>, autoApplyAllowed: bool, routable: bool)

  /** Normal forms of URLs and names, and the hash of a command line. */
  datatype Norms = Norms(url: string -> string, name: string -> string, fingerprint: (Option<string>, seq<string>) -> string)

  const HUB_BASE_URL := "http://127.0.0.1:30000"

  function HubUrl(c: CatalogEntry): string {
    HUB_BASE_URL + c.hubPath
  }

  // ----- Scoring -----

  predicate IsExactHubUrl(norms: Norms, e: ObservedEntry, c: CatalogEntry) {
    AgentConfig.NonEmpty(e.url) && e.transport == AgentConfig.StreamableHttp && norms.url(e.url.value) == norms.url(HubUrl(c))
  }

  predicate IsExactFingerprint(norms: Norms, e: ObservedEntry, c: CatalogEntry) {
    && c.backend.kind == "stdio" && e.transport == AgentConfig.Stdio
    && norms.fingerprint(e.command, e.args) == norms.fingerprint(c.backend.command, c.backend.args)
  }

  predicate IsNormalizedBackendUrl(norms: Norms, e: ObservedEntry, c: CatalogEntry) {
    && e.transport != AgentConfig.Stdio && AgentConfig.NonEmpty(e.url) && AgentConfig.NonEmpty(c.backend.url)
    && norms.url(e.url.value) == norms.url(c.backend.url.value)
  }

  predicate IsAlias(norms: Norms, e: ObservedEntry, c: CatalogEntry) {
    exists alias :: alias in c.aliases && alias != ""
      && (norms.name(alias) == norms.name(e.mountName) || exists arg :: arg in e.args && norms.name(alias) == norms.name(arg))
  }

  function Reasons(norms: Norms, e: ObservedEntry, c: CatalogEntry): seq<Reason> {
    (if IsExactHubUrl(norms, e, c) then [ExactHubUrl] else [])
    + (if IsExactFingerprint(norms, e, c) then [ExactBackendFingerprint] else [])
    + (if IsNormalizedBackendUrl(norms, e, c) then [NormalizedBackendUrl] else [])
    + (if IsAlias(norms, e, c) then [AliasName] else [])
    + (if e.mountName == c.name then [MountName] else [])
  }

  function ConfidenceFor(reasons: seq<Reason>): Option<Confidence> {
    if ExactHubUrl in reasons || ExactBackendFingerprint in reasons then Some(High)
    else if NormalizedBackendUrl in reasons then Some(Medium)
    else if AliasName in reasons || MountName in reasons then Some(Weak)
    else None
  }

  function Score(norms: Norms, e: ObservedEntry, c: CatalogEntry): Option<Match> {
    var reasons := Reasons(norms, e, c);
    var confidence :- ConfidenceFor(reasons);
    Some(Match(c.catalogId, confidence, if c.routable then reasons else reasons + [NotRoutable],
               confidence == High && c.routable && e.enabled && e.complete, c.routable))
  }

  /** The names an entry goes by, normalized: its mount's and its arguments. */
  function Names(norms: Norms, e: ObservedEntry): set<string> {
    {norms.name(e.mountName)} + set arg | arg in e.args :: norms.name(arg)
  }

  /** What agrees between an entry and a catalog entry, field by field. */
  predicate Agrees(norms: Norms, e: ObservedEntry, c: CatalogEntry, reason: Reason) {
    match reason
    case ExactHubUrl =>
      e.transport == AgentConfig.StreamableHttp && e.url.Some? && e.url.value != ""
      && norms.url(e.url.value) == norms.url("http://127.0.0.1:30000" + c.hubPath)
    case ExactBackendFingerprint =>
      e.transport == AgentConfig.Stdio && c.backend.kind == "stdio"
      && norms.fingerprint(e.command, e.args) == norms.fingerprint(c.backend.command, c.backend.args)
    case NormalizedBackendUrl =>
      e.transport == AgentConfig.StreamableHttp && e.url.Some? && e.url.value != "" && c.backend.url.Some? && c.backend.url.value != ""
      && norms.url(e.url.value) == norms.url(c.backend.url.value)
    case AliasName =>
      exists i :: 0 <= i < |c.aliases| && c.aliases[i] != "" && norms.name(c.aliases[i]) in Names(norms, e)
    case MountName => e.mountName == c.name
    case NotRoutable => false
  }

  /** A match tells what it stands for: it exists exactly if something agrees, lists exactly what
      agrees, with a remark if the entry is not routable, and is as confident as the strongest of it;
      it may be applied automatically exactly if it is high and everything else is in order. */
  predicate Tells(norms: Norms, e: ObservedEntry, c: CatalogEntry, score: Option<Match>) {
    && (score.Some? <==> exists r :: Agrees(norms, e, c, r))
    && (score.Some? ==>
          var m := score.value;
          && m.catalogId == c.catalogId && m.routable == c.routable
          && (forall r :: r != NotRoutable ==> (r in m.reasons <==> Agrees(norms, e, c, r)))
          && (NotRoutable in m.reasons <==> !c.routable)
          && (m.confidence == High <==> Agrees(norms, e, c, ExactHubUrl) || Agrees(norms, e, c, ExactBackendFingerprint))
          && (m.confidence == Medium <==> m.confidence != High && Agrees(norms, e, c, NormalizedBackendUrl))
          && (m.autoApplyAllowed <==> m.confidence == High && c.routable && e.enabled && e.complete))
  }

  lemma ScoreTells(norms: Norms, e: ObservedEntry, c: CatalogEntry)
    ensures Tells(norms, e, c, Score(norms, e, c))
  {
    var reasons := Reasons(norms, e, c);
    ReasonsAgree(norms, e, c);
    assert ConfidenceFor(reasons).Some? <==> exists r :: Agrees(norms, e, c, r) by {
      forall r | Agrees(norms, e, c, r)
        ensures r in reasons && ConfidenceFor(reasons).Some?
      {
      }
    }
  }

  lemma AliasAgrees(norms: Norms, e: ObservedEntry, c: CatalogEntry)
    ensures IsAlias(norms, e, c) <==> Agrees(norms, e, c, AliasName)
  {
    forall alias | alias in c.aliases
      ensures (norms.name(alias) == norms.name(e.mountName) || exists arg :: arg in e.args && norms.name(alias) == norms.name(arg))
         <==> norms.name(alias) in Names(norms, e)
    {
    }
  }

  lemma ReasonsAgree(norms: Norms, e: ObservedEntry, c: CatalogEntry)
    ensures forall r :: r in Reasons(norms, e, c) <==> Agrees(norms, e, c, r)
  {
    AliasAgrees(norms, e, c);
  }

  /** Scoring collects the reasons one check at a time. */
  method CollectReasons(norms: Norms, e: ObservedEntry, c: CatalogEntry) returns (reasons: seq<Reason>)
    ensures reasons == Reasons(norms, e, c)
    ensures forall r :: r in reasons <==> Agrees(norms, e, c, r)
  {
    reasons := [];
    if IsExactHubUrl(norms, e, c) {
      reasons := reasons + [ExactHubUrl];
    }
    if IsExactFingerprint(norms, e, c) {
      reasons := reasons + [ExactBackendFingerprint];
    }
    if IsNormalizedBackendUrl(norms, e, c) {
      reasons := reasons + [NormalizedBackendUrl];
    }
    if IsAlias(norms, e, c) {
      reasons := reasons + [AliasName];
    }
    if e.mountName == c.name {
      reasons := reasons + [MountName];
    }
    ReasonsAgree(norms, e, c);
  }

  method ScoreEntry(norms: Norms, e: ObservedEntry, c: CatalogEntry) returns (score: Option<Match>)
    ensures score == Score(norms, e, c)
    ensures Tells(norms, e, c, score)
  {
    ScoreTells(norms, e, c);
    var reasons := CollectReasons(norms, e, c);
    var confidence := ConfidenceFor(reasons);
    if confidence.None? {
      return None;
    }
    if !c.routable {
      reasons := reasons + [NotRoutable];
    }
    var auto := confidence.value == High && c.routable && e.enabled && e.complete;
    return Some(Match(c.catalogId, confidence.value, reasons, auto, c.routable));
  }

  /** The confidence of a match, told from the entry and the catalog alone. */
  lemma ScoreConfidence(norms: Norms, e: ObservedEntry, c: CatalogEntry)
    ensures var s := Score(norms, e, c);
      && (s.Some? && s.value.confidence == High <==> IsExactHubUrl(norms, e, c) || IsExactFingerprint(norms, e, c))
      && (s.None? <==> !IsExactHubUrl(norms, e, c) && !IsExactFingerprint(norms, e, c) && !IsNormalizedBackendUrl(norms, e, c)
                       && !IsAlias(norms, e, c) && e.mountName != c.name)
  {
  }

  /** A command line has a high score for a catalog entry exactly if the entry's backend is started by a
      command line with the same fingerprint. */
  lemma CommandLineIsHighIff(norms: Norms, e: ObservedEntry, c: CatalogEntry)
    requires e.transport == AgentConfig.Stdio
    ensures var s := Score(norms, e, c);
      s.Some? && s.value.confidence == High <==>
      c.backend.kind == "stdio" && norms.fingerprint(e.command, e.args) == norms.fingerprint(c.backend.command, c.backend.args)
  {
    ScoreConfidence(norms, e, c);
  }

  /** A remote entry has one exactly if its URL has the normal form of the entry's Hub URL. */
  lemma RemoteIsHighIff(norms: Norms, e: ObservedEntry, c: CatalogEntry)
    requires e.transport == AgentConfig.StreamableHttp && e.url.Some? && e.url.value != ""
    ensures var s := Score(norms, e, c);
      s.Some? && s.value.confidence == High <==> norms.url(e.url.value) == norms.url("http://127.0.0.1:30000" + c.hubPath)
  {
    ScoreConfidence(norms, e, c);
  }

  // ----- The order of matches -----

  predicate Precedes(a: string, b: string) {
    if b == "" then false
    else if a == "" then true
    else if a[0] != b[0] then a[0] < b[0]
    else Precedes(a[1..], b[1..])
  }

  lemma {:induction false} PrecedesIsTotal(a: string, b: string)
    ensures a == b || Precedes(a, b) || Precedes(b, a)
    ensures Precedes(a, b) ==> !Precedes(b, a) && a != b
  {
    if a != "" && b != "" && a[0] == b[0] {
      PrecedesIsTotal(a[1..], b[1..]);
      assert a == [a[0]] + a[1..] && b == [b[0]] + b[1..];
    }
  }

  lemma {:induction false} PrecedesIsTransitive(a: string, b: string, c: string)
    requires Precedes(a, b) && Precedes(b, c)
    ensures Precedes(a, c)
  {
    if a != "" && a[0] == b[0] == c[0] {
      PrecedesIsTransitive(a[1..], b[1..], c[1..]);
    }
  }

  /** The order is that of the first place where two ids differ; a prefix comes first. */
  predicate FirstDifferenceBelow(a: string, b: string) {
    exists i :: 0 <= i <= |a| && i < |b| && a[..i] == b[..i] && (i == |a| || a[i] < b[i])
  }

  lemma SameStart(a: string, b: string, i: nat)
    requires 0 < i <= |a| && i <= |b|
    ensures a[..i] == b[..i] <==> a[0] == b[0] && a[1..][..i - 1] == b[1..][..i - 1]
  {
    assert a[..i] == [a[0]] + a[1..][..i - 1] && b[..i] == [b[0]] + b[1..][..i - 1];
  }

  lemma {:induction false} PrecedesIsByFirstDifference(a: string, b: string)
    ensures Precedes(a, b) <==> FirstDifferenceBelow(a, b)
  {
    assert a[..0] == b[..0];
    forall i | 0 < i <= |a| && i <= |b|
      ensures a[..i] == b[..i] <==> a[0] == b[0] && a[1..][..i - 1] == b[1..][..i - 1]
    {
      SameStart(a, b, i);
    }
    if a != "" && b != "" && a[0] == b[0] {
      PrecedesIsByFirstDifference(a[1..], b[1..]);
      if Precedes(a, b) {
        var i :| 0 <= i <= |a[1..]| && i < |b[1..]| && a[1..][..i] == b[1..][..i] && (i == |a[1..]| || a[1..][i] < b[1..][i]);
        assert a[..i + 1] == b[..i + 1];
      }
      if FirstDifferenceBelow(a, b) {
        var i :| 0 <= i <= |a| && i < |b| && a[..i] == b[..i] && (i == |a| || a[i] < b[i]);
        assert i > 0 && a[1..][..i - 1] == b[1..][..i - 1];
      }
    }
  }

  function Rank(c: Confidence): nat {
    match c
    case Weak => 1
    case Medium => 2
    case High => 3
  }

  predicate Outranks(a: Match, b: Match) {
    if a.confidence != b.confidence then Rank(a.confidence) > Rank(b.confidence)
    else if a.autoApplyAllowed != b.autoApplyAllowed then a.autoApplyAllowed
    else Precedes(b.catalogId, a.catalogId)
  }

  lemma OutranksIsTransitive(a: Match, b: Match, c: Match)
    requires !Outranks(b, a) && !Outranks(c, b)
    ensures !Outranks(c, a)
  {
    if a.confidence == b.confidence == c.confidence && a.autoApplyAllowed == b.autoApplyAllowed == c.autoApplyAllowed {
      PrecedesIsTotal(a.catalogId, b.catalogId);
      PrecedesIsTotal(b.catalogId, c.catalogId);
      if Precedes(a.catalogId, c.catalogId) {
        if a.catalogId != b.catalogId {
          PrecedesIsTransitive(b.catalogId, a.catalogId, c.catalogId);
        }
      }
    }
  }

  // ----- Selection -----

  function Matches(norms: Norms, e: ObservedEntry, catalog: seq<CatalogEntry>): seq<Match> {
    if catalog == [] then []
    else
      var s := Score(norms, e, catalog[0]);
      (if s.Some? then [s.value] else []) + Matches(norms, e, catalog[1..])
  }

  lemma {:induction false} MatchesAreScores(norms: Norms, e: ObservedEntry, catalog: seq<CatalogEntry>, m: Match)
    ensures m in Matches(norms, e, catalog) <==> exists c :: c in catalog && Score(norms, e, c) == Some(m)
  {
    if catalog != [] {
      MatchesAreScores(norms, e, catalog[1..], m);
      assert catalog == [catalog[0]] + catalog[1..];
    }
  }

  /** The first of the sorted matches, best first; of equals the earlier stays ahead. */
  function Best(matches: seq<Match>): (best: Match)
    requires matches != []
  {
    if |matches| == 1 then matches[0]
    else
      var rest := Best(matches[1..]);
      if Outranks(rest, matches[0]) then rest else matches[0]
  }

  lemma {:induction false} BestIsUnbeaten(matches: seq<Match>)
    requires matches != []
    ensures Best(matches) in matches
    ensures forall m :: m in matches ==> !Outranks(m, Best(matches))
  {
    PrecedesIsTotal(matches[0].catalogId, matches[0].catalogId);
    if |matches| > 1 {
      var rest := Best(matches[1..]);
      BestIsUnbeaten(matches[1..]);
      forall m | m in matches
        ensures !Outranks(m, Best(matches))
      {
        if m in matches[1..] {
          assert !Outranks(m, rest);
          if !Outranks(rest, matches[0]) {
            OutranksIsTransitive(matches[0], rest, m);
          }
        } else {
          assert m == matches[0];
          PrecedesIsTotal(m.catalogId, rest.catalogId);
        }
      }
    }
  }

  function MatchObserved(norms: Norms, e: ObservedEntry, catalog: seq<CatalogEntry>): Option<Match> {
    var matches := Matches(norms, e, catalog);
    if matches == [] then None else Some(Best(matches))
  }

  predicate DistinctIds(catalog: seq<CatalogEntry>) {
    forall i, j :: 0 <= i < j < |catalog| ==> catalog[i].catalogId != catalog[j].catalogId
  }

  /** The entry has no match exactly if every catalog entry scores nothing; otherwise its match is the
      score of a catalog entry, and no catalog entry's score outranks it. */
  lemma MatchIsUnbeaten(norms: Norms, e: ObservedEntry, catalog: seq<CatalogEntry>)
    ensures var m := MatchObserved(norms, e, catalog);
      && (m.None? <==> forall c :: c in catalog ==> Score(norms, e, c).None?)
      && (m.Some? ==>
            && (exists c :: c in catalog && Score(norms, e, c) == m)
            && (forall c :: c in catalog && Score(norms, e, c).Some? ==> !Outranks(Score(norms, e, c).value, m.value)))
  {
    var matches := Matches(norms, e, catalog);
    if matches != [] {
      BestIsUnbeaten(matches);
      MatchesAreScores(norms, e, catalog, Best(matches));
    }
    forall c | c in catalog && Score(norms, e, c).Some?
      ensures Score(norms, e, c).value in matches
    {
      MatchesAreScores(norms, e, catalog, Score(norms, e, c).value);
    }
    if matches != [] {
      MatchesAreScores(norms, e, catalog, matches[0]);
    }
  }

  /** In so many words: no catalog entry has a more confident score; none as confident may be applied
      automatically if the match may not; and none like it in both has a later id. */
  lemma MatchIsBestInFields(norms: Norms, e: ObservedEntry, catalog: seq<CatalogEntry>, c: CatalogEntry)
    requires c in catalog && Score(norms, e, c).Some? && MatchObserved(norms, e, catalog).Some?
    ensures var s, m := Score(norms, e, c).value, MatchObserved(norms, e, catalog).value;
      && (s.confidence == High ==> m.confidence == High)
      && (s.confidence == Medium ==> m.confidence == Medium || m.confidence == High)
      && (s.confidence == m.confidence && s.autoApplyAllowed ==> m.autoApplyAllowed)
      && (s.confidence == m.confidence && s.autoApplyAllowed == m.autoApplyAllowed ==> !FirstDifferenceBelow(m.catalogId, s.catalogId))
  {
    MatchIsUnbeaten(norms, e, catalog);
    var s, m := Score(norms, e, c).value, MatchObserved(norms, e, catalog).value;
    assert !Outranks(s, m);
    PrecedesIsByFirstDifference(m.catalogId, s.catalogId);
    assert Rank(s.confidence) <= Rank(m.confidence);
  }

  lemma NeitherOutranks(a: Match, b: Match)
    requires !Outranks(a, b) && !Outranks(b, a)
    ensures a.catalogId == b.catalogId
  {
    PrecedesIsTotal(a.catalogId, b.catalogId);
  }

  lemma ScoreNamesItsEntry(norms: Norms, e: ObservedEntry, c: CatalogEntry, m: Match)
    requires Score(norms, e, c) == Some(m)
    ensures m.catalogId == c.catalogId && m.routable == c.routable
    ensures m.autoApplyAllowed == (m.confidence == High && c.routable && e.enabled && e.complete)
  {
  }

  lemma UnbeatenScoreIsUnique(norms: Norms, e: ObservedEntry, catalog: seq<CatalogEntry>, c: CatalogEntry, d: CatalogEntry, m: Match, n: Match)
    requires DistinctIds(catalog) && c in catalog && d in catalog
    requires Score(norms, e, c) == Some(m) && Score(norms, e, d) == Some(n)
    requires !Outranks(m, n) && !Outranks(n, m)
    ensures m == n
  {
    ScoreNamesItsEntry(norms, e, c, m);
    ScoreNamesItsEntry(norms, e, d, n);
    NeitherOutranks(m, n);
    assert c == d;
  }

  lemma SameEntries(catalog: seq<CatalogEntry>, reordered: seq<CatalogEntry>, c: CatalogEntry)
    requires multiset(catalog) == multiset(reordered)
    ensures c in catalog <==> c in reordered
  {
    assert c in catalog <==> c in multiset(catalog);
    assert c in reordered <==> c in multiset(reordered);
  }

  /** With distinct catalog ids, the match does not depend on the order of the catalog. */
  lemma MatchIgnoresOrder(norms: Norms, e: ObservedEntry, catalog: seq<CatalogEntry>, reordered: seq<CatalogEntry>)
    requires DistinctIds(catalog) && multiset(catalog) == multiset(reordered)
    ensures MatchObserved(norms, e, catalog) == MatchObserved(norms, e, reordered)
  {
    forall c
      ensures c in catalog <==> c in reordered
    {
      SameEntries(catalog, reordered, c);
    }
    var (m, n) := (MatchObserved(norms, e, catalog), MatchObserved(norms, e, reordered));
    MatchIsUnbeaten(norms, e, catalog);
    MatchIsUnbeaten(norms, e, reordered);
    if m.Some? && n.Some? {
      var c :| c in catalog && Score(norms, e, c) == m;
      var d :| d in reordered && Score(norms, e, d) == n;
      UnbeatenScoreIsUnique(norms, e, catalog, c, d, m.value, n.value);
    }
  }
}
