/** The compliance classes of observed entries, the plans made for them, and what becomes of a plan's own result. */
module Planner {
  import opened Common
  import opened CatalogMatching
  import Json
  import AgentConfig

  datatype Class = UnsupportedEntry | CompliantHubRouted | DisabledDirectEntry | ActiveDirectBypass

  /** What staging an unmatched entry as a catalog candidate yields. */
  datatype Candidate = NoCandidate | UnknownLocalHttp | UnknownOther

  datatype Action =
    | AlreadyCompliant
    | RewriteKnownDirect(catalogId: string, url: string)
    | ImportUnknown
    | ReviewUnsafeLocalHttp
    | BlockedNotRoutable
    | BlockedUnsupported
    | NoCandidateAvailable

  predicate IsHubRouted(e: ObservedEntry) {
    e.enabled && e.transport == AgentConfig.StreamableHttp && e.url == Some(HUB_BASE_URL + "/servers/" + e.mountName + "/mcp")
  }

  function Classify(e: ObservedEntry): Class {
    if !e.complete then UnsupportedEntry
    else if IsHubRouted(e) then CompliantHubRouted
    else if !e.enabled then DisabledDirectEntry
    else ActiveDirectBypass
  }

  /** Whether the entry already sits at the catalog entry's Hub URL, to the letter. */
  predicate RoutedTo(e: ObservedEntry, c: CatalogEntry) {
    e.transport == AgentConfig.StreamableHttp && e.url == Some(HubUrl(c))
  }

  /** The catalog row of an id; ids are unique. */
  function Show(catalog: seq<CatalogEntry>, catalogId: string): Option<CatalogEntry> {
    if catalog == [] then None
    else if catalog[0].catalogId == catalogId then Some(catalog[0])
    else Show(catalog[1..], catalogId)
  }

  lemma {:induction false} ShowFinds(catalog: seq<CatalogEntry>, c: CatalogEntry)
    requires DistinctIds(catalog) && c in catalog
    ensures Show(catalog, c.catalogId) == Some(c)
  {
    if catalog[0].catalogId == c.catalogId {
      assert c == catalog[0];
    } else {
      ShowFinds(catalog[1..], c);
    }
  }

  /** The choice for an entry with a high-confidence, routable match. */
  function PlanKnown(e: ObservedEntry, c: CatalogEntry): Action {
    if RoutedTo(e, c) then AlreadyCompliant else RewriteKnownDirect(c.catalogId, HubUrl(c))
  }

  function PlanUnknown(m: Option<Match>, candidate: Candidate): Action {
    if m.Some? || candidate == NoCandidate then NoCandidateAvailable
    else if candidate == UnknownLocalHttp then ReviewUnsafeLocalHttp
    else ImportUnknown
  }

  /** The catalog entry that the match identifies with high confidence. */
  function Known(norms: Norms, catalog: seq<CatalogEntry>, e: ObservedEntry): Option<CatalogEntry> {
    var m :- MatchObserved(norms, e, catalog);
    if m.confidence == High then Show(catalog, m.catalogId) else None
  }

  function PlanEntry(norms: Norms, catalog: seq<CatalogEntry>, e: ObservedEntry, candidate: Candidate): Action {
    var m := MatchObserved(norms, e, catalog);
    var known := Known(norms, catalog, e);
    match Classify(e)
    case CompliantHubRouted => AlreadyCompliant
    case UnsupportedEntry =>
      if known.Some? && known.value.routable && RoutedTo(e, known.value) then AlreadyCompliant else BlockedUnsupported
    case _ =>
      if known.None? then PlanUnknown(m, candidate)
      else if !known.value.routable then BlockedNotRoutable
      else PlanKnown(e, known.value)
  }

  // ----- The plan for an entry that was rewritten -----

  /** The known entry scores as the match does. */
  lemma KnownScores(norms: Norms, catalog: seq<CatalogEntry>, e: ObservedEntry)
    requires DistinctIds(catalog) && MatchObserved(norms, e, catalog).Some? && MatchObserved(norms, e, catalog).value.confidence == High
    ensures var k := Known(norms, catalog, e);
      k.Some? && k.value in catalog && Score(norms, e, k.value) == MatchObserved(norms, e, catalog)
  {
    var m := MatchObserved(norms, e, catalog);
    MatchIsUnbeaten(norms, e, catalog);
    var c :| c in catalog && Score(norms, e, c) == m;
    ScoreNamesItsEntry(norms, e, c, m.value);
    ShowFinds(catalog, c);
  }

  lemma HighBeatsAll(a: Match, b: Match)
    requires a.confidence == High && !Outranks(a, b)
    ensures b.confidence == High && (a.autoApplyAllowed ==> b.autoApplyAllowed)
  {
    match b.confidence
    case Weak =>
    case Medium =>
    case High =>
  }

  /** An entry at the Hub URL of a catalog entry is known, under the same Hub URL up to normal form; if it
      could be remediated automatically, so could the entry it is known as. */
  lemma RoutedIsKnown(norms: Norms, catalog: seq<CatalogEntry>, e: ObservedEntry, c: CatalogEntry)
    requires DistinctIds(catalog) && c in catalog && RoutedTo(e, c)
    ensures var k := Known(norms, catalog, e);
      && k.Some? && k.value in catalog && norms.url(HubUrl(k.value)) == norms.url(HubUrl(c))
      && (c.routable && e.enabled && e.complete ==> k.value.routable)
  {
    assert |HubUrl(c)| >= |HUB_BASE_URL|;
    assert IsExactHubUrl(norms, e, c);
    ScoreConfidence(norms, e, c);
    var s := Score(norms, e, c).value;
    MatchIsUnbeaten(norms, e, catalog);
    var m := MatchObserved(norms, e, catalog).value;
    HighBeatsAll(s, m);
    KnownScores(norms, catalog, e);
    var k := Known(norms, catalog, e).value;
    ScoreConfidence(norms, e, k);
    ScoreNamesItsEntry(norms, e, c, s);
    ScoreNamesItsEntry(norms, e, k, m);
  }

  /** After a rewrite the planner plans another one exactly when the best match is a routable catalog
      entry whose Hub path is spelled differently and normalizes to the same URL. */
  lemma RewritesAgainIff(norms: Norms, catalog: seq<CatalogEntry>, e: ObservedEntry, c: CatalogEntry, candidate: Candidate)
    requires DistinctIds(catalog) && c in catalog && c.routable && RoutedTo(e, c) && e.complete
    ensures var k := Known(norms, catalog, e);
      && k.Some? && norms.url(HubUrl(k.value)) == norms.url(HubUrl(c))
      && (e.enabled ==> k.value.routable)
      && PlanEntry(norms, catalog, e, candidate)
         == (if IsHubRouted(e) || (k.value.routable && k.value.hubPath == c.hubPath) then AlreadyCompliant
             else if !k.value.routable then BlockedNotRoutable
             else RewriteKnownDirect(k.value.catalogId, HubUrl(k.value)))
  {
    RoutedIsKnown(norms, catalog, e, c);
    var k := Known(norms, catalog, e).value;
    SameHubUrlSamePath(k, c);
  }

  /** The best match, high and routable, is the score of that catalog entry. */
  predicate MatchedRoutably(norms: Norms, catalog: seq<CatalogEntry>, e: ObservedEntry, c: CatalogEntry) {
    && c in catalog && c.routable && Score(norms, e, c).Some?
    && Score(norms, e, c) == MatchObserved(norms, e, catalog) && Score(norms, e, c).value.confidence == High
  }

  lemma MatchedIsKnown(norms: Norms, catalog: seq<CatalogEntry>, e: ObservedEntry, c: CatalogEntry)
    requires DistinctIds(catalog) && MatchedRoutably(norms, catalog, e, c)
    ensures Known(norms, catalog, e) == Some(c)
  {
    ScoreNamesItsEntry(norms, e, c, Score(norms, e, c).value);
    ShowFinds(catalog, c);
  }

  lemma KnownIsMatched(norms: Norms, catalog: seq<CatalogEntry>, e: ObservedEntry)
    requires DistinctIds(catalog) && Known(norms, catalog, e).Some? && Known(norms, catalog, e).value.routable
    ensures MatchedRoutably(norms, catalog, e, Known(norms, catalog, e).value)
  {
    KnownScores(norms, catalog, e);
  }

  /** A rewrite is planned exactly for a completely understood entry that is not at its own Hub URL, whose
      best match is high and routable, and that is not at that match's Hub URL; it goes there. */
  lemma RewriteIsPlannedIff(norms: Norms, catalog: seq<CatalogEntry>, e: ObservedEntry, candidate: Candidate)
    requires DistinctIds(catalog)
    ensures PlanEntry(norms, catalog, e, candidate).RewriteKnownDirect? <==>
      && e.complete && !(e.enabled && AtUrl(e, "http://127.0.0.1:30000" + ("/servers/" + e.mountName + "/mcp")))
      && exists c :: MatchedRoutably(norms, catalog, e, c) && !AtUrl(e, "http://127.0.0.1:30000" + c.hubPath)
  {
    ClassTells(e);
    var plan, k := PlanEntry(norms, catalog, e, candidate), Known(norms, catalog, e);
    forall c | MatchedRoutably(norms, catalog, e, c)
      ensures k == Some(c)
    {
      MatchedIsKnown(norms, catalog, e, c);
    }
    if k.Some? && k.value.routable {
      KnownIsMatched(norms, catalog, e);
      assert RoutedTo(e, k.value) <==> AtUrl(e, "http://127.0.0.1:30000" + k.value.hubPath);
    }
  }

  /** Nothing is left to do exactly for an entry that is at its own Hub URL and completely understood, and
      for one, understood or not, that is at the Hub URL of its high, routable match. */
  lemma AlreadyCompliantIff(norms: Norms, catalog: seq<CatalogEntry>, e: ObservedEntry, candidate: Candidate)
    requires DistinctIds(catalog)
    ensures PlanEntry(norms, catalog, e, candidate) == AlreadyCompliant <==>
      || (e.complete && e.enabled && AtUrl(e, "http://127.0.0.1:30000" + ("/servers/" + e.mountName + "/mcp")))
      || exists c :: MatchedRoutably(norms, catalog, e, c) && AtUrl(e, "http://127.0.0.1:30000" + c.hubPath)
  {
    ClassTells(e);
    var k := Known(norms, catalog, e);
    forall c | MatchedRoutably(norms, catalog, e, c)
      ensures k == Some(c)
    {
      MatchedIsKnown(norms, catalog, e, c);
    }
    if k.Some? && k.value.routable {
      KnownIsMatched(norms, catalog, e);
      assert RoutedTo(e, k.value) <==> AtUrl(e, "http://127.0.0.1:30000" + k.value.hubPath);
    }
  }

  predicate AtUrl(e: ObservedEntry, url: string) {
    e.transport == AgentConfig.StreamableHttp && e.url == Some(url)
  }

  /** Started by the same command line, or by another one with the same fingerprint. */
  predicate StartedAlike(norms: Norms, e: ObservedEntry, c: CatalogEntry) {
    && c.backend.kind == "stdio"
    && ((e.command == c.backend.command && e.args == c.backend.args)
        || ((e.command, e.args) != (c.backend.command, c.backend.args)
            && norms.fingerprint(e.command, e.args) == norms.fingerprint(c.backend.command, c.backend.args)))
  }

  /** What a planned rewrite of a command line means: the catalog entry it is routed to is started by the
      same command with the same arguments, or these two command lines collide. */
  lemma PlannedRewriteIsOfTheSameCommandLine(norms: Norms, catalog: seq<CatalogEntry>, e: ObservedEntry, candidate: Candidate)
    requires DistinctIds(catalog) && e.transport == AgentConfig.Stdio && PlanEntry(norms, catalog, e, candidate).RewriteKnownDirect?
    ensures exists c :: c in catalog && c.routable && StartedAlike(norms, e, c)
                        && PlanEntry(norms, catalog, e, candidate) == RewriteKnownDirect(c.catalogId, "http://127.0.0.1:30000" + c.hubPath)
  {
    PlannedRewriteIsJustified(norms, catalog, e, candidate);
    var k := Known(norms, catalog, e).value;
    KnownScores(norms, catalog, e);
    CommandLineIsHighIff(norms, e, k);
    assert k in catalog;
  }

  /** What else is planned: an entry without a high match is staged if nothing matches it at all, and its
      candidate decides; a high match that may not be routed to is blocked; an entry that is not
      completely understood is blocked unless it is at its match's Hub URL. */
  lemma OtherPlans(norms: Norms, catalog: seq<CatalogEntry>, e: ObservedEntry, candidate: Candidate)
    requires DistinctIds(catalog)
    ensures var plan, m := PlanEntry(norms, catalog, e, candidate), MatchObserved(norms, e, catalog);
      var ownHub := e.enabled && AtUrl(e, "http://127.0.0.1:30000" + ("/servers/" + e.mountName + "/mcp"));
      && (plan == ImportUnknown <==> e.complete && !ownHub && m.None? && candidate == UnknownOther)
      && (plan == ReviewUnsafeLocalHttp <==> e.complete && !ownHub && m.None? && candidate == UnknownLocalHttp)
      && (plan == NoCandidateAvailable <==>
            e.complete && !ownHub && (if m.None? then candidate == NoCandidate else m.value.confidence != High))
      && (plan == BlockedNotRoutable <==> e.complete && !ownHub && m.Some? && m.value.confidence == High && !m.value.routable)
      && (plan == BlockedUnsupported ==> !e.complete)
      && (!e.complete ==> plan == BlockedUnsupported || plan == AlreadyCompliant)
  {
    ClassTells(e);
    HighIsKnown(norms, catalog, e);
  }

  lemma HighIsKnown(norms: Norms, catalog: seq<CatalogEntry>, e: ObservedEntry)
    requires DistinctIds(catalog)
    ensures var k, m := Known(norms, catalog, e), MatchObserved(norms, e, catalog);
      && (k.Some? <==> m.Some? && m.value.confidence == High)
      && (k.Some? ==> k.value.routable == m.value.routable)
  {
    var m := MatchObserved(norms, e, catalog);
    if m.Some? && m.value.confidence == High {
      KnownScores(norms, catalog, e);
      ScoreNamesItsEntry(norms, e, Known(norms, catalog, e).value, m.value);
    }
  }

  /** The four classes in the entry's own fields. */
  lemma ClassTells(e: ObservedEntry)
    ensures var ownHub := e.enabled && AtUrl(e, "http://127.0.0.1:30000" + ("/servers/" + e.mountName + "/mcp"));
      && (Classify(e) == UnsupportedEntry <==> !e.complete)
      && (Classify(e) == CompliantHubRouted <==> e.complete && ownHub)
      && (Classify(e) == DisabledDirectEntry <==> e.complete && !e.enabled)
      && (Classify(e) == ActiveDirectBypass <==> e.complete && e.enabled && !ownHub)
  {
    assert HUB_BASE_URL + "/servers/" + e.mountName + "/mcp" == HUB_BASE_URL + ("/servers/" + e.mountName + "/mcp");
  }

  lemma SameHubUrlSamePath(c: CatalogEntry, d: CatalogEntry)
    ensures HubUrl(c) == HubUrl(d) <==> c.hubPath == d.hubPath
  {
    assert HubUrl(c)[|HUB_BASE_URL|..] == c.hubPath && HubUrl(d)[|HUB_BASE_URL|..] == d.hubPath;
  }

  /** Different Hub paths stay different when their URLs are normalized. */
  predicate SeparatesHubPaths(norms: Norms, catalog: seq<CatalogEntry>) {
    forall c, d :: c in catalog && d in catalog && norms.url(HubUrl(c)) == norms.url(HubUrl(d)) ==> c.hubPath == d.hubPath
  }

  /** A catalog in which two Hub paths share a normal form can make the planner rewrite its own result. */
  lemma SharedNormalFormPlansAgain(norms: Norms, e: ObservedEntry, c: CatalogEntry, d: CatalogEntry, candidate: Candidate)
    requires c.routable && d.routable && Precedes(c.catalogId, d.catalogId)
    requires c.hubPath != d.hubPath && norms.url(HubUrl(c)) == norms.url(HubUrl(d))
    requires RoutedTo(e, c) && e.complete && e.enabled && !IsHubRouted(e)
    ensures PlanEntry(norms, [c, d], e, candidate) == RewriteKnownDirect(d.catalogId, HubUrl(d))
  {
    assert |HubUrl(c)| >= |HUB_BASE_URL|;
    assert IsExactHubUrl(norms, e, c) && IsExactHubUrl(norms, e, d);
    ScoreConfidence(norms, e, c);
    ScoreConfidence(norms, e, d);
    var (s, t) := (Score(norms, e, c).value, Score(norms, e, d).value);
    ScoreNamesItsEntry(norms, e, c, s);
    ScoreNamesItsEntry(norms, e, d, t);
    assert Matches(norms, e, [c, d]) == [s, t] by {
      assert [c, d][1..] == [d] && [d][1..] == [];
      assert Matches(norms, e, [d]) == [t];
    }
    assert Outranks(t, s);
    assert [s, t][1..] == [t] && Best([t]) == t;
    PrecedesIsTotal(c.catalogId, d.catalogId);
    ShowFinds([c, d], d);
    SameHubUrlSamePath(c, d);
  }

  lemma {:induction false} SameUrlSameMatches(norms: Norms, e: ObservedEntry, f: ObservedEntry, catalog: seq<CatalogEntry>)
    requires e.url.Some? && f.url.Some? && e.url.value != "" && f.url.value != "" && norms.url(e.url.value) == norms.url(f.url.value)
    requires f == e.(url := f.url, entryHash := f.entryHash)
    ensures Matches(norms, e, catalog) == Matches(norms, f, catalog)
  {
    if catalog != [] {
      SameUrlSameMatches(norms, e, f, catalog[1..]);
      assert Reasons(norms, e, catalog[0]) == Reasons(norms, f, catalog[0]);
    }
  }

  /** Even then one more rewrite settles it, whatever the normal forms are. */
  lemma SecondRewriteSettles(norms: Norms, catalog: seq<CatalogEntry>, e: ObservedEntry, c: CatalogEntry, f: ObservedEntry, candidate: Candidate)
    requires DistinctIds(catalog) && c in catalog && c.routable && RoutedTo(e, c) && e.complete
    requires PlanEntry(norms, catalog, e, candidate).RewriteKnownDirect?
    requires f == e.(url := Some(PlanEntry(norms, catalog, e, candidate).url), entryHash := f.entryHash)
    ensures PlanEntry(norms, catalog, f, candidate) == AlreadyCompliant
  {
    RewritesAgainIff(norms, catalog, e, c, candidate);
    SameUrlSameMatches(norms, e, f, catalog);
    assert Known(norms, catalog, f) == Known(norms, catalog, e);
  }

  // ----- Rewriting a config as planned -----

  /** A planned rewrite goes to the Hub URL of a routable catalog entry; the planner only plans one for
      an entry it understood completely and that is not at that URL. */
  lemma PlannedRewriteIsJustified(norms: Norms, catalog: seq<CatalogEntry>, e: ObservedEntry, candidate: Candidate)
    requires DistinctIds(catalog) && PlanEntry(norms, catalog, e, candidate).RewriteKnownDirect?
    ensures var k := Known(norms, catalog, e);
      && k.Some? && k.value in catalog && k.value.routable && !RoutedTo(e, k.value) && e.complete
      && PlanEntry(norms, catalog, e, candidate) == RewriteKnownDirect(k.value.catalogId, HubUrl(k.value))
      && (Agrees(norms, e, k.value, ExactHubUrl) || Agrees(norms, e, k.value, ExactBackendFingerprint))
  {
    KnownScores(norms, catalog, e);
    ScoreConfidence(norms, e, Known(norms, catalog, e).value);
  }

  /** The plan for an entry that sits at a routable Hub URL, when Hub paths stay apart. */
  lemma RoutedEntrySettles(norms: Norms, catalog: seq<CatalogEntry>, e: ObservedEntry, c: CatalogEntry, candidate: Candidate)
    requires DistinctIds(catalog) && SeparatesHubPaths(norms, catalog)
    requires c in catalog && c.routable && RoutedTo(e, c) && e.complete
    ensures var plan := PlanEntry(norms, catalog, e, candidate);
      plan == AlreadyCompliant || (!e.enabled && plan == BlockedNotRoutable)
  {
    RewritesAgainIff(norms, catalog, e, c, candidate);
    assert Known(norms, catalog, e).value in catalog by {
      RoutedIsKnown(norms, catalog, e, c);
    }
  }

  /** What reading a config gives after an entry was routed to a catalog entry's Hub URL. */
  lemma RoutedConfigReads(checks: AgentConfig.Checks, agent: AgentConfig.Agent, tree: Json.Value, mount: string, c: CatalogEntry)
    requires AgentConfig.Parse(checks, agent, tree).Some? && mount in AgentConfig.Servers(agent, tree).value
    requires AgentConfig.RawEntry(agent, tree, mount).Keys <= AgentConfig.KnownKeys(agent) && checks.safeUrl(HubUrl(c))
    ensures AgentConfig.Rewrite(agent, tree, mount, HubUrl(c)).Some?
    ensures var after := AgentConfig.Parse(checks, agent, AgentConfig.Rewrite(agent, tree, mount, HubUrl(c)).value);
      && after.Some? && mount in after.value
      && after.value == AgentConfig.Parse(checks, agent, tree).value[mount := after.value[mount]]
      && RoutedTo(after.value[mount], c) && after.value[mount].complete && after.value[mount].mountName == mount
  {
    var before := AgentConfig.Parse(checks, agent, tree).value;
    var entry := AgentConfig.RawEntry(agent, tree, mount);
    assert |HubUrl(c)| >= |HUB_BASE_URL|;
    AgentConfig.RewriteThenParse(checks, agent, tree, mount, HubUrl(c));
    AgentConfig.ParsedEntry(checks, agent, tree, mount);
    var container := AgentConfig.ContainerKey(agent, tree.fields);
    AgentConfig.ReadableSettings(checks, agent, container, mount, entry);
    AgentConfig.ReplacementStaysComplete(agent, container, entry, HubUrl(c));
    var e := AgentConfig.Routed(checks, agent, before[mount], entry, HubUrl(c));
    assert before[mount := e][mount] == e;
  }

  /** Routing an entry that the parser understood completely to a routable catalog entry, and reading the
      config again: the other entries stay as they are, and the planner has no rewrite for the routed
      one if the catalog's Hub paths stay apart. It is already compliant if it is enabled, and it is
      classified compliant exactly when it is enabled and its Hub path is that of its mount. */
  lemma RewriteSettles(checks: AgentConfig.Checks, norms: Norms, agent: AgentConfig.Agent, tree: Json.Value,
                       mount: string, catalog: seq<CatalogEntry>, c: CatalogEntry, candidate: Candidate)
    requires DistinctIds(catalog) && SeparatesHubPaths(norms, catalog)
    requires c in catalog && c.routable && checks.safeUrl(HubUrl(c))
    requires AgentConfig.Parse(checks, agent, tree).Some? && mount in AgentConfig.Servers(agent, tree).value
    requires AgentConfig.RawEntry(agent, tree, mount).Keys <= AgentConfig.KnownKeys(agent)
    ensures AgentConfig.Rewrite(agent, tree, mount, HubUrl(c)).Some?
    ensures var after := AgentConfig.Parse(checks, agent, AgentConfig.Rewrite(agent, tree, mount, HubUrl(c)).value);
      && after.Some? && mount in after.value
      && after.value == AgentConfig.Parse(checks, agent, tree).value[mount := after.value[mount]]
      && (var plan := PlanEntry(norms, catalog, after.value[mount], candidate);
          plan == AlreadyCompliant || (!after.value[mount].enabled && plan == BlockedNotRoutable))
      && (Classify(after.value[mount]) == CompliantHubRouted <==>
            after.value[mount].enabled && HubUrl(c) == HUB_BASE_URL + "/servers/" + mount + "/mcp")
  {
    RoutedConfigReads(checks, agent, tree, mount, c);
    var routed := AgentConfig.Parse(checks, agent, AgentConfig.Rewrite(agent, tree, mount, HubUrl(c)).value).value[mount];
    RoutedEntrySettles(norms, catalog, routed, c, candidate);
  }

  /** So it is for whatever the planner plans: its plan is to route the entry to such a catalog entry. */
  lemma PlannedRewriteSettles(checks: AgentConfig.Checks, norms: Norms, agent: AgentConfig.Agent, tree: Json.Value,
                              mount: string, catalog: seq<CatalogEntry>, candidate: Candidate, url: string)
    requires DistinctIds(catalog) && SeparatesHubPaths(norms, catalog)
    requires AgentConfig.Parse(checks, agent, tree).Some? && mount in AgentConfig.Servers(agent, tree).value
    requires var plan := PlanEntry(norms, catalog, AgentConfig.Parse(checks, agent, tree).value[mount], candidate);
      plan.RewriteKnownDirect? && plan.url == url && checks.safeUrl(url)
    ensures AgentConfig.Rewrite(agent, tree, mount, url).Some?
    ensures var after := AgentConfig.Parse(checks, agent, AgentConfig.Rewrite(agent, tree, mount, url).value);
      && after.Some? && mount in after.value
      && !PlanEntry(norms, catalog, after.value[mount], candidate).RewriteKnownDirect?
      && (after.value[mount].enabled ==> PlanEntry(norms, catalog, after.value[mount], candidate) == AlreadyCompliant)
  {
    var e := AgentConfig.Parse(checks, agent, tree).value[mount];
    PlannedRewriteIsJustified(norms, catalog, e, candidate);
    AgentConfig.ParsedEntry(checks, agent, tree, mount);
    AgentConfig.ReadableSettings(checks, agent, AgentConfig.ContainerKey(agent, tree.fields), mount, AgentConfig.RawEntry(agent, tree, mount));
    RewriteSettles(checks, norms, agent, tree, mount, catalog, Known(norms, catalog, e).value, candidate);
  }

  /** A Claude config that starts a cataloged server directly: the planner routes it through the Hub, so
      what PlannedRewriteSettles says applies to it. */
  lemma DirectServerIsRouted(checks: AgentConfig.Checks, norms: Norms, c: CatalogEntry, candidate: Candidate)
    requires checks.safeCommand("db") && c.routable && c.backend == Backend("stdio", Some("db"), [], None)
    ensures DistinctIds([c]) && SeparatesHubPaths(norms, [c])
    ensures var parsed := AgentConfig.Parse(checks, AgentConfig.Claude, AgentConfig.DirectConfig(AgentConfig.Claude));
      && parsed.Some? && "db" in parsed.value
      && PlanEntry(norms, [c], parsed.value["db"], candidate) == RewriteKnownDirect(c.catalogId, HubUrl(c))
  {
    AgentConfig.DirectServerReads(checks, AgentConfig.Claude, "mcpServers");
    AgentConfig.DirectConfigParses(checks, AgentConfig.Claude);
    var e := AgentConfig.Parse(checks, AgentConfig.Claude, AgentConfig.DirectConfig(AgentConfig.Claude)).value["db"];
    DirectEntryIsPlanned(norms, e, c, candidate);
  }

  lemma DirectEntryIsPlanned(norms: Norms, e: ObservedEntry, c: CatalogEntry, candidate: Candidate)
    requires e.transport == AgentConfig.Stdio && e.command == c.backend.command && e.args == c.backend.args && e.complete
    requires c.routable && c.backend.kind == "stdio"
    ensures PlanEntry(norms, [c], e, candidate) == RewriteKnownDirect(c.catalogId, HubUrl(c))
  {
    ScoreConfidence(norms, e, c);
    var s := Score(norms, e, c).value;
    assert Matches(norms, e, [c]) == [s];
    ScoreNamesItsEntry(norms, e, c, s);
    assert Best([s]) == s;
    ShowFinds([c], c);
  }
}
