/**
 * The repository's integration test, one method per test case: each builds
 * a fresh repository, syncs entities into it and answers the test's queries
 * as set expressions over the stored triples. The postconditions are the
 * test's assertions.
 */
module Integration {
  import opened RdfTerms
  import opened Uris
  import opened EntitySync
  import opened Repository

  const GeorgePage: string := "http://en.wikipedia.org/wiki/George_Washington"
  const GeorgeMovedPage: string := "http://en.wikipedia.org/wiki/George_Washingmoved"
  const GeorgeStatementId: string := "ce976010-412f-637b-c687-9fd2d52dc140"
  const BirthStatementId: string := "9D3713FF-7BCC-489F-9386-C7322C0AC284"
  const ReferenceHash: string := "e36b7373814a0b74caa84a5fc2b1e3297060ab0f"
  const AnbArticle: string := "http://www.anb.org/articles/02/02-00332.html"

  // ---------------------------------------------------------------------
  // Statements the test builds
  // ---------------------------------------------------------------------

  /** A site link: the page is an article, in a language, about the entity. */
  function SiteLink(entityId: string, link: string, language: string): seq<Triple>
  {
    [ Triple(link, RdfType, Uri(SchemaArticle)),
      Triple(link, SchemaInLanguage, Literal(language)),
      Triple(link, SchemaAbout, Uri(EntityUri(entityId))) ]
  }

  /**
   * The triples of an expanded statement: the entity points at a statement
   * node that holds the value (under the value namespace) and the rank.
   */
  function ExpandedTriples(statementId: string, subject: string, propertyId: string, value: Value, rank: string)
    : seq<Triple>
  {
    var node := StatementUri(subject, statementId);
    [ Triple(EntityUri(subject), EntityUri(propertyId), Uri(node)),
      Triple(node, ValueNs + propertyId, value),
      Triple(node, OntologyRank, Uri(rank)) ]
  }

  /** The prov:wasDerivedFrom edge from a statement node to a reference. */
  function Citation(statementId: string, subject: string, referenceUri: string): Triple
  {
    Triple(StatementUri(subject, statementId), ProvWasDerivedFrom, Uri(referenceUri))
  }

  /** Builds an expanded statement by appending its three triples one by one. */
  method ExpandedStatement(statementId: string, subject: string, propertyId: string, value: Value, rank: string)
    returns (statements: seq<Triple>)
    ensures statements == ExpandedTriples(statementId, subject, propertyId, value, rank)
  {
    statements := [];
    var statementUri := StatementNs + subject + "-" + statementId;
    statements := statements + [Triple(EntityUri(subject), EntityUri(propertyId), Uri(statementUri))];
    statements := statements + [Triple(statementUri, ValueNs + propertyId, value)];
    statements := statements + [Triple(statementUri, OntologyRank, Uri(rank))];
  }

  /** An expanded statement whose statement node (the subject of its second triple) cites a reference. */
  method ExpandedStatementWithReference(statementId: string, subject: string, propertyId: string, value: Value,
                                        rank: string, referenceUri: string)
    returns (statements: seq<Triple>)
    ensures statements == ExpandedTriples(statementId, subject, propertyId, value, rank)
                          + [Citation(statementId, subject, referenceUri)]
  {
    statements := ExpandedStatement(statementId, subject, propertyId, value, rank);
    var statementUri := statements[1].s;
    statements := statements + [Triple(statementUri, ProvWasDerivedFrom, Uri(referenceUri))];
  }

  /** No triple of an expanded statement is a citation or has a reference node as subject. */
  lemma ExpandedTriplesShape(statementId: string, subject: string, propertyId: string, value: Value, rank: string)
    ensures forall t :: t in ExpandedTriples(statementId, subject, propertyId, value, rank) ==>
      t.p != ProvWasDerivedFrom && !IsReferenceNode(t.s)
      && (t.s == EntityUri(subject) || IsStatementNodeOf(t.s, subject))
  {
    var node := StatementUri(subject, statementId);
    EntityUriKind(subject);
    StatementNodeOfIsStatementNode(node, subject);
    StatementNodeIsNotReference(node);
    assert EntityUri(propertyId)[12] != ProvWasDerivedFrom[12];
    assert (ValueNs + propertyId)[12] != ProvWasDerivedFrom[12];
  }

  /** An expanded statement alone describes its subject completely. */
  lemma ExpandedDescribes(statementId: string, subject: string, propertyId: string, value: Value, rank: string)
    ensures IsDescriptionOf(subject, Elements(ExpandedTriples(statementId, subject, propertyId, value, rank)))
  {
    ExpandedTriplesShape(statementId, subject, propertyId, value, rank);
  }

  /**
   * An expanded statement that cites a reference, together with one triple
   * of that reference, describes its subject completely.
   */
  lemma CitingDescribes(statementId: string, subject: string, propertyId: string, value: Value, rank: string,
                        reference: Triple)
    requires IsReferenceNode(reference.s)
    ensures IsDescriptionOf(subject, Elements(ExpandedTriples(statementId, subject, propertyId, value, rank)
                                              + [Citation(statementId, subject, reference.s), reference]))
  {
    var base := ExpandedTriples(statementId, subject, propertyId, value, rank);
    var cite := Citation(statementId, subject, reference.s);
    var g := Elements(base + [cite, reference]);
    ExpandedTriplesShape(statementId, subject, propertyId, value, rank);
    assert cite in g && reference in g;
    assert CitedBy(g, subject, reference.s);
    StatementNodeOfIsStatementNode(cite.s, subject);
    StatementNodeIsNotReference(cite.s);
    forall u | u in g && IsCitation(u)
      ensures Described(g, u.o.iri)
    {
      ReferenceIsNotStatementNode(reference.s);
      assert u == cite;
    }
  }

  /** A store that describes e alone, with no statement node of another entity, is e's alone. */
  lemma DescriptionSolelyOwned(e: string, g: set<Triple>)
    requires IsDescriptionOf(e, g)
    requires forall u :: u in g && IsStatementNode(u.s) ==> IsStatementNodeOf(u.s, e)
    ensures forall t :: t in g ==> OwnsSubject(g, e, t.s) && !SharedReference(g, e, t)
  {
  }

  // ---------------------------------------------------------------------
  // The test's queries, as set expressions
  // ---------------------------------------------------------------------

  /** SELECT * WHERE {?s schema:about ?o} */
  function AboutRows(g: set<Triple>): set<(string, Value)>
  {
    set t | t in g && t.p == SchemaAbout :: (t.s, t.o)
  }

  /** SELECT * WHERE { entity:E entity:P [ v:P ?value; ontology:rank rank ] } */
  function StatementValues(g: set<Triple>, e: string, property: string, rank: string): set<Value>
  {
    set u | u in g && u.p == ValueNs + property && Triple(EntityUri(e), EntityUri(property), Uri(u.s)) in g
              && Triple(u.s, OntologyRank, Uri(rank)) in g :: u.o
  }

  /** SELECT * WHERE { entity:E entity:P [ v:P ?value; prov:wasDerivedFrom [ ?provP ?provO ] ] } */
  function ReferenceRows(g: set<Triple>, e: string, property: string): set<(Value, string, Value)>
  {
    set u, r | u in g && r in g && u.p == ValueNs + property
                 && Triple(EntityUri(e), EntityUri(property), Uri(u.s)) in g
                 && Triple(u.s, ProvWasDerivedFrom, Uri(r.s)) in g :: (u.o, r.p, r.o)
  }

  /** SELECT * WHERE { ?s ?p ?o . FILTER(STRSTARTS(STR(?s), reference namespace)) } */
  function ReferenceNamespaceRows(g: set<Triple>): set<(string, Value)>
  {
    set t | t in g && IsReferenceNode(t.s) :: (t.p, t.o)
  }

  // ---------------------------------------------------------------------
  // Site links and labels
  // ---------------------------------------------------------------------

  lemma GeorgePagesAreExternal()
    ensures IsExternalPage(GeorgePage) && IsExternalPage(GeorgeMovedPage)
  {
    assert GeorgePage[7] != EntityNs[7] && GeorgePage[7] != ReferenceNs[7];
    assert GeorgeMovedPage[7] != EntityNs[7] && GeorgeMovedPage[7] != ReferenceNs[7];
  }

  /** A store holding one site link of e and nothing else is e's alone. */
  lemma SiteLinkSolelyOwned(e: string, link: string, language: string)
    requires IsExternalPage(link)
    ensures forall t :: t in Elements(SiteLink(e, link, language)) ==>
      OwnsSubject(Elements(SiteLink(e, link, language)), e, t.s)
      && !SharedReference(Elements(SiteLink(e, link, language)), e, t)
  {
    assert SiteLink(e, link, language)[2] in Elements(SiteLink(e, link, language));
  }

  /** A site link answers the about-query with exactly its page and entity. */
  lemma SiteLinkRows(e: string, link: string, language: string)
    ensures AboutRows(Elements(SiteLink(e, link, language))) == {(link, Uri(EntityUri(e)))}
  {
    assert SiteLink(e, link, language)[2] in Elements(SiteLink(e, link, language));
  }

  /** Moving George's site link leaves only the moved page's triples. */
  lemma MovedSiteLinkStore()
    ensures Synced(Elements(SiteLink("Q23", GeorgePage, "en")), "Q23", Elements(SiteLink("Q23", GeorgeMovedPage, "en")))
            == Elements(SiteLink("Q23", GeorgeMovedPage, "en"))
  {
    GeorgePagesAreExternal();
    SiteLinkSolelyOwned("Q23", GeorgePage, "en");
    SyncReplacesSoleOwner(Elements(SiteLink("Q23", GeorgePage, "en")), "Q23",
                          Elements(SiteLink("Q23", GeorgeMovedPage, "en")));
  }

  method NewSiteLink() returns (rows: set<(string, Value)>)
    ensures rows == {(GeorgePage, Uri(EntityUri("Q23")))}
  {
    var repo := new RdfRepository();
    var _ := repo.Sync("Q23", SiteLink("Q23", GeorgePage, "en"));
    SiteLinkRows("Q23", GeorgePage, "en");
    rows := AboutRows(repo.triples);
  }

  /** The old page is gone: only the moved page is about Q23. */
  method MoveSiteLink() returns (rows: set<(string, Value)>)
    ensures rows == {(GeorgeMovedPage, Uri(EntityUri("Q23")))}
  {
    var repo := new RdfRepository();
    var _ := repo.Sync("Q23", SiteLink("Q23", GeorgePage, "en"));
    MovedSiteLinkStore();
    var _ := repo.Sync("Q23", SiteLink("Q23", GeorgeMovedPage, "en"));
    SiteLinkRows("Q23", GeorgeMovedPage, "en");
    rows := AboutRows(repo.triples);
  }

  method NewLabel() returns (rows: set<Triple>)
    ensures rows == {Triple(EntityUri("Q23"), RdfsLabel, LangLiteral("George Washington", "en"))}
  {
    var repo := new RdfRepository();
    var _ := repo.Sync("Q23", [Triple(EntityUri("Q23"), RdfsLabel, LangLiteral("George Washington", "en"))]);
    rows := repo.triples;
  }

  method ChangedLabel() returns (rows: set<Triple>)
    ensures rows == {Triple(EntityUri("Q23"), RdfsLabel, LangLiteral("George Washingmoved", "en"))}
  {
    var repo := new RdfRepository();
    var _ := repo.Sync("Q23", [Triple(EntityUri("Q23"), RdfsLabel, LangLiteral("George Washington", "en"))]);
    EntityUriKind("Q23");
    SyncReplacesSoleOwner(repo.triples, "Q23",
      {Triple(EntityUri("Q23"), RdfsLabel, LangLiteral("George Washingmoved", "en"))});
    var _ := repo.Sync("Q23", [Triple(EntityUri("Q23"), RdfsLabel, LangLiteral("George Washingmoved", "en"))]);
    rows := repo.triples;
  }

  method NewLabelWithQuotes() returns (rows: set<Triple>)
    ensures rows == {Triple(EntityUri("Q23"), RdfsLabel, LangLiteral("George \"Cherry Tree\" Washington", "en"))}
  {
    var repo := new RdfRepository();
    var _ := repo.Sync("Q23",
      [Triple(EntityUri("Q23"), RdfsLabel, LangLiteral("George \"Cherry Tree\" Washington", "en"))]);
    rows := repo.triples;
  }

  method StatementWithBackslash() returns (rows: set<Triple>)
    ensures rows == {Triple(EntityUri("Q42"), EntityUri("P396"), Literal("IT\\ICCU\\RAVV\\034417"))}
  {
    var repo := new RdfRepository();
    var _ := repo.Sync("Q42", [Triple(EntityUri("Q42"), EntityUri("P396"), Literal("IT\\ICCU\\RAVV\\034417"))]);
    rows := repo.triples;
  }

  /** Two labels with the same text and different language tags are two triples. */
  method NewLabelLanguage() returns (rows: set<Triple>)
    ensures rows == {Triple(EntityUri("Q23"), RdfsLabel, LangLiteral("George Washington", "de")),
                     Triple(EntityUri("Q23"), RdfsLabel, LangLiteral("George Washington", "en"))}
    ensures |rows| == 2
  {
    var en := Triple(EntityUri("Q23"), RdfsLabel, LangLiteral("George Washington", "en"));
    var de := Triple(EntityUri("Q23"), RdfsLabel, LangLiteral("George Washington", "de"));
    var repo := new RdfRepository();
    var _ := repo.Sync("Q23", [en]);
    LabelAdded("Q23", en, de);
    var _ := repo.Sync("Q23", [en, de]);
    rows := repo.triples;
  }

  /**
   * Syncing e to one label and then to that label and a second one leaves
   * both.
   */
  lemma LabelAdded(e: string, first: Triple, second: Triple)
    requires first.s == EntityUri(e) && second.s == EntityUri(e)
    ensures Synced(Synced({}, e, Elements([first])), e, Elements([first, second])) == {first, second}
  {
    assert Elements([first]) == {first};
    assert Elements([first, second]) == {first, second};
    EntityUriKind(e);
    SyncReplacesSoleOwner({first}, e, {first, second});
  }

  // ---------------------------------------------------------------------
  // A statement pointing at another entity
  // ---------------------------------------------------------------------

  const SpouseLink: Triple := Triple(EntityUri("Q23"), EntityUri("P26"), Uri(EntityUri("Q191789")))
  const GeorgeDeathPlace: Triple := Triple(EntityUri("Q23"), EntityUri("P20"), Uri(EntityUri("Q494413")))
  const MarthaDeathPlace: Triple := Triple(EntityUri("Q191789"), EntityUri("P20"), Uri(EntityUri("Q731635")))

  lemma TestEntityIdsValid()
    ensures ValidEntityId("Q23") && ValidEntityId("Q191789") && ValidEntityId("Q1234134") && ValidEntityId("Q80")
  {
  }

  lemma SpouseLinkDistinct()
    ensures SpouseLink != GeorgeDeathPlace && SpouseLink != MarthaDeathPlace
  {
    assert SpouseLink.p[|EntityNs| + 2] != GeorgeDeathPlace.p[|EntityNs| + 2];
    assert SpouseLink.s[|EntityNs| + 2] != MarthaDeathPlace.s[|EntityNs| + 2];
  }

  /** The store after George's first sync holds his two statements. */
  lemma GeorgeFirstStore()
    ensures Synced({}, "Q23", Elements([SpouseLink, GeorgeDeathPlace])) == {SpouseLink, GeorgeDeathPlace}
  {
    assert Elements([SpouseLink, GeorgeDeathPlace]) == {SpouseLink, GeorgeDeathPlace};
  }

  /** Syncing Martha leaves George's triples, including the one that points at her. */
  lemma MarthaSyncKeepsGeorge()
    ensures Synced({SpouseLink, GeorgeDeathPlace}, "Q191789", Elements([MarthaDeathPlace]))
            == {SpouseLink, GeorgeDeathPlace, MarthaDeathPlace}
  {
    var g := {SpouseLink, GeorgeDeathPlace};
    assert Elements([MarthaDeathPlace]) == {MarthaDeathPlace};
    TestEntityIdsValid();
    SyncIsolatesOtherEntities(g, "Q191789", "Q23", {MarthaDeathPlace}, SpouseLink);
    SyncIsolatesOtherEntities(g, "Q191789", "Q23", {MarthaDeathPlace}, GeorgeDeathPlace);
  }

  /** Re-syncing George without the link drops the link and keeps Martha. */
  lemma GeorgeResyncKeepsMartha()
    ensures Synced({SpouseLink, GeorgeDeathPlace, MarthaDeathPlace}, "Q23", Elements([GeorgeDeathPlace]))
            == {GeorgeDeathPlace, MarthaDeathPlace}
  {
    var g := {SpouseLink, GeorgeDeathPlace, MarthaDeathPlace};
    assert Elements([GeorgeDeathPlace]) == {GeorgeDeathPlace};
    TestEntityIdsValid();
    SyncReplacesEntityTriples(g, "Q23", {GeorgeDeathPlace}, SpouseLink);
    SyncIsolatesOtherEntities(g, "Q23", "Q191789", {GeorgeDeathPlace}, MarthaDeathPlace);
  }

  /**
   * Re-syncing Q23 without its P26 link to Q191789 removes only that link:
   * Q23's other statement and Q191789's own statement stay. The first three
   * results are the asks before the re-sync, the last three those after it.
   */
  method StatementToEntityDoesntRemoveEntity()
    returns (george: bool, link: bool, martha: bool, georgeAfter: bool, linkAfter: bool, marthaAfter: bool)
    ensures george && link && martha
    ensures georgeAfter && !linkAfter && marthaAfter
  {
    var repo := new RdfRepository();
    GeorgeFirstStore();
    var _ := repo.Sync("Q23", [SpouseLink, GeorgeDeathPlace]);
    MarthaSyncKeepsGeorge();
    var _ := repo.Sync("Q191789", [MarthaDeathPlace]);
    george := GeorgeDeathPlace in repo.triples;
    link := SpouseLink in repo.triples;
    martha := MarthaDeathPlace in repo.triples;
    GeorgeResyncKeepsMartha();
    SpouseLinkDistinct();
    var _ := repo.Sync("Q23", [GeorgeDeathPlace]);
    georgeAfter := GeorgeDeathPlace in repo.triples;
    linkAfter := SpouseLink in repo.triples;
    marthaAfter := MarthaDeathPlace in repo.triples;
  }

  // ---------------------------------------------------------------------
  // Expanded statements
  // ---------------------------------------------------------------------

  /** An expanded statement of a valid entity, alone in the store, is that entity's alone. */
  lemma ExpandedSolelyOwned(statementId: string, e: string, propertyId: string, value: Value, rank: string)
    requires ValidEntityId(e)
    ensures var g := Elements(ExpandedTriples(statementId, e, propertyId, value, rank));
      forall t :: t in g ==> OwnsSubject(g, e, t.s) && !SharedReference(g, e, t)
  {
    var g := Elements(ExpandedTriples(statementId, e, propertyId, value, rank));
    ExpandedDescribes(statementId, e, propertyId, value, rank);
    ExpandedTriplesShape(statementId, e, propertyId, value, rank);
    EntityUriKind(e);
    DescriptionSolelyOwned(e, g);
  }

  /** Re-syncing an expanded statement replaces the old value and rank with the new ones. */
  lemma ExpandedResync(statementId: string, e: string, propertyId: string, v1: Value, r1: string, v2: Value, r2: string)
    requires ValidEntityId(e)
    ensures Synced(Elements(ExpandedTriples(statementId, e, propertyId, v1, r1)), e,
                   Elements(ExpandedTriples(statementId, e, propertyId, v2, r2)))
            == Elements(ExpandedTriples(statementId, e, propertyId, v2, r2))
  {
    ExpandedSolelyOwned(statementId, e, propertyId, v1, r1);
    SyncReplacesSoleOwner(Elements(ExpandedTriples(statementId, e, propertyId, v1, r1)), e,
                          Elements(ExpandedTriples(statementId, e, propertyId, v2, r2)));
  }

  /** The value query finds an expanded statement's value under its own rank and under no other. */
  lemma ExpandedValues(statementId: string, e: string, propertyId: string, value: Value, rank: string, queried: string)
    ensures StatementValues(Elements(ExpandedTriples(statementId, e, propertyId, value, rank)), e, propertyId, queried)
            == if rank == queried then {value} else {}
  {
    var ts := ExpandedTriples(statementId, e, propertyId, value, rank);
    assert ts[0].p[24] != ts[1].p[24] && ts[2].p[24] != ts[1].p[24];
    if rank == queried {
      assert ts[1] in Elements(ts) && ts[0] in Elements(ts) && ts[2] in Elements(ts);
    }
  }

  method BasicExpandedStatement() returns (causes: set<Value>)
    ensures causes == {Uri(EntityUri("Q356405"))}
  {
    var george := ExpandedStatement(GeorgeStatementId, "Q23", "P509", Uri(EntityUri("Q356405")), NormalRank);
    var repo := new RdfRepository();
    var _ := repo.Sync("Q23", george);
    ExpandedValues(GeorgeStatementId, "Q23", "P509", Uri(EntityUri("Q356405")), NormalRank, NormalRank);
    causes := StatementValues(repo.triples, "Q23", "P509", NormalRank);
  }

  method ChangedExpandedStatementValue() returns (causes: set<Value>)
    ensures causes == {Uri(EntityUri("Q3736439"))}
  {
    var george := ExpandedStatement(GeorgeStatementId, "Q23", "P509", Uri(EntityUri("Q356405")), NormalRank);
    var repo := new RdfRepository();
    var _ := repo.Sync("Q23", george);
    george := ExpandedStatement(GeorgeStatementId, "Q23", "P509", Uri(EntityUri("Q3736439")), NormalRank);
    TestEntityIdsValid();
    ExpandedResync(GeorgeStatementId, "Q23", "P509", Uri(EntityUri("Q356405")), NormalRank,
                   Uri(EntityUri("Q3736439")), NormalRank);
    var _ := repo.Sync("Q23", george);
    ExpandedValues(GeorgeStatementId, "Q23", "P509", Uri(EntityUri("Q3736439")), NormalRank, NormalRank);
    causes := StatementValues(repo.triples, "Q23", "P509", NormalRank);
  }

  /** The rank is replaced: the statement is found under the new rank only. */
  method ChangedExpandedStatementRank() returns (causes: set<Value>, underOldRank: set<Value>)
    ensures causes == {Uri(EntityUri("Q356405"))}
    ensures underOldRank == {}
  {
    var george := ExpandedStatement(GeorgeStatementId, "Q23", "P509", Uri(EntityUri("Q356405")), NormalRank);
    var repo := new RdfRepository();
    var _ := repo.Sync("Q23", george);
    george := ExpandedStatement(GeorgeStatementId, "Q23", "P509", Uri(EntityUri("Q356405")), DeprecatedRank);
    TestEntityIdsValid();
    ExpandedResync(GeorgeStatementId, "Q23", "P509", Uri(EntityUri("Q356405")), NormalRank,
                   Uri(EntityUri("Q356405")), DeprecatedRank);
    var _ := repo.Sync("Q23", george);
    ExpandedValues(GeorgeStatementId, "Q23", "P509", Uri(EntityUri("Q356405")), DeprecatedRank, DeprecatedRank);
    ExpandedValues(GeorgeStatementId, "Q23", "P509", Uri(EntityUri("Q356405")), DeprecatedRank, NormalRank);
    causes := StatementValues(repo.triples, "Q23", "P509", DeprecatedRank);
    underOldRank := StatementValues(repo.triples, "Q23", "P509", NormalRank);
  }

  // ---------------------------------------------------------------------
  // References
  // ---------------------------------------------------------------------

  /** A triple of the test's reference node: its value for one property. */
  function ReferenceTriple(propertyId: string, target: string): Triple
  {
    Triple(ReferenceUri(ReferenceHash), ValueNs + propertyId, Uri(target))
  }

  /** Place of birth Q494413, the expanded statement the reference tests use. */
  function BirthPlace(e: string): seq<Triple>
  {
    ExpandedTriples(BirthStatementId, e, "P19", Uri(EntityUri("Q494413")), NormalRank)
  }

  /** The place of birth citing the reference node, followed by one triple of that reference. */
  function CitedBirthPlace(e: string, reference: Triple): seq<Triple>
  {
    BirthPlace(e) + [Citation(BirthStatementId, e, ReferenceUri(ReferenceHash)), reference]
  }

  /** The reference as George and the dummy entity first cite it. */
  function AnbReference(): Triple
  {
    ReferenceTriple("P854", AnbArticle)
  }

  /** Where the place-of-birth statement's URIs lie among the namespaces. */
  lemma BirthPlaceNodes(e: string)
    requires ValidEntityId(e)
    ensures IsStatementNodeOf(StatementUri(e, BirthStatementId), e)
    ensures IsStatementNode(StatementUri(e, BirthStatementId)) && !IsReferenceNode(StatementUri(e, BirthStatementId))
    ensures !IsStatementNode(EntityUri(e)) && !IsReferenceNode(EntityUri(e))
    ensures IsReferenceNode(ReferenceUri(ReferenceHash)) && !IsStatementNode(ReferenceUri(ReferenceHash))
  {
    var node := StatementUri(e, BirthStatementId);
    assert StatementPrefix(e) <= node;
    StatementNodeOfIsStatementNode(node, e);
    StatementNodeIsNotReference(node);
    EntityUriKind(e);
    assert ReferenceNs <= ReferenceUri(ReferenceHash);
    ReferenceIsNotStatementNode(ReferenceUri(ReferenceHash));
  }

  /** The predicates of the place-of-birth statement, of its citation and of the reference all differ. */
  lemma BirthPlacePredicatesDistinct()
    ensures ValueNs + "P19" != EntityUri("P19") && ValueNs + "P19" != OntologyRank
    ensures ProvWasDerivedFrom != ValueNs + "P19" && ProvWasDerivedFrom != EntityUri("P19")
    ensures ProvWasDerivedFrom != OntologyRank && ProvWasDerivedFrom != ValueNs + "P854"
    ensures ProvWasDerivedFrom != ValueNs + "P143"
  {
    assert (ValueNs + "P19")[24] != EntityUri("P19")[24];
    assert (ValueNs + "P19")[24] != OntologyRank[24];
    assert (ValueNs + "P19")[12] != ProvWasDerivedFrom[12];
    assert EntityUri("P19")[12] != ProvWasDerivedFrom[12];
    assert OntologyRank[12] != ProvWasDerivedFrom[12];
    assert (ValueNs + "P854")[12] != ProvWasDerivedFrom[12];
    assert (ValueNs + "P143")[12] != ProvWasDerivedFrom[12];
  }

  /** The triples of a place of birth, and of a cited one, as sets. */
  lemma CitedBirthPlaceElements(e: string, reference: Triple)
    ensures Elements(BirthPlace(e)) == {BirthPlace(e)[0], BirthPlace(e)[1], BirthPlace(e)[2]}
    ensures Elements(CitedBirthPlace(e, reference))
            == Elements(BirthPlace(e)) + {Citation(BirthStatementId, e, ReferenceUri(ReferenceHash)), reference}
  {
  }

  /** A plain place of birth: e's triples only, no reference and no citation. */
  lemma BirthPlaceShape(e: string)
    requires ValidEntityId(e)
    ensures forall t :: t in Elements(BirthPlace(e)) ==>
      !IsReferenceNode(t.s) && t.p != ProvWasDerivedFrom && (t.s == EntityUri(e) || IsStatementNodeOf(t.s, e))
  {
    BirthPlaceNodes(e);
    BirthPlacePredicatesDistinct();
    CitedBirthPlaceElements(e, AnbReference());
  }

  /**
   * A cited place of birth: every triple is e's or the reference triple, the
   * reference triple is the only one on a reference node, and the citation
   * is the only other prov:wasDerivedFrom edge.
   */
  lemma CitedBirthPlaceShape(e: string, reference: Triple)
    requires ValidEntityId(e) && reference.s == ReferenceUri(ReferenceHash)
    ensures forall t :: t in Elements(CitedBirthPlace(e, reference)) ==>
      && (t.s == EntityUri(e) || IsStatementNodeOf(t.s, e) || t == reference)
      && (IsReferenceNode(t.s) ==> t == reference)
      && (t.p == ProvWasDerivedFrom && t != reference ==> t == Citation(BirthStatementId, e, ReferenceUri(ReferenceHash)))
  {
    BirthPlaceShape(e);
    BirthPlaceNodes(e);
    CitedBirthPlaceElements(e, reference);
  }

  /** Another entity's cited place of birth says nothing about e, and of the reference only its one triple. */
  lemma CitedBirthPlaceForeign(e: string, other: string, reference: Triple)
    requires ValidEntityId(e) && ValidEntityId(other) && e != other
    requires reference.s == ReferenceUri(ReferenceHash)
    ensures forall t :: t in Elements(CitedBirthPlace(other, reference)) ==>
      t.s != EntityUri(e) && !IsStatementNodeOf(t.s, e) && (t.s == ReferenceUri(ReferenceHash) ==> t == reference)
  {
    CitedBirthPlaceShape(other, reference);
    BirthPlaceNodes(e);
    BirthPlaceNodes(other);
    forall t | t in Elements(CitedBirthPlace(other, reference))
      ensures t.s != EntityUri(e) && !IsStatementNodeOf(t.s, e)
    {
      if t.s == EntityUri(other) {
        EntityUriInjective(e, other);
        NotStatementNodeOf(t.s, e);
      } else if IsStatementNodeOf(t.s, other) {
        StatementNodeOfIsStatementNode(t.s, other);
        EntityUriKind(e);
        if IsStatementNodeOf(t.s, e) {
          StatementNodeOwnerUnique(t.s, e, other);
        }
      } else {
        NotStatementNodeOf(t.s, e);
      }
    }
  }

  /**
   * The reference query over a cited place of birth of e, beside triples of
   * other entities that say nothing else about the reference node, finds one
   * row: the place of birth and the reference's property and value.
   */
  lemma BirthPlaceReferenceRows(e: string, reference: Triple, other: set<Triple>)
    requires ValidEntityId(e) && reference.s == ReferenceUri(ReferenceHash)
    requires forall t :: t in other ==> t.s != EntityUri(e) && !IsStatementNodeOf(t.s, e)
    requires forall t :: t in other && t.s == ReferenceUri(ReferenceHash) ==> t == reference
    ensures ReferenceRows(Elements(CitedBirthPlace(e, reference)) + other, e, "P19")
            == {(Uri(EntityUri("Q494413")), reference.p, reference.o)}
  {
    var ts := CitedBirthPlace(e, reference);
    var g := Elements(ts) + other;
    var row := (Uri(EntityUri("Q494413")), reference.p, reference.o);
    assert ts[0] in g && ts[1] in g && ts[3] in g && ts[4] in g;
    assert row in ReferenceRows(g, e, "P19");
    forall u, r | u in g && r in g && u.p == ValueNs + "P19"
                  && Triple(EntityUri(e), EntityUri("P19"), Uri(u.s)) in g
                  && Triple(u.s, ProvWasDerivedFrom, Uri(r.s)) in g
      ensures (u.o, r.p, r.o) == row
    {
      BirthPlaceValueUnique(e, reference, other, u);
      BirthPlaceCitationUnique(e, reference, other, r);
    }
  }

  /** The only place-of-birth value reachable from e's URI is the one of its own statement node. */
  lemma BirthPlaceValueUnique(e: string, reference: Triple, other: set<Triple>, u: Triple)
    requires ValidEntityId(e) && reference.s == ReferenceUri(ReferenceHash)
    requires forall t :: t in other ==> t.s != EntityUri(e) && !IsStatementNodeOf(t.s, e)
    requires u in Elements(CitedBirthPlace(e, reference)) + other && u.p == ValueNs + "P19"
    requires Triple(EntityUri(e), EntityUri("P19"), Uri(u.s)) in Elements(CitedBirthPlace(e, reference)) + other
    ensures u == CitedBirthPlace(e, reference)[1]
  {
    var bp := BirthPlace(e);
    var x := Triple(EntityUri(e), EntityUri("P19"), Uri(u.s));
    BirthPlaceNodes(e);
    BirthPlacePredicatesDistinct();
    CitedBirthPlaceElements(e, reference);
    assert x in Elements(CitedBirthPlace(e, reference));
    assert x == bp[0];
    assert u in Elements(CitedBirthPlace(e, reference));
  }

  /** The statement node of e's place of birth cites only the reference, and only its triple describes it. */
  lemma BirthPlaceCitationUnique(e: string, reference: Triple, other: set<Triple>, r: Triple)
    requires ValidEntityId(e) && reference.s == ReferenceUri(ReferenceHash)
    requires forall t :: t in other ==> t.s != EntityUri(e) && !IsStatementNodeOf(t.s, e)
    requires forall t :: t in other && t.s == ReferenceUri(ReferenceHash) ==> t == reference
    requires r in Elements(CitedBirthPlace(e, reference)) + other
    requires Triple(StatementUri(e, BirthStatementId), ProvWasDerivedFrom, Uri(r.s))
             in Elements(CitedBirthPlace(e, reference)) + other
    ensures r == reference
  {
    var c := Triple(StatementUri(e, BirthStatementId), ProvWasDerivedFrom, Uri(r.s));
    BirthPlaceNodes(e);
    BirthPlacePredicatesDistinct();
    CitedBirthPlaceElements(e, reference);
    assert c in Elements(CitedBirthPlace(e, reference));
    assert c == Citation(BirthStatementId, e, ReferenceUri(ReferenceHash));
  }

  /** A cited place of birth alone in the store is e's alone: a re-sync replaces it, reference included. */
  lemma CitedBirthPlaceResync(e: string, r1: Triple, r2: Triple)
    requires ValidEntityId(e) && r1.s == ReferenceUri(ReferenceHash)
    ensures Synced(Elements(CitedBirthPlace(e, r1)), e, Elements(CitedBirthPlace(e, r2)))
            == Elements(CitedBirthPlace(e, r2))
  {
    var g := Elements(CitedBirthPlace(e, r1));
    CitedBirthPlaceShape(e, r1);
    BirthPlaceNodes(e);
    CitingDescribes(BirthStatementId, e, "P19", Uri(EntityUri("Q494413")), NormalRank, r1);
    forall u | u in g && IsStatementNode(u.s)
      ensures IsStatementNodeOf(u.s, e)
    {
    }
    DescriptionSolelyOwned(e, g);
    SyncReplacesSoleOwner(g, e, Elements(CitedBirthPlace(e, r2)));
  }

  /** The reference query on a store holding only e's cited place of birth. */
  lemma CitedBirthPlaceRows(e: string, reference: Triple)
    requires ValidEntityId(e) && reference.s == ReferenceUri(ReferenceHash)
    ensures ReferenceRows(Elements(CitedBirthPlace(e, reference)), e, "P19")
            == {(Uri(EntityUri("Q494413")), reference.p, reference.o)}
  {
    BirthPlaceReferenceRows(e, reference, {});
    assert Elements(CitedBirthPlace(e, reference)) + {} == Elements(CitedBirthPlace(e, reference));
  }

  /** Builds Q23's place of birth citing the reference, plus one reference triple, as the test does. */
  method GeorgeWithReference(propertyId: string, target: string) returns (george: seq<Triple>)
    ensures george == CitedBirthPlace("Q23", ReferenceTriple(propertyId, target))
  {
    var referenceUri := ReferenceNs + ReferenceHash;
    george := ExpandedStatementWithReference(BirthStatementId, "Q23", "P19", Uri(EntityUri("Q494413")), NormalRank,
                                             referenceUri);
    george := george + [Triple(referenceUri, ValueNs + propertyId, Uri(target))];
  }

  method ReferencesOnExpandedStatements() returns (rows: set<(Value, string, Value)>)
    ensures rows == {(Uri(EntityUri("Q494413")), ValueNs + "P854", Uri(AnbArticle))}
  {
    var george := GeorgeWithReference("P854", AnbArticle);
    var repo := new RdfRepository();
    var _ := repo.Sync("Q23", george);
    TestEntityIdsValid();
    CitedBirthPlaceRows("Q23", AnbReference());
    rows := ReferenceRows(repo.triples, "Q23", "P19");
  }

  /** Re-syncing with a new value for the reference's property replaces the old value. */
  method ReferencesOnExpandedStatementsChangeValue() returns (rows: set<(Value, string, Value)>)
    ensures rows == {(Uri(EntityUri("Q494413")), ValueNs + "P854", Uri("http://example.com"))}
  {
    var george := GeorgeWithReference("P854", AnbArticle);
    var repo := new RdfRepository();
    var _ := repo.Sync("Q23", george);
    george := GeorgeWithReference("P854", "http://example.com");
    TestEntityIdsValid();
    CitedBirthPlaceResync("Q23", AnbReference(), ReferenceTriple("P854", "http://example.com"));
    var _ := repo.Sync("Q23", george);
    CitedBirthPlaceRows("Q23", ReferenceTriple("P854", "http://example.com"));
    rows := ReferenceRows(repo.triples, "Q23", "P19");
  }

  /** Re-syncing with the value under a new property replaces the old property. */
  method ReferencesOnExpandedStatementsChangePredicate() returns (rows: set<(Value, string, Value)>)
    ensures rows == {(Uri(EntityUri("Q494413")), ValueNs + "P143", Uri(AnbArticle))}
  {
    var george := GeorgeWithReference("P854", AnbArticle);
    var repo := new RdfRepository();
    var _ := repo.Sync("Q23", george);
    george := GeorgeWithReference("P143", AnbArticle);
    TestEntityIdsValid();
    CitedBirthPlaceResync("Q23", AnbReference(), ReferenceTriple("P143", AnbArticle));
    var _ := repo.Sync("Q23", george);
    CitedBirthPlaceRows("Q23", ReferenceTriple("P143", AnbArticle));
    rows := ReferenceRows(repo.triples, "Q23", "P19");
  }

  // ---------------------------------------------------------------------
  // A reference shared by two entities
  // ---------------------------------------------------------------------

  /** e's place of birth citing the reference, with one triple of the reference. */
  function CitedStore(e: string, reference: Triple): set<Triple>
  {
    Elements(CitedBirthPlace(e, reference))
  }

  /** e's place of birth without the citation. */
  function PlainStore(e: string): set<Triple>
  {
    Elements(BirthPlace(e))
  }

  /**
   * Two distinct entities whose places of birth cite one reference node,
   * described by a triple that is not itself a citation.
   */
  predicate SharingEntities(e: string, other: string, reference: Triple)
  {
    ValidEntityId(e) && ValidEntityId(other) && e != other
    && reference.s == ReferenceUri(ReferenceHash) && reference.p != ProvWasDerivedFrom
  }

  /** The second entity's sync, citing the same reference, leaves the first entity's triples untouched. */
  lemma SecondCitationKeepsFirst(e: string, other: string, reference: Triple)
    requires SharingEntities(e, other, reference)
    ensures Synced(CitedStore(e, reference), other, CitedStore(other, reference))
            == CitedStore(e, reference) + CitedStore(other, reference)
  {
    var g := CitedStore(e, reference);
    var d := CitedStore(other, reference);
    CitedBirthPlaceShape(e, reference);
    CitedBirthPlaceElements(other, reference);
    forall t | t in g
      ensures t in Synced(g, other, d)
    {
      if t != reference {
        SyncIsolatesOtherEntities(g, other, e, d, t);
      }
    }
  }

  /** When the second entity drops its citation, the reference triple stays: the first still cites it. */
  lemma SharedReferenceOutlivesOneCitation(e: string, other: string, reference: Triple)
    requires SharingEntities(e, other, reference)
    ensures reference in Synced(CitedStore(e, reference) + CitedStore(other, reference), other, PlainStore(other))
  {
    var g := CitedStore(e, reference) + CitedStore(other, reference);
    var refNode := ReferenceUri(ReferenceHash);
    var mine := Citation(BirthStatementId, e, refNode);
    var theirs := Citation(BirthStatementId, other, refNode);
    BirthPlaceNodes(e);
    BirthPlaceShape(other);
    StatementUriInjective(e, BirthStatementId, other, BirthStatementId);
    CitedBirthPlaceElements(e, reference);
    CitedBirthPlaceElements(other, reference);
    assert mine in g && theirs in g;
    assert CitedBy(g, other, refNode);
    assert CitedElsewhere(g, other, refNode);
    ReferenceKeptIffCitedElsewhere(g, other, PlainStore(other), reference);
  }

  /** When the second entity drops its citation, the first entity's triples all stay. */
  lemma DroppingCitationKeepsFirst(e: string, other: string, reference: Triple)
    requires SharingEntities(e, other, reference)
    ensures CitedStore(e, reference)
            <= Synced(CitedStore(e, reference) + CitedStore(other, reference), other, PlainStore(other))
  {
    var g := CitedStore(e, reference) + CitedStore(other, reference);
    CitedBirthPlaceShape(e, reference);
    SharedReferenceOutlivesOneCitation(e, other, reference);
    forall t | t in CitedStore(e, reference)
      ensures t in Synced(g, other, PlainStore(other))
    {
      if t != reference {
        SyncIsolatesOtherEntities(g, other, e, PlainStore(other), t);
      }
    }
  }

  /**
   * The second entity stops citing the reference: its citation goes, and the
   * reference stays because the first entity still cites it.
   */
  lemma DroppingSharedCitation(e: string, other: string, reference: Triple)
    requires SharingEntities(e, other, reference)
    ensures Synced(CitedStore(e, reference) + CitedStore(other, reference), other, PlainStore(other))
            == CitedStore(e, reference) + PlainStore(other)
  {
    var g := CitedStore(e, reference) + CitedStore(other, reference);
    var theirs := Citation(BirthStatementId, other, ReferenceUri(ReferenceHash));
    BirthPlaceNodes(other);
    BirthPlaceShape(other);
    CitedBirthPlaceElements(other, reference);
    CitedBirthPlaceElements(e, reference);
    SyncReplacesEntityTriples(g, other, PlainStore(other), theirs);
    DroppingCitationKeepsFirst(e, other, reference);
  }

  /** Once the second entity's citation is gone, no statement node of another entity cites the reference. */
  lemma OnlyFirstCites(e: string, other: string, reference: Triple)
    requires SharingEntities(e, other, reference)
    ensures !CitedElsewhere(CitedStore(e, reference) + PlainStore(other), e, ReferenceUri(ReferenceHash))
  {
    CitedBirthPlaceShape(e, reference);
    BirthPlaceShape(other);
    BirthPlaceNodes(e);
  }

  /** When the first entity drops the last citation, the reference triple goes. */
  lemma LastCitationCollectsReference(e: string, other: string, reference: Triple)
    requires SharingEntities(e, other, reference)
    ensures reference !in Synced(CitedStore(e, reference) + PlainStore(other), e, PlainStore(e))
  {
    var g := CitedStore(e, reference) + PlainStore(other);
    var refNode := ReferenceUri(ReferenceHash);
    var mine := Citation(BirthStatementId, e, refNode);
    BirthPlaceNodes(e);
    BirthPlaceShape(e);
    CitedBirthPlaceElements(e, reference);
    assert mine in g && reference in g;
    assert CitedBy(g, e, refNode);
    OnlyFirstCites(e, other, reference);
    ReferenceKeptIffCitedElsewhere(g, e, PlainStore(e), reference);
  }

  /** When the first entity drops the last citation, the second entity's triples all stay. */
  lemma LastCitationKeepsSecond(e: string, other: string, reference: Triple)
    requires SharingEntities(e, other, reference)
    ensures PlainStore(other) <= Synced(CitedStore(e, reference) + PlainStore(other), e, PlainStore(e))
  {
    var g := CitedStore(e, reference) + PlainStore(other);
    BirthPlaceShape(other);
    forall t | t in PlainStore(other)
      ensures t in Synced(g, e, PlainStore(e))
    {
      SyncIsolatesOtherEntities(g, e, other, PlainStore(e), t);
    }
  }

  /** The first entity stops citing the reference too: nobody cites it any more, so its triple goes. */
  lemma DroppingLastCitation(e: string, other: string, reference: Triple)
    requires SharingEntities(e, other, reference)
    ensures Synced(CitedStore(e, reference) + PlainStore(other), e, PlainStore(e)) == PlainStore(e) + PlainStore(other)
  {
    var g := CitedStore(e, reference) + PlainStore(other);
    var h := Synced(g, e, PlainStore(e));
    var mine := Citation(BirthStatementId, e, ReferenceUri(ReferenceHash));
    BirthPlaceNodes(e);
    BirthPlaceShape(e);
    CitedBirthPlaceElements(e, reference);
    SyncReplacesEntityTriples(g, e, PlainStore(e), mine);
    LastCitationCollectsReference(e, other, reference);
    LastCitationKeepsSecond(e, other, reference);
    forall t | t in g && t !in PlainStore(e) + PlainStore(other)
      ensures t !in h
    {
      assert t == mine || t == reference;
    }
  }

  /** While shared, and after the second entity drops it, the first entity's reference query still finds it. */
  lemma SharedReferenceRows(e: string, other: string, reference: Triple)
    requires SharingEntities(e, other, reference)
    ensures ReferenceRows(CitedStore(e, reference) + CitedStore(other, reference), e, "P19")
            == {(Uri(EntityUri("Q494413")), reference.p, reference.o)}
    ensures ReferenceRows(CitedStore(e, reference) + PlainStore(other), e, "P19")
            == {(Uri(EntityUri("Q494413")), reference.p, reference.o)}
  {
    CitedBirthPlaceForeign(e, other, reference);
    BirthPlaceReferenceRows(e, reference, CitedStore(other, reference));
    CitedBirthPlaceElements(other, reference);
    BirthPlaceReferenceRows(e, reference, PlainStore(other));
  }

  /** The reference-namespace query over a store whose one reference triple is r. */
  lemma ReferenceNamespaceOnly(g: set<Triple>, r: Triple)
    requires r in g && IsReferenceNode(r.s)
    requires forall t :: t in g && IsReferenceNode(t.s) ==> t == r
    ensures ReferenceNamespaceRows(g) == {(r.p, r.o)}
  {
  }

  /** The reference-namespace query over a store with no reference triple. */
  lemma ReferenceNamespaceEmpty(g: set<Triple>)
    requires forall t :: t in g ==> !IsReferenceNode(t.s)
    ensures ReferenceNamespaceRows(g) == {}
  {
  }

  /** The reference-namespace query: the reference's one triple while cited, nothing once it is collected. */
  lemma ReferenceNamespaceContents(e: string, other: string, reference: Triple)
    requires SharingEntities(e, other, reference)
    ensures ReferenceNamespaceRows(CitedStore(e, reference) + PlainStore(other)) == {(reference.p, reference.o)}
    ensures ReferenceNamespaceRows(PlainStore(e) + PlainStore(other)) == {}
  {
    CitedBirthPlaceShape(e, reference);
    BirthPlaceShape(e);
    BirthPlaceShape(other);
    BirthPlaceNodes(e);
    CitedBirthPlaceElements(e, reference);
    ReferenceNamespaceOnly(CitedStore(e, reference) + PlainStore(other), reference);
    ReferenceNamespaceEmpty(PlainStore(e) + PlainStore(other));
  }

  /**
   * A reference two entities cite survives either one dropping it and is
   * collected when the last citation goes.
   */
  method SharedReferenceCollectedLast()
    returns (whileShared: set<(Value, string, Value)>, afterOneRemoval: set<(Value, string, Value)>,
             referenceTriples: set<(string, Value)>, afterLastRemoval: set<(string, Value)>)
    ensures whileShared == {(Uri(EntityUri("Q494413")), ValueNs + "P854", Uri(AnbArticle))}
    ensures afterOneRemoval == whileShared
    ensures referenceTriples == {(ValueNs + "P854", Uri(AnbArticle))}
    ensures afterLastRemoval == {}
  {
    TestEntityIdsValid();
    BirthPlacePredicatesDistinct();
    assert SharingEntities("Q23", "Q1234134", AnbReference());
    var referenceUri := ReferenceNs + ReferenceHash;
    var george := ExpandedStatementWithReference(BirthStatementId, "Q23", "P19", Uri(EntityUri("Q494413")),
                                                 NormalRank, referenceUri);
    var refDecl := Triple(referenceUri, ValueNs + "P854", Uri(AnbArticle));
    george := george + [refDecl];
    var repo := new RdfRepository();
    var _ := repo.Sync("Q23", george);
    assert repo.triples == CitedStore("Q23", AnbReference());
    var dummy := ExpandedStatementWithReference(BirthStatementId, "Q1234134", "P19", Uri(EntityUri("Q494413")),
                                                NormalRank, referenceUri);
    dummy := dummy + [refDecl];
    assert Elements(dummy) == CitedStore("Q1234134", AnbReference());
    SecondCitationKeepsFirst("Q23", "Q1234134", AnbReference());
    var _ := repo.Sync("Q1234134", dummy);
    SharedReferenceRows("Q23", "Q1234134", AnbReference());
    whileShared := ReferenceRows(repo.triples, "Q23", "P19");

    dummy := ExpandedStatement(BirthStatementId, "Q1234134", "P19", Uri(EntityUri("Q494413")), NormalRank);
    DroppingSharedCitation("Q23", "Q1234134", AnbReference());
    var _ := repo.Sync("Q1234134", dummy);
    afterOneRemoval := ReferenceRows(repo.triples, "Q23", "P19");
    ReferenceNamespaceContents("Q23", "Q1234134", AnbReference());
    referenceTriples := ReferenceNamespaceRows(repo.triples);

    george := ExpandedStatement(BirthStatementId, "Q23", "P19", Uri(EntityUri("Q494413")), NormalRank);
    DroppingLastCitation("Q23", "Q1234134", AnbReference());
    var _ := repo.Sync("Q23", george);
    afterLastRemoval := ReferenceNamespaceRows(repo.triples);
  }

  // ---------------------------------------------------------------------
  // Revisions
  // ---------------------------------------------------------------------

  /** Syncs the entity to nothing but its schema:version. */
  method SyncJustVersion(repo: RdfRepository, entityId: string, version: int)
    modifies repo
    ensures repo.triples == Synced(old(repo.triples), entityId, {VersionTriple(entityId, version)})
  {
    var statement := Triple(EntityUri(entityId), SchemaVersion, IntLiteral(version));
    var _ := repo.Sync(entityId, [statement]);
    assert Elements([statement]) == {VersionTriple(entityId, version)};
  }

  method HasRevisionFalseIfNotPresent() returns (b: bool)
    ensures !b
  {
    var repo := new RdfRepository();
    b := repo.HasRevision("Q23", 10);
  }

  method HasRevisionFalseIfTooEarly() returns (b: bool)
    ensures !b
  {
    var repo := new RdfRepository();
    SyncJustVersion(repo, "Q23", 1);
    JustVersionRevision({}, "Q23", 1, 10);
    b := repo.HasRevision("Q23", 10);
  }

  method HasRevisionTrueIfMatch() returns (b: bool)
    ensures b
  {
    var repo := new RdfRepository();
    SyncJustVersion(repo, "Q23", 10);
    JustVersionRevision({}, "Q23", 10, 10);
    b := repo.HasRevision("Q23", 10);
  }

  method HasRevisionTrueIfAfter() returns (b: bool)
    ensures b
  {
    var repo := new RdfRepository();
    SyncJustVersion(repo, "Q23", 10);
    JustVersionRevision({}, "Q23", 10, 9);
    b := repo.HasRevision("Q23", 9);
  }

  // ---------------------------------------------------------------------
  // Repeated syncs of many statements
  // ---------------------------------------------------------------------

  /** The decimal digit d. */
  function DigitChar(d: nat): char
    requires d < 10
  {
    ('0' as int + d) as char
  }

  /** The decimal form of n, as Integer.toString gives it for a non-negative int. */
  function NatToString(n: nat): (r: string)
    ensures |r| > 0 && forall k :: 0 <= k < |r| ==> '0' <= r[k] <= '9'
  {
    if n < 10 then [DigitChar(n)] else NatToString(n / 10) + [DigitChar(n % 10)]
  }

  /** The page of the i-th generated site link. */
  function NumberedPage(i: nat): string
  {
    "http://" + NatToString(i) + ".example.com/wiki/tbl"
  }

  /** The first n generated site links of Q80, the i-th one in language i. */
  function NumberedSiteLinks(n: nat): seq<Triple>
  {
    if n == 0 then [] else NumberedSiteLinks(n - 1) + SiteLink("Q80", NumberedPage(n - 1), NatToString(n - 1))
  }

  /** Builds the ten site links the way the test's loop does. */
  method NumberedSiteLinkStatements() returns (statements: seq<Triple>)
    ensures statements == NumberedSiteLinks(10)
  {
    statements := [];
    for i := 0 to 10
      invariant statements == NumberedSiteLinks(i)
    {
      var link := "http://" + NatToString(i) + ".example.com/wiki/tbl";
      statements := statements + [Triple(link, RdfType, Uri(SchemaArticle))];
      statements := statements + [Triple(link, SchemaInLanguage, Literal(NatToString(i)))];
      statements := statements + [Triple(link, SchemaAbout, Uri(EntityUri("Q80")))];
    }
  }

  /** A generated page lies outside the entity and reference namespaces. */
  lemma NumberedPageExternal(i: nat)
    ensures IsExternalPage(NumberedPage(i))
  {
    var page := NumberedPage(i);
    assert page[7] == NatToString(i)[0];
    assert EntityNs[7] == 'w' && ReferenceNs[7] == 'w';
  }

  /** Every generated triple is on a generated page with a smaller index, and is no citation. */
  lemma {:induction false} NumberedSiteLinksSubjects(n: nat)
    ensures forall t :: t in NumberedSiteLinks(n) ==>
      (exists i :: 0 <= i < n && t.s == NumberedPage(i)) && t.p != ProvWasDerivedFrom
  {
    if n > 0 {
      NumberedSiteLinksSubjects(n - 1);
      var last := SiteLink("Q80", NumberedPage(n - 1), NatToString(n - 1));
      forall t | t in last
        ensures (exists i :: 0 <= i < n && t.s == NumberedPage(i)) && t.p != ProvWasDerivedFrom
      {
        assert t.s == NumberedPage(n - 1);
      }
    }
  }

  /** The generated site links describe Q80 completely: each page carries its about-edge to Q80. */
  lemma {:induction false} NumberedSiteLinksDescribe(n: nat)
    ensures IsDescriptionOf("Q80", Elements(NumberedSiteLinks(n)))
  {
    var g := Elements(NumberedSiteLinks(n));
    if n > 0 {
      NumberedSiteLinksDescribe(n - 1);
      var prev := Elements(NumberedSiteLinks(n - 1));
      var last := SiteLink("Q80", NumberedPage(n - 1), NatToString(n - 1));
      NumberedPageExternal(n - 1);
      assert last[2] in g;
      forall t | t in g
        ensures OwnsSubject(g, "Q80", t.s)
      {
        if t in prev {
          OwnsSubjectMonotone(prev, g, "Q80", t.s);
        }
      }
    }
    NumberedSiteLinksSubjects(n);
    forall t | t in g
      ensures !IsReferenceNode(t.s)
    {
      var i :| 0 <= i < n && t.s == NumberedPage(i);
      NumberedPageExternal(i);
    }
  }

  /** The triples whose object is o: the rows of SELECT (COUNT(?s) as ?sc) WHERE {?s ?p o}. */
  function CountWithObject(g: set<Triple>, o: Value): nat
  {
    |set t | t in g && t.o == o|
  }

  /** The triples whose subject is s: the rows of SELECT (COUNT(?p) as ?sc) WHERE {s ?p ?o}. */
  function CountWithSubject(g: set<Triple>, s: string): nat
  {
    |set t | t in g && t.s == s|
  }

  /** Single-digit pages are distinct. */
  lemma NumberedPageInjective(i: nat, j: nat)
    requires i < 10 && j < 10 && i != j
    ensures NumberedPage(i) != NumberedPage(j)
  {
    assert NumberedPage(i)[7] == DigitChar(i);
    assert NumberedPage(j)[7] == DigitChar(j);
  }

  /** The generated triples that point at Q80. */
  function NumberedAboutTriples(n: nat): set<Triple>
  {
    set t | t in Elements(NumberedSiteLinks(n)) && t.o == Uri(EntityUri("Q80"))
  }

  /** One more site link adds exactly its about-edge to the triples pointing at Q80. */
  lemma NumberedAboutStep(n: nat)
    requires n > 0
    ensures NumberedAboutTriples(n)
            == NumberedAboutTriples(n - 1) + {SiteLink("Q80", NumberedPage(n - 1), NatToString(n - 1))[2]}
  {
    var last := SiteLink("Q80", NumberedPage(n - 1), NatToString(n - 1));
    var q := Uri(EntityUri("Q80"));
    assert Elements(NumberedSiteLinks(n)) == Elements(NumberedSiteLinks(n - 1)) + {last[0], last[1], last[2]};
    assert last[0].o != q by {
      assert last[0].o.iri[7] != EntityUri("Q80")[7];
    }
    PointingAtAfterAdding(Elements(NumberedSiteLinks(n - 1)), last[0], last[1], last[2], q);
  }

  /** Adding three triples of which only the last points at o adds just that one to those pointing at o. */
  lemma PointingAtAfterAdding(g: set<Triple>, a: Triple, b: Triple, c: Triple, o: Value)
    requires a.o != o && b.o != o && c.o == o
    ensures (set t | t in g + {a, b, c} && t.o == o) == (set t | t in g && t.o == o) + {c}
  {
  }

  /** Below ten, the new about-edge is on a page no earlier site link used. */
  lemma NumberedAboutFresh(n: nat)
    requires 0 < n <= 10
    ensures SiteLink("Q80", NumberedPage(n - 1), NatToString(n - 1))[2] !in NumberedAboutTriples(n - 1)
  {
    var last := SiteLink("Q80", NumberedPage(n - 1), NatToString(n - 1));
    NumberedSiteLinksSubjects(n - 1);
    forall t | t in NumberedSiteLinks(n - 1)
      ensures t.s != last[2].s
    {
      var i :| 0 <= i < n - 1 && t.s == NumberedPage(i);
      NumberedPageInjective(i, n - 1);
    }
  }

  /** Up to ten generated site links point at Q80 once each. */
  lemma {:induction false} NumberedSiteLinksCount(n: nat)
    requires n <= 10
    ensures CountWithObject(Elements(NumberedSiteLinks(n)), Uri(EntityUri("Q80"))) == n
  {
    assert CountWithObject(Elements(NumberedSiteLinks(n)), Uri(EntityUri("Q80"))) == |NumberedAboutTriples(n)|;
    if n > 0 {
      NumberedSiteLinksCount(n - 1);
      assert |NumberedAboutTriples(n - 1)| == n - 1;
      NumberedAboutStep(n);
      NumberedAboutFresh(n);
    }
  }

  /** The first n generated statements of Q80: property Pi with the integer i. */
  function NumberedStatements(n: nat): seq<Triple>
  {
    if n == 0 then []
    else NumberedStatements(n - 1) + [Triple(EntityUri("Q80"), EntityUri("P" + NatToString(n - 1)), IntLiteral(n - 1))]
  }

  /** Builds the ten statements the way the test's loop does. */
  method NumberedStatementList() returns (statements: seq<Triple>)
    ensures statements == NumberedStatements(10)
  {
    statements := [];
    for i := 0 to 10
      invariant statements == NumberedStatements(i)
    {
      statements := statements + [Triple(EntityUri("Q80"), EntityUri("P" + NatToString(i)), IntLiteral(i))];
    }
  }

  /** Each generated statement is on Q80, is no citation, and carries an integer below n. */
  lemma {:induction false} NumberedStatementsShape(n: nat)
    ensures forall t :: t in NumberedStatements(n) ==>
      t.s == EntityUri("Q80") && t.p != ProvWasDerivedFrom && t.o.IntLiteral? && 0 <= t.o.n < n
  {
    if n > 0 {
      NumberedStatementsShape(n - 1);
      var p := EntityUri("P" + NatToString(n - 1));
      assert p[12] != ProvWasDerivedFrom[12];
    }
  }

  /** The generated statements describe Q80 completely. */
  lemma NumberedStatementsDescribe(n: nat)
    ensures IsDescriptionOf("Q80", Elements(NumberedStatements(n)))
  {
    NumberedStatementsShape(n);
    EntityUriKind("Q80");
  }

  /** n generated statements are n triples on Q80: no two share their integer. */
  lemma {:induction false} NumberedStatementsCount(n: nat)
    ensures CountWithSubject(Elements(NumberedStatements(n)), EntityUri("Q80")) == n
  {
    if n > 0 {
      NumberedStatementsCount(n - 1);
      NumberedStatementsShape(n - 1);
      var last := Triple(EntityUri("Q80"), EntityUri("P" + NatToString(n - 1)), IntLiteral(n - 1));
      var before := set t | t in Elements(NumberedStatements(n - 1)) && t.s == EntityUri("Q80");
      var after := set t | t in Elements(NumberedStatements(n)) && t.s == EntityUri("Q80");
      assert after == before + {last};
      assert last !in before;
    }
  }

  /** Re-syncing the same ten site links reports no change; Q80 is the object of ten triples. */
  method RepeatedSiteLinksArentModified() returns (secondCount: nat, linked: nat)
    ensures secondCount == 0
    ensures linked == 10
  {
    var statements := NumberedSiteLinkStatements();
    var repo := new RdfRepository();
    var _ := repo.Sync("Q80", statements);
    NumberedSiteLinksDescribe(10);
    SyncIdempotent({}, "Q80", Elements(statements));
    secondCount := repo.Sync("Q80", statements);
    NumberedSiteLinksCount(10);
    linked := CountWithObject(repo.triples, Uri(EntityUri("Q80")));
  }

  /** Re-syncing the same ten statements reports no change; Q80 is the subject of ten triples. */
  method RepeatedStatementsArentModified() returns (secondCount: nat, properties: nat)
    ensures secondCount == 0
    ensures properties == 10
  {
    var statements := NumberedStatementList();
    var repo := new RdfRepository();
    var _ := repo.Sync("Q80", statements);
    NumberedStatementsDescribe(10);
    SyncIdempotent({}, "Q80", Elements(statements));
    secondCount := repo.Sync("Q80", statements);
    NumberedStatementsCount(10);
    properties := CountWithSubject(repo.triples, EntityUri("Q80"));
  }

  /** Syncing Q23 to nothing after its site link empties the store. */
  method Delete() returns (rows: set<Triple>)
    ensures rows == {}
  {
    var repo := new RdfRepository();
    var _ := repo.Sync("Q23", SiteLink("Q23", GeorgePage, "en"));
    GeorgePagesAreExternal();
    SiteLinkSolelyOwned("Q23", GeorgePage, "en");
    SyncReplacesSoleOwner(repo.triples, "Q23", {});
    var _ := repo.Sync("Q23", []);
    rows := repo.triples;
  }
}
