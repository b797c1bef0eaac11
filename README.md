# Entity synchronisation of the Wikidata query RDF repository

The Wikidata query service tool keeps an RDF store in step with Wikidata
entities. Its `RdfRepository` has two operations that the integration test
`RdfRepositoryIntegrationTest` drives:

- `sync(entityId, statements)` replaces everything the entity owns in the
  store with the given statements and returns a change count. An entity owns
  the triples on its own URI, the triples of site-link pages that are
  `schema:about` it, the triples of its statement nodes
  (`statement namespace + entity + "-" + statement id`), and the triples of
  the reference nodes its statement nodes cite through `prov:wasDerivedFrom`.
  Reference nodes can be shared. A reference's triples are deleted only when
  no statement node of another entity still cites it. The syncing entity's
  own citations never keep a reference alive, not even a citation it asserts
  again unchanged: a reference whose content changes under the same URI
  loses its old triples.
- `hasRevision(entityId, n)` says whether the stored `schema:version` of the
  entity is at least `n`.

The project models this as follows:

- `rdf_terms.dfy` holds triples, the object variant (URI, plain literal,
  language-tagged literal, integer literal) and the vocabulary.
- `uris.dfy` holds the namespace scheme and the facts that keep entity,
  statement and reference URIs apart.
- `entity_sync.dfy` holds the pure specification of a sync: what an entity
  owns (`Owned`), the store afterwards (`Synced`) and the reported count
  (`ChangeCount`). Its lemmas state the general properties the test checks on
  examples, for every store and entity.
- `repository.dfy` holds the class `RdfRepository` with a `set<Triple>` field.
  Its `Sync` diffs the owned triples against the desired ones, filters the
  removals through the shared-reference check, and updates the field.
- `integration.dfy` holds one method per test case. Each builds a fresh
  repository, syncs into it as the test does, and answers the test's queries
  as set expressions. Each method's postcondition is that test's assertions.
  The statement builders and the two loops of the test are methods with the
  loop invariants they need.

## Model

| member | source | states |
|---|---|---|
| Repository.RdfRepository.Sync | tools/src/test/java/org/wikidata/query/rdf/tool/rdf/RdfRepositoryIntegrationTest.java:35 | the new store is the old one with the entity's owned triples replaced by the desired set, except reference triples another entity still cites; the result is the number of desired triples the entity did not own before plus the number of triples deleted |
| Repository.RdfRepository.HasRevision | tools/src/test/java/org/wikidata/query/rdf/tool/rdf/RdfRepositoryIntegrationTest.java:338-359 | true exactly when the store holds a `schema:version` integer of the entity that is at least the revision asked for |
| EntitySync.Owned | tools/src/test/java/org/wikidata/query/rdf/tool/rdf/RdfRepositoryIntegrationTest.java:45-54 | an entity owns only triples that are in the store |
| EntitySync.Synced | tools/src/test/java/org/wikidata/query/rdf/tool/rdf/RdfRepositoryIntegrationTest.java:253-318 | the desired set is always in the result, nothing outside store and desired set appears, and every removed triple was owned by the entity and was not a reference another entity still cites |
| EntitySync.OwnsSubjectMonotone | tools/src/test/java/org/wikidata/query/rdf/tool/rdf/RdfRepositoryIntegrationTest.java:373-379 | adding triples to a store never takes a subject away from its owner |
| EntitySync.SyncReplacesSoleOwner | tools/src/test/java/org/wikidata/query/rdf/tool/rdf/RdfRepositoryIntegrationTest.java:45-54 | in a store holding only the entity's own, unshared triples, a sync leaves exactly the desired set |
| EntitySync.SyncReplacesEntityTriples | tools/src/test/java/org/wikidata/query/rdf/tool/rdf/RdfRepositoryIntegrationTest.java:166-192 | a triple on the entity's URI or on one of its statement nodes is in the store after the sync exactly when it is in the desired set, so an old label, value or rank never stays beside the new one |
| EntitySync.SyncIsolatesOtherEntities | tools/src/test/java/org/wikidata/query/rdf/tool/rdf/RdfRepositoryIntegrationTest.java:110-130 | syncing one valid entity never removes a triple on another valid entity's URI or statement nodes |
| EntitySync.ReferenceKeptIffCitedElsewhere | tools/src/test/java/org/wikidata/query/rdf/tool/rdf/RdfRepositoryIntegrationTest.java:277-317 | a reference triple the entity cited and no longer asserts survives its sync exactly when a statement node of another entity still cites that reference |
| EntitySync.SyncOwnsExactly | tools/src/test/java/org/wikidata/query/rdf/tool/rdf/RdfRepositoryIntegrationTest.java:45-54 | after syncing an entity to a complete description of it, the entity owns exactly that description |
| EntitySync.OwnedAfterSyncWasClaimed | tools/src/test/java/org/wikidata/query/rdf/tool/rdf/RdfRepositoryIntegrationTest.java:45-54 | an old triple that is not re-asserted and whose subject the entity owns after the sync was removed by the sync |
| EntitySync.SyncIdempotent | tools/src/test/java/org/wikidata/query/rdf/tool/rdf/RdfRepositoryIntegrationTest.java:379-380 | syncing the same complete description a second time leaves the store unchanged and reports zero changes |
| EntitySync.SyncRemovesUnclaimedOwned | tools/src/test/java/org/wikidata/query/rdf/tool/rdf/RdfRepositoryIntegrationTest.java:45-54 | a triple the entity owned and does not assert again, site-link page triples included, is removed exactly when it is not a reference another entity still cites |
| EntitySync.SyncEmptyDeletesEntity | tools/src/test/java/org/wikidata/query/rdf/tool/rdf/RdfRepositoryIntegrationTest.java:413-418 | syncing an entity to the empty list removes every triple it owned, site-link page triples included, except references another entity still cites, and leaves it owning nothing |
| EntitySync.ZeroCountMeansUnchanged | tools/src/test/java/org/wikidata/query/rdf/tool/rdf/RdfRepositoryIntegrationTest.java:404 | a reported count of zero means the store is exactly as before |
| EntitySync.SyncPreservesReferenceIntegrity | tools/src/test/java/org/wikidata/query/rdf/tool/rdf/RdfRepositoryIntegrationTest.java:253-318 | if every reference with triples is cited and every cited reference has triples, the same holds after any sync of a valid entity to a complete description |
| EntitySync.ForeignStatementNodeKept | tools/src/test/java/org/wikidata/query/rdf/tool/rdf/RdfRepositoryIntegrationTest.java:277-280 | a statement node of another entity is never removed by this entity's sync |
| EntitySync.ReferenceStaysCited | tools/src/test/java/org/wikidata/query/rdf/tool/rdf/RdfRepositoryIntegrationTest.java:304-317 | no reference triple is left behind without a citing statement node |
| EntitySync.CitedReferenceStaysDescribed | tools/src/test/java/org/wikidata/query/rdf/tool/rdf/RdfRepositoryIntegrationTest.java:277-291 | no citation is left pointing at a reference whose triples were deleted |
| EntitySync.SyncRecordsRevision | tools/src/test/java/org/wikidata/query/rdf/tool/rdf/RdfRepositoryIntegrationTest.java:343-359 | after a sync the entity has revision at least n exactly when the desired set records such a version |
| EntitySync.JustVersionRevision | tools/src/test/java/org/wikidata/query/rdf/tool/rdf/RdfRepositoryIntegrationTest.java:338-359 | after syncing only version v, hasRevision(n) holds exactly when v >= n; an empty store has no revision |
| Uris.StatementNodeOfIsStatementNode | tools/src/test/java/org/wikidata/query/rdf/tool/rdf/RdfRepositoryIntegrationTest.java:331 | a statement node of an entity lies in the statement namespace and so inside the entity namespace |
| Uris.StatementNodeIsNotReference | tools/src/test/java/org/wikidata/query/rdf/tool/rdf/RdfRepositoryIntegrationTest.java:331 | statement nodes and reference nodes never coincide |
| Uris.ReferenceIsNotStatementNode | tools/src/test/java/org/wikidata/query/rdf/tool/rdf/RdfRepositoryIntegrationTest.java:196 | a reference node is never a statement node |
| Uris.EntityUriInjective | tools/src/test/java/org/wikidata/query/rdf/tool/rdf/RdfRepositoryIntegrationTest.java:382 | two entity ids with the same entity URI are the same id |
| Uris.NotStatementNodeOf | tools/src/test/java/org/wikidata/query/rdf/tool/rdf/RdfRepositoryIntegrationTest.java:331 | a URI outside the statement namespace is no entity's statement node |
| Uris.EntityUriKind | tools/src/test/java/org/wikidata/query/rdf/tool/rdf/RdfRepositoryIntegrationTest.java:382 | an entity URI is never a reference node, and for a valid id never a statement node |
| Uris.StatementPrefixesDiverge | tools/src/test/java/org/wikidata/query/rdf/tool/rdf/RdfRepositoryIntegrationTest.java:331 | the "-" after a shorter id separates its statement nodes from those of a longer valid id |
| Uris.StatementNodeOwnerUnique | tools/src/test/java/org/wikidata/query/rdf/tool/rdf/RdfRepositoryIntegrationTest.java:331 | a statement node belongs to at most one valid entity |
| Uris.StatementUriInjective | tools/src/test/java/org/wikidata/query/rdf/tool/rdf/RdfRepositoryIntegrationTest.java:256-264 | one statement id reused on two entities gives two different statement nodes, each owned only by its entity |
| Integration.ExpandedStatement | tools/src/test/java/org/wikidata/query/rdf/tool/rdf/RdfRepositoryIntegrationTest.java:328-336 | the list built by successive appends is the entity's link to the statement node, the node's value and the node's rank |
| Integration.ExpandedStatementWithReference | tools/src/test/java/org/wikidata/query/rdf/tool/rdf/RdfRepositoryIntegrationTest.java:320-326 | the expanded statement followed by a `prov:wasDerivedFrom` edge from its statement node to the reference |
| Integration.ExpandedTriplesShape | tools/src/test/java/org/wikidata/query/rdf/tool/rdf/RdfRepositoryIntegrationTest.java:328-336 | every triple of an expanded statement is on the entity or its statement node, and none is a citation or on a reference node |
| Integration.ExpandedDescribes | tools/src/test/java/org/wikidata/query/rdf/tool/rdf/RdfRepositoryIntegrationTest.java:328-336 | an expanded statement alone describes its entity completely |
| Integration.CitingDescribes | tools/src/test/java/org/wikidata/query/rdf/tool/rdf/RdfRepositoryIntegrationTest.java:196-201 | an expanded statement citing a reference, with one triple of that reference, describes its entity completely |
| Integration.DescriptionSolelyOwned | tools/src/test/java/org/wikidata/query/rdf/tool/rdf/RdfRepositoryIntegrationTest.java:214-220 | a store that is a complete description of one entity, with no statement node of another, is that entity's alone |
| Integration.GeorgePagesAreExternal | tools/src/test/java/org/wikidata/query/rdf/tool/rdf/RdfRepositoryIntegrationTest.java:35-47 | the two Wikipedia pages lie outside the entity and reference namespaces |
| Integration.SiteLinkSolelyOwned | tools/src/test/java/org/wikidata/query/rdf/tool/rdf/RdfRepositoryIntegrationTest.java:35 | a store holding one site link of an entity is that entity's alone |
| Integration.SiteLinkRows | tools/src/test/java/org/wikidata/query/rdf/tool/rdf/RdfRepositoryIntegrationTest.java:36-41 | the about-query over one site link finds exactly its page and entity |
| Integration.MovedSiteLinkStore | tools/src/test/java/org/wikidata/query/rdf/tool/rdf/RdfRepositoryIntegrationTest.java:45-47 | moving the site link leaves only the moved page's triples |
| Integration.NewSiteLink | tools/src/test/java/org/wikidata/query/rdf/tool/rdf/RdfRepositoryIntegrationTest.java:33-42 | the about-query returns one row: the page, about Q23 |
| Integration.MoveSiteLink | tools/src/test/java/org/wikidata/query/rdf/tool/rdf/RdfRepositoryIntegrationTest.java:44-54 | after the move the about-query returns only the moved page |
| Integration.NewLabel | tools/src/test/java/org/wikidata/query/rdf/tool/rdf/RdfRepositoryIntegrationTest.java:56-67 | the store holds exactly the label with its text and language tag |
| Integration.ChangedLabel | tools/src/test/java/org/wikidata/query/rdf/tool/rdf/RdfRepositoryIntegrationTest.java:69-81 | the store holds exactly the new label; the old one is gone |
| Integration.NewLabelWithQuotes | tools/src/test/java/org/wikidata/query/rdf/tool/rdf/RdfRepositoryIntegrationTest.java:83-94 | the label comes back with its quotes unchanged |
| Integration.StatementWithBackslash | tools/src/test/java/org/wikidata/query/rdf/tool/rdf/RdfRepositoryIntegrationTest.java:96-107 | the literal comes back with its backslashes unchanged |
| Integration.NewLabelLanguage | tools/src/test/java/org/wikidata/query/rdf/tool/rdf/RdfRepositoryIntegrationTest.java:132-150 | the store holds exactly the "de" and the "en" label, two distinct triples |
| Integration.LabelAdded | tools/src/test/java/org/wikidata/query/rdf/tool/rdf/RdfRepositoryIntegrationTest.java:134-137 | re-syncing an entity from one label to that label plus another leaves both |
| Integration.TestEntityIdsValid | tools/src/test/java/org/wikidata/query/rdf/tool/rdf/RdfRepositoryIntegrationTest.java:111-113 | the test's entity ids are letters and digits only |
| Integration.SpouseLinkDistinct | tools/src/test/java/org/wikidata/query/rdf/tool/rdf/RdfRepositoryIntegrationTest.java:111-113 | the P26 link differs from both death-place statements |
| Integration.GeorgeFirstStore | tools/src/test/java/org/wikidata/query/rdf/tool/rdf/RdfRepositoryIntegrationTest.java:114 | George's first sync stores his two statements |
| Integration.MarthaSyncKeepsGeorge | tools/src/test/java/org/wikidata/query/rdf/tool/rdf/RdfRepositoryIntegrationTest.java:115-121 | syncing Q191789 keeps Q23's triples, including the link that points at Q191789 |
| Integration.GeorgeResyncKeepsMartha | tools/src/test/java/org/wikidata/query/rdf/tool/rdf/RdfRepositoryIntegrationTest.java:123-129 | re-syncing Q23 without the link removes the link and keeps Q191789's statement |
| Integration.StatementToEntityDoesntRemoveEntity | tools/src/test/java/org/wikidata/query/rdf/tool/rdf/RdfRepositoryIntegrationTest.java:109-130 | all three asks hold before the re-sync; afterwards the P20 statements hold and the P26 link does not |
| Integration.ExpandedSolelyOwned | tools/src/test/java/org/wikidata/query/rdf/tool/rdf/RdfRepositoryIntegrationTest.java:153-156 | an expanded statement of a valid entity, alone in the store, is that entity's alone |
| Integration.ExpandedResync | tools/src/test/java/org/wikidata/query/rdf/tool/rdf/RdfRepositoryIntegrationTest.java:166-192 | re-syncing an expanded statement replaces the old value and rank with the new ones |
| Integration.ExpandedValues | tools/src/test/java/org/wikidata/query/rdf/tool/rdf/RdfRepositoryIntegrationTest.java:157-162 | the value query finds an expanded statement's value under its own rank and under no other |
| Integration.BasicExpandedStatement | tools/src/test/java/org/wikidata/query/rdf/tool/rdf/RdfRepositoryIntegrationTest.java:152-163 | the query finds exactly the cause of death Q356405 |
| Integration.ChangedExpandedStatementValue | tools/src/test/java/org/wikidata/query/rdf/tool/rdf/RdfRepositoryIntegrationTest.java:165-178 | after the re-sync the query finds exactly the new cause Q3736439 |
| Integration.ChangedExpandedStatementRank | tools/src/test/java/org/wikidata/query/rdf/tool/rdf/RdfRepositoryIntegrationTest.java:180-192 | after the re-sync the value is found under the deprecated rank and no longer under the normal rank |
| Integration.BirthPlaceNodes | tools/src/test/java/org/wikidata/query/rdf/tool/rdf/RdfRepositoryIntegrationTest.java:196-198 | the place-of-birth statement node is the entity's statement node; entity, statement and reference URIs fall in separate namespaces |
| Integration.BirthPlacePredicatesDistinct | tools/src/test/java/org/wikidata/query/rdf/tool/rdf/RdfRepositoryIntegrationTest.java:199-203 | `prov:wasDerivedFrom` differs from every other predicate the reference tests use |
| Integration.CitedBirthPlaceElements | tools/src/test/java/org/wikidata/query/rdf/tool/rdf/RdfRepositoryIntegrationTest.java:196-201 | the cited place of birth is the plain one plus the citation and the reference triple |
| Integration.BirthPlaceShape | tools/src/test/java/org/wikidata/query/rdf/tool/rdf/RdfRepositoryIntegrationTest.java:278-279 | a place of birth without citation has no reference triple and no citation, only the entity's triples |
| Integration.CitedBirthPlaceShape | tools/src/test/java/org/wikidata/query/rdf/tool/rdf/RdfRepositoryIntegrationTest.java:255-260 | in a cited place of birth the reference triple is the only one on a reference node, and the citation is the only other `prov:wasDerivedFrom` edge |
| Integration.CitedBirthPlaceForeign | tools/src/test/java/org/wikidata/query/rdf/tool/rdf/RdfRepositoryIntegrationTest.java:261-264 | another entity's cited place of birth says nothing about this entity and, of the reference, only its one triple |
| Integration.BirthPlaceReferenceRows | tools/src/test/java/org/wikidata/query/rdf/tool/rdf/RdfRepositoryIntegrationTest.java:267-275 | beside other entities' triples, the reference query finds one row: the place of birth and the reference's property and value |
| Integration.BirthPlaceValueUnique | tools/src/test/java/org/wikidata/query/rdf/tool/rdf/RdfRepositoryIntegrationTest.java:203 | the only place-of-birth value reachable from the entity is its own statement node's |
| Integration.BirthPlaceCitationUnique | tools/src/test/java/org/wikidata/query/rdf/tool/rdf/RdfRepositoryIntegrationTest.java:203 | the entity's statement node cites only the reference, described by only its one triple |
| Integration.CitedBirthPlaceResync | tools/src/test/java/org/wikidata/query/rdf/tool/rdf/RdfRepositoryIntegrationTest.java:214-250 | re-syncing the cited place of birth with new reference content leaves only the new content |
| Integration.CitedBirthPlaceRows | tools/src/test/java/org/wikidata/query/rdf/tool/rdf/RdfRepositoryIntegrationTest.java:202-210 | the reference query over the cited place of birth alone finds exactly its one row |
| Integration.GeorgeWithReference | tools/src/test/java/org/wikidata/query/rdf/tool/rdf/RdfRepositoryIntegrationTest.java:196-200 | the list is Q23's cited place of birth followed by the reference's one triple |
| Integration.ReferencesOnExpandedStatements | tools/src/test/java/org/wikidata/query/rdf/tool/rdf/RdfRepositoryIntegrationTest.java:194-211 | the reference query finds exactly Q494413 with P854 and the ANB article |
| Integration.ReferencesOnExpandedStatementsChangeValue | tools/src/test/java/org/wikidata/query/rdf/tool/rdf/RdfRepositoryIntegrationTest.java:213-230 | after the re-sync the reference carries only the new value |
| Integration.ReferencesOnExpandedStatementsChangePredicate | tools/src/test/java/org/wikidata/query/rdf/tool/rdf/RdfRepositoryIntegrationTest.java:232-250 | after the re-sync the reference carries only the new property |
| Integration.SecondCitationKeepsFirst | tools/src/test/java/org/wikidata/query/rdf/tool/rdf/RdfRepositoryIntegrationTest.java:261-264 | a second entity's sync citing the same reference leaves the first entity's triples, and the store is the union of both |
| Integration.SharedReferenceOutlivesOneCitation | tools/src/test/java/org/wikidata/query/rdf/tool/rdf/RdfRepositoryIntegrationTest.java:277-282 | when one entity drops its citation, the reference triple stays because the other still cites it |
| Integration.DroppingCitationKeepsFirst | tools/src/test/java/org/wikidata/query/rdf/tool/rdf/RdfRepositoryIntegrationTest.java:277-280 | when the second entity drops its citation, all of the first entity's triples stay |
| Integration.DroppingSharedCitation | tools/src/test/java/org/wikidata/query/rdf/tool/rdf/RdfRepositoryIntegrationTest.java:277-280 | the store after the second entity drops its citation is the first entity's cited statement plus the second's plain one |
| Integration.OnlyFirstCites | tools/src/test/java/org/wikidata/query/rdf/tool/rdf/RdfRepositoryIntegrationTest.java:304-307 | once the second citation is gone, no other entity's statement node cites the reference |
| Integration.LastCitationCollectsReference | tools/src/test/java/org/wikidata/query/rdf/tool/rdf/RdfRepositoryIntegrationTest.java:304-317 | when the last citing entity drops its citation, the reference triple is deleted |
| Integration.LastCitationKeepsSecond | tools/src/test/java/org/wikidata/query/rdf/tool/rdf/RdfRepositoryIntegrationTest.java:304-307 | that last sync keeps every triple of the other entity |
| Integration.DroppingLastCitation | tools/src/test/java/org/wikidata/query/rdf/tool/rdf/RdfRepositoryIntegrationTest.java:304-307 | after the last citation goes, the store is the two plain statements and nothing else |
| Integration.SharedReferenceRows | tools/src/test/java/org/wikidata/query/rdf/tool/rdf/RdfRepositoryIntegrationTest.java:266-291 | while shared, and after the other entity drops it, the reference query on the first entity finds its one row |
| Integration.ReferenceNamespaceOnly | tools/src/test/java/org/wikidata/query/rdf/tool/rdf/RdfRepositoryIntegrationTest.java:293-302 | over a store whose one reference-node triple is r, the namespace query returns r's property and value only |
| Integration.ReferenceNamespaceEmpty | tools/src/test/java/org/wikidata/query/rdf/tool/rdf/RdfRepositoryIntegrationTest.java:313-317 | over a store without reference-node triples, the namespace query is empty |
| Integration.ReferenceNamespaceContents | tools/src/test/java/org/wikidata/query/rdf/tool/rdf/RdfRepositoryIntegrationTest.java:293-317 | the reference namespace holds the one reference triple while it is cited and nothing once it is collected |
| Integration.SharedReferenceCollectedLast | tools/src/test/java/org/wikidata/query/rdf/tool/rdf/RdfRepositoryIntegrationTest.java:252-318 | the reference is found while shared and after one removal, is the only triple in its namespace, and is gone after the last removal |
| Integration.SyncJustVersion | tools/src/test/java/org/wikidata/query/rdf/tool/rdf/RdfRepositoryIntegrationTest.java:420-424 | the store is the sync of the entity to its `schema:version` triple alone |
| Integration.HasRevisionFalseIfNotPresent | tools/src/test/java/org/wikidata/query/rdf/tool/rdf/RdfRepositoryIntegrationTest.java:338-341 | an empty store has no revision 10 of Q23 |
| Integration.HasRevisionFalseIfTooEarly | tools/src/test/java/org/wikidata/query/rdf/tool/rdf/RdfRepositoryIntegrationTest.java:343-347 | version 1 is not revision 10 |
| Integration.HasRevisionTrueIfMatch | tools/src/test/java/org/wikidata/query/rdf/tool/rdf/RdfRepositoryIntegrationTest.java:349-353 | version 10 is revision 10 |
| Integration.HasRevisionTrueIfAfter | tools/src/test/java/org/wikidata/query/rdf/tool/rdf/RdfRepositoryIntegrationTest.java:355-359 | version 10 is at least revision 9 |
| Integration.NatToString | tools/src/test/java/org/wikidata/query/rdf/tool/rdf/RdfRepositoryIntegrationTest.java:374-376 | the decimal form of a number is non-empty and made of digits |
| Integration.NumberedSiteLinkStatements | tools/src/test/java/org/wikidata/query/rdf/tool/rdf/RdfRepositoryIntegrationTest.java:372-378 | the loop builds the ten site links, the i-th on page i in language i |
| Integration.NumberedPageExternal | tools/src/test/java/org/wikidata/query/rdf/tool/rdf/RdfRepositoryIntegrationTest.java:374 | a generated page lies outside the entity and reference namespaces |
| Integration.NumberedSiteLinksSubjects | tools/src/test/java/org/wikidata/query/rdf/tool/rdf/RdfRepositoryIntegrationTest.java:373-378 | every generated triple is on an earlier generated page, and none is a citation |
| Integration.NumberedSiteLinksDescribe | tools/src/test/java/org/wikidata/query/rdf/tool/rdf/RdfRepositoryIntegrationTest.java:373-379 | the generated site links describe Q80 completely |
| Integration.NumberedPageInjective | tools/src/test/java/org/wikidata/query/rdf/tool/rdf/RdfRepositoryIntegrationTest.java:374 | single-digit indices give distinct pages |
| Integration.NumberedAboutStep | tools/src/test/java/org/wikidata/query/rdf/tool/rdf/RdfRepositoryIntegrationTest.java:375-377 | one more site link adds exactly its about-edge to the triples pointing at Q80 |
| Integration.NumberedAboutFresh | tools/src/test/java/org/wikidata/query/rdf/tool/rdf/RdfRepositoryIntegrationTest.java:373-377 | below ten, the new about-edge is on a page no earlier site link used |
| Integration.NumberedSiteLinksCount | tools/src/test/java/org/wikidata/query/rdf/tool/rdf/RdfRepositoryIntegrationTest.java:381-384 | up to ten generated site links give exactly that many triples pointing at Q80 |
| Integration.NumberedStatementList | tools/src/test/java/org/wikidata/query/rdf/tool/rdf/RdfRepositoryIntegrationTest.java:399-402 | the loop builds the ten statements, the i-th with property Pi and integer i |
| Integration.NumberedStatementsShape | tools/src/test/java/org/wikidata/query/rdf/tool/rdf/RdfRepositoryIntegrationTest.java:400-402 | each generated statement is on Q80, is no citation, and carries an integer below n |
| Integration.NumberedStatementsDescribe | tools/src/test/java/org/wikidata/query/rdf/tool/rdf/RdfRepositoryIntegrationTest.java:400-403 | the generated statements describe Q80 completely |
| Integration.NumberedStatementsCount | tools/src/test/java/org/wikidata/query/rdf/tool/rdf/RdfRepositoryIntegrationTest.java:405-408 | n generated statements are n distinct triples on Q80 |
| Integration.RepeatedSiteLinksArentModified | tools/src/test/java/org/wikidata/query/rdf/tool/rdf/RdfRepositoryIntegrationTest.java:364-386 | the second sync reports 0 changes and ten triples point at Q80 |
| Integration.RepeatedStatementsArentModified | tools/src/test/java/org/wikidata/query/rdf/tool/rdf/RdfRepositoryIntegrationTest.java:391-410 | the second sync reports 0 changes and Q80 is the subject of ten triples |
| Integration.Delete | tools/src/test/java/org/wikidata/query/rdf/tool/rdf/RdfRepositoryIntegrationTest.java:412-418 | syncing Q23 to the empty list after its site link leaves the store empty |

## Left out

- `RdfRepository` itself, `StatementHelper`, `WikibaseUris`, `Ontology` and the base test fixture are not part of this model. Sync's behaviour is taken from what the integration test asserts. The namespaces other than the entity namespace are stand-in IRIs.
- The live store, HTTP and SPARQL: update and query text, prefixes, escaping of literals, and the `query`/`ask` pass-throughs. Each query the test runs is a set expression over the stored triples.
- `ORDER BY ?o` in `newLabelLanguage`: a query returns a set, so the order of the two rows is not modelled, only that exactly those two rows come back.
- `COUNT`: it is modelled as the cardinality of the set of matching triples.
- Computing reference URIs from a content hash: the test passes a fixed hash, and the model takes reference URIs as given strings.
- Concurrent syncs and races between entities sharing a reference: the model is sequential.
- Integer width: revisions and versions are unbounded integers. The test's values are small, so Java's `int` range makes no difference to them.
- `ExpandedStatement` receives the value as an already-built object. The test passes an entity id string that the helper turns into an entity URI.
- Site-link pages count as owned only when they lie outside the entity and reference namespaces. Every page the test uses is an external Wikipedia or example.com URL.
- `Sync` accepts any entity id. The isolation and statement-node uniqueness lemmas, and the lemmas built on them, require ids of letters and digits only (`ValidEntityId`). This is what keeps statement nodes of `Q1` and `Q12` apart. Every id in the test has this form.
- Repository.RdfRepository.Sync: the reported count is not the number of triples that enter the store. A desired triple the entity did not own is counted even when the store already holds it, for instance the shared reference's triple on the second entity's first sync.
- EntitySync.SyncPreservesReferenceIntegrity: requires a complete description. A desired set that asserts a citation again but leaves out the reference's triples deletes the reference's content, because the entity's own citation does not keep it, and leaves a dangling citation.
- EntitySync.SyncOwnsExactly: requires the desired set to describe the entity completely and not to claim a foreign triple it does not itself re-assert. Without this, a sync could adopt a stray page triple through a new `schema:about` edge, so "owns exactly the desired set" fails. Every sync in the test meets the requirement.
- EntitySync.SyncIdempotent: the same requirements as `SyncOwnsExactly`. The adoption requirement is needed for the store to be unchanged by the second sync. The complete-description requirement is needed for the count: a desired triple the entity does not own after the first sync is counted again on the second.
- Integration.NumberedSiteLinksCount: proved for up to ten site links, the test's count. Pages are told apart by their first digit, which separates single-digit indices only.
- Integration.NumberedPageInjective: proved for single-digit indices only, for the same reason.
