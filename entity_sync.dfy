/**
 * What one entity owns in the store, which of those triples a sync removes,
 * and what the store holds afterwards, as pure functions over a set of
 * triples. The repository class implements these; the lemmas here state the
 * properties its integration test checks, for every store and entity.
 */
module EntitySync {
  import opened RdfTerms
  import opened Uris

  /** A statement node of entity e points at r through prov:wasDerivedFrom. */
  predicate CitedBy(g: set<Triple>, e: string, r: string)
  {
    exists u :: u in g && IsStatementNodeOf(u.s, e) && u.p == ProvWasDerivedFrom && u.o == Uri(r)
  }

  /** Some statement node, of any entity, points at r. */
  predicate Cited(g: set<Triple>, r: string)
  {
    exists u :: u in g && IsStatementNode(u.s) && u.p == ProvWasDerivedFrom && u.o == Uri(r)
  }

  /** A statement node of an entity other than e points at r. */
  predicate CitedElsewhere(g: set<Triple>, e: string, r: string)
  {
    exists u :: u in g && IsStatementNode(u.s) && !IsStatementNodeOf(u.s, e)
      && u.p == ProvWasDerivedFrom && u.o == Uri(r)
  }

  /** A prov:wasDerivedFrom edge from a statement node to a reference node. */
  predicate IsCitation(u: Triple)
  {
    IsStatementNode(u.s) && u.p == ProvWasDerivedFrom && u.o.Uri? && IsReferenceNode(u.o.iri)
  }

  /** Some triple has r as its subject. */
  predicate Described(g: set<Triple>, r: string)
  {
    exists t :: t in g && t.s == r
  }

  /**
   * The triples with subject x belong to entity e in store g: x is the
   * entity itself, a site-link page about it, one of its statement nodes, or
   * a reference node one of its statement nodes cites.
   */
  predicate OwnsSubject(g: set<Triple>, e: string, x: string)
  {
    || x == EntityUri(e)
    || (IsExternalPage(x) && Triple(x, SchemaAbout, Uri(EntityUri(e))) in g)
    || IsStatementNodeOf(x, e)
    || (IsReferenceNode(x) && CitedBy(g, e, x))
  }

  /** Everything entity e currently owns: what a sync compares the desired set with. */
  function Owned(g: set<Triple>, e: string): (r: set<Triple>)
    ensures r <= g
  {
    set t | t in g && OwnsSubject(g, e, t.s)
  }

  /** A triple of a reference node that a statement node of another entity still cites. */
  predicate SharedReference(g: set<Triple>, e: string, t: Triple)
  {
    IsReferenceNode(t.s) && CitedElsewhere(g, e, t.s)
  }

  /**
   * The store after syncing entity e to the desired set: the desired set,
   * every triple e did not own, and the triples of references other entities
   * still cite.
   */
  function Synced(g: set<Triple>, e: string, desired: set<Triple>): (r: set<Triple>)
    ensures desired <= r && r <= g + desired
    ensures forall t :: t in g && t !in r ==> t in Owned(g, e) && !SharedReference(g, e, t)
  {
    (set t | t in g && (!OwnsSubject(g, e, t.s) || SharedReference(g, e, t))) + desired
  }

  /** The count sync reports: additions against what e owned, plus what it deleted. */
  function ChangeCount(g: set<Triple>, e: string, desired: set<Triple>): nat
  {
    |desired - Owned(g, e)| + |g - Synced(g, e, desired)|
  }

  /**
   * A desired set that describes entity e completely: every triple belongs to
   * e within the set itself, every reference it describes is cited by one of
   * e's statement nodes, and every reference it cites is described.
   */
  predicate IsDescriptionOf(e: string, desired: set<Triple>)
  {
    && (forall t :: t in desired ==> OwnsSubject(desired, e, t.s))
    && (forall t :: t in desired && IsReferenceNode(t.s) ==> CitedBy(desired, e, t.s))
    && (forall u :: u in desired && IsCitation(u) ==> Described(desired, u.o.iri))
  }

  /**
   * The desired set claims no triple already in the store unless it asserts
   * it again, or e alone owns it already (so that the sync removes it).
   */
  predicate Adoptable(g: set<Triple>, e: string, desired: set<Triple>)
  {
    forall t :: t in g && t !in desired && OwnsSubject(desired, e, t.s) ==>
      OwnsSubject(g, e, t.s) && !SharedReference(g, e, t)
  }

  /**
   * The reference invariant: a reference node has triples exactly when a
   * statement node cites it.
   */
  predicate ReferenceIntegrity(g: set<Triple>)
  {
    && (forall t :: t in g && IsReferenceNode(t.s) ==> Cited(g, t.s))
    && (forall u :: u in g && IsCitation(u) ==> Described(g, u.o.iri))
  }

  /** Revision of entity e stored as schema:version, at least n. */
  predicate RevisionAtLeast(g: set<Triple>, e: string, n: int)
  {
    exists t :: t in g && t.s == EntityUri(e) && t.p == SchemaVersion && t.o.IntLiteral? && t.o.n >= n
  }

  lemma OwnsSubjectMonotone(g: set<Triple>, h: set<Triple>, e: string, x: string)
    requires g <= h && OwnsSubject(g, e, x)
    ensures OwnsSubject(h, e, x)
  {
    if IsReferenceNode(x) && CitedBy(g, e, x) {
      var u :| u in g && IsStatementNodeOf(u.s, e) && u.p == ProvWasDerivedFrom && u.o == Uri(x);
      assert u in h;
    }
  }

  /** In a store that only e's triples occupy, a sync leaves exactly the desired set. */
  lemma SyncReplacesSoleOwner(g: set<Triple>, e: string, desired: set<Triple>)
    requires forall t :: t in g ==> OwnsSubject(g, e, t.s) && !SharedReference(g, e, t)
    ensures Synced(g, e, desired) == desired
  {
  }

  /**
   * The entity's own triples and its statement nodes' triples are replaced
   * outright: afterwards they are exactly those of the desired set. An old
   * label, value or rank is never kept beside a new one.
   */
  lemma SyncReplacesEntityTriples(g: set<Triple>, e: string, desired: set<Triple>, t: Triple)
    requires t.s == EntityUri(e) || IsStatementNodeOf(t.s, e)
    ensures t in Synced(g, e, desired) <==> t in desired
  {
    if t.s == EntityUri(e) {
      EntityUriKind(e);
    } else {
      StatementNodeOfIsStatementNode(t.s, e);
      StatementNodeIsNotReference(t.s);
    }
    assert OwnsSubject(g, e, t.s) && !SharedReference(g, e, t);
  }

  /**
   * Isolation: syncing e never removes a triple of another entity e2, whether
   * on e2's own URI or on one of e2's statement nodes.
   */
  lemma SyncIsolatesOtherEntities(g: set<Triple>, e: string, e2: string, desired: set<Triple>, t: Triple)
    requires ValidEntityId(e) && ValidEntityId(e2) && e != e2
    requires t in g && (t.s == EntityUri(e2) || IsStatementNodeOf(t.s, e2))
    ensures t in Synced(g, e, desired)
  {
    if t.s == EntityUri(e2) {
      EntityUriKind(e2);
      assert EntityNs <= t.s;
      if IsStatementNodeOf(t.s, e) {
        StatementNodeOfIsStatementNode(t.s, e);
      }
      assert EntityUri(e) != EntityUri(e2) by {
        assert EntityUri(e)[|EntityNs|..] == e;
        assert EntityUri(e2)[|EntityNs|..] == e2;
      }
    } else {
      StatementNodeOfIsStatementNode(t.s, e2);
      StatementNodeIsNotReference(t.s);
      EntityUriKind(e);
      if IsStatementNodeOf(t.s, e) {
        StatementNodeOwnerUnique(t.s, e, e2);
      }
    }
    assert !OwnsSubject(g, e, t.s);
  }

  /**
   * Shared-reference collection: a reference triple that e cited and no
   * longer asserts survives the sync exactly when a statement node of another
   * entity still cites that reference.
   */
  lemma ReferenceKeptIffCitedElsewhere(g: set<Triple>, e: string, desired: set<Triple>, t: Triple)
    requires t in g && t !in desired && IsReferenceNode(t.s) && CitedBy(g, e, t.s)
    ensures t in Synced(g, e, desired) <==> CitedElsewhere(g, e, t.s)
  {
    assert OwnsSubject(g, e, t.s);
  }

  /**
   * After syncing e to a complete description of it, e owns exactly that
   * description: nothing old is kept beside it and nothing of it is lost.
   */
  lemma SyncOwnsExactly(g: set<Triple>, e: string, desired: set<Triple>)
    requires IsDescriptionOf(e, desired) && Adoptable(g, e, desired)
    ensures Owned(Synced(g, e, desired), e) == desired
  {
    var h := Synced(g, e, desired);
    forall t | t in desired
      ensures t in Owned(h, e)
    {
      OwnsSubjectMonotone(desired, h, e, t.s);
    }
    forall t | t in Owned(h, e)
      ensures t in desired
    {
      if t !in desired {
        assert t in g;
        OwnedAfterSyncWasClaimed(g, e, desired, t);
        assert false;
      }
    }
  }

  /** A kept triple that e owns after the sync was owned by e before, or is claimed by the description. */
  lemma OwnedAfterSyncWasClaimed(g: set<Triple>, e: string, desired: set<Triple>, t: Triple)
    requires Adoptable(g, e, desired)
    requires t in g && t !in desired && OwnsSubject(Synced(g, e, desired), e, t.s)
    ensures t !in Synced(g, e, desired)
  {
    var h := Synced(g, e, desired);
    if t.s == EntityUri(e) || IsStatementNodeOf(t.s, e) {
      SyncReplacesEntityTriples(g, e, desired, t);
    } else if IsExternalPage(t.s) && Triple(t.s, SchemaAbout, Uri(EntityUri(e))) in h {
      assert OwnsSubject(desired, e, t.s) || OwnsSubject(g, e, t.s);
    } else {
      assert IsReferenceNode(t.s) && CitedBy(h, e, t.s);
      var u :| u in h && IsStatementNodeOf(u.s, e) && u.p == ProvWasDerivedFrom && u.o == Uri(t.s);
      SyncReplacesEntityTriples(g, e, desired, u);
      assert CitedBy(desired, e, t.s);
    }
  }

  /**
   * Idempotence: syncing the same description twice changes nothing the
   * second time and reports zero changes.
   */
  lemma SyncIdempotent(g: set<Triple>, e: string, desired: set<Triple>)
    requires IsDescriptionOf(e, desired) && Adoptable(g, e, desired)
    ensures Synced(Synced(g, e, desired), e, desired) == Synced(g, e, desired)
    ensures ChangeCount(Synced(g, e, desired), e, desired) == 0
  {
    var h := Synced(g, e, desired);
    SyncOwnsExactly(g, e, desired);
    assert desired - Owned(h, e) == {};
    assert Synced(h, e, desired) == h;
    assert h - Synced(h, e, desired) == {};
  }

  /**
   * Every triple e owned and does not assert again is removed, unless it is
   * a reference another entity still cites; the same holds for site-link
   * page triples as for the entity's own and its statement nodes'.
   */
  lemma SyncRemovesUnclaimedOwned(g: set<Triple>, e: string, desired: set<Triple>, t: Triple)
    requires t in Owned(g, e) && t !in desired
    ensures t in Synced(g, e, desired) <==> SharedReference(g, e, t)
  {
  }

  /**
   * Syncing an entity to nothing deletes everything it owned, site-link
   * page triples included, except references other entities still cite;
   * afterwards it owns no triple at all.
   */
  lemma SyncEmptyDeletesEntity(g: set<Triple>, e: string)
    ensures forall t :: t in Owned(g, e) ==> (t in Synced(g, e, {}) <==> SharedReference(g, e, t))
    ensures Owned(Synced(g, e, {}), e) == {}
  {
    forall t | t in Owned(g, e)
      ensures t in Synced(g, e, {}) <==> SharedReference(g, e, t)
    {
      SyncRemovesUnclaimedOwned(g, e, {}, t);
    }
    forall t | t in g && OwnsSubject({}, e, t.s)
      ensures OwnsSubject(g, e, t.s) && !SharedReference(g, e, t)
    {
      if t.s == EntityUri(e) {
        EntityUriKind(e);
      } else {
        StatementNodeOfIsStatementNode(t.s, e);
        StatementNodeIsNotReference(t.s);
      }
    }
    SyncOwnsExactly(g, e, {});
  }

  /** A reported count of zero means the sync left the store as it was. */
  lemma ZeroCountMeansUnchanged(g: set<Triple>, e: string, desired: set<Triple>)
    requires ChangeCount(g, e, desired) == 0
    ensures Synced(g, e, desired) == g
  {
    assert desired - Owned(g, e) == {};
    assert g - Synced(g, e, desired) == {};
  }

  /**
   * Reference integrity survives every sync of a valid entity to a complete
   * description: no reference is left without a citing statement node, and
   * no cited reference loses its triples.
   */
  lemma SyncPreservesReferenceIntegrity(g: set<Triple>, e: string, desired: set<Triple>)
    requires ValidEntityId(e) && IsDescriptionOf(e, desired) && ReferenceIntegrity(g)
    ensures ReferenceIntegrity(Synced(g, e, desired))
  {
    var h := Synced(g, e, desired);
    forall t | t in h && IsReferenceNode(t.s)
      ensures Cited(h, t.s)
    {
      ReferenceStaysCited(g, e, desired, t);
    }
    forall u | u in h && IsCitation(u)
      ensures Described(h, u.o.iri)
    {
      CitedReferenceStaysDescribed(g, e, desired, u);
    }
  }

  /** A statement node that e does not own as its own is never one e's sync removes. */
  lemma ForeignStatementNodeKept(g: set<Triple>, e: string, desired: set<Triple>, u: Triple)
    requires ValidEntityId(e)
    requires u in g && IsStatementNode(u.s) && !IsStatementNodeOf(u.s, e)
    ensures u in Synced(g, e, desired)
  {
    EntityUriKind(e);
    StatementNodeIsNotReference(u.s);
    assert EntityNs <= StatementNs;
    assert !IsExternalPage(u.s);
    assert !OwnsSubject(g, e, u.s);
  }

  lemma ReferenceStaysCited(g: set<Triple>, e: string, desired: set<Triple>, t: Triple)
    requires ValidEntityId(e) && IsDescriptionOf(e, desired) && ReferenceIntegrity(g)
    requires t in Synced(g, e, desired) && IsReferenceNode(t.s)
    ensures Cited(Synced(g, e, desired), t.s)
  {
    var h := Synced(g, e, desired);
    if t in desired {
      assert CitedBy(desired, e, t.s);
      var u :| u in desired && IsStatementNodeOf(u.s, e) && u.p == ProvWasDerivedFrom && u.o == Uri(t.s);
      StatementNodeOfIsStatementNode(u.s, e);
      assert u in h;
    } else {
      assert t in g && Cited(g, t.s);
      var u :| u in g && IsStatementNode(u.s) && u.p == ProvWasDerivedFrom && u.o == Uri(t.s);
      if IsStatementNodeOf(u.s, e) {
        assert CitedBy(g, e, t.s) && OwnsSubject(g, e, t.s);
        assert SharedReference(g, e, t);
        var w :| w in g && IsStatementNode(w.s) && !IsStatementNodeOf(w.s, e)
          && w.p == ProvWasDerivedFrom && w.o == Uri(t.s);
        ForeignStatementNodeKept(g, e, desired, w);
      } else {
        ForeignStatementNodeKept(g, e, desired, u);
      }
    }
  }

  lemma CitedReferenceStaysDescribed(g: set<Triple>, e: string, desired: set<Triple>, u: Triple)
    requires ValidEntityId(e) && IsDescriptionOf(e, desired) && ReferenceIntegrity(g)
    requires u in Synced(g, e, desired) && IsCitation(u)
    ensures Described(Synced(g, e, desired), u.o.iri)
  {
    var h := Synced(g, e, desired);
    var r := u.o.iri;
    if u in desired {
      var c :| c in desired && c.s == r;
      assert c in h;
    } else {
      assert u in g && !IsStatementNodeOf(u.s, e) by {
        if IsStatementNodeOf(u.s, e) {
          SyncReplacesEntityTriples(g, e, desired, u);
        }
      }
      var c :| c in g && c.s == r;
      assert CitedElsewhere(g, e, r);
      assert c in h;
    }
  }

  /** The stored revision of e after a sync is the one the desired set records. */
  lemma SyncRecordsRevision(g: set<Triple>, e: string, desired: set<Triple>, n: int)
    ensures RevisionAtLeast(Synced(g, e, desired), e, n) <==> RevisionAtLeast(desired, e, n)
  {
    var h := Synced(g, e, desired);
    if RevisionAtLeast(h, e, n) {
      var t :| t in h && t.s == EntityUri(e) && t.p == SchemaVersion && t.o.IntLiteral? && t.o.n >= n;
      SyncReplacesEntityTriples(g, e, desired, t);
    }
  }

  /** The triple syncJustVersion stores: the entity's schema:version. */
  function VersionTriple(e: string, version: int): Triple
  {
    Triple(EntityUri(e), SchemaVersion, IntLiteral(version))
  }

  /**
   * After syncing only a version, the entity has revision n exactly when the
   * version is n or later; an entity with no stored version has none.
   */
  lemma JustVersionRevision(g: set<Triple>, e: string, version: int, n: int)
    ensures RevisionAtLeast(Synced(g, e, {VersionTriple(e, version)}), e, n) <==> version >= n
    ensures !RevisionAtLeast({}, e, n)
  {
    SyncRecordsRevision(g, e, {VersionTriple(e, version)}, n);
  }
}
