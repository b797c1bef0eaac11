/**
 * The repository the integration test drives: an in-memory triple store
 * with sync and hasRevision. Sync follows the algorithm step by step (fetch
 * what the entity owns, diff, filter removals through the reachability
 * check, apply); its postcondition ties the new store to EntitySync.Synced.
 */
module Repository {
  import opened RdfTerms
  import opened Uris
  import opened EntitySync

  class RdfRepository {
    var triples: set<Triple>

    constructor ()
      ensures triples == {}
    {
      triples := {};
    }

    /**
     * Replaces everything the entity owns with the given statements and
     * returns the number of given statements the entity did not own before
     * (whether or not the store already held them) plus the number of
     * triples deleted.
     */
    method Sync(entityId: string, statements: seq<Triple>) returns (changed: nat)
      modifies this
      ensures triples == Synced(old(triples), entityId, Elements(statements))
      ensures changed == ChangeCount(old(triples), entityId, Elements(statements))
    {
      var desired := Elements(statements);
      var current := Owned(triples, entityId);
      var toAdd := desired - current;
      var candidates := current - desired;
      var toRemove := set t | t in candidates && !SharedReference(triples, entityId, t);
      ghost var before := triples;
      triples := (triples - toRemove) + toAdd;
      changed := |toAdd| + |toRemove|;
      assert triples == Synced(before, entityId, desired);
      assert before - triples == toRemove;
    }

    /** Whether the stored revision of the entity is at least the given one. */
    method HasRevision(entityId: string, revision: int) returns (b: bool)
      ensures b <==> RevisionAtLeast(triples, entityId, revision)
    {
      var versions := set t | t in triples && t.s == EntityUri(entityId) && t.p == SchemaVersion
                                && t.o.IntLiteral? :: t.o.n;
      b := exists v :: v in versions && v >= revision;
      assert RevisionAtLeast(triples, entityId, revision) ==> b by {
        if RevisionAtLeast(triples, entityId, revision) {
          var t :| t in triples && t.s == EntityUri(entityId) && t.p == SchemaVersion
                     && t.o.IntLiteral? && t.o.n >= revision;
          assert t.o.n in versions;
        }
      }
    }
  }
}
