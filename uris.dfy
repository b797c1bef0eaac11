/**
 * The namespace scheme: entity URIs, statement-node URIs built from the
 * entity and a statement id, and reference-node URIs built from a content
 * hash that is given, not computed.
 */
module Uris {

  const EntityNs: string := "http://www.wikidata.org/entity/"
  const StatementNs: string := "http://www.wikidata.org/entity/statement/"
  const ValueNs: string := "http://www.wikidata.org/value/"
  const ReferenceNs: string := "http://www.wikidata.org/reference/"

  predicate IsIdChar(c: char)
  {
    'A' <= c <= 'Z' || 'a' <= c <= 'z' || '0' <= c <= '9'
  }

  /** Entity and property ids such as Q23 or P509: letters and digits only. */
  predicate ValidEntityId(id: string)
  {
    |id| > 0 && forall i :: 0 <= i < |id| ==> IsIdChar(id[i])
  }

  function EntityUri(id: string): string
  {
    EntityNs + id
  }

  /** Every statement node of an entity starts with this prefix. */
  function StatementPrefix(entityId: string): string
  {
    StatementNs + entityId + "-"
  }

  /** The statement node for one statement id of one entity. */
  function StatementUri(entityId: string, statementId: string): string
  {
    StatementPrefix(entityId) + statementId
  }

  function ReferenceUri(hash: string): string
  {
    ReferenceNs + hash
  }

  predicate IsStatementNode(u: string)
  {
    StatementNs <= u
  }

  predicate IsStatementNodeOf(u: string, entityId: string)
  {
    StatementPrefix(entityId) <= u
  }

  predicate IsReferenceNode(u: string)
  {
    ReferenceNs <= u
  }

  /** A site-link page lives outside the entity and reference namespaces. */
  predicate IsExternalPage(u: string)
  {
    !(EntityNs <= u) && !IsReferenceNode(u)
  }

  /** A statement node of an entity is a statement node, and so lies in the entity namespace. */
  lemma StatementNodeOfIsStatementNode(u: string, entityId: string)
    requires IsStatementNodeOf(u, entityId)
    ensures IsStatementNode(u) && EntityNs <= u && !IsExternalPage(u)
  {
    assert StatementNs <= StatementPrefix(entityId);
    assert EntityNs <= StatementNs;
  }

  /** The statement and reference namespaces are disjoint. */
  lemma StatementNodeIsNotReference(u: string)
    requires IsStatementNode(u)
    ensures !IsReferenceNode(u)
  {
    assert u[24] == StatementNs[24] == 'e';
    assert ReferenceNs[24] == 'r';
  }

  /** The contrapositive: a reference node is never a statement node. */
  lemma ReferenceIsNotStatementNode(u: string)
    requires IsReferenceNode(u)
    ensures !IsStatementNode(u)
  {
    assert u[24] == ReferenceNs[24] == 'r';
    assert StatementNs[24] == 'e';
  }

  /** Distinct ids give distinct entity URIs. */
  lemma EntityUriInjective(a: string, b: string)
    ensures EntityUri(a) == EntityUri(b) ==> a == b
  {
    if EntityUri(a) == EntityUri(b) {
      assert a == EntityUri(a)[|EntityNs|..];
      assert b == EntityUri(b)[|EntityNs|..];
    }
  }

  /** Only a statement node can be the statement node of some entity. */
  lemma NotStatementNodeOf(u: string, entityId: string)
    requires !IsStatementNode(u)
    ensures !IsStatementNodeOf(u, entityId)
  {
    if IsStatementNodeOf(u, entityId) {
      StatementNodeOfIsStatementNode(u, entityId);
    }
  }

  /** An entity URI is never a reference node, and for a valid id never a statement node. */
  lemma EntityUriKind(id: string)
    ensures !IsReferenceNode(EntityUri(id))
    ensures ValidEntityId(id) ==> !IsStatementNode(EntityUri(id))
  {
    var u := EntityUri(id);
    assert u[24] == 'e' && ReferenceNs[24] == 'r';
    if ValidEntityId(id) && |id| >= 10 {
      assert u[40] == id[9] && IsIdChar(id[9]);
      assert StatementNs[40] == '/';
    }
  }

  /** Where a shorter id ends with "-", a longer valid id continues with a letter or digit. */
  lemma StatementPrefixesDiverge(u: string, e1: string, e2: string)
    requires ValidEntityId(e2)
    requires IsStatementNodeOf(u, e1) && |e1| < |e2|
    ensures !IsStatementNodeOf(u, e2)
  {
    var k := |StatementNs| + |e1|;
    assert u[k] == StatementPrefix(e1)[k] == '-';
    assert StatementPrefix(e2)[k] == e2[|e1|] && IsIdChar(e2[|e1|]);
  }

  /**
   * A statement node belongs to one entity only: the "-" after the entity id
   * cannot be part of another entity's id.
   */
  lemma StatementNodeOwnerUnique(u: string, e1: string, e2: string)
    requires ValidEntityId(e1) && ValidEntityId(e2)
    requires IsStatementNodeOf(u, e1) && IsStatementNodeOf(u, e2)
    ensures e1 == e2
  {
    var n := |StatementNs|;
    var p1, p2 := StatementPrefix(e1), StatementPrefix(e2);
    if |e1| < |e2| {
      StatementPrefixesDiverge(u, e1, e2);
      assert false;
    } else if |e2| < |e1| {
      StatementPrefixesDiverge(u, e2, e1);
      assert false;
    } else {
      forall i | 0 <= i < |e1|
        ensures e1[i] == e2[i]
      {
        assert e1[i] == p1[n + i] == u[n + i] == p2[n + i] == e2[i];
      }
    }
  }

  /**
   * Statement-node URIs are collision-free: the node belongs to the entity it
   * was built for, and two nodes are equal only when entity and statement id
   * both are. So one statement id reused on two entities gives two nodes.
   */
  lemma StatementUriInjective(e1: string, s1: string, e2: string, s2: string)
    requires ValidEntityId(e1) && ValidEntityId(e2)
    ensures IsStatementNodeOf(StatementUri(e1, s1), e1)
    ensures IsStatementNodeOf(StatementUri(e1, s1), e2) <==> e1 == e2
    ensures StatementUri(e1, s1) == StatementUri(e2, s2) <==> e1 == e2 && s1 == s2
  {
    var u1 := StatementUri(e1, s1);
    if IsStatementNodeOf(u1, e2) {
      StatementNodeOwnerUnique(u1, e1, e2);
    }
    if u1 == StatementUri(e2, s2) {
      StatementNodeOwnerUnique(u1, e1, e2);
      var k := |StatementPrefix(e1)|;
      assert s1 == u1[k..] == s2;
    }
  }
}
