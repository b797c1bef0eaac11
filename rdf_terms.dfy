/**
 * The statement model: RDF triples as the repository stores them, and the
 * vocabulary the integration test uses.
 */
module RdfTerms {

  /**
   * The object of a triple is a closed variant. Equality is structural, so two
   * literals are equal only when their text, and their language tag if any,
   * are exactly equal; quotes and backslashes are ordinary characters.
   */
  datatype Value =
    | Uri(iri: string)
    | Literal(text: string)
    | LangLiteral(text: string, lang: string)
    | IntLiteral(n: int)

  /** A subject/predicate/object triple; subjects and predicates are URIs. */
  datatype Triple = Triple(s: string, p: string, o: Value)

  /** The statements of a list, as the set the store compares by. */
  function Elements(statements: seq<Triple>): set<Triple>
  {
    set t | t in statements
  }

  const SchemaAbout: string := "http://schema.org/about"
  const SchemaVersion: string := "http://schema.org/version"
  const SchemaArticle: string := "http://schema.org/Article"
  const SchemaInLanguage: string := "http://schema.org/inLanguage"
  const RdfType: string := "http://www.w3.org/1999/02/22-rdf-syntax-ns#type"
  const RdfsLabel: string := "http://www.w3.org/2000/01/rdf-schema#label"
  const ProvWasDerivedFrom: string := "http://www.w3.org/ns/prov#wasDerivedFrom"
  const OntologyRank: string := "http://www.wikidata.org/ontology#rank"
  const NormalRank: string := "http://www.wikidata.org/ontology#NormalRank"
  const DeprecatedRank: string := "http://www.wikidata.org/ontology#DeprecatedRank"
}
