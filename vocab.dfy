/** The IRIs the garden code uses, written out in full. */
module Vocab {

  // RDF (section 5.2 "RDF Collections" of W3C RDF Schema 1.1 for first/rest/nil)
  const RDF_TYPE := "http://www.w3.org/1999/02/22-rdf-syntax-ns#type"
  const RDF_FIRST := "http://www.w3.org/1999/02/22-rdf-syntax-ns#first"
  const RDF_REST := "http://www.w3.org/1999/02/22-rdf-syntax-ns#rest"
  const RDF_NIL := "http://www.w3.org/1999/02/22-rdf-syntax-ns#nil"

  const OWL_SAME_AS := "http://www.w3.org/2002/07/owl#sameAs"

  const DCTERMS_CREATED := "http://purl.org/dc/terms/created"
  const DCTERMS_MODIFIED := "http://purl.org/dc/terms/modified"
  const DCTERMS_CREATOR := "http://purl.org/dc/terms/creator"
  const DCTERMS_TITLE := "http://purl.org/dc/terms/title"
  const DCTERMS_DESCRIPTION := "http://purl.org/dc/terms/description"
  const DCTERMS_FORMAT := "http://purl.org/dc/terms/format"

  const FOAF_DEPICTION := "http://xmlns.com/foaf/0.1/depiction"
  const FOAF_NICK := "http://xmlns.com/foaf/0.1/nick"

  const SKOS_CONCEPT := "http://www.w3.org/2004/02/skos/core#Concept"
  const SKOS_COLLECTION := "http://www.w3.org/2004/02/skos/core#Collection"

  const SIOC_ABOUT := "http://rdfs.org/sioc/ns#about"

  // the garden vocabulary (MY.Garden)
  const GARDEN_ITEM := "https://vocab.mysilio.com/my/garden#Item"
  const GARDEN_CONCEPT := "https://vocab.mysilio.com/my/garden#Concept"
  const GARDEN_TAGGED := "https://vocab.mysilio.com/my/garden#tagged"
  const GARDEN_IMAGE := "https://vocab.mysilio.com/my/garden#Image"
  const GARDEN_FILE := "https://vocab.mysilio.com/my/garden#File"
  const GARDEN_NOTE := "https://vocab.mysilio.com/my/garden#Note"
  const GARDEN_BOOKMARK := "https://vocab.mysilio.com/my/garden#Bookmark"
  const GARDEN_PERSON := "https://vocab.mysilio.com/my/garden#Person"
  const GARDEN_COLLECTION := "https://vocab.mysilio.com/my/garden#Collection"

  /** The namespace every note-body field is written under (`noteNSUrl`). */
  const NOTE_NS := "https://mysilio.garden/ontologies/note#"

  /** Where the client library places things that have only a local name. */
  const LOCAL_NODE := "https://inrupt.com/" + ".well-known/sdk-local-node/"
}
