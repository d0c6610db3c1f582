/** The document types, and how a classification is mapped onto one. */
module DocumentTypes {
  import opened Wrappers

  datatype DocumentType =
    | HandwrittenRegister | HandwrittenCeraiLegacy | HandwrittenCeraiModern | HandwrittenRujukLegacy
    | HandwrittenRujukModern
    | TypedBorang4B | TypedNikahLegacy | TypedNikahModern | TypedCeraiLegacy | TypedCeraiModern | TypedRujukLegacy
    | TypedRujukModern

  predicate Handwritten(t: DocumentType) {
    t in {HandwrittenRegister, HandwrittenCeraiLegacy, HandwrittenCeraiModern, HandwrittenRujukLegacy,
          HandwrittenRujukModern}
  }

  /** Every type is handwritten or one of the seven typed ones, and none is both. */
  lemma HandwrittenOrTyped(t: DocumentType)
    ensures Handwritten(t) <==>
            t !in {TypedBorang4B, TypedNikahLegacy, TypedNikahModern, TypedCeraiLegacy, TypedCeraiModern, TypedRujukLegacy,
                   TypedRujukModern}
  {
    match t
    case HandwrittenRegister => case HandwrittenCeraiLegacy => case HandwrittenCeraiModern =>
    case HandwrittenRujukLegacy => case HandwrittenRujukModern =>
    case _ =>
  }

  /** What `marriage-ocr classify` reports about a file. */
  datatype Classification = Classification(
    docType: string,
    recordType: Option<string>,
    layoutVariant: Option<string>,
    status: string,
    configPath: Option<string>)

  const ROUTABLE := "ROUTABLE"
  const NEEDS_MANUAL := "NEEDS_MANUAL_CLASSIFICATION"
  const SKIPPED_JAWI := "SKIPPED_JAWI"
  const UNKNOWN_COMBINATION := "UNKNOWN_ROUTABLE_COMBINATION"

  type RouteKey = (string, Option<string>, Option<string>)

  function KeyOf(c: Classification): RouteKey {
    (c.docType, c.recordType, c.layoutVariant)
  }

  const CLASSIFICATION_TO_DOCUMENT_TYPE: map<RouteKey, DocumentType> := map[
    ("handwritten", Some("nikah"), Some("legacy")) := HandwrittenRegister,
    ("handwritten", Some("cerai"), Some("legacy")) := HandwrittenCeraiLegacy,
    ("handwritten", Some("cerai"), Some("modern")) := HandwrittenCeraiModern,
    ("handwritten", Some("rujuk"), Some("legacy")) := HandwrittenRujukLegacy,
    ("handwritten", Some("rujuk"), Some("modern")) := HandwrittenRujukModern,
    ("typed", Some("nikah"), Some("legacy")) := TypedNikahLegacy,
    ("typed", Some("nikah"), Some("modern")) := TypedNikahModern,
    ("typed", Some("cerai"), Some("legacy")) := TypedCeraiLegacy,
    ("typed", Some("cerai"), Some("modern")) := TypedCeraiModern,
    ("typed", Some("rujuk"), Some("legacy")) := TypedRujukLegacy,
    ("typed", Some("rujuk"), Some("modern")) := TypedRujukModern]

  /** The document type a file is ingested as, or the status it is skipped with. */
  datatype Routed = As(documentType: DocumentType) | Skip(status: string)

  function Route(c: Classification): Routed {
    if c.status != ROUTABLE || c.recordType.None? then Skip(c.status)
    else if KeyOf(c) in CLASSIFICATION_TO_DOCUMENT_TYPE then As(CLASSIFICATION_TO_DOCUMENT_TYPE[KeyOf(c)])
    else Skip(UNKNOWN_COMBINATION)
  }

  /** Which books there are: handwritten and typed ones, legacy and modern, of marriages, divorces and
      reconciliations; there is no modern handwritten marriage register. */
  lemma RouteInWords(c: Classification)
    ensures c.status != "ROUTABLE" ==> Route(c) == Skip(c.status)
    ensures c.status == "ROUTABLE" && c.recordType == None ==> Route(c) == Skip("ROUTABLE")
    ensures c.status == "ROUTABLE" && c.recordType == Some("nikah") && c.docType == "handwritten" ==>
      Route(c) == if c.layoutVariant == Some("legacy") then As(HandwrittenRegister) else Skip("UNKNOWN_ROUTABLE_COMBINATION")
    ensures c.status == "ROUTABLE" && c.recordType == Some("cerai") && c.docType == "handwritten" ==>
      Route(c) == if c.layoutVariant == Some("legacy") then As(HandwrittenCeraiLegacy)
                  else if c.layoutVariant == Some("modern") then As(HandwrittenCeraiModern)
                  else Skip("UNKNOWN_ROUTABLE_COMBINATION")
    ensures c.status == "ROUTABLE" && c.recordType == Some("rujuk") && c.docType == "handwritten" ==>
      Route(c) == if c.layoutVariant == Some("legacy") then As(HandwrittenRujukLegacy)
                  else if c.layoutVariant == Some("modern") then As(HandwrittenRujukModern)
                  else Skip("UNKNOWN_ROUTABLE_COMBINATION")
    ensures c.status == "ROUTABLE" && c.recordType == Some("nikah") && c.docType == "typed" ==>
      Route(c) == if c.layoutVariant == Some("legacy") then As(TypedNikahLegacy)
                  else if c.layoutVariant == Some("modern") then As(TypedNikahModern)
                  else Skip("UNKNOWN_ROUTABLE_COMBINATION")
    ensures c.status == "ROUTABLE" && c.recordType == Some("cerai") && c.docType == "typed" ==>
      Route(c) == if c.layoutVariant == Some("legacy") then As(TypedCeraiLegacy)
                  else if c.layoutVariant == Some("modern") then As(TypedCeraiModern)
                  else Skip("UNKNOWN_ROUTABLE_COMBINATION")
    ensures c.status == "ROUTABLE" && c.recordType == Some("rujuk") && c.docType == "typed" ==>
      Route(c) == if c.layoutVariant == Some("legacy") then As(TypedRujukLegacy)
                  else if c.layoutVariant == Some("modern") then As(TypedRujukModern)
                  else Skip("UNKNOWN_ROUTABLE_COMBINATION")
    ensures c.status == "ROUTABLE" && c.recordType.Some?
            && (c.recordType.value !in {"nikah", "cerai", "rujuk"} || c.docType !in {"handwritten", "typed"}) ==>
      Route(c) == Skip("UNKNOWN_ROUTABLE_COMBINATION")
  {
  }
}
