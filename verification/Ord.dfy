/** Inscription envelopes: `FALSE IF "ord" (tag value)* [empty body-chunk*] ENDIF`. */
module Ord {
  import opened Bytes
  import opened Script

  const PROTOCOL_ID: Bytes := [111, 114, 100]
  const BODY_TAG: Bytes := []

  datatype Inscription = Inscription(
    body: Option<Bytes>,
    contentEncoding: Option<Bytes>,
    contentType: Option<Bytes>,
    delegate: Option<Bytes>,
    duplicateField: bool,
    incompleteField: bool,
    metadata: Option<Bytes>,
    metaprotocol: Option<Bytes>,
    parent: Option<Bytes>,
    pointer: Option<Bytes>,
    unrecognizedEvenField: bool)

  datatype Tag = TPointer | TContentType | TParent | TMetadata | TMetaprotocol | TContentEncoding | TDelegate

  predicate IsChunked(tag: Tag) { tag == TMetadata }

  function TagBytes(tag: Tag): Bytes {
    match tag
    case TPointer => [2]
    case TContentType => [1]
    case TParent => [3]
    case TMetadata => [5]
    case TMetaprotocol => [7]
    case TContentEncoding => [9]
    case TDelegate => [11]
  }

  /** Pieces of at most MAX_SCRIPT_ELEMENT_SIZE bytes, all but the last full. */
  function Chunks(data: Bytes): seq<Bytes> {
    if data == [] then []
    else if |data| <= MAX_SCRIPT_ELEMENT_SIZE then [data]
    else [data[..MAX_SCRIPT_ELEMENT_SIZE]] + Chunks(data[MAX_SCRIPT_ELEMENT_SIZE..])
  }

  /** Whether a field that cannot be split fits into one push. */
  predicate Fits(field: Option<Bytes>) {
    field.Some? ==> |field.value| <= MAX_SCRIPT_ELEMENT_SIZE
  }

  predicate Validate(i: Inscription) {
    && Fits(i.contentType) && Fits(i.contentEncoding) && Fits(i.metaprotocol)
    && Fits(i.parent) && Fits(i.delegate) && Fits(i.pointer)
  }

  /** The payload pushes of one field: `tag value`, once per chunk when chunked. */
  function FieldPushes(tag: Tag, value: Option<Bytes>): seq<Bytes> {
    match value
    case None => []
    case Some(v) =>
      if IsChunked(tag) && v != [] then Tagged(TagBytes(tag), Chunks(v)) else [TagBytes(tag), v]
  }

  function Tagged(tag: Bytes, values: seq<Bytes>): seq<Bytes> {
    if values == [] then [] else [tag, values[0]] + Tagged(tag, values[1..])
  }

  function BodyPushes(body: Option<Bytes>): seq<Bytes> {
    if body.None? then [] else [BODY_TAG] + Chunks(body.value)
  }

  /** Everything an envelope pushes between the protocol id and ENDIF. */
  function Payload(i: Inscription): seq<Bytes> {
    FieldPushes(TContentType, i.contentType) + FieldPushes(TContentEncoding, i.contentEncoding)
    + FieldPushes(TMetaprotocol, i.metaprotocol) + FieldPushes(TParent, i.parent)
    + FieldPushes(TDelegate, i.delegate) + FieldPushes(TPointer, i.pointer)
    + FieldPushes(TMetadata, i.metadata) + BodyPushes(i.body)
  }

  function Pushes(data: seq<Bytes>): seq<Instr> {
    seq(|data|, i requires 0 <= i < |data| => Push(data[i]))
  }

  /** The envelope as a script. */
  function RevealScript(i: Inscription): seq<Instr> {
    [Push([]), Exec(OpIf), Push(PROTOCOL_ID)] + Pushes(Payload(i)) + [Exec(OpEndIf)]
  }

  function RevealScripts(ins: seq<Inscription>): seq<Instr> {
    if ins == [] then [] else RevealScript(ins[0]) + RevealScripts(ins[1..])
  }
}
