/** What the YAML parser works on: tokens, the states it can be in, and tag directives. */
module YamlTokens {
  import opened Keys

  datatype TokenType =
    | STREAM_START | STREAM_END | VERSION_DIRECTIVE | TAG_DIRECTIVE | DOCUMENT_START | DOCUMENT_END
    | BLOCK_SEQUENCE_START | BLOCK_MAPPING_START | BLOCK_END
    | FLOW_SEQUENCE_START | FLOW_SEQUENCE_END | FLOW_MAPPING_START | FLOW_MAPPING_END
    | BLOCK_ENTRY | FLOW_ENTRY | KEY | VALUE | ALIAS | ANCHOR | TAG | SCALAR

  /** A token: value is the text of a scalar, anchor or alias, or the handle of a tag; mark is where it starts. */
  datatype Token = Token(typ: TokenType, value: Bytes, suffix: Bytes, prefix: Bytes, major: nat, minor: nat, plain: bool, mark: nat)

  datatype ParserState =
    | ParseStreamStart | ParseImplicitDocumentStart | ParseDocumentStart | ParseDocumentContent | ParseDocumentEnd
    | ParseBlockNode | ParseBlockNodeOrIndentlessSequence | ParseFlowNode
    | ParseBlockSequenceFirstEntry | ParseBlockSequenceEntry | ParseIndentlessSequenceEntry
    | ParseBlockMappingFirstKey | ParseBlockMappingKey | ParseBlockMappingValue
    | ParseFlowSequenceFirstEntry | ParseFlowSequenceEntry
    | ParseFlowSequenceEntryMappingKey | ParseFlowSequenceEntryMappingValue | ParseFlowSequenceEntryMappingEnd
    | ParseFlowMappingFirstKey | ParseFlowMappingKey | ParseFlowMappingValue | ParseFlowMappingEmptyValue
    | ParseEnd

  datatype TagDirective = TagDirective(handle: Bytes, prefix: Bytes)

  /** '!' for itself and '!!' for the YAML tag namespace. */
  const BANG: Bytes := [33]
  const DEFAULT_PREFIX: Bytes := [116, 97, 103, 58, 121, 97, 109, 108, 46, 111, 114, 103, 44, 50, 48, 48, 50, 58]
  const DEFAULT_TAG_DIRECTIVES: seq<TagDirective> := [TagDirective(BANG, BANG), TagDirective([33, 33], DEFAULT_PREFIX)]
}
