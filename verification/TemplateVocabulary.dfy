/**
  The six names a notification payload template may mention.
*/
module TemplateVocabulary {
  /** A UTF-16 code unit, the element of a JavaScript string. */
  type CodeUnit = x: int | 0 <= x < 0x1_0000

  type Text = seq<CodeUnit>

  datatype Variable = Level | Message | Category | Timestamp | StackName | Actor

  /** The variable's name as it is spelled between the braces. */
  function NameOf(v: Variable): Text {
    match v
    case Level => [0x6C, 0x65, 0x76, 0x65, 0x6C]
    case Message => [0x6D, 0x65, 0x73, 0x73, 0x61, 0x67, 0x65]
    case Category => [0x63, 0x61, 0x74, 0x65, 0x67, 0x6F, 0x72, 0x79]
    case Timestamp => [0x74, 0x69, 0x6D, 0x65, 0x73, 0x74, 0x61, 0x6D, 0x70]
    case StackName => [0x73, 0x74, 0x61, 0x63, 0x6B, 0x5F, 0x6E, 0x61, 0x6D, 0x65]
    case Actor => [0x61, 0x63, 0x74, 0x6F, 0x72]
  }

  const OPEN: Text := [0x7B, 0x7B]
  const CLOSE: Text := [0x7D, 0x7D]

  /** The bare token `{{name}}`. */
  function BareToken(v: Variable): Text {
    OPEN + NameOf(v) + CLOSE
  }
}
