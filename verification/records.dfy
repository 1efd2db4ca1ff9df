/** The values the chat flow stores: the per-question response dictionary,
    whose keys may be absent, and the chat transcript entries. */
module Records {

  datatype Option<T> = None | Some(value: T) {
    function GetOr(default: T): T {
      match this
      case Some(v) => v
      case None => default
    }
  }

  /** A response dictionary with its three optional keys: `question`,
      `preset_answer` and `followup_answers`. */
  datatype Response = Response(
    question: Option<string>,
    presetAnswer: Option<string>,
    followupAnswers: Option<seq<string>>)

  /** The empty dictionary `{}`. */
  const EmptyResponse := Response(None, None, None)

  datatype Role = User | Assistant

  /** One transcript entry `{"role": ..., "content": ...}`. */
  datatype Message = Message(role: Role, content: string)
}
