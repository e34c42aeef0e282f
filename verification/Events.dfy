/** The typed events a session produces, shared by every other module. */
module Events {

  datatype Option<+T> = None | Some(value: T)

  /** Who put a message into the conversation, or started the turn of a result. */
  datatype Origin = NoOrigin | Human | TaskNotification | OtherOrigin(kind: string)
  {
    /** An absent origin and a human one both mean that the caller sent it. */
    predicate FromCaller() {
      NoOrigin? || Human?
    }
  }

  /** The session's lifecycle; Ready is the code's StateIdle. */
  datatype Lifecycle = Starting | Ready | Running | Done | Failed

  datatype Activity = Idle | Thinking | AwaitingToolResult

  /** A finished turn; `turn` identifies the turn, `unsolicited` is set by the session. */
  datatype Result = Result(turn: nat, origin: Origin, maxTurns: bool, unsolicited: bool)

  datatype Event =
    | InitEvent(unsolicited: bool)
    | TurnEvent
    | TextEvent(parent: string)
    | ThinkingEvent(parent: string)
    | ToolUseEvent(parent: string, id: string, name: string)
    | ToolResultEvent(parent: string)
    | UserEvent(parent: string, blocks: seq<string>)
    | ResultEvent(result: Result)
    | ErrorEvent(err: string, fatal: bool)
    | StateChangeEvent(activity: Activity)
    | ToolProgressEvent(toolUseId: string)
    | CLIExitEvent
    | StderrEvent(content: string)
    | BarrierEvent
    | OtherEvent(kind: string)
  {
    /** The events after which no query is active any more. */
    predicate Terminal() {
      ResultEvent? || (ErrorEvent? && fatal) || CLIExitEvent?
    }
  }
}
