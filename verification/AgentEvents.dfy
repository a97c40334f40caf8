/** What an agent's output is translated into, and every later stage passes on. */
module AgentEvents {
  import opened Options
  import opened Json

  datatype Health = Running | Retrying | Stalled | Dead

  datatype Verdict = Usable | NoWindow | NoUsage | ImplausibleWindow

  /** What one finished turn said about the context window. */
  datatype Report = Report(model: Option<string>, used: Option<nat>, window: Option<nat>, verdict: Verdict)

  datatype AgentEvent =
    | Text(text: string)
    | ToolUse(id: string, name: string, input: Value)
    | ToolResult(toolUseId: string, content: Value, failed: bool)
    | TurnComplete(stopReason: Option<string>, subtype: Option<string>, isError: bool,
                   apiErrorStatus: Option<nat>, context: Report)
    | Init(sessionId: Option<string>)
    | Exited(reason: string)
    | HealthChanged(health: Health)
}
