/** Identifiers, worker specs and worker statuses shared by the queue, the dispatcher and the runtimes. */
module Specs {

  /** A UUID read as the number its sixteen bytes spell; comparing bytes is comparing numbers. */
  type Uuid = nat
  const NIL: Uuid := 0

  datatype Option<T> = None | Some(value: T)

  datatype WorkerSpec = WorkerSpec(
    executionId: Uuid, taskId: Uuid, agentId: Uuid, projectId: Uuid,
    model: string, provider: string, permissionMode: string, attempt: int)
  {
    predicate Valid() {
      && executionId != NIL && taskId != NIL && agentId != NIL && projectId != NIL
      && model != "" && provider != "" && permissionMode != ""
      && attempt >= 1
    }
  }

  /** The status strings of a worker; Unset is the empty string and Other any unlisted one. */
  datatype WorkerStatus = Unset | Pending | Running | Completed | Failed | Cancelled | Other(text: string)
  {
    predicate IsTerminal() {
      Completed? || Failed? || Cancelled?
    }

    function Text(): string {
      match this
      case Unset => ""
      case Pending => "pending"
      case Running => "running"
      case Completed => "completed"
      case Failed => "failed"
      case Cancelled => "cancelled"
      case Other(text) => text
    }
  }
}
