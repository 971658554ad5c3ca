/** The records the worker passes around, lib/messages, with the fields the scheduler reads. */
module Messages {
  import opened Values

  datatype Task = Task(id: string, tenantId: string, retries: int, payload: string)

  datatype Command = Command(version: int, functionId: string, aspects: seq<string>,
                             deviceGroupId: string, deviceId: string, serviceId: string, retries: int)

  /** A sub-task of a device group, or the parent task itself. */
  datatype Element = Element(command: Command, task: Task)

  datatype Metadata = Metadata(parent: Element, children: seq<Element>)

  datatype SubResult = SubResult(failed: bool, value: Json)

  /** `lastTry` is None for Go's zero time: a duration since then exceeds every timeout. */
  datatype SubTaskState = SubTaskState(lastTry: Option<int>, tryCount: int)

  datatype Caller = CamundaLoop | Response

  datatype CallInfo = CallInfo(caller: Caller, time: int)

  /** Which message `CreateProtocolMessage` makes for a sub-task. */
  datatype Kind = Request | Event

  datatype RequestInfo = RequestInfo(kind: Kind, metadata: Element, state: SubTaskState)

  datatype Result<+T> = Ok(value: T) | Err(message: string)
}
