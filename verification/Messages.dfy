/** Messages and message identifiers, shared by the whole message fabric. */
module Messages {

  datatype Option<+T> = None | Some(value: T)

  /** The result of a Go function that returns `error`. */
  datatype Outcome = Ok | Err(reason: string)

  /** The protobuf enum is an int32 on the wire; unknown values are representable. */
  datatype MessageType = MessageType(number: int)

  /** The names of the enum, as in common/seguepb/segue.proto. */
  const MESSAGE_TYPE_VALUE: map<string, MessageType> := map[
    "UnitTest" := MessageType(0),
    "SensorUltraSonic" := MessageType(1),
    "CmdDrive" := MessageType(2),
    "CmdLEDSwitch" := MessageType(3),
    "LIRCEvent" := MessageType(4),
    "RF24NetworkNodeHeartbeat" := MessageType(100)
  ]

  /** The tuple that identifies a message. */
  datatype MessageID = MessageID(msgType: MessageType, subType: string, version: nat, qualifier: string)

  /** The payload is opaque to every component modelled here. */
  type Payload = seq<int>

  datatype Message = Message(id: MessageID, data: Payload)

  /** No entry occurs twice. */
  ghost predicate Distinct<T>(s: seq<T>) {
    forall i, j :: 0 <= i < j < |s| ==> s[i] != s[j]
  }
}
