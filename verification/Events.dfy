/** The event format shared by the honeypots, the queue and the database. */
module Events {
  datatype Option<+T> = None | Some(value: T)

  /** A value inside `raw_data`. The classifier looks inside strings only. */
  datatype Json = Text(text: string) | Number(n: real) | Bool(b: bool) | Null

  datatype AttackEvent = AttackEvent(
    id: nat,
    timestamp: int,
    sourceIp: string,
    sourcePort: int,
    destinationPort: int,
    protocol: string,
    eventType: string,
    rawData: map<string, Json>)

  /** `raw_data.get(key)` when it holds a string, None when it is missing or of another type. */
  function TextAt(data: map<string, Json>, key: string): Option<string> {
    if key in data && data[key].Text? then Some(data[key].text) else None
  }

  /** A row of `attack_events`; the two label columns are nullable. */
  datatype Row = Row(event: AttackEvent, attackType: Option<string>, severity: Option<string>)
}
