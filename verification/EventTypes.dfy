/** The records that travel on the bus (eventbus/types.py). */
module EventTypes {
  import opened Prelude

  type Byte = x: int | 0 <= x < 256

  datatype EventRecord = EventRecord(
    key: string,
    value: seq<Byte>,
    headers: map<string, string>,
    producedAt: Option<int>)
  {
    /** A copy tagged with the topic it was dead-lettered from and, when there is one, the reason. */
    function DeadLetteredFrom(topic: string, reason: string): (copy: EventRecord)
      ensures copy.key == key && copy.value == value && copy.producedAt == producedAt
      ensures copy.headers - {"dead_letter_origin", "dead_letter_reason"} == headers - {"dead_letter_origin", "dead_letter_reason"}
      ensures "dead_letter_origin" in copy.headers && copy.headers["dead_letter_origin"] == topic
      ensures reason != "" ==> "dead_letter_reason" in copy.headers && copy.headers["dead_letter_reason"] == reason
    {
      var tagged := headers["dead_letter_origin" := topic];
      this.(headers := if reason != "" then tagged["dead_letter_reason" := reason] else tagged)
    }
  }

  /** A record as delivered: paired with the partition and offset it came from. */
  datatype ConsumedRecord = ConsumedRecord(topic: string, partition: nat, offset: nat, record: EventRecord)

  /** One partition is an append-only log; a topic is the list of its partitions. */
  type Log = seq<EventRecord>
  type TopicLogs = seq<Log>

  datatype BrokerError = ValueError | DeliveryError
}
