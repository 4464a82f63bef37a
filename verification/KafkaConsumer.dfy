/** cpp/KafkaClient.cpp over a single partition. */
module KafkaConsumer {
  import opened Wrappers
  import opened MessageLog
  import opened ConsumerMachine

  class KafkaClient {
    const log: Log
    var sourceReference: int
    /** The index of the entry that the broker delivers next. */
    var position: nat
    var message: Payload

    constructor (log: Log)
      ensures this.log == log && sourceReference == OffsetBeginning && position == 0
    {
      this.log := log;
      this.sourceReference := OffsetBeginning;
      this.position := 0;
      this.message := OtherType;
    }

    method SetSourceReference(sr: int)
      modifies this`sourceReference
      ensures sourceReference == sr
    {
      sourceReference := sr;
    }

    /** A poll of the broker. `broker` is how it would end; only an entry of the log can be delivered. */
    method Consume(broker: Polled) returns (polled: Polled)
      ensures polled == if broker.Delivered? && |log| <= position then TimedOut else broker
    {
      polled := broker;
      if polled.Delivered? && position >= |log| {
        polled := TimedOut;
      }
    }

    /** Only a delivered message moves the reference; a time-out and the end of the partition leave it. */
    method ProcessPolled(polled: Polled) returns (processed: bool, thrown: bool)
      requires polled.Delivered? ==> position < |log|
      modifies this
      ensures thrown == polled.PollError? && processed == polled.Delivered?
      ensures if polled.Delivered? then
                && position == old(position) + 1
                && message == log[old(position)].payload && sourceReference == log[old(position)].offset
              else
                position == old(position) && message == old(message) && sourceReference == old(sourceReference)
    {
      processed, thrown := false, false;
      match polled {
        case TimedOut =>
        case EndOfPartition =>
        case Delivered =>
          message := log[position].payload;
          sourceReference := log[position].offset;
          position := position + 1;
          processed := true;
        case PollError =>
          thrown := true;
      }
    }

    /** From the beginning, where nothing is polled, or from the reference: then one poll should return the message at the reference,
        which is thereby skipped.  A poll without a message passes the comparison unnoticed. */
    method Start(broker: Polled) returns (polled: Polled, thrown: bool)
      modifies this
      ensures old(sourceReference) == OffsetBeginning ==> polled == if broker.PollError? then PollError else Delivered
      ensures old(sourceReference) != OffsetBeginning ==>
                polled == if broker.Delivered? && Seek(log, old(sourceReference)) == |log| then TimedOut else broker
      ensures old(sourceReference) == OffsetBeginning ==>
                && sourceReference == OffsetBeginning
                && if thrown then polled == PollError else polled == Delivered && position == 0
      ensures old(sourceReference) != OffsetBeginning && polled.PollError? ==> thrown
      ensures old(sourceReference) != OffsetBeginning && !polled.PollError? ==>
                var p := Seek(log, old(sourceReference));
                if polled.Delivered? then
                  && p < |log| && position == p + 1 && sourceReference == log[p].offset
                  && thrown == (log[p].offset != old(sourceReference))
                else
                  !thrown && position == p && sourceReference == old(sourceReference)
    {
      thrown := false;
      if sourceReference != OffsetBeginning {
        var current := sourceReference;
        position := Seek(log, sourceReference);
        polled := Consume(broker);
        var processed;
        processed, thrown := ProcessPolled(polled);
        if thrown {
          return;
        }
        if current != sourceReference {
          thrown := true;
        }
      } else {
        if broker.PollError? {
          return PollError, true;
        }
        polled := Delivered;
        position := 0;
      }
    }

    /** One poll that does not wait. */
    method Read(broker: Polled) returns (polled: Polled, rv: Option<Payload>, thrown: bool)
      modifies this
      ensures polled == if broker.Delivered? && |log| <= old(position) then TimedOut else broker
      ensures thrown == polled.PollError?
      ensures rv.Some? <==> polled.Delivered?
      ensures if polled.Delivered? then
                && old(position) < |log| && position == old(position) + 1
                && rv == Some(log[old(position)].payload) && sourceReference == log[old(position)].offset
              else
                position == old(position) && sourceReference == old(sourceReference)
    {
      rv := None;
      polled := Consume(broker);
      var processed;
      processed, thrown := ProcessPolled(polled);
      if processed {
        rv := Some(message);
      }
    }
  }
}
