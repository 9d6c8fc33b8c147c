/** One pooled producer: its slot index, its URI settings and its lazily cached destination. */
module Producers {
  import opened Common

  // string::npos after conversion to unsigned int: the index of a producer that is not in use.
  const NPOS: nat := 0xFFFF_FFFF

  datatype Destination = Queue(uri: string) | Topic(uri: string)

  datatype Delivery = Delivery(dest: Destination, text: string)

  // How each library call of one send turns out.  A send that throws may or may not have
  // reached the broker.
  datatype SendScript = SendScript(
    destinationThrows: bool, producerThrows: bool, messageThrows: bool, sendThrows: bool, reachedBroker: bool)

  // What one send with a session reports: the destination held before and after, what reached the
  // broker and the result.  The destination is cached by the first send that gets that far, and
  // at most this one message reaches the broker, to that destination, always if the call succeeds.
  predicate Report(target: Destination, x: string, k: SendScript,
                   was: Option<Destination>, now: Option<Destination>, reached: seq<Delivery>, ok: bool) {
    && (ok <==> x != "" && (was.Some? || !k.destinationThrows)
                && !k.producerThrows && !k.messageThrows && !k.sendThrows)
    && now == (if was.Some? || x == "" || k.destinationThrows then was else Some(target))
    && (reached == [] || (now.Some? && reached == [Delivery(now.value, x)]))
    && (reached != [] <==>
          ok || (x != "" && (was.Some? || !k.destinationThrows)
                 && !k.producerThrows && !k.messageThrows && k.reachedBroker))
  }

  class Producer {
    var index: nat
    var brokerURI: string
    var destURI: string
    var useTopic: bool
    var clientAck: bool
    var destination: Option<Destination>
    ghost const slot: nat  // its place in the pool's array

    constructor (ghost slot: nat)
      ensures index == NPOS && destination == None && this.slot == slot
      ensures brokerURI == "" && destURI == "" && !useTopic && clientAck
    {
      this.slot := slot;
      index := NPOS;
      brokerURI, destURI, useTopic, clientAck := "", "", false, true;
      destination := None;
    }

    method SetIndex(i: nat)
      modifies this`index
      ensures index == i
    {
      index := i;
    }

    method SetURIInfo(broker: string, dest: string, topic: bool, ack: bool)
      modifies this`brokerURI, this`destURI, this`useTopic, this`clientAck
      ensures brokerURI == broker && destURI == dest && useTopic == topic && clientAck == ack
    {
      brokerURI, destURI, useTopic, clientAck := broker, dest, topic, ack;
    }

    // The destination the current URI settings call for.
    function Target(): Destination
      reads this`useTopic, this`destURI
    {
      if useTopic then Topic(destURI) else Queue(destURI)
    }

    method SendMessage(session: bool, text: string, script: SendScript)
      returns (ok: bool, reached: seq<Delivery>)
      modifies this`destination
      ensures !session ==> !ok && reached == [] && destination == old(destination)
      ensures session ==> Report(old(Target()), text, script, old(destination), destination, reached, ok)
      ensures reached != [] && old(destination) == None ==>
        reached == [Delivery(if useTopic then Topic(destURI) else Queue(destURI), text)]
      // the cache is never refreshed: what is sent follows the settings exactly when it is empty or up to date
      ensures reached != [] ==>
        (reached[0].dest == Target() <==> old(destination) == None || old(destination) == Some(Target()))
    {
      reached := [];
      if !session || text == "" {
        return false, reached;
      }
      if destination == None {
        if script.destinationThrows {
          return false, reached;
        }
        if useTopic {
          destination := Some(Topic(destURI));
        } else {
          destination := Some(Queue(destURI));
        }
      }
      if script.producerThrows || script.messageThrows {
        return false, reached;
      }
      if script.sendThrows {
        if script.reachedBroker {
          reached := [Delivery(destination.value, text)];
        }
        return false, reached;
      }
      reached := [Delivery(destination.value, text)];
      ok := true;
    }
  }
}
