/** Classification of a RabbitMQ routing key or queue name into a message
    broker destination kind, and the name a segment is allowed to show. */
module Destinations {
  import opened Options

  /** Prefix the broker reserves for server-named (temporary) queues. */
  const TempQueuePrefix: string := "amq."

  datatype DestinationKind = Queue | Topic | TempQueue | TempTopic

  /** Kinds whose names are generated by the broker and therefore hidden. */
  predicate IsTemporary(kind: DestinationKind) {
    kind == TempQueue || kind == TempTopic
  }

  /** The name begins with the reserved prefix, stated character by character. */
  ghost predicate HasTempPrefix(name: string) {
    |name| >= |TempQueuePrefix| &&
    forall i :: 0 <= i < |TempQueuePrefix| ==> name[i] == TempQueuePrefix[i]
  }

  /** Some position of the name holds the separator '.'. */
  ghost predicate HasDot(name: string) {
    exists i :: 0 <= i < |name| && name[i] == '.'
  }

  /** Total over all strings: the reserved prefix wins over any later dot,
      a dotted name is a topic, anything else (the empty name included) is a
      queue, and a temporary topic is never produced. */
  function GetBrokerDestinationType(name: string): (kind: DestinationKind)
    ensures kind == TempQueue <==> HasTempPrefix(name)
    ensures kind == Topic <==> !HasTempPrefix(name) && HasDot(name)
    ensures kind == Queue <==> !HasTempPrefix(name) && !HasDot(name)
    ensures kind != TempTopic
  {
    if TempQueuePrefix <= name then TempQueue
    else if '.' in name then Topic
    else Queue
  }

  /** Temporary destinations are anonymised (null); every other kind keeps
      the name exactly as given. */
  function ResolveDestinationName(kind: DestinationKind, name: string): (r: Option<string>)
    ensures r == None <==> IsTemporary(kind)
    ensures r != None ==> r == Some(name)
  {
    if kind == TempQueue || kind == TempTopic then None else Some(name)
  }

  /** Any text after the reserved prefix, dots included, still gives a
      temporary queue. */
  lemma PrefixWinsOverDots(suffix: string)
    ensures GetBrokerDestinationType(TempQueuePrefix + suffix) == TempQueue
  {
    assert HasTempPrefix(TempQueuePrefix + suffix);
  }

  /** The empty name is a (durable) queue. */
  lemma EmptyNameIsQueue()
    ensures GetBrokerDestinationType("") == Queue
  {
  }

  /** Classifying a routing key and then resolving its display name hides the
      name exactly when it carries the reserved prefix. */
  lemma ResolvedNameOfRoutingKey(name: string)
    ensures ResolveDestinationName(GetBrokerDestinationType(name), name) == None <==> HasTempPrefix(name)
    ensures !HasTempPrefix(name) ==> ResolveDestinationName(GetBrokerDestinationType(name), name) == Some(name)
  {
  }
}
