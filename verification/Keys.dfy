/** The API keys the proxy knows and which of their versions use flexible
    (KIP-482) headers: protocol/keys.go and the two version functions of
    protocol/header.go. */
module Keys {
  import opened Bytes

  const PRODUCE := 0
  const FETCH := 1
  const LIST_OFFSETS := 2
  const METADATA := 3
  const OFFSET_COMMIT := 8
  const OFFSET_FETCH := 9
  const FIND_COORDINATOR := 10
  const JOIN_GROUP := 11
  const HEARTBEAT := 12
  const LEAVE_GROUP := 13
  const SYNC_GROUP := 14
  const DESCRIBE_GROUPS := 15
  const LIST_GROUPS := 16
  const SASL_HANDSHAKE := 17
  const API_VERSIONS := 18
  const CREATE_TOPICS := 19
  const DELETE_TOPICS := 20
  const INIT_PRODUCER_ID := 22
  const OFFSET_FOR_LEADER_EPOCH := 23
  const ADD_PARTITIONS_TO_TXN := 24
  const ADD_OFFSETS_TO_TXN := 25
  const END_TXN := 26
  const TXN_OFFSET_COMMIT := 28
  const DESCRIBE_CONFIGS := 32
  const SASL_AUTHENTICATE := 36
  const DELETE_GROUPS := 42
  const OFFSET_DELETE := 47

  /** The first flexible version of each key that has one. */
  function FirstFlexible(key: int16): Option<int16> {
    if key == PRODUCE then Some(9)
    else if key == FETCH then Some(12)
    else if key == LIST_OFFSETS then Some(6)
    else if key == METADATA then Some(9)
    else if key == OFFSET_COMMIT then Some(8)
    else if key == OFFSET_FETCH then Some(6)
    else if key == FIND_COORDINATOR then Some(3)
    else if key == JOIN_GROUP then Some(6)
    else if key == HEARTBEAT then Some(4)
    else if key == LEAVE_GROUP then Some(4)
    else if key == SYNC_GROUP then Some(4)
    else if key == DESCRIBE_GROUPS then Some(5)
    else if key == LIST_GROUPS then Some(3)
    else if key == API_VERSIONS then Some(3)
    else if key == CREATE_TOPICS then Some(5)
    else if key == DELETE_TOPICS then Some(4)
    else if key == INIT_PRODUCER_ID then Some(2)
    else if key == ADD_PARTITIONS_TO_TXN then Some(3)
    else if key == ADD_OFFSETS_TO_TXN then Some(3)
    else if key == END_TXN then Some(3)
    else if key == TXN_OFFSET_COMMIT then Some(3)
    else if key == SASL_AUTHENTICATE then Some(2)
    else if key == DELETE_GROUPS then Some(2)
    else None
  }

  predicate IsFlexibleRequest(key: int16, version: int16) {
    var first := FirstFlexible(key);
    first.Some? && version >= first.value
  }

  function RequestHeaderVersion(key: int16, version: int16): (v: int)
    ensures v == 1 || v == 2
  {
    if key == API_VERSIONS then (if version >= 3 then 2 else 1)
    else if IsFlexibleRequest(key, version) then 2 else 1
  }

  function ResponseHeaderVersion(key: int16, version: int16): int {
    if key == API_VERSIONS then 0
    else if IsFlexibleRequest(key, version) then 1 else 0
  }

  /** The header in front of a response, as Kafka lays it out: the correlation id, and for
      flexible versions an empty tag section, except that ApiVersions never has one. */
  function ResponseHeader(key: int16, version: int16, correlationId: int32): Bytes {
    PutInt32(correlationId) + if IsFlexibleRequest(key, version) && key != API_VERSIONS then [0] else []
  }

  // ------------------------------------------------------------- Which keys name things

  datatype Kind = Topic | Group | TransactionalId | Resource

  /** What the messages of a key name, request or response, for the keys the proxy knows. */
  function Names(key: int16): set<Kind> {
    if key == PRODUCE then {Topic, TransactionalId}
    else if key == FETCH || key == LIST_OFFSETS || key == METADATA then {Topic}
    else if key == CREATE_TOPICS || key == DELETE_TOPICS || key == OFFSET_FOR_LEADER_EPOCH then {Topic}
    else if key == OFFSET_COMMIT || key == OFFSET_FETCH || key == OFFSET_DELETE then {Group, Topic}
    else if key == JOIN_GROUP || key == SYNC_GROUP then {Group, Topic}
    else if key == HEARTBEAT || key == LEAVE_GROUP || key == DESCRIBE_GROUPS then {Group}
    else if key == LIST_GROUPS || key == DELETE_GROUPS then {Group}
    else if key == FIND_COORDINATOR then {Group, TransactionalId}
    else if key == INIT_PRODUCER_ID || key == END_TXN then {TransactionalId}
    else if key == ADD_PARTITIONS_TO_TXN then {TransactionalId, Topic}
    else if key == ADD_OFFSETS_TO_TXN then {TransactionalId, Group}
    else if key == TXN_OFFSET_COMMIT then {TransactionalId, Group, Topic}
    else if key == DESCRIBE_CONFIGS then {Resource}
    else {}
  }

  /** The keys the proxy tells clients it takes, in its answer to ApiVersions. */
  predicate Advertised(key: int16) {
    || key == 18 || key == 17 || key == 36
    || 0 <= key <= 3 || 8 <= key <= 16 || key == 19 || key == 20 || key == 22
    || 24 <= key <= 26 || key == 28 || key == 32 || key == 42 || key == 47
  }

  /** The messages of `key` name something, and clients are told they may send them. */
  predicate NamesThings(key: int16) { Names(key) != {} && Advertised(key) }

  /** The one key the proxy knows whose messages name something and are not advertised. */
  lemma NamesThingsIff(key: int16)
    ensures NamesThings(key) <==> Names(key) != {} && key != OFFSET_FOR_LEADER_EPOCH
  {}

  /** The keys with a rewrite handler; every other key is forwarded as bytes. */
  predicate HasRewriter(key: int16) {
    || key == METADATA || key == PRODUCE || key == FETCH || key == LIST_OFFSETS || key == FIND_COORDINATOR
    || key == OFFSET_COMMIT || key == OFFSET_FETCH || key == OFFSET_DELETE || key == JOIN_GROUP || key == SYNC_GROUP
    || key == HEARTBEAT || key == LEAVE_GROUP || key == DESCRIBE_GROUPS || key == LIST_GROUPS || key == DELETE_GROUPS
    || key == INIT_PRODUCER_ID || key == ADD_PARTITIONS_TO_TXN || key == ADD_OFFSETS_TO_TXN || key == END_TXN
    || key == TXN_OFFSET_COMMIT || key == CREATE_TOPICS || key == DELETE_TOPICS || key == DESCRIBE_CONFIGS
  }

  /** Those are the advertised keys whose messages name something. */
  lemma RewriterIff(key: int16)
    ensures HasRewriter(key) <==> NamesThings(key)
  {}

  lemma OpenersNameNothing(key: int16)
    requires key == API_VERSIONS || key == SASL_HANDSHAKE || key == SASL_AUTHENTICATE
    ensures Names(key) == {}
  {}
}
