/** The shared messenger: signing with a sequence number seeded from the clock, and verification. */
module SecureMessenger {
  import opened Common

  /**
    A message on the wire.  `node` is "UNKNOWN" when the sender left it out, `sentAt` is None when
    the timestamp is missing or unreadable, `keys` are the keys present other than "hmac",
    and `body` stands for every field no component of this model looks at.
  */
  datatype Message = Message(
    node: string,
    machineId: string,
    msgId: string,
    seqNo: int,
    sentAt: Option<real>,
    keys: set<string>,
    securityAlert: bool,
    body: string,
    hmac: string)

  /** What is signed: the message without its digest. */
  function Canonical(m: Message): Message {
    m.(hmac := "")
  }

  /** HMAC-SHA256 over the canonical JSON (section 2 of RFC 2104), uninterpreted. */
  type Mac = (string, Message) -> string

  predicate Verify(mac: Mac, secret: string, m: Message) {
    m.hmac != "" && m.hmac == mac(secret, Canonical(m))
  }

  /** The clock in whole milliseconds. */
  function Millis(time: real): int {
    (time * 1000.0).Floor
  }

  const ENVELOPE_KEYS: set<string> := {"msg_id", "seq", "timestamp", "node", "machine_id"}

  /** The envelope built around a payload; the messenger's own identity replaces the payload's. */
  function Sealed(mac: Mac, secret: string, node: string, machineId: string, payload: Message, msgId: string,
                  seqNo: int, now: real): Message {
    var envelope := Message(node, machineId, msgId, seqNo, Some(now),
                            payload.keys + ENVELOPE_KEYS, payload.securityAlert, payload.body, "");
    envelope.(hmac := mac(secret, envelope))
  }

  class Messenger {
    const mac: Mac
    const secret: string
    const node: string
    const machineId: string
    var seqNo: int

    constructor (mac: Mac, secret: string, node: string, machineId: string, now: real)
      ensures this.mac == mac && this.secret == secret && this.node == node && this.machineId == machineId
      ensures seqNo == Millis(now)
    {
      this.mac, this.secret, this.node, this.machineId := mac, secret, node, machineId;
      seqNo := Millis(now);
    }

    method NextSeq() returns (r: int)
      modifies this
      ensures r == seqNo == old(seqNo) + 1
    {
      seqNo := seqNo + 1;
      return seqNo;
    }

    /** msgId is the freshly drawn identifier. */
    method Sign(payload: Message, msgId: string, now: real) returns (m: Message)
      modifies this
      ensures seqNo == old(seqNo) + 1
      ensures m == Sealed(mac, secret, node, machineId, payload, msgId, seqNo, now)
    {
      var next := NextSeq();
      m := Message(node, machineId, msgId, next, Some(now),
                   payload.keys + ENVELOPE_KEYS, payload.securityAlert, payload.body, "");
      m := m.(hmac := mac(secret, m));
    }
  }

  /** No two different messages have one digest. */
  ghost predicate CollisionFree(mac: Mac) {
    forall secret, a, b :: mac(secret, a) == mac(secret, b) ==> a == b
  }

  /**
    What a signature protects.  Under a digest without collisions, a message that verifies with the digest of a signed
    one is that one: no field of it was altered.  It carries the payload's content and alert flag under the messenger's
    own name, and a message without a digest never verifies.
  */
  lemma {:induction false} SignedIsUnaltered(mac: Mac, secret: string, node: string, machineId: string,
                                             payload: Message, msgId: string, seqNo: int, now: real, m: Message)
    requires CollisionFree(mac)
    ensures
      var sealed := Sealed(mac, secret, node, machineId, payload, msgId, seqNo, now);
      && (Verify(mac, secret, m) && m.hmac == sealed.hmac ==> m == sealed)
      && sealed.node == node && sealed.machineId == machineId && sealed.msgId == msgId && sealed.seqNo == seqNo
      && sealed.sentAt == Some(now) && sealed.body == payload.body && sealed.securityAlert == payload.securityAlert
      && (forall k :: k in sealed.keys <==>
            k in payload.keys || k == "msg_id" || k == "seq" || k == "timestamp" || k == "node" || k == "machine_id")
      && !Verify(mac, secret, m.(hmac := ""))
  {
    var sealed := Sealed(mac, secret, node, machineId, payload, msgId, seqNo, now);
    if Verify(mac, secret, m) && m.hmac == sealed.hmac {
      assert mac(secret, Canonical(m)) == mac(secret, Canonical(sealed));
      assert m == Canonical(m).(hmac := m.hmac) && sealed == Canonical(sealed).(hmac := sealed.hmac);
    }
  }

  /** A signed message verifies under the same secret, and its digest is never part of what it covers. */
  lemma {:induction false} SealedVerifies(mac: Mac, secret: string, node: string, machineId: string, payload: Message,
                                          msgId: string, seqNo: int, now: real)
    requires forall k, m :: mac(k, m) != ""
    ensures Verify(mac, secret, Sealed(mac, secret, node, machineId, payload, msgId, seqNo, now))
  {
  }
}
