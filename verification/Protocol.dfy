/** The message envelopes of server/protocol.py and what relaying does to one. */
module Protocol {
  /** A JSON value, told apart only as far as the handlers look. */
  datatype Json = Text(text: string) | Object(id: nat) | OtherJson(id: nat)

  type Payload = map<string, Json>

  const FROM_WIRE := "from"
  const FROM_INTERNAL := "from_"
  const TO := "to"

  /** Takes the item at `was` out and puts its value in at `becomes`. */
  function Rename(p: Payload, was: string, becomes: string): Payload
    requires was in p
  {
    (p - {was})[becomes := p[was]]
  }

  function WireToInternal(p: Payload): Payload {
    if FROM_WIRE in p && FROM_INTERNAL !in p then Rename(p, FROM_WIRE, FROM_INTERNAL) else p
  }

  function InternalToWire(p: Payload): Payload {
    if FROM_INTERNAL in p then Rename(p, FROM_INTERNAL, FROM_WIRE) else p
  }

  function Sanitize(p: Payload, sender: string, to: string): Payload {
    p[FROM_INTERNAL := Text(sender)][TO := Text(to)]
  }

  /** What the target of a relayed frame receives, from the frame as it came in. */
  function RelayedWire(incoming: Payload, sender: string, to: string): Payload {
    InternalToWire(Sanitize(WireToInternal(incoming), sender, to))
  }

  predicate IsText(p: Payload, key: string) {
    key in p && p[key].Text?
  }

  predicate IsNonEmptyText(p: Payload, key: string) {
    IsText(p, key) && p[key].text != ""
  }

  predicate IsRelayType(p: Payload) {
    IsText(p, "type") && p["type"].text in {"OFFER", "ANSWER", "ICE"}
  }

  /** The checks a frame passes before it is relayed. */
  predicate Relayable(p: Payload) {
    && IsRelayType(p)
    && IsNonEmptyText(p, TO)
    && (p["type"].text == "ICE" ==> "candidate" in p && p["candidate"].Object?)
    && (p["type"].text != "ICE" ==> IsText(p, "sdp"))
  }

  /** The sender's name on the wire is the server's, whatever the frame claimed; nothing else changes. */
  lemma RelayStampsSender(incoming: Payload, sender: string, to: string)
    ensures var wire := RelayedWire(incoming, sender, to);
      && FROM_WIRE in wire && wire[FROM_WIRE] == Text(sender)
      && TO in wire && wire[TO] == Text(to)
      && FROM_INTERNAL !in wire
      && (forall k :: k !in {FROM_WIRE, FROM_INTERNAL, TO} ==>
            (k in wire <==> k in incoming) && (k in wire ==> wire[k] == incoming[k]))
  {
    assert FROM_WIRE != FROM_INTERNAL by {
      assert |FROM_WIRE| != |FROM_INTERNAL|;
    }
    assert TO != FROM_WIRE && TO != FROM_INTERNAL by {
      assert |TO| == 2;
    }
  }

  /** Wire to internal and back changes nothing exactly when the frame has no `from_`. */
  lemma WireRoundTripIff(p: Payload)
    ensures InternalToWire(WireToInternal(p)) == p <==> FROM_INTERNAL !in p
  {
    assert FROM_WIRE != FROM_INTERNAL by {
      assert |FROM_WIRE| != |FROM_INTERNAL|;
    }
    if FROM_INTERNAL in p {
      assert FROM_INTERNAL !in InternalToWire(p);
    }
  }

  /** Internal to wire and back changes nothing exactly when the frame has no `from`. */
  lemma InternalRoundTripIff(p: Payload)
    ensures WireToInternal(InternalToWire(p)) == p <==> FROM_WIRE !in p
  {
    assert FROM_WIRE != FROM_INTERNAL by {
      assert |FROM_WIRE| != |FROM_INTERNAL|;
    }
    if FROM_WIRE in p {
      assert FROM_WIRE !in WireToInternal(InternalToWire(p));
    }
  }
}
