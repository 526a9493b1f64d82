/** The wire format of gossip messages (src/blockchain/gossipsub.rs). Topics are their UTF-8 bytes. */
module GossipCodec {
  import opened Common
  import opened Utf8

  type Topic = seq<byte>

  datatype MsgType = Publish | Subscribe | Unsubscribe | Graft | Prune | IHave | IWant | Control {
    function Code(): byte
    {
      match this
      case Publish => 1 case Subscribe => 2 case Unsubscribe => 3 case Graft => 4
      case Prune => 5 case IHave => 6 case IWant => 7 case Control => 8
    }
  }

  function ParseType(b: byte): (r: Option<MsgType>)
    ensures r.Some? ==> r.value.Code() == b
    ensures r.Some? <==> 1 <= b <= 8
  {
    match b
    case 1 => Some(Publish) case 2 => Some(Subscribe) case 3 => Some(Unsubscribe) case 4 => Some(Graft)
    case 5 => Some(Prune) case 6 => Some(IHave) case 7 => Some(IWant) case 8 => Some(Control)
    case _ => None
  }

  datatype Message = Message(msgType: MsgType, msgId: nat, topic: Topic, data: seq<byte>, ttl: byte)

  datatype Error = EmptyMessage | MessageTooLarge(size: nat, max: nat) | InvalidType(code: byte) | Malformed

  datatype Result<+T> = Ok(value: T) | Err(error: Error)

  /** Lengths are cut to the width of their field. */
  function Serialize(m: Message): (r: seq<byte>)
    ensures |r| == 9 + |m.topic| + |m.data|
  {
    [m.msgType.Code()] + ToLe(m.msgId, 4) + [|m.topic| % 256] + m.topic + ToLe(|m.data| % U16_LIMIT, 2) + m.data
    + [m.ttl]
  }

  /** The fields of a message, with the topic as the bytes it was sent as. */
  function Parse(raw: seq<byte>, maxSize: nat): (r: Result<Message>)
  {
    if raw == [] then Err(EmptyMessage)
    else if |raw| > maxSize then Err(MessageTooLarge(|raw|, maxSize))
    else if ParseType(raw[0]).None? then Err(InvalidType(raw[0]))
    else if |raw| < 6 then Err(Malformed)
    else
      var n := raw[5];
      if |raw| < 6 + n + 2 then Err(Malformed)
      else
        var k := FromLe(raw[6 + n..8 + n]);
        if |raw| < 8 + n + k + 1 then Err(Malformed)
        else
          Ok(Message(ParseType(raw[0]).value, FromLe(raw[1..5]), raw[6..6 + n], raw[8 + n..8 + n + k], raw[8 + n + k]))
  }

  /** The topic is decoded with replacement. */
  function Deserialize(raw: seq<byte>, maxSize: nat): (r: Result<Message>)
  {
    match Parse(raw, maxSize) case Err(e) => Err(e) case Ok(m) => Ok(m.(topic := Decoded(m.topic)))
  }

  lemma Layout(m: Message)
    requires m.msgId < U32_LIMIT
    ensures var raw := Serialize(m);
            && raw[0] == m.msgType.Code() && raw[1..5] == ToLe(m.msgId, 4) && raw[5] == |m.topic| % 256
            && raw[6..6 + |m.topic|] == m.topic && raw[6 + |m.topic|..8 + |m.topic|] == ToLe(|m.data| % U16_LIMIT, 2)
            && raw[8 + |m.topic|..8 + |m.topic| + |m.data|] == m.data && raw[8 + |m.topic| + |m.data|] == m.ttl
  {
  }

  lemma CodeRoundTrip(t: MsgType)
    ensures ParseType(t.Code()) == Some(t)
  {
  }

  predicate Fits(m: Message, maxSize: nat)
  {
    |m.topic| <= 255 && |m.data| < U16_LIMIT && 9 + |m.topic| + |m.data| <= maxSize
  }

  lemma ParseLaid(raw: seq<byte>, maxSize: nat, m: Message)
    requires 9 + |m.topic| + |m.data| <= |raw| <= maxSize && |m.topic| <= 255
    requires ParseType(raw[0]) == Some(m.msgType) && FromLe(raw[1..5]) == m.msgId && raw[5] == |m.topic|
    requires raw[6..6 + |m.topic|] == m.topic && FromLe(raw[6 + |m.topic|..8 + |m.topic|]) == |m.data|
    requires raw[8 + |m.topic|..8 + |m.topic| + |m.data|] == m.data && raw[8 + |m.topic| + |m.data|] == m.ttl
    ensures Parse(raw, maxSize) == Ok(m)
  {
  }

  /** The fields fit their widths. */
  predicate Encodable(m: Message) { m.msgId < U32_LIMIT && |m.topic| <= 255 && |m.data| < U16_LIMIT }

  lemma SameSlice(a: seq<byte>, b: seq<byte>, lo: nat, hi: nat)
    requires a <= b && lo <= hi <= |a|
    ensures b[lo..hi] == a[lo..hi]
  {
  }

  lemma FieldValues(m: Message)
    requires Encodable(m)
    ensures FromLe(ToLe(m.msgId, 4)) == m.msgId && FromLe(ToLe(|m.data| % U16_LIMIT, 2)) == |m.data|
  {
    WidthValues();
    LeRoundTrip(m.msgId, 4);
    LeRoundTrip(|m.data|, 2);
  }

  /** The layout, in bytes that begin with the message. */
  lemma LayoutIn(raw: seq<byte>, m: Message)
    requires Encodable(m) && Serialize(m) <= raw
    ensures raw[0] == m.msgType.Code() && raw[1..5] == ToLe(m.msgId, 4) && raw[5] == |m.topic|
    ensures raw[6..6 + |m.topic|] == m.topic && raw[6 + |m.topic|..8 + |m.topic|] == ToLe(|m.data| % U16_LIMIT, 2)
    ensures raw[8 + |m.topic|..8 + |m.topic| + |m.data|] == m.data && raw[8 + |m.topic| + |m.data|] == m.ttl
  {
    var sent, n, k := Serialize(m), |m.topic|, |m.data|;
    Layout(m);
    SameSlice(sent, raw, 1, 5);
    SameSlice(sent, raw, 6, 6 + n);
    SameSlice(sent, raw, 6 + n, 8 + n);
    SameSlice(sent, raw, 8 + n, 8 + n + k);
  }

  lemma BytesParsed(raw: seq<byte>, maxSize: nat, m: Message)
    requires Encodable(m) && |raw| <= maxSize && Serialize(m) <= raw
    ensures Parse(raw, maxSize) == Ok(m)
  {
    LayoutIn(raw, m);
    FieldValues(m);
    CodeRoundTrip(m.msgType);
    ParseLaid(raw, maxSize, m);
  }

  /** A packet is read as a message exactly when it begins with the bytes of that message and is within the
      size limit; what follows is not looked at. */
  lemma ParsesIff(raw: seq<byte>, maxSize: nat, m: Message)
    ensures Parse(raw, maxSize) == Ok(m) <==> Encodable(m) && |raw| <= maxSize && Serialize(m) <= raw
  {
    if Parse(raw, maxSize) == Ok(m) {
      ParsedIsPrefix(raw, maxSize);
      WidthValues();
    } else if Encodable(m) && |raw| <= maxSize && Serialize(m) <= raw {
      BytesParsed(raw, maxSize, m);
    }
  }

  /** A message comes back as it was sent exactly when its topic is UTF-8 of at most 255 bytes, its data
      has at most 65535 bytes, and the whole is within the size limit. */
  lemma RoundTripIff(m: Message, maxSize: nat)
    requires m.msgId < U32_LIMIT
    ensures Deserialize(Serialize(m), maxSize) == Ok(m) <==> Fits(m, maxSize) && IsText(m.topic)
  {
    DecodedSameIff(m.topic);
    if Fits(m, maxSize) {
      BytesParsed(Serialize(m), maxSize, m);
    } else if |m.topic| > 255 {
      LongTopicLost(m, maxSize);
    } else if |m.data| >= U16_LIMIT && 9 + |m.topic| + |m.data| <= maxSize {
      Layout(m);
      WidthValues();
      LeRoundTrip(|m.data| % U16_LIMIT, 2);
    }
  }

  /** Decoding part of a text makes it at most two bytes longer. */
  lemma PartBarelyGrows(s: seq<byte>, n: nat)
    requires IsText(s) && n <= |s|
    ensures |Decoded(s[..n])| <= n + 2
  {
    var a := DecodedPrefix(s, n);
  }

  lemma PartIsNotWhole(s: seq<byte>, n: nat)
    requires n + 2 < |s|
    ensures Decoded(s[..n]) != s
  {
    DecodedIsText(s[..n]);
    if IsText(s) {
      PartBarelyGrows(s, n);
    }
  }

  /** What is decoded of a text is not the text, and does not start with it, unless it is the same. */
  lemma ReplacedIsNotPrefix(x: seq<byte>)
    requires !IsText(x) && |x| <= 255 && |Decoded(x)| % 256 == |x|
    ensures |x| <= |Decoded(x)| && Decoded(x)[..|x|] != x
  {
    var d := Decoded(x);
    DecodedIsText(x);
    DecodedSameIff(x);
    if |d| == |x| {
      assert d[..|x|] == d;
    } else if d[..|x|] == x {
      PartBarelyGrows(d, |x|);
    }
  }

  lemma SlicePrefix(raw: seq<byte>, lo: nat, n: nat, k: nat)
    requires n <= k && lo + k <= |raw|
    ensures raw[lo..lo + n] == raw[lo..lo + k][..n]
  {
  }

  lemma LongTopicLost(m: Message, maxSize: nat)
    requires m.msgId < U32_LIMIT && |m.topic| > 255
    ensures Deserialize(Serialize(m), maxSize) != Ok(m)
  {
    var raw, n := Serialize(m), |m.topic| % 256;
    if Parse(raw, maxSize).Ok? {
      ParsedTopic(raw, maxSize);
      TopicCut(m, raw, n);
      PartIsNotWhole(m.topic, n);
    }
  }

  lemma TopicCut(m: Message, raw: seq<byte>, n: nat)
    requires m.msgId < U32_LIMIT && raw == Serialize(m) && n == |m.topic| % 256
    ensures n <= |m.topic| && raw[5] == n && raw[6..6 + n] == m.topic[..n]
  {
    Layout(m);
    SlicePrefix(raw, 6, n, |m.topic|);
  }

  lemma ParsedTopic(raw: seq<byte>, maxSize: nat)
    requires Parse(raw, maxSize).Ok?
    ensures 6 + raw[5] <= |raw| && Parse(raw, maxSize).value.topic == raw[6..6 + raw[5]]
  {
  }

  lemma JoinPrefix(raw: seq<byte>, p: seq<byte>, q: seq<byte>, lo: nat, hi: nat)
    requires lo <= hi <= |raw| && p == raw[..lo] && q == raw[lo..hi]
    ensures p + q == raw[..hi]
  {
  }

  /** The fields of a message, one after the other, are the start of `raw`. */
  lemma Reassembled(raw: seq<byte>, m: Message)
    requires 9 + |m.topic| + |m.data| <= |raw|
    requires [m.msgType.Code()] == raw[0..1] && ToLe(m.msgId, 4) == raw[1..5] && [|m.topic| % 256] == raw[5..6]
    requires m.topic == raw[6..6 + |m.topic|] && ToLe(|m.data| % U16_LIMIT, 2) == raw[6 + |m.topic|..8 + |m.topic|]
    requires m.data == raw[8 + |m.topic|..8 + |m.topic| + |m.data|]
    requires [m.ttl] == raw[8 + |m.topic| + |m.data|..9 + |m.topic| + |m.data|]
    ensures Serialize(m) <= raw
  {
    var n, k := |m.topic|, |m.data|;
    var p1 := [m.msgType.Code()];
    assert p1 == raw[..1];
    JoinPrefix(raw, p1, ToLe(m.msgId, 4), 1, 5);
    JoinPrefix(raw, p1 + ToLe(m.msgId, 4), [n % 256], 5, 6);
    var p2 := p1 + ToLe(m.msgId, 4) + [n % 256];
    JoinPrefix(raw, p2, m.topic, 6, 6 + n);
    JoinPrefix(raw, p2 + m.topic, ToLe(k % U16_LIMIT, 2), 6 + n, 8 + n);
    var p3 := p2 + m.topic + ToLe(k % U16_LIMIT, 2);
    JoinPrefix(raw, p3, m.data, 8 + n, 8 + n + k);
    JoinPrefix(raw, p3 + m.data, [m.ttl], 8 + n + k, 9 + n + k);
  }

  /** What was accepted, sent again, is a prefix of what was received exactly when the topic was UTF-8;
      what is left over was ignored. */
  lemma AcceptedIsPrefix(raw: seq<byte>, maxSize: nat)
    requires Deserialize(raw, maxSize).Ok?
    ensures Serialize(Deserialize(raw, maxSize).value) <= raw <==> IsText(raw[6..6 + raw[5]])
    ensures IsText(raw[6..6 + raw[5]]) ==> Fits(Deserialize(raw, maxSize).value, maxSize)
  {
    var m := Parse(raw, maxSize).value;
    DecodedSameIff(m.topic);
    if IsText(m.topic) {
      ParsedIsPrefix(raw, maxSize);
    } else {
      ReplacedTopicDiffers(raw, m.topic, m.(topic := Decoded(m.topic)));
    }
  }

  lemma ParsedIsPrefix(raw: seq<byte>, maxSize: nat)
    requires Parse(raw, maxSize).Ok?
    ensures Serialize(Parse(raw, maxSize).value) <= raw && Fits(Parse(raw, maxSize).value, maxSize)
  {
    var m := Parse(raw, maxSize).value;
    var n := raw[5];
    assert |m.topic| == n;
    SizeField(raw[6 + n..8 + n]);
    LeRoundTripBytes(raw[1..5]);
    Reassembled(raw, m);
  }

  /** A topic that decoding changed does not go out as it came in. */
  lemma ReplacedTopicDiffers(raw: seq<byte>, topic: Topic, sent: Message)
    requires sent.msgId < U32_LIMIT && |raw| >= 6 && |topic| == raw[5] && 6 + |topic| <= |raw|
    requires topic == raw[6..6 + |topic|] && !IsText(topic) && sent.topic == Decoded(topic)
    ensures !(Serialize(sent) <= raw)
  {
    var out := Serialize(sent);
    Layout(sent);
    if out <= raw {
      assert out[5] == raw[5];
      ReplacedIsNotPrefix(topic);
    }
  }

  lemma SizeField(field: seq<byte>)
    requires |field| == 2
    ensures FromLe(field) < U16_LIMIT && ToLe(FromLe(field) % U16_LIMIT, 2) == field
  {
    WidthValues();
    LeRoundTripBytes(field);
  }
}
