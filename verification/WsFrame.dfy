/** The binary market frame: a tag, the length of the key in two bytes, the key, the payload. */
module WsFrame {
  import opened Options

  newtype byte = x: int | 0 <= x < 256

  datatype Bar = Bar(tag: byte, key: seq<byte>, payload: seq<byte>)

  /** The length is cut down to sixteen bits, as the conversion in the encoder does. */
  function Encode(bar: Bar): seq<byte> {
    var length := |bar.key| % 0x1_0000;
    [bar.tag, (length / 256) as byte, (length % 256) as byte] + bar.key + bar.payload
  }

  /** How a client takes a frame apart. */
  function Decode(frame: seq<byte>): Option<Bar> {
    if |frame| < 3 then None
    else
      var length := frame[1] as int * 256 + frame[2] as int;
      if |frame| < 3 + length then None
      else Some(Bar(frame[0], frame[3..3 + length], frame[3 + length..]))
  }

  lemma SplitAt(head: seq<byte>, key: seq<byte>, payload: seq<byte>, n: nat)
    requires n <= |key|
    ensures var frame := head + key + payload;
            frame[|head|..|head| + n] == key[..n] && frame[|head| + n..] == key[n..] + payload
  {
  }

  /** The layout on the wire: the tag, the length of the key with its high byte first, the key, the payload. */
  lemma Layout(bar: Bar)
    requires |bar.key| < 0x1_0000
    ensures var frame := Encode(bar);
            && |frame| == 3 + |bar.key| + |bar.payload| && frame[0] == bar.tag
            && frame[1] as int == |bar.key| / 256 && frame[2] as int == |bar.key| % 256
            && frame[3..3 + |bar.key|] == bar.key && frame[3 + |bar.key|..] == bar.payload
  {
    var n := |bar.key|;
    SplitAt([bar.tag, (n / 256) as byte, (n % 256) as byte], bar.key, bar.payload, n);
    assert bar.key[..n] == bar.key && bar.key[n..] + bar.payload == bar.payload;
  }

  /** What a client makes of an encoded frame, for keys of any length. */
  lemma DecodeEncode(bar: Bar)
    ensures var n := |bar.key| % 0x1_0000;
            Decode(Encode(bar)) == Some(Bar(bar.tag, bar.key[..n], bar.key[n..] + bar.payload))
  {
    var n := |bar.key| % 0x1_0000;
    SplitAt([bar.tag, (n / 256) as byte, (n % 256) as byte], bar.key, bar.payload, n);
  }

  /** A frame comes back as it was exactly when its key is shorter than 64 KiB; the control messages that name a
      key are at most 4 KiB long. */
  lemma RoundTrip(bar: Bar)
    ensures Decode(Encode(bar)) == Some(bar) <==> |bar.key| < 0x1_0000
  {
    DecodeEncode(bar);
    var n := |bar.key| % 0x1_0000;
    if |bar.key| < 0x1_0000 {
      assert bar.key[..n] == bar.key && bar.key[n..] + bar.payload == bar.payload;
    } else {
      assert |bar.key[..n]| < |bar.key|;
    }
  }
}
