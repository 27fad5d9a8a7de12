/** The two reference codecs: a message through JSON text, and through MessagePack. */
module IpcCodecs {
  import opened Options
  import opened Bytes
  import opened Json
  import opened MsgPack
  import J = JsonParser
  import P = MsgPackIo
  import opened Ipc
  import IpcText

  method EncodeJson(m: IpcMessage) returns (text: Text)
    ensures text == Written(ToJson(m)) && text == IpcText.MessageText(m)
  {
    text := J.WriteJson(ToJson(m));
    IpcText.MessageSpelled(m);
  }

  method DecodeJson(text: Text) returns (m: Option<IpcMessage>)
    ensures m == (var d := ReadDocument(text); if d.Fail? then None else FromJson(d.value))
  {
    var cursor := new J.Cursor(text);
    var ok, v := cursor.ParseDocument();
    m := if ok then FromJson(v) else None;
  }

  method EncodeMsgPack(m: IpcMessage) returns (frame: Text)
    requires Proper(m)
    ensures Exact(ToJson(m)) && frame == Packed(ToJson(m))
  {
    MessageBack(m);
    ExactBounded(ToJson(m));
    var packer := new P.MsgPacker();
    var ok := packer.PackJson(ToJson(m));
    frame := packer.buf;
    assert [] + Packed(ToJson(m)) == Packed(ToJson(m));
  }

  method DecodeMsgPack(frame: Text) returns (m: Option<IpcMessage>)
    ensures m == (var f := Frame(frame); if f.Fail? then None else FromJson(f.value))
  {
    var unpacker := new P.MsgUnpacker(frame);
    var ok, v := unpacker.ReadFrame();
    m := if ok then FromJson(v) else None;
  }

  lemma {:induction false} ExactBounded(v: Value)
    requires Exact(v)
    ensures P.Bounded(v)
    decreases v
  {
    match v
    case Arr(items) => forall k | 0 <= k < |items| ensures P.Bounded(items[k]) { ExactBounded(items[k]); }
    case Obj(members) => forall k | 0 <= k < |members|
        ensures P.Bounded(members[k].value) { ExactBounded(members[k].value); }
    case _ =>
  }

  /** Every message survives JSON text. */
  lemma JsonRoundTrip(m: IpcMessage)
    requires Proper(m)
    ensures ReadDocument(Written(ToJson(m))).Done? && FromJson(ReadDocument(Written(ToJson(m))).value) == Some(m)
  {
    MessageBack(m);
    RoundTrip(ToJson(m));
  }

  /** Every message with lengths below 2^32 survives MessagePack. */
  lemma MsgPackRoundTrip(m: IpcMessage)
    requires Proper(m) && Sized(ToJson(m))
    ensures Exact(ToJson(m))
    ensures Frame(Packed(ToJson(m))).Done? && FromJson(Frame(Packed(ToJson(m))).value) == Some(m)
  {
    MessageBack(m);
    FrameRoundTrip(ToJson(m));
  }

  /** Two messages never share an encoding, in either codec. */
  lemma EncodingsApart(m: IpcMessage, n: IpcMessage)
    requires Proper(m) && Proper(n) && m != n
    ensures Written(ToJson(m)) != Written(ToJson(n))
    ensures Exact(ToJson(m)) && Exact(ToJson(n))
    ensures Sized(ToJson(m)) && Sized(ToJson(n)) ==> Packed(ToJson(m)) != Packed(ToJson(n))
  {
    JsonRoundTrip(m);
    JsonRoundTrip(n);
    MessageBack(m);
    MessageBack(n);
    if Sized(ToJson(m)) && Sized(ToJson(n)) {
      MsgPackRoundTrip(m);
      MsgPackRoundTrip(n);
    }
  }

  method ThereAndBack(m: IpcMessage) returns (a: Option<IpcMessage>, b: Option<IpcMessage>)
    requires Proper(m) && Sized(ToJson(m))
    ensures a == b == Some(m)
  {
    JsonRoundTrip(m);
    MsgPackRoundTrip(m);
    var text := EncodeJson(m);
    a := DecodeJson(text);
    var frame := EncodeMsgPack(m);
    b := DecodeMsgPack(frame);
  }
}
