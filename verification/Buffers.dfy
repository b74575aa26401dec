/** One buffer to another: compressing and decompressing in a single call. */
module Buffers {
  import opened Bits
  import opened BitWriters
  import opened BlockCompressor
  import opened BlockWriter
  import C = Compressor
  import opened Counters
  import opened Decompressor
  import opened RoundTrip
  import opened StreamDecoding
  import opened StreamLength
  import opened StreamReading
  import D = StreamDecompressor

  datatype Code = Fine | ParamError | SequenceError | OutBuffFull | UnexpectedEof | Damage(status: Status) | Legacy

  /** What the bytes of a whole stream decompress to. */
  ghost function Meaning(stream: seq<nat>): Decoded {
    Decompressed(D.Beginning(), BitsOf(stream), 0)
  }

  predicate Refused(blockSize100k: int, workFactor: int) {
    blockSize100k < 1 || blockSize100k > 9 || workFactor < 0 || workFactor > 250
  }

  /** Compressing a buffer: if the stream fits it decompresses to the source; if it does not, the buffer
      is full, and what was written begins a longer one. */
  method CompressBuffer(source: seq<int>, destLen: nat, blockSize100k: int, workFactor: int, choose: Chooser)
    returns (ret: Code, dest: seq<nat>, ghost written: seq<nat>)
    requires ChoosesWell(choose) && forall i :: 0 <= i < |source| ==> 0 <= source[i] < 256
    ensures ret in {Fine, ParamError, OutBuffFull, SequenceError} && |dest| <= destLen && C.AllBytes(dest)
    ensures ret == ParamError <==> Refused(blockSize100k, workFactor)
    ensures ret == Fine ==> Meaning(dest) == Decoded(source, Finished)
    ensures ret == OutBuffFull ==> |dest| == destLen && dest < written && Begins(written, source, blockSize100k)
    ensures ret == Fine && source == [] ==> dest == EmptyBytes(blockSize100k)
    ensures ret == SequenceError <==> !Refused(blockSize100k, workFactor) && destLen == 0 && source == []
    ensures !Refused(blockSize100k, workFactor) && destLen >= StreamRoom(|source|, blockSize100k) ==> ret == Fine
  {
    hide BitsOf, ChoosesWell, D.Beginning, Decompressed, Waiting, C.Compressor.Valid, C.Compressor.Unfinished,
      C.Compressor.Through, C.Compressor.Response, C.Compressor.Remaining, C.Compressor.Settled, C.Packed, Begins,
      StreamRoom;
    dest, written := [], [];
    if Refused(blockSize100k, workFactor) { return ParamError, dest, written; }
    var c := new C.Compressor(blockSize100k, if workFactor == 0 then 30 else workFactor, choose);
    Unrefused(c, |source|);
    RoomSome(|source|, blockSize100k);
    var answer, used, out := c.BzCompress(source, destLen, C.Finish);
    dest := out;
    assert source[..|source|] == source && [] + source[..used] == source[..used] && [] + out == out;
    c.DeliveredBytes();
    if answer != C.Answer.StreamEnd {
      written := RemainingBegins(c, source);
      RemainingShort(c, |source|);
      return if answer == C.FinishOk then OutBuffFull else SequenceError, dest, written;
    }
    ret := Fine;
    written := dest;
    Ended(c, |source|, used);
    StoppedSome(c);
    if source == [] { EmptyStream(c); }
    D.BeginningFacts();
    c.StoppedDecompresses(D.Beginning());
  }

  /** What decompressing a stream into a buffer should answer. When what comes before the damage just
      fills the buffer, or more, the damage need not have been found. */
  ghost function Verdicts(r: Decoded, destLen: nat): (v: set<Code>)
  {
    match r.verdict
    case Finished => if |r.data| <= destLen then {Fine} else {OutBuffFull}
    case Unfinished => if |r.data| < destLen then {UnexpectedEof} else {OutBuffFull}
    case Damaged(status) => if |r.data| < destLen then {Damage(status)} else {Damage(status), OutBuffFull}
    case Unsupported => if |r.data| < destLen then {Legacy} else {Legacy, OutBuffFull}
  }

  /** Decompressing a buffer: the data of a whole stream comes out exactly when there is room for
      it, and nothing but a beginning of it ever comes out. */
  method DecompressBuffer(source: seq<nat>, destLen: nat, small: bool) returns (ret: Code, dest: seq<int>)
    requires C.AllBytes(source) && destLen < HALF
    ensures |dest| <= destLen && dest <= Meaning(source).data && ret in Verdicts(Meaning(source), destLen)
    ensures ret == Fine ==> Meaning(source) == Decoded(dest, Finished)
    ensures ret == Fine <==> WholeStream(BitsOf(source)) && |Meaning(source).data| <= destLen
    ensures ret == UnexpectedEof ==> Meaning(source) == Decoded(dest, Unfinished)
    ensures ret == OutBuffFull ==> |dest| == destLen
    ensures ret == Legacy ==> Meaning(source) == Decoded(dest, Unsupported)
    ensures ret.Damage? && ret.status != DataError ==> Meaning(source) == Decoded(dest, Damaged(ret.status))
  {
    hide BitsOf, D.Beginning, Decompressed, Waiting, D.StreamDecompressor.Valid, D.StreamDecompressor.Expander,
      D.StreamDecompressor.Repr, WholeStream;
    WholeExactly(source);
    var d := new D.StreamDecompressor(small, source);
    assert [] + source == source;
    var reply, used, out := d.BzDecompress(source, destLen);
    dest := out;
    assert [] + out == out && source[..|source|] == source;
    ReplyMeans(d, reply, |source| - used, destLen - |out|);
    if |out| == destLen && Meaning(source) != Decoded(out, Finished) { Room(Meaning(source), out, destLen); }
    match reply
    case SequenceError => ret := SequenceError;
    case Randomised => ret := Legacy;
    case Replied(code) =>
      if code == Ok {
        ret := if |out| < destLen then UnexpectedEof else OutBuffFull;
      } else if code == StreamEnd {
        ret := Fine;
      } else {
        ret := Damage(code);
      }
  }

  /** The bits begin with a stream of blocks that the decompressor takes. */
  ghost predicate WholeStream(w: seq<bool>) {
    exists k, xs, rest :: IsStream(w, k, xs, rest)
  }

  /** These are the streams that decompress without damage. */
  lemma WholeExactly(source: seq<nat>)
    ensures Meaning(source).verdict == Finished <==> WholeStream(BitsOf(source))
  {
    hide BitsOf, D.Beginning, Decompressed, IsStream, Waiting;
    D.BeginningFacts();
    StreamExactly(D.Beginning(), BitsOf(source));
  }

  lemma ReplyMeans(d: D.StreamDecompressor, reply: D.Reply, unread: nat, room: int)
    requires d.Answers(reply, unread, room) && |d.received| + unread == |d.whole|
    ensures d.delivered <= d.Promised().data
    ensures reply == D.Randomised ==> d.Promised() == Decoded(d.delivered, Unsupported)
    ensures reply == D.Replied(StreamEnd) ==> d.Promised() == Decoded(d.delivered, Finished)
    ensures reply == D.Replied(Ok) ==>
      (room == 0 && d.Promised() != Decoded(d.delivered, Finished)) || d.Promised() == Decoded(d.delivered, Unfinished)
    ensures reply.Replied? && reply.code != Ok && reply.code != StreamEnd ==>
      d.Promised().verdict == Damaged(reply.code) && (d.Promised().data == d.delivered || reply.code == DataError)
  {
    hide d.Promised;
  }

  lemma Room(r: Decoded, out: seq<int>, destLen: nat)
    requires out <= r.data && |out| == destLen && r != Decoded(out, Finished)
    ensures r.verdict == Finished ==> |r.data| > destLen
  {
  }

  lemma Unrefused(c: C.Compressor, n: nat)
    requires c.mode == C.Running
    ensures c.Response(C.Finish, n).Accepted?
  {
  }

  lemma RoomSome(n: nat, blockSize100k: int)
    requires 1 <= blockSize100k <= 9
    ensures StreamRoom(n, blockSize100k) > 0
  {
    Quotients(5 * n / 4, 100000 * blockSize100k - 19);
  }

  lemma Quotients(a: nat, b: nat)
    requires b > 0
    ensures a / b >= 0
  {
  }

  lemma Ended(c: C.Compressor, n: nat, used: nat)
    requires c.Through(used, n)
    ensures used == n
  {
  }
}
