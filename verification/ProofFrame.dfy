/** The serialized proof: a length-prefixed hint payload, then the SNARK proof. */
module ProofFrame {
  import opened Options
  import opened Powers
  import opened Results
  import opened OptimizationHints

  type Byte = b: nat | b < 256

  type Bytes = seq<Byte>

  datatype Mode = Compressed | Uncompressed

  datatype Proof<S> = Proof(snark: S, hints: seq<Hint>)

  /**
   * The encodings the frame is built on: hints to bytes and back, and a SNARK proof
   * to bytes and back from the front of a stream, with the number of bytes taken.
   */
  datatype Codecs<!S(!new)> = Codecs(
    hintsToBytes: seq<Hint> -> Result<Bytes>,
    hintsFromBytes: Bytes -> Result<seq<Hint>>,
    snarkToBytes: (S, Mode) -> Result<Bytes>,
    snarkFromFront: (Bytes, Mode) -> Result<(S, nat)>,
    snarkSize: (S, Mode) -> nat)
  {
    /** Reading takes no more than there is. */
    ghost predicate ReadsWithin() {
      forall b: Bytes, m: Mode :: snarkFromFront(b, m).Ok? ==> snarkFromFront(b, m).value.1 <= |b|
    }

    /** Decoding undoes encoding, whatever follows a SNARK proof, and sizes are announced correctly. */
    ghost predicate RoundTrip() {
      && (forall h: seq<Hint> :: hintsToBytes(h).Ok? ==> hintsFromBytes(hintsToBytes(h).value) == Ok(h))
      && (forall s: S, m: Mode, rest: Bytes :: snarkToBytes(s, m).Ok? ==>
            snarkFromFront(snarkToBytes(s, m).value + rest, m) == Ok((s, |snarkToBytes(s, m).value|)))
      && (forall s: S, m: Mode :: snarkToBytes(s, m).Ok? ==> |snarkToBytes(s, m).value| == snarkSize(s, m))
    }
  }

  // ---- the length prefix ----

  /** The lowest `width` bytes of `n`, lowest first. */
  function LittleEndian(n: nat, width: nat): (r: Bytes)
    ensures |r| == width
  {
    if width == 0 then [] else [n % 256] + LittleEndian(n / 256, width - 1)
  }

  function FromLittleEndian(bytes: Bytes): nat {
    if bytes == [] then 0 else bytes[0] + 256 * FromLittleEndian(bytes[1..])
  }

  function Capacity(width: nat): (r: nat)
    ensures r > 0
  {
    if width == 0 then 1 else 256 * Capacity(width - 1)
  }

  lemma {:induction false} LengthRoundTrip(n: nat, width: nat)
    requires n < Capacity(width)
    ensures FromLittleEndian(LittleEndian(n, width)) == n
  {
    if width > 0 {
      LengthRoundTrip(n / 256, width - 1);
      assert LittleEndian(n, width)[1..] == LittleEndian(n / 256, width - 1);
    }
  }

  lemma {:induction false} PrefixRoundTrip(bytes: Bytes)
    ensures LittleEndian(FromLittleEndian(bytes), |bytes|) == bytes && FromLittleEndian(bytes) < Capacity(|bytes|)
  {
    if bytes != [] {
      PrefixRoundTrip(bytes[1..]);
    }
  }

  const PREFIX: nat := 8

  /** `TTH1` in ASCII. */
  const MARK: Bytes := [0x54, 0x54, 0x48, 0x31]

  /** The lowest byte comes first: byte `i` is the `i`-th digit to the base 256. */
  lemma {:induction false} PrefixBytes(n: nat, width: nat, i: nat)
    requires i < width
    ensures LittleEndian(n, width)[i] == n / Capacity(i) % 256
  {
    if i > 0 {
      PrefixBytes(n / 256, width - 1, i - 1);
      DivideTwice(n, 256, Capacity(i - 1));
    }
  }

  lemma DivideTwice(n: nat, a: nat, b: nat)
    requires a > 0 && b > 0
    ensures a * b > 0 && n / a / b == n / (a * b)
  {
    var q, r := n / a, n % a;
    var q', r' := q / b, q % b;
    TwoSteps(a, b, q', r', r);
    DivisionUnique(a * b, n, q', a * r' + r);
  }

  lemma TwoSteps(a: nat, b: nat, q: nat, r': nat, r: nat)
    requires r < a && r' < b
    ensures a * (b * q + r') + r == (a * b) * q + (a * r' + r)
    ensures 0 <= a * r' + r < a * b
  {
    assert a * (b * q + r') == a * (b * q) + a * r';
    assert a * (b * q) == (a * b) * q;
    assert a * r' <= a * (b - 1);
    assert a * (b - 1) == a * b - a;
  }

  /** The mark is the four letters. */
  lemma MarkIsAscii()
    ensures |MARK| == |"TTH1"| && forall i | 0 <= i < |MARK| :: MARK[i] == "TTH1"[i] as int
  {
    assert "TTH1"[0] == 'T' && "TTH1"[1] == 'T' && "TTH1"[2] == 'H' && "TTH1"[3] == '1';
  }

  // ---- the frame ----

  function Payload<S(!new)>(c: Codecs<S>, hints: seq<Hint>): Result<Bytes> {
    if hints == [] then Ok([])
    else
      var encoded :- c.hintsToBytes(hints);
      Ok(MARK + encoded)
  }

  function Framed(payload: Bytes, snark: Bytes): Bytes {
    LittleEndian(|payload|, PREFIX) + payload + snark
  }

  function Frame<S(!new)>(c: Codecs<S>, proof: Proof<S>, mode: Mode): Result<Bytes> {
    var payload :- Payload(c, proof.hints);
    var snark :- c.snarkToBytes(proof.snark, mode);
    Ok(Framed(payload, snark))
  }

  function SerializedSize<S(!new)>(c: Codecs<S>, proof: Proof<S>, mode: Mode): nat {
    var payload := Payload(c, proof.hints);
    PREFIX + (if payload.Ok? then |payload.value| else 0) + c.snarkSize(proof.snark, mode)
  }

  function HintsIn<S(!new)>(c: Codecs<S>, payload: Bytes): Result<seq<Hint>> {
    if payload == [] then Ok([])
    else if MARK <= payload then c.hintsFromBytes(payload[|MARK|..])
    else Ok([])
  }

  /** What the front of a stream decodes to, and how many bytes that takes. */
  function Parsed<S(!new)>(c: Codecs<S>, bytes: Bytes, mode: Mode): Result<(Proof<S>, nat)> {
    if |bytes| < PREFIX then Err
    else
      var end := PREFIX + FromLittleEndian(bytes[..PREFIX]);
      if |bytes| < end then Err
      else
        var hints :- HintsIn(c, bytes[PREFIX..end]);
        var snark :- c.snarkFromFront(bytes[end..], mode);
        Ok((Proof(snark.0, hints), end + snark.1))
  }

  // ---- writing and reading ----

  class ByteWriter {
    var bytes: Bytes

    constructor ()
      ensures bytes == []
    {
      bytes := [];
    }

    method WriteAll(data: Bytes)
      modifies this
      ensures bytes == old(bytes) + data
    {
      bytes := bytes + data;
    }
  }

  class ByteReader {
    const data: Bytes
    var pos: nat

    ghost predicate Valid()
      reads this
    {
      pos <= |data|
    }

    function Rest(): Bytes
      requires Valid()
      reads this
    {
      data[pos..]
    }

    constructor (data: Bytes)
      ensures Valid() && Rest() == data
    {
      this.data, pos := data, 0;
    }

    /** Exactly `n` bytes, or an error that leaves the position open. */
    method ReadExact(n: nat) returns (r: Result<Bytes>)
      requires Valid()
      modifies this
      ensures Valid()
      ensures r.Ok? <==> n <= |old(Rest())|
      ensures r.Ok? ==> r.value == old(Rest())[..n] && Rest() == old(Rest())[n..]
    {
      if |data| - pos < n {
        pos := |data|;
        return Err;
      }
      r := Ok(data[pos..pos + n]);
      pos := pos + n;
    }

    method ReadSnark<S(!new)>(c: Codecs<S>, mode: Mode) returns (r: Result<S>)
      requires Valid() && c.ReadsWithin()
      modifies this
      ensures Valid()
      ensures var s := c.snarkFromFront(old(Rest()), mode);
              if s.Ok? then r == Ok(s.value.0) && Rest() == old(Rest())[s.value.1..] else r.Err?
    {
      var s := c.snarkFromFront(data[pos..], mode);
      if s.Err? {
        return Err;
      }
      r := Ok(s.value.0);
      pos := pos + s.value.1;
    }
  }

  /** The payload and its length prefix, taken off the front. */
  method ReadPayload(reader: ByteReader) returns (r: Result<Bytes>)
    requires reader.Valid()
    modifies reader
    ensures reader.Valid()
    ensures var bytes := old(reader.Rest());
            r.Ok? <==> |bytes| >= PREFIX && |bytes| >= PREFIX + FromLittleEndian(bytes[..PREFIX])
    ensures var bytes := old(reader.Rest());
            r.Ok? ==> var end := PREFIX + FromLittleEndian(bytes[..PREFIX]);
                      r.value == bytes[PREFIX..end] && reader.Rest() == bytes[end..]
  {
    hide FromLittleEndian;
    var prefix :- reader.ReadExact(PREFIX);
    var length := FromLittleEndian(prefix);
    if length == 0 {
      return Ok([]);
    }
    r := reader.ReadExact(length);
  }

  method Serialize<S(!new)>(c: Codecs<S>, proof: Proof<S>, writer: ByteWriter, mode: Mode) returns (r: Result<()>)
    modifies writer
    ensures r.Ok? <==> Frame(c, proof, mode).Ok?
    ensures r.Ok? ==> writer.bytes == old(writer.bytes) + Frame(c, proof, mode).value
    ensures Payload(c, proof.hints).Err? ==> writer.bytes == old(writer.bytes)
  {
    hide LittleEndian;
    var payload :- Payload(c, proof.hints);
    writer.WriteAll(LittleEndian(|payload|, PREFIX));
    writer.WriteAll(payload);
    var snark :- c.snarkToBytes(proof.snark, mode);
    writer.WriteAll(snark);
    assert writer.bytes == old(writer.bytes) + Framed(payload, snark);
    r := Ok(());
  }

  method Deserialize<S(!new)>(c: Codecs<S>, reader: ByteReader, mode: Mode) returns (r: Result<Proof<S>>)
    requires reader.Valid() && c.ReadsWithin()
    modifies reader
    ensures reader.Valid()
    ensures var p := Parsed(c, old(reader.Rest()), mode);
            if p.Ok? then r == Ok(p.value.0) && p.value.1 <= |old(reader.Rest())|
                          && reader.Rest() == old(reader.Rest())[p.value.1..]
            else r.Err?
  {
    hide FromLittleEndian;
    var payload :- ReadPayload(reader);
    var hints: seq<Hint>;
    if |payload| == 0 {
      hints := [];
    } else if MARK <= payload {
      hints :- c.hintsFromBytes(payload[|MARK|..]);
    } else {
      hints := [];
    }
    var snark :- reader.ReadSnark(c, mode);
    r := Ok(Proof(snark, hints));
  }

  /** Without hints the payload is empty; otherwise it is the mark and the encoded hints. */
  lemma FrameLayout<S(!new)>(c: Codecs<S>, proof: Proof<S>, mode: Mode)
    requires c.snarkToBytes(proof.snark, mode).Ok?
    ensures var snark := c.snarkToBytes(proof.snark, mode).value;
            && (proof.hints == [] ==> Frame(c, proof, mode) == Ok([0, 0, 0, 0, 0, 0, 0, 0] + snark))
            && (proof.hints != [] ==>
                  var encoded := c.hintsToBytes(proof.hints);
                  if encoded.Err? then Frame(c, proof, mode).Err?
                  else Frame(c, proof, mode)
                         == Ok(LittleEndian(4 + |encoded.value|, 8) + [0x54, 0x54, 0x48, 0x31] + encoded.value + snark))
  {
    NoLength(8);
    var none: Bytes := [0, 0, 0, 0, 0, 0, 0, 0];
    assert LittleEndian(0, 8) == none;
    var snark := c.snarkToBytes(proof.snark, mode).value;
    hide LittleEndian;
    assert none + [] + snark == none + snark;
    if proof.hints != [] && c.hintsToBytes(proof.hints).Ok? {
      var encoded := c.hintsToBytes(proof.hints).value;
      assert LittleEndian(4 + |encoded|, 8) + (MARK + encoded) + snark
          == LittleEndian(4 + |encoded|, 8) + MARK + encoded + snark;
    }
  }

  lemma {:induction false} NoLength(width: nat)
    ensures LittleEndian(0, width) == seq(width, i => 0)
  {
    if width > 0 {
      NoLength(width - 1);
    }
  }

  // ---- round trips ----

  /** A frame holds its payload and its SNARK bytes in place, whatever follows. */
  lemma FrameParts(payload: Bytes, snark: Bytes, rest: Bytes)
    requires |payload| < Capacity(PREFIX)
    ensures var bytes := Framed(payload, snark) + rest; var end := PREFIX + |payload|;
            && |bytes| >= end && FromLittleEndian(bytes[..PREFIX]) == |payload|
            && bytes[PREFIX..end] == payload && bytes[end..] == snark + rest
  {
    var bytes := Framed(payload, snark) + rest;
    LengthRoundTrip(|payload|, PREFIX);
    assert bytes[..PREFIX] == LittleEndian(|payload|, PREFIX);
  }

  lemma FramedRoundTrip<S(!new)>(c: Codecs<S>, payload: Bytes, s: S, mode: Mode, rest: Bytes)
    requires c.RoundTrip() && c.snarkToBytes(s, mode).Ok? && HintsIn(c, payload).Ok?
    requires |payload| < Capacity(PREFIX)
    ensures var frame := Framed(payload, c.snarkToBytes(s, mode).value);
            Parsed(c, frame + rest, mode) == Ok((Proof(s, HintsIn(c, payload).value), |frame|))
  {
    FrameParts(payload, c.snarkToBytes(s, mode).value, rest);
  }

  /** Decoding a serialized proof, with anything after it, returns the proof and stops at its end. */
  lemma FrameRoundTrip<S(!new)>(c: Codecs<S>, proof: Proof<S>, mode: Mode, rest: Bytes)
    requires c.RoundTrip() && Frame(c, proof, mode).Ok?
    requires |Payload(c, proof.hints).value| < Capacity(PREFIX)
    ensures Parsed(c, Frame(c, proof, mode).value + rest, mode) == Ok((proof, |Frame(c, proof, mode).value|))
  {
    var payload := Payload(c, proof.hints).value;
    if proof.hints != [] {
      assert payload[|MARK|..] == c.hintsToBytes(proof.hints).value;
    }
    FramedRoundTrip(c, payload, proof.snark, mode, rest);
  }

  /** The announced size is the number of bytes written. */
  lemma SizeIsBytesWritten<S(!new)>(c: Codecs<S>, proof: Proof<S>, mode: Mode)
    requires c.RoundTrip() && Frame(c, proof, mode).Ok?
    ensures SerializedSize(c, proof, mode) == |Frame(c, proof, mode).value|
  {
    var payload := Payload(c, proof.hints).value;
    var snark := c.snarkToBytes(proof.snark, mode).value;
    assert |Framed(payload, snark)| == PREFIX + |payload| + |snark|;
  }

  /** Any other payload in the slot is skipped: the proof comes back with no hints. */
  lemma LegacyPayload<S(!new)>(c: Codecs<S>, payload: Bytes, s: S, mode: Mode, rest: Bytes)
    requires c.RoundTrip() && c.snarkToBytes(s, mode).Ok?
    requires |payload| < Capacity(PREFIX) && !(MARK <= payload)
    ensures var frame := Framed(payload, c.snarkToBytes(s, mode).value);
            Parsed(c, frame + rest, mode) == Ok((Proof(s, []), |frame|))
  {
    FramedRoundTrip(c, payload, s, mode, rest);
  }

  /** Decoding succeeds exactly on a payload with readable hints, framed before a readable SNARK proof. */
  lemma ParsedMeaning<S(!new)>(c: Codecs<S>, bytes: Bytes, mode: Mode)
    ensures Parsed(c, bytes, mode).Ok? <==>
            exists payload: Bytes, rest: Bytes ::
              && |payload| < Capacity(PREFIX) && bytes == Framed(payload, rest)
              && HintsIn(c, payload).Ok? && c.snarkFromFront(rest, mode).Ok?
  {
    hide LittleEndian, FromLittleEndian, HintsIn;
    if Parsed(c, bytes, mode).Ok? {
      var end := PREFIX + FromLittleEndian(bytes[..PREFIX]);
      PrefixRoundTrip(bytes[..PREFIX]);
      assert bytes == Framed(bytes[PREFIX..end], bytes[end..]);
    }
    forall payload: Bytes, rest: Bytes |
      && |payload| < Capacity(PREFIX) && bytes == Framed(payload, rest)
      && HintsIn(c, payload).Ok? && c.snarkFromFront(rest, mode).Ok?
      ensures Parsed(c, bytes, mode).Ok?
    {
      FrameParts(payload, rest, []);
      assert Framed(payload, rest) + [] == bytes && rest + [] == rest;
    }
  }

  /** No serialized proof is the beginning of another one's bytes. */
  lemma FramesArePrefixFree<S(!new)>(c: Codecs<S>, p: Proof<S>, q: Proof<S>, mode: Mode)
    requires c.RoundTrip() && Frame(c, p, mode).Ok? && Frame(c, q, mode).Ok?
    requires |Payload(c, p.hints).value| < Capacity(PREFIX) && |Payload(c, q.hints).value| < Capacity(PREFIX)
    requires Frame(c, p, mode).value <= Frame(c, q, mode).value
    ensures p == q
  {
    var f, g := Frame(c, p, mode).value, Frame(c, q, mode).value;
    assert g == f + g[|f|..] && g == g + [];
    FrameRoundTrip(c, p, mode, g[|f|..]);
    FrameRoundTrip(c, q, mode, []);
  }

  // ---- artifacts ----

  /** Whole-artifact compression. */
  datatype Zip = Zip(compress: Bytes -> Result<Bytes>, decompress: Bytes -> Option<Bytes>) {
    ghost predicate RoundTrip() {
      forall b: Bytes :: compress(b).Ok? ==> decompress(compress(b).value) == Some(b)
    }
  }

  /** Compressed SNARK points first, uncompressed ones as the fallback; trailing bytes are ignored. */
  function EitherMode<S(!new)>(c: Codecs<S>, bytes: Bytes): Result<Proof<S>> {
    match Parsed(c, bytes, Compressed)
    case Ok(p) => Ok(p.0)
    case Err =>
      var p :- Parsed(c, bytes, Uncompressed);
      Ok(p.0)
  }

  function FromArtifact<S(!new)>(c: Codecs<S>, z: Zip, bytes: Bytes): Result<Proof<S>> {
    match z.decompress(bytes)
    case Some(decoded) => EitherMode(c, decoded)
    case None => EitherMode(c, bytes)
  }

  method ToBytes<S(!new)>(c: Codecs<S>, z: Zip, proof: Proof<S>) returns (r: Result<Bytes>)
    ensures r.Ok? <==> Frame(c, proof, Compressed).Ok? && z.compress(Frame(c, proof, Compressed).value).Ok?
    ensures c.RoundTrip() && z.RoundTrip() && r.Ok? && |Payload(c, proof.hints).value| < Capacity(PREFIX)
            ==> FromArtifact(c, z, r.value) == Ok(proof)
  {
    var writer := new ByteWriter();
    var _ :- Serialize(c, proof, writer, Compressed);
    assert writer.bytes == Frame(c, proof, Compressed).value;
    r := z.compress(writer.bytes);
    if c.RoundTrip() && |Payload(c, proof.hints).value| < Capacity(PREFIX) {
      FrameRoundTrip(c, proof, Compressed, []);
      assert writer.bytes + [] == writer.bytes;
    }
  }

  method FromBytes<S(!new)>(c: Codecs<S>, z: Zip, bytes: Bytes) returns (r: Result<Proof<S>>)
    requires c.ReadsWithin()
    ensures r == FromArtifact(c, z, bytes)
  {
    var zipped := z.decompress(bytes);
    var decoded := if zipped.Some? then zipped.value else bytes;
    var cursor := new ByteReader(decoded);
    r := Deserialize(c, cursor, Compressed);
    if r.Err? {
      var fallback := new ByteReader(decoded);
      r := Deserialize(c, fallback, Uncompressed);
    }
  }

  /** Raw canonical bytes still load, unless they happen to be a zipped stream or to read as the other mode. */
  lemma RawArtifact<S(!new)>(c: Codecs<S>, z: Zip, proof: Proof<S>, mode: Mode)
    requires c.RoundTrip() && Frame(c, proof, mode).Ok? && |Payload(c, proof.hints).value| < Capacity(PREFIX)
    requires z.decompress(Frame(c, proof, mode).value).None?
    requires mode.Compressed? || Parsed(c, Frame(c, proof, mode).value, Compressed).Err?
    ensures FromArtifact(c, z, Frame(c, proof, mode).value) == Ok(proof)
  {
    var frame := Frame(c, proof, mode).value;
    FrameRoundTrip(c, proof, mode, []);
    assert frame + [] == frame;
  }
}
