/** The transcript readers of the Solidity export: the null transcript
    `SolidityShaRead`, which answers every request with a constant, and the
    selector `SolidityShaSelector`, which forwards every request to whichever
    of the two readers it was built with. The real SHA-256 reader `ShaRead`
    is library code reading from an `io::Read`; it appears here as an
    abstract state with step functions that may fail. */
module Transcript {
  import opened Bytes

  /** An `io::Error`; its contents do not matter here. */
  datatype IoError = IoError(code: nat)

  /** `io::Result<T>`. */
  datatype IoResult<T> = Ok(value: T) | Err(error: IoError)

  /** The curve constants the null transcript answers with: the identity
      point, the scalar field's root of unity, and `Challenge255::new`,
      which turns 64 bytes into a challenge. */
  datatype CurveConstants<!P, !S, !Ch> = CurveConstants(
    identity: P,
    rootOfUnity: S,
    challengeFromBytes: seq<byte> -> Ch)

  /** The real reader over a state `R` (the input stream and the running
      hash): each operation returns its answer and the advanced state.
      Reads and the `common_*` calls can fail; squeezing cannot. */
  datatype ShaReadOps<!R, !P, !S, !Ch> = ShaReadOps(
    readPoint: R -> (IoResult<P>, R),
    readScalar: R -> (IoResult<S>, R),
    squeezeChallenge: R -> (Ch, R),
    commonPoint: (R, P) -> (IoResult<()>, R),
    commonScalar: (R, S) -> (IoResult<()>, R))

  /** A request to a transcript: one of the five operations of
      `TranscriptRead` and `Transcript`. */
  datatype Op<P, S> = ReadPoint | ReadScalar | SqueezeChallenge | CommonPoint(point: P) | CommonScalar(scalar: S)

  /** The answer to a request, tagged by the operation it answers. */
  datatype Reply<P, S, Ch> =
    | PointReply(point: IoResult<P>)
    | ScalarReply(scalar: IoResult<S>)
    | ChallengeReply(challenge: Ch)
    | UnitReply(unit: IoResult<()>)
  {
    predicate IsError() {
      || (PointReply? && point.Err?)
      || (ScalarReply? && scalar.Err?)
      || (UnitReply? && unit.Err?)
    }

    /** The reply has the shape of an answer to `op`. */
    predicate Answers(op: Op<P, S>) {
      match op
      case ReadPoint => PointReply?
      case ReadScalar => ScalarReply?
      case SqueezeChallenge => ChallengeReply?
      case CommonPoint(_) => UnitReply?
      case CommonScalar(_) => UnitReply?
    }
  }

  /** The 64 zero bytes the null transcript squeezes its challenge from; the
      conversion to a 64-byte array cannot fail. */
  function ZeroChallengeBytes(): (b: seq<byte>)
    ensures |b| == 64
    ensures forall i :: 0 <= i < |b| ==> b[i] == 0
  {
    seq(64, _ => 0)
  }

  /** `SolidityShaRead`: a transcript with no fields (`init` builds its only
      value) whose every operation succeeds with a constant. */
  datatype SolidityShaRead = SolidityShaRead {

    /** The answer of the null transcript to `op`: the identity for a point,
        the root of unity for a scalar, the challenge of 64 zero bytes, and
        success for the `common_*` calls, whose arguments are ignored. */
    function Step<P, S, Ch>(curve: CurveConstants<P, S, Ch>, op: Op<P, S>): (reply: Reply<P, S, Ch>)
      ensures reply.Answers(op) && !reply.IsError()
      ensures op.ReadPoint? ==> reply.point.value == curve.identity
      ensures op.ReadScalar? ==> reply.scalar.value == curve.rootOfUnity
      ensures op.SqueezeChallenge? ==> reply.challenge == curve.challengeFromBytes(ZeroChallengeBytes())
    {
      match op
      case ReadPoint => PointReply(Ok(curve.identity))
      case ReadScalar => ScalarReply(Ok(curve.rootOfUnity))
      case SqueezeChallenge => ChallengeReply(curve.challengeFromBytes(ZeroChallengeBytes()))
      case CommonPoint(_) => UnitReply(Ok(()))
      case CommonScalar(_) => UnitReply(Ok(()))
    }
  }

  /** One request to the real reader. */
  function ShaStep<R, P, S, Ch>(ops: ShaReadOps<R, P, S, Ch>, r: R, op: Op<P, S>): (out: (Reply<P, S, Ch>, R))
    ensures out.0.Answers(op)
  {
    match op
    case ReadPoint => var (x, r') := ops.readPoint(r); (PointReply(x), r')
    case ReadScalar => var (x, r') := ops.readScalar(r); (ScalarReply(x), r')
    case SqueezeChallenge => var (c, r') := ops.squeezeChallenge(r); (ChallengeReply(c), r')
    case CommonPoint(p) => var (x, r') := ops.commonPoint(r, p); (UnitReply(x), r')
    case CommonScalar(s) => var (x, r') := ops.commonScalar(r, s); (UnitReply(x), r')
  }

  /** A script of requests to the real reader alone: the replies in order,
      one per request and shaped as its answer, and the final state. */
  function ShaRun<R, P, S, Ch>(ops: ShaReadOps<R, P, S, Ch>, r: R, script: seq<Op<P, S>>): (out: (seq<Reply<P, S, Ch>>, R))
    ensures |out.0| == |script|
    ensures forall i :: 0 <= i < |script| ==> out.0[i].Answers(script[i])
    decreases |script|
  {
    if |script| == 0 then ([], r)
    else
      var (x, r') := ShaStep(ops, r, script[0]);
      var (xs, r'') := ShaRun(ops, r', script[1..]);
      ([x] + xs, r'')
  }

  /** The two variants of `SolidityShaSelector`. */
  datatype Variant<R> = Sha(reader: R) | Solidity(transcript: SolidityShaRead)

  /** The variant tag, fixed when the selector is built. */
  datatype Mode = ShaMode | SolidityMode

  function ModeOf<R>(v: Variant<R>): Mode {
    if v.Sha? then ShaMode else SolidityMode
  }

  /** One request to the selector: the `match self` of every forwarding
      impl. The reply answers the request, the variant keeps its tag, and a
      null transcript stays as it is and never fails. */
  function Step<R, P, S, Ch>(ops: ShaReadOps<R, P, S, Ch>, curve: CurveConstants<P, S, Ch>,
                             v: Variant<R>, op: Op<P, S>): (out: (Reply<P, S, Ch>, Variant<R>))
    ensures out.0.Answers(op) && ModeOf(out.1) == ModeOf(v)
    ensures v.Solidity? ==> out.1 == v && !out.0.IsError()
  {
    match v
    case Sha(r) => var (x, r') := ShaStep(ops, r, op); (x, Sha(r'))
    case Solidity(t) => (t.Step(curve, op), v)
  }

  /** A script of requests to the selector: one reply per request, shaped
      as its answer. */
  function Run<R, P, S, Ch>(ops: ShaReadOps<R, P, S, Ch>, curve: CurveConstants<P, S, Ch>,
                            v: Variant<R>, script: seq<Op<P, S>>): (out: (seq<Reply<P, S, Ch>>, Variant<R>))
    ensures |out.0| == |script|
    ensures forall i :: 0 <= i < |script| ==> out.0[i].Answers(script[i])
    decreases |script|
  {
    if |script| == 0 then ([], v)
    else
      var (x, v') := Step(ops, curve, v, script[0]);
      var (xs, v'') := Run(ops, curve, v', script[1..]);
      ([x] + xs, v'')
  }

  /** No script changes the variant tag. */
  lemma {:induction false} RunKeepsMode<R, P, S, Ch>(ops: ShaReadOps<R, P, S, Ch>, curve: CurveConstants<P, S, Ch>,
                                                     v: Variant<R>, script: seq<Op<P, S>>)
    ensures ModeOf(Run(ops, curve, v, script).1) == ModeOf(v)
    decreases |script|
  {
    if |script| > 0 {
      RunKeepsMode(ops, curve, Step(ops, curve, v, script[0]).1, script[1..]);
    }
  }

  /** In Sha mode the selector is the real reader: over any script it gives
      the reader's replies and ends in the reader's final state. */
  lemma {:induction false} ShaForwarding<R, P, S, Ch>(ops: ShaReadOps<R, P, S, Ch>, curve: CurveConstants<P, S, Ch>,
                                                      r: R, script: seq<Op<P, S>>)
    ensures var sha := ShaRun(ops, r, script);
      Run(ops, curve, Sha(r), script) == (sha.0, Sha(sha.1))
    decreases |script|
  {
    if |script| > 0 {
      ShaForwarding(ops, curve, ShaStep(ops, r, script[0]).1, script[1..]);
    }
  }

  /** In Solidity mode, over any script, nothing fails, the transcript is
      never changed, and the reply to each request is the null transcript's
      constant answer to that request alone, whatever came before it. */
  lemma {:induction false} NullRunConstant<R, P, S, Ch>(ops: ShaReadOps<R, P, S, Ch>, curve: CurveConstants<P, S, Ch>,
                                                        t: SolidityShaRead, script: seq<Op<P, S>>)
    ensures var out := Run(ops, curve, Solidity(t), script);
      && out.1 == Solidity(t)
      && (forall i :: 0 <= i < |script| ==> out.0[i] == t.Step(curve, script[i]))
      && (forall i :: 0 <= i < |script| ==> !out.0[i].IsError())
  {
    if |script| > 0 {
      NullRunConstant(ops, curve, t, script[1..]);
      var out := Run(ops, curve, Solidity(t), script);
      var rest := Run(ops, curve, Solidity(t), script[1..]);
      assert out.0 == [t.Step(curve, script[0])] + rest.0;
      forall i | 0 < i < |script|
        ensures out.0[i] == t.Step(curve, script[i])
      {
        assert out.0[i] == rest.0[i - 1];
      }
    }
  }

  /** Two positions of one script that make the same request get the same
      reply from the null transcript: its answers carry no history. */
  lemma NullRunHistoryFree<R, P, S, Ch>(ops: ShaReadOps<R, P, S, Ch>, curve: CurveConstants<P, S, Ch>,
                                        t: SolidityShaRead, script: seq<Op<P, S>>, i: nat, j: nat)
    requires i < |script| && j < |script| && script[i] == script[j]
    ensures Run(ops, curve, Solidity(t), script).0[i] == Run(ops, curve, Solidity(t), script).0[j]
  {
    NullRunConstant(ops, curve, t, script);
  }

  /** The selector of the export: the variant it holds, with the tag it was
      built with. */
  class SolidityShaSelector<R, P, S, Ch> {
    const ops: ShaReadOps<R, P, S, Ch>
    const curve: CurveConstants<P, S, Ch>
    const mode: Mode
    var variant: Variant<R>

    ghost predicate Valid()
      reads this
    {
      ModeOf(variant) == mode
    }

    /** `SolidityShaSelector::ShaRead(reader)` */
    constructor FromShaRead(ops: ShaReadOps<R, P, S, Ch>, curve: CurveConstants<P, S, Ch>, reader: R)
      ensures Valid() && mode == ShaMode
      ensures this.ops == ops && this.curve == curve && variant == Sha(reader)
    {
      this.ops := ops;
      this.curve := curve;
      mode := ShaMode;
      variant := Sha(reader);
    }

    /** `SolidityShaSelector::SolidityShaRead(SolidityShaRead::init())` */
    constructor FromSolidityShaRead(ops: ShaReadOps<R, P, S, Ch>, curve: CurveConstants<P, S, Ch>)
      ensures Valid() && mode == SolidityMode
      ensures this.ops == ops && this.curve == curve && variant == Solidity(SolidityShaRead)
    {
      this.ops := ops;
      this.curve := curve;
      mode := SolidityMode;
      variant := Solidity(SolidityShaRead);
    }

    method ReadPoint() returns (r: IoResult<P>)
      requires Valid()
      modifies this
      ensures Valid()
      ensures (PointReply(r), variant) == Step(ops, curve, old(variant), Op.ReadPoint)
      ensures mode == SolidityMode ==> r == Ok(curve.identity) && variant == old(variant)
    {
      match variant
      case Sha(reader) =>
        var (x, reader') := ops.readPoint(reader);
        r := x;
        variant := Sha(reader');
      case Solidity(t) =>
        r := t.Step(curve, Op.ReadPoint).point;
    }

    method ReadScalar() returns (r: IoResult<S>)
      requires Valid()
      modifies this
      ensures Valid()
      ensures (ScalarReply(r), variant) == Step(ops, curve, old(variant), Op.ReadScalar)
      ensures mode == SolidityMode ==> r == Ok(curve.rootOfUnity) && variant == old(variant)
    {
      match variant
      case Sha(reader) =>
        var (x, reader') := ops.readScalar(reader);
        r := x;
        variant := Sha(reader');
      case Solidity(t) =>
        r := t.Step(curve, Op.ReadScalar).scalar;
    }

    method SqueezeChallenge() returns (c: Ch)
      requires Valid()
      modifies this
      ensures Valid()
      ensures (ChallengeReply(c), variant) == Step(ops, curve, old(variant), Op.SqueezeChallenge)
      ensures mode == SolidityMode ==> c == curve.challengeFromBytes(ZeroChallengeBytes()) && variant == old(variant)
    {
      match variant
      case Sha(reader) =>
        var (x, reader') := ops.squeezeChallenge(reader);
        c := x;
        variant := Sha(reader');
      case Solidity(t) =>
        c := t.Step(curve, Op.SqueezeChallenge).challenge;
    }

    method CommonPoint(point: P) returns (r: IoResult<()>)
      requires Valid()
      modifies this
      ensures Valid()
      ensures (UnitReply(r), variant) == Step(ops, curve, old(variant), Op.CommonPoint(point))
      ensures mode == SolidityMode ==> r.Ok? && variant == old(variant)
    {
      match variant
      case Sha(reader) =>
        var (x, reader') := ops.commonPoint(reader, point);
        r := x;
        variant := Sha(reader');
      case Solidity(t) =>
        r := t.Step(curve, Op.CommonPoint(point)).unit;
    }

    method CommonScalar(scalar: S) returns (r: IoResult<()>)
      requires Valid()
      modifies this
      ensures Valid()
      ensures (UnitReply(r), variant) == Step(ops, curve, old(variant), Op.CommonScalar(scalar))
      ensures mode == SolidityMode ==> r.Ok? && variant == old(variant)
    {
      match variant
      case Sha(reader) =>
        var (x, reader') := ops.commonScalar(reader, scalar);
        r := x;
        variant := Sha(reader');
      case Solidity(t) =>
        r := t.Step(curve, Op.CommonScalar(scalar)).unit;
    }
  }
}
