/**
 * Serialisation of actions. An action is written as a sequence of words
 * (natural numbers): its action-type tag, its inputs, its outputs and its
 * owner. Strings are a length followed by character codes; artifact lists
 * are a count followed by the artifacts. Artifact roots travel by name and
 * are resolved on reading against a context, the set of roots the reader
 * knows; a root the context cannot resolve, or words that do not form an
 * action, are a decoding error and never a default.
 */
module ActionCodec {
  import opened Wrappers
  import opened Artifacts
  import opened Actions

  type Words = seq<nat>

  datatype DecodeError = Malformed | UnresolvableRoot(name: string)

  type Decoded<T> = Result<(T, Words), DecodeError>

  /** The roots a reader can resolve, by name. */
  type Context = set<string>

  function TypeTag(t: ActionType): nat {
    match t
    case Normal => 0
    case AggregatingMiddleman => 1
    case RunfilesMiddleman => 2
    case SchedulingDependencyMiddleman => 3
  }

  function TypeOfTag(n: nat): (r: Option<ActionType>)
    ensures r.Some? ==> TypeTag(r.value) == n
    ensures n <= 3 ==> r.Some?
  {
    if n == 0 then Some(Normal)
    else if n == 1 then Some(AggregatingMiddleman)
    else if n == 2 then Some(RunfilesMiddleman)
    else if n == 3 then Some(SchedulingDependencyMiddleman)
    else None
  }

  /** The code points that are characters (Unicode scalar values). */
  predicate IsCharCode(n: nat) {
    n < 0xD800 || 0xE000 <= n < 0x11_0000
  }

  function CharCodes(s: string): (r: Words)
    ensures |r| == |s|
  {
    if s == [] then [] else [s[0] as nat] + CharCodes(s[1..])
  }

  /** Reads `n` character codes from the front of the words. */
  function ReadChars(ws: Words, n: nat): Decoded<string>
    decreases n
  {
    if n == 0 then Success(([], ws))
    else if ws == [] || !IsCharCode(ws[0]) then Failure(Malformed)
    else
      match ReadChars(ws[1..], n - 1)
      case Failure(e) => Failure(e)
      case Success((s, rest)) => Success(([ws[0] as char] + s, rest))
  }

  function EncodeString(s: string): Words {
    [|s|] + CharCodes(s)
  }

  function DecodeString(ws: Words): Decoded<string> {
    if ws == [] then Failure(Malformed) else ReadChars(ws[1..], ws[0])
  }

  function EncodeArtifact(x: Artifact): Words {
    EncodeString(x.rootRelativePath) + EncodeString(x.root.name)
  }

  function DecodeArtifact(ws: Words, ctx: Context): Decoded<Artifact> {
    match DecodeString(ws)
    case Failure(e) => Failure(e)
    case Success((path, afterPath)) =>
      match DecodeString(afterPath)
      case Failure(e) => Failure(e)
      case Success((rootName, rest)) =>
        if rootName in ctx then Success((Artifact(path, ArtifactRoot(rootName)), rest))
        else Failure(UnresolvableRoot(rootName))
  }

  function EncodeArtifactSeq(xs: seq<Artifact>): Words {
    if xs == [] then [] else EncodeArtifact(xs[0]) + EncodeArtifactSeq(xs[1..])
  }

  function DecodeArtifactSeq(ws: Words, count: nat, ctx: Context): Decoded<seq<Artifact>>
    decreases count
  {
    if count == 0 then Success(([], ws))
    else
      match DecodeArtifact(ws, ctx)
      case Failure(e) => Failure(e)
      case Success((x, tail)) =>
        match DecodeArtifactSeq(tail, count - 1, ctx)
        case Failure(e) => Failure(e)
        case Success((ys, rest)) => Success(([x] + ys, rest))
  }

  function EncodeArtifacts(xs: seq<Artifact>): Words {
    [|xs|] + EncodeArtifactSeq(xs)
  }

  function DecodeArtifacts(ws: Words, ctx: Context): Decoded<seq<Artifact>> {
    if ws == [] then Failure(Malformed) else DecodeArtifactSeq(ws[1..], ws[0], ctx)
  }

  /** The first word of a serialised action names its action type. */
  function Serialize(a: Action): (r: Words)
    ensures r != [] && TypeOfTag(r[0]) == Some(a.actionType)
  {
    [TypeTag(a.actionType)] + EncodeArtifacts(a.inputs) + EncodeArtifacts(a.outputs) + EncodeString(a.owner.targetLabel)
  }

  /** Reads one action; the words must be used up exactly. Whatever it
      accepts is the serialised form of the action it returns, and every
      root of that action is one the context resolves. */
  function Deserialize(ws: Words, ctx: Context): (r: Result<Action, DecodeError>)
    ensures r.Success? ==> Serialize(r.value) == ws
    ensures r.Success? ==> Resolvable(r.value.inputs, ctx) && Resolvable(r.value.outputs, ctx)
  {
    if ws == [] then Failure(Malformed)
    else
      match TypeOfTag(ws[0])
      case None => Failure(Malformed)
      case Some(actionType) =>
        var inputs :- DecodeArtifacts(ws[1..], ctx);
        var outputs :- DecodeArtifacts(inputs.1, ctx);
        var owner :- DecodeString(outputs.1);
        if owner.1 != [] then Failure(Malformed)
        else
          DecodeArtifactsCanonical(ws[1..], ctx, inputs.0, inputs.1);
          DecodeArtifactsCanonical(inputs.1, ctx, outputs.0, outputs.1);
          DecodeStringCanonical(outputs.1, owner.0, owner.1);
          var a := Action(actionType, inputs.0, outputs.0, ActionOwner(owner.0));
          SerializeJoin(a, ws, inputs.1, outputs.1, owner.1);
          Success(a)
  }

  /** Every artifact of `xs` has a root the context resolves. */
  predicate Resolvable(xs: seq<Artifact>, ctx: Context) {
    forall x | x in xs :: x.root.name in ctx
  }

  /** Decoding accepts only canonical forms: what it reads is exactly the
      encoding of what it returns. */
  lemma {:induction false} ReadCharsCanonical(ws: Words, n: nat, s: string, rest: Words)
    requires ReadChars(ws, n) == Success((s, rest))
    ensures |s| == n && CharCodes(s) + rest == ws
    decreases n
  {
    if n != 0 {
      var t := ReadChars(ws[1..], n - 1).value.0;
      assert s == [ws[0] as char] + t;
      ReadCharsCanonical(ws[1..], n - 1, t, rest);
      assert s[1..] == t;
      assert ws == [ws[0]] + ws[1..];
    }
  }

  lemma DecodeStringCanonical(ws: Words, s: string, rest: Words)
    requires DecodeString(ws) == Success((s, rest))
    ensures EncodeString(s) + rest == ws
  {
    ReadCharsCanonical(ws[1..], ws[0], s, rest);
    EncodeStringJoin(s, rest, ws);
  }

  lemma EncodeStringJoin(s: string, rest: Words, ws: Words)
    requires ws != [] && ws[0] == |s|
    requires CharCodes(s) + rest == ws[1..]
    ensures EncodeString(s) + rest == ws
  {
    assert ws == [ws[0]] + ws[1..];
  }

  lemma DecodeArtifactCanonical(ws: Words, ctx: Context, x: Artifact, rest: Words)
    requires DecodeArtifact(ws, ctx) == Success((x, rest))
    ensures EncodeArtifact(x) + rest == ws
    ensures x.root.name in ctx
  {
    var afterPath := DecodeString(ws).value.1;
    DecodeStringCanonical(ws, x.rootRelativePath, afterPath);
    DecodeStringCanonical(afterPath, x.root.name, rest);
  }

  /** One step of a successful `DecodeArtifactSeq`: the first artifact, read
      from the front of the words, then the rest of the count. */
  lemma DecodeArtifactSeqStep(ws: Words, count: nat, ctx: Context, xs: seq<Artifact>, rest: Words)
      returns (tail: Words)
    requires DecodeArtifactSeq(ws, count, ctx) == Success((xs, rest))
    requires count != 0
    ensures xs != [] && EncodeArtifact(xs[0]) + tail == ws && xs[0].root.name in ctx
    ensures DecodeArtifactSeq(tail, count - 1, ctx) == Success((xs[1..], rest))
  {
    tail := DecodeArtifact(ws, ctx).value.1;
    var ys := DecodeArtifactSeq(tail, count - 1, ctx).value.0;
    assert xs == [xs[0]] + ys;
    DecodeArtifactCanonical(ws, ctx, xs[0], tail);
  }

  /** A count of zero reads nothing. */
  lemma DecodeArtifactSeqZero(ws: Words, ctx: Context, xs: seq<Artifact>, rest: Words)
    requires DecodeArtifactSeq(ws, 0, ctx) == Success((xs, rest))
    ensures xs == [] && EncodeArtifactSeq(xs) + rest == ws
  {
    assert [] + ws == ws;
  }

  /** The converse step: a first artifact followed by the rest of the count. */
  lemma DecodeArtifactSeqCons(ws: Words, count: nat, ctx: Context, xs: seq<Artifact>, tail: Words, rest: Words)
    requires count != 0 && xs != []
    requires DecodeArtifact(ws, ctx) == Success((xs[0], tail))
    requires DecodeArtifactSeq(tail, count - 1, ctx) == Success((xs[1..], rest))
    ensures DecodeArtifactSeq(ws, count, ctx) == Success((xs, rest))
  {
    assert [xs[0]] + xs[1..] == xs;
  }

  lemma EncodeArtifactSeqSplit(xs: seq<Artifact>, rest: Words)
    requires xs != []
    ensures EncodeArtifactSeq(xs) + rest == EncodeArtifact(xs[0]) + (EncodeArtifactSeq(xs[1..]) + rest)
  {
  }

  /** The encoding of a non-empty list, followed by `rest`, in terms of its
      first artifact's encoding followed by `tail`. */
  lemma EncodeArtifactSeqJoin(xs: seq<Artifact>, tail: Words, rest: Words, ws: Words)
    requires xs != []
    requires EncodeArtifact(xs[0]) + tail == ws
    requires EncodeArtifactSeq(xs[1..]) + rest == tail
    ensures EncodeArtifactSeq(xs) + rest == ws
  {
    EncodeArtifactSeqSplit(xs, rest);
  }

  lemma {:induction false} DecodeArtifactSeqCanonical(ws: Words, count: nat, ctx: Context, xs: seq<Artifact>, rest: Words)
    requires DecodeArtifactSeq(ws, count, ctx) == Success((xs, rest))
    ensures |xs| == count
    ensures EncodeArtifactSeq(xs) + rest == ws
    ensures Resolvable(xs, ctx)
    decreases count
  {
    if count != 0 {
      var tail := DecodeArtifactSeqStep(ws, count, ctx, xs, rest);
      DecodeArtifactSeqCanonical(tail, count - 1, ctx, xs[1..], rest);
      EncodeArtifactSeqJoin(xs, tail, rest, ws);
      ResolvableSplit(xs, ctx);
    } else {
      DecodeArtifactSeqZero(ws, ctx, xs, rest);
    }
  }

  lemma DecodeArtifactsCanonical(ws: Words, ctx: Context, xs: seq<Artifact>, rest: Words)
    requires DecodeArtifacts(ws, ctx) == Success((xs, rest))
    ensures EncodeArtifacts(xs) + rest == ws
    ensures Resolvable(xs, ctx)
  {
    DecodeArtifactSeqCanonical(ws[1..], ws[0], ctx, xs, rest);
    EncodeArtifactsJoin(xs, rest, ws);
  }

  lemma EncodeArtifactsJoin(xs: seq<Artifact>, rest: Words, ws: Words)
    requires ws != [] && ws[0] == |xs|
    requires EncodeArtifactSeq(xs) + rest == ws[1..]
    ensures EncodeArtifacts(xs) + rest == ws
  {
    assert ws == [ws[0]] + ws[1..];
  }

  /** The serialised form of an action, put together from the words its
      parts were read from. */
  lemma SerializeJoin(a: Action, ws: Words, afterInputs: Words, afterOutputs: Words, end: Words)
    requires ws != [] && ws[0] == TypeTag(a.actionType)
    requires EncodeArtifacts(a.inputs) + afterInputs == ws[1..]
    requires EncodeArtifacts(a.outputs) + afterOutputs == afterInputs
    requires EncodeString(a.owner.targetLabel) + end == afterOutputs && end == []
    ensures Serialize(a) == ws
  {
    assert ws == [ws[0]] + ws[1..];
    assert EncodeString(a.owner.targetLabel) + end == EncodeString(a.owner.targetLabel);
  }

  lemma {:induction false} ReadCharCodes(s: string, rest: Words)
    ensures ReadChars(CharCodes(s) + rest, |s|) == Success((s, rest))
  {
    if s != [] {
      var ws := CharCodes(s) + rest;
      assert ws[0] == s[0] as nat && ws[1..] == CharCodes(s[1..]) + rest;
      assert IsCharCode(ws[0]) && ws[0] as char == s[0];
      ReadCharCodes(s[1..], rest);
      assert ReadChars(ws[1..], |s| - 1) == Success((s[1..], rest));
      assert [s[0]] + s[1..] == s;
    } else {
      assert CharCodes(s) + rest == rest;
    }
  }

  lemma StringRoundTrip(s: string, rest: Words)
    ensures DecodeString(EncodeString(s) + rest) == Success((s, rest))
  {
    var ws := EncodeString(s) + rest;
    assert ws[0] == |s| && ws[1..] == CharCodes(s) + rest;
    ReadCharCodes(s, rest);
  }

  lemma ArtifactRoundTrip(x: Artifact, rest: Words, ctx: Context)
    ensures x.root.name in ctx ==> DecodeArtifact(EncodeArtifact(x) + rest, ctx) == Success((x, rest))
    ensures x.root.name !in ctx ==> DecodeArtifact(EncodeArtifact(x) + rest, ctx) == Failure(UnresolvableRoot(x.root.name))
  {
    var tail := EncodeString(x.root.name) + rest;
    assert EncodeArtifact(x) + rest == EncodeString(x.rootRelativePath) + tail;
    StringRoundTrip(x.rootRelativePath, tail);
    StringRoundTrip(x.root.name, rest);
  }

  lemma ResolvableSplit(xs: seq<Artifact>, ctx: Context)
    requires xs != []
    ensures Resolvable(xs, ctx) <==> xs[0].root.name in ctx && Resolvable(xs[1..], ctx)
  {
  }

  lemma {:induction false} ArtifactSeqRoundTrip(xs: seq<Artifact>, rest: Words, ctx: Context)
    ensures Resolvable(xs, ctx) ==>
      DecodeArtifactSeq(EncodeArtifactSeq(xs) + rest, |xs|, ctx) == Success((xs, rest))
    ensures !Resolvable(xs, ctx) ==>
      DecodeArtifactSeq(EncodeArtifactSeq(xs) + rest, |xs|, ctx).Failure?
  {
    if Resolvable(xs, ctx) {
      ArtifactSeqReadsBack(xs, rest, ctx);
    } else {
      ArtifactSeqUnresolvable(xs, rest, ctx);
    }
  }

  lemma {:induction false} ArtifactSeqReadsBack(xs: seq<Artifact>, rest: Words, ctx: Context)
    requires Resolvable(xs, ctx)
    ensures DecodeArtifactSeq(EncodeArtifactSeq(xs) + rest, |xs|, ctx) == Success((xs, rest))
  {
    if xs == [] {
      assert EncodeArtifactSeq(xs) + rest == rest;
    } else {
      var tail := EncodeArtifactSeq(xs[1..]) + rest;
      EncodeArtifactSeqSplit(xs, rest);
      ResolvableSplit(xs, ctx);
      ArtifactRoundTrip(xs[0], tail, ctx);
      ArtifactSeqReadsBack(xs[1..], rest, ctx);
      DecodeArtifactSeqCons(EncodeArtifactSeq(xs) + rest, |xs|, ctx, xs, tail, rest);
    }
  }

  lemma {:induction false} ArtifactSeqUnresolvable(xs: seq<Artifact>, rest: Words, ctx: Context)
    requires !Resolvable(xs, ctx)
    ensures DecodeArtifactSeq(EncodeArtifactSeq(xs) + rest, |xs|, ctx).Failure?
  {
    var ws := EncodeArtifactSeq(xs) + rest;
    var tail := EncodeArtifactSeq(xs[1..]) + rest;
    EncodeArtifactSeqSplit(xs, rest);
    ResolvableSplit(xs, ctx);
    ArtifactRoundTrip(xs[0], tail, ctx);
    if xs[0].root.name in ctx {
      ArtifactSeqUnresolvable(xs[1..], rest, ctx);
      DecodeArtifactSeqTailFails(ws, |xs|, ctx, xs[0], tail);
    } else {
      DecodeArtifactSeqHeadFails(ws, |xs|, ctx);
    }
  }

  /** A list fails to read when its first artifact does. */
  lemma DecodeArtifactSeqHeadFails(ws: Words, count: nat, ctx: Context)
    requires count != 0 && DecodeArtifact(ws, ctx).Failure?
    ensures DecodeArtifactSeq(ws, count, ctx).Failure?
  {
  }

  /** A list fails to read when the rest after its first artifact does. */
  lemma DecodeArtifactSeqTailFails(ws: Words, count: nat, ctx: Context, x: Artifact, tail: Words)
    requires count != 0 && DecodeArtifact(ws, ctx) == Success((x, tail))
    requires DecodeArtifactSeq(tail, count - 1, ctx).Failure?
    ensures DecodeArtifactSeq(ws, count, ctx).Failure?
  {
  }

  lemma ArtifactsRoundTrip(xs: seq<Artifact>, rest: Words, ctx: Context)
    ensures Resolvable(xs, ctx) ==>
      DecodeArtifacts(EncodeArtifacts(xs) + rest, ctx) == Success((xs, rest))
    ensures !Resolvable(xs, ctx) ==>
      DecodeArtifacts(EncodeArtifacts(xs) + rest, ctx).Failure?
  {
    assert (EncodeArtifacts(xs) + rest)[1..] == EncodeArtifactSeq(xs) + rest;
    ArtifactSeqRoundTrip(xs, rest, ctx);
  }

  /** Reading what was written, followed by `extra`: the action itself when
      `extra` is empty and every root is resolvable, a failure otherwise. */
  lemma DeserializeSerialized(a: Action, extra: Words, ctx: Context)
    ensures Resolvable(a.inputs, ctx) && Resolvable(a.outputs, ctx) && extra == [] ==>
      Deserialize(Serialize(a) + extra, ctx) == Success(a)
    ensures !(Resolvable(a.inputs, ctx) && Resolvable(a.outputs, ctx) && extra == []) ==>
      Deserialize(Serialize(a) + extra, ctx).Failure?
  {
    var ownerWords := EncodeString(a.owner.targetLabel) + extra;
    var afterInputs := EncodeArtifacts(a.outputs) + ownerWords;
    var ws := Serialize(a) + extra;
    SerializeFollowedBy(a, extra);
    ArtifactsRoundTrip(a.inputs, afterInputs, ctx);
    if Resolvable(a.inputs, ctx) {
      DeserializeAfterInputs(a, extra, ctx);
    } else {
      DeserializeInputsFail(ws, ctx, a.actionType);
    }
  }

  /** The words of a serialised action followed by `extra`, part by part. */
  lemma SerializeFollowedBy(a: Action, extra: Words)
    ensures Serialize(a) + extra != []
    ensures (Serialize(a) + extra)[0] == TypeTag(a.actionType)
    ensures TypeOfTag((Serialize(a) + extra)[0]) == Some(a.actionType)
    ensures (Serialize(a) + extra)[1..] ==
      EncodeArtifacts(a.inputs) + (EncodeArtifacts(a.outputs) + (EncodeString(a.owner.targetLabel) + extra))
  {
    var tail := EncodeArtifacts(a.inputs) + (EncodeArtifacts(a.outputs) + (EncodeString(a.owner.targetLabel) + extra));
    assert Serialize(a) + extra == [TypeTag(a.actionType)] + tail;
  }

  /** `Deserialize` fails when the inputs cannot be read. */
  lemma DeserializeInputsFail(ws: Words, ctx: Context, t: ActionType)
    requires ws != [] && TypeOfTag(ws[0]) == Some(t)
    requires DecodeArtifacts(ws[1..], ctx).Failure?
    ensures Deserialize(ws, ctx).Failure?
  {
  }

  /** The part of `DeserializeSerialized` after the inputs have been read. */
  lemma DeserializeAfterInputs(a: Action, extra: Words, ctx: Context)
    requires Resolvable(a.inputs, ctx)
    ensures Resolvable(a.outputs, ctx) && extra == [] ==>
      Deserialize(Serialize(a) + extra, ctx) == Success(a)
    ensures !(Resolvable(a.outputs, ctx) && extra == []) ==>
      Deserialize(Serialize(a) + extra, ctx).Failure?
  {
    var ownerWords := EncodeString(a.owner.targetLabel) + extra;
    var afterInputs := EncodeArtifacts(a.outputs) + ownerWords;
    var ws := Serialize(a) + extra;
    SerializeFollowedBy(a, extra);
    ArtifactsRoundTrip(a.inputs, afterInputs, ctx);
    ArtifactsRoundTrip(a.outputs, ownerWords, ctx);
    if Resolvable(a.outputs, ctx) {
      StringRoundTrip(a.owner.targetLabel, extra);
      DeserializeParts(ws, ctx, a, afterInputs, ownerWords, extra);
    } else {
      DeserializeOutputsFail(ws, ctx, a.actionType, a.inputs, afterInputs);
    }
  }

  /** `Deserialize` fails when the outputs cannot be read. */
  lemma DeserializeOutputsFail(ws: Words, ctx: Context, t: ActionType, inputs: seq<Artifact>, afterInputs: Words)
    requires ws != [] && TypeOfTag(ws[0]) == Some(t)
    requires DecodeArtifacts(ws[1..], ctx) == Success((inputs, afterInputs))
    requires DecodeArtifacts(afterInputs, ctx).Failure?
    ensures Deserialize(ws, ctx).Failure?
  {
  }

  /** `Deserialize` once every part has been read: success exactly when the
      words are used up. */
  lemma DeserializeParts(ws: Words, ctx: Context, a: Action, afterInputs: Words, afterOutputs: Words, end: Words)
    requires ws != [] && TypeOfTag(ws[0]) == Some(a.actionType)
    requires DecodeArtifacts(ws[1..], ctx) == Success((a.inputs, afterInputs))
    requires DecodeArtifacts(afterInputs, ctx) == Success((a.outputs, afterOutputs))
    requires DecodeString(afterOutputs) == Success((a.owner.targetLabel, end))
    ensures end == [] ==> Deserialize(ws, ctx) == Success(a)
    ensures end != [] ==> Deserialize(ws, ctx) == Failure(Malformed)
  {
  }

  /** The round trip: with every root resolvable, deserialising a serialised
      action gives an action equivalent to it, and serialising that again
      gives the same words. */
  lemma RoundTrip(a: Action, ctx: Context)
    requires Resolvable(a.inputs, ctx) && Resolvable(a.outputs, ctx)
    ensures Deserialize(Serialize(a), ctx).Success?
    ensures Equivalent(a, Deserialize(Serialize(a), ctx).value)
    ensures Serialize(Deserialize(Serialize(a), ctx).value) == Serialize(a)
  {
    DeserializeSerialized(a, [], ctx);
    assert Serialize(a) + [] == Serialize(a);
  }
}
