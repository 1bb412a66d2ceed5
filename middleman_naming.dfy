/**
 * Naming of synthetic middleman artifacts. The root-relative path of a
 * middleman's output ("stamp file") is derived from a list of key parts,
 * such as a purpose and an owner label. Each part is escaped and ended by a
 * terminator, which makes the derivation injective: different key lists
 * never share a path, and equal key lists always do.
 */
module MiddlemanNaming {
  import opened Wrappers

  /** The directory, under the middleman root, that holds every stamp file. */
  const StampDirectory: string := "_middlemen/"

  /** Written before a literal `EscapeChar` or `Terminator` inside a part. */
  const EscapeChar: char := '_'

  /** Ends every part. */
  const Terminator: char := '-'

  function EscapeChars(c: char): string {
    if c == EscapeChar || c == Terminator then [EscapeChar, c] else [c]
  }

  /** The part with every escape character and terminator escaped. */
  function EscapePart(part: string): (r: string)
    ensures |r| >= |part|
  {
    if part == [] then [] else EscapeChars(part[0]) + EscapePart(part[1..])
  }

  /** Each part escaped and terminated, in order. */
  function EncodeParts(parts: seq<string>): string {
    if parts == [] then [] else EscapePart(parts[0]) + [Terminator] + EncodeParts(parts[1..])
  }

  /** The stamp path for a key: a path in the stamp directory from which the
      key can be read back. */
  function StampPath(parts: seq<string>): (r: string)
    ensures KeyOfStampPath(r) == Some(parts)
  {
    var path := StampDirectory + EncodeParts(parts);
    assert path[..|StampDirectory|] == StampDirectory;
    assert path[|StampDirectory|..] == EncodeParts(parts);
    DecodeEncodeParts(parts);
    path
  }

  /** The key a stamp path was derived from, or None for a path that does not
      lie in the stamp directory or does not decode. */
  function KeyOfStampPath(path: string): Option<seq<string>> {
    if |path| < |StampDirectory| || path[..|StampDirectory|] != StampDirectory then None
    else DecodeParts(path[|StampDirectory|..])
  }

  /** Reads one escaped part up to its terminator, returning it unescaped and
      what follows the terminator. */
  function ReadPart(s: string): (r: Option<(string, string)>)
    ensures r.Some? ==> |r.value.1| < |s|
    decreases |s|
  {
    if s == [] then None
    else if s[0] == Terminator then Some(([], s[1..]))
    else if s[0] == EscapeChar && |s| < 2 then None
    else
      var (c, next) := if s[0] == EscapeChar then (s[1], s[2..]) else (s[0], s[1..]);
      match ReadPart(next)
      case None => None
      case Some((p, rest)) => Some(([c] + p, rest))
  }

  /** Reads parts until the string is used up. */
  function DecodeParts(s: string): Option<seq<string>>
    decreases |s|
  {
    if s == [] then Some([])
    else
      match ReadPart(s)
      case None => None
      case Some((p, rest)) =>
        match DecodeParts(rest)
        case None => None
        case Some(ps) => Some([p] + ps)
  }

  lemma {:induction false} ReadEscapedPart(part: string, rest: string)
    ensures ReadPart(EscapePart(part) + [Terminator] + rest) == Some((part, rest))
    decreases |part|
  {
    if part != [] {
      var tail := EscapePart(part[1..]) + [Terminator] + rest;
      assert EscapePart(part) + [Terminator] + rest == EscapeChars(part[0]) + tail;
      ReadEscapedPart(part[1..], rest);
      assert [part[0]] + part[1..] == part;
    }
  }

  /** Decoding inverts encoding. */
  lemma {:induction false} DecodeEncodeParts(parts: seq<string>)
    ensures DecodeParts(EncodeParts(parts)) == Some(parts)
  {
    if parts != [] {
      var rest := EncodeParts(parts[1..]);
      ReadEscapedPart(parts[0], rest);
      DecodeEncodeParts(parts[1..]);
      assert [parts[0]] + parts[1..] == parts;
    }
  }

  /** Two keys give the same stamp path exactly when they are equal. */
  lemma StampPathInjective(p: seq<string>, q: seq<string>)
    ensures StampPath(p) == StampPath(q) <==> p == q
  {
    if StampPath(p) == StampPath(q) {
      assert EncodeParts(p) == StampPath(p)[|StampDirectory|..];
      assert EncodeParts(q) == StampPath(q)[|StampDirectory|..];
      DecodeEncodeParts(p);
      DecodeEncodeParts(q);
    }
  }
}
