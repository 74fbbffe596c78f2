/** Line framing of the HEOS command protocol: every request and every response line ends
    with the separator, and a reader splits the byte stream at its occurrences. */
module Framing {
  import opened Strings

  /** The protocol's line terminator (`SEPARATOR` of pyheos/connection.py). */
  const Separator: string := "\r\n"

  /** The characters of `Separator`: `rstrip(SEPARATOR)` strips any trailing run of these. */
  const SeparatorChars: set<char> := {'\r', '\n'}

  /** A response is either one string, written once, or a sequence of strings, written one
      after the other. */
  datatype Response = Single(text: string) | Many(lines: seq<string>)

  /** The lines a response stands for. */
  function LinesOf(r: Response): seq<string>
  {
    match r
    case Single(text) => [text]
    case Many(lines) => lines
  }

  /** One framed write: `(payload + SEPARATOR)`. */
  function Frame(payload: string): string
  {
    payload + Separator
  }

  function FrameAll(lines: seq<string>): seq<string>
  {
    seq(|lines|, i requires 0 <= i < |lines| => Frame(lines[i]))
  }

  /** The payloads handed to the writer, one per `writer.write` call, for a response. */
  function Writes(r: Response): seq<string>
  {
    match r
    case Single(text) => [Frame(text)]
    case Many(lines) => FrameAll(lines)
  }

  /** The bytes on the wire after a sequence of writes. */
  function Wire(writes: seq<string>): string
  {
    if |writes| == 0 then "" else writes[0] + Wire(writes[1..])
  }

  /** The complete lines a peer reads from `buffer` with `readuntil(SEPARATOR)`, separator
      removed; what follows the last separator is an incomplete frame and is not returned. */
  function Unframe(buffer: string): seq<string>
  {
    var parts := Split(buffer, Separator);
    parts[..|parts| - 1]
  }

  /** The device side of reading a line: `line.rstrip(SEPARATOR)`. */
  function StripTerminator(raw: string): string
  {
    RStrip(raw, SeparatorChars)
  }

  lemma {:induction false} SplitOfFramedLines(lines: seq<string>)
    requires forall k :: 0 <= k < |lines| ==> !Contains(lines[k], Separator)
    ensures Split(Wire(FrameAll(lines)), Separator) == lines + [""]
    decreases |lines|
  {
    if |lines| == 0 {
      assert Wire(FrameAll(lines)) == "";
    } else {
      assert FrameAll(lines)[1..] == FrameAll(lines[1..]);
      SplitOfFramedLines(lines[1..]);
      assert Unbordered(Separator) by {
        forall k | 0 < k < |Separator| ensures Separator[k..] != Separator[..|Separator| - k] {
          assert Separator[k..][0] == '\n';
        }
      }
      SplitAtFirstSeparator(lines[0], Separator, Wire(FrameAll(lines[1..])));
      assert Wire(FrameAll(lines)) == lines[0] + Separator + Wire(FrameAll(lines[1..]));
      assert lines == [lines[0]] + lines[1..];
    }
  }

  /** Framing round trip: a peer reading the wire gets back exactly the response's lines, one
      frame per line and in order, provided no line itself contains the separator. */
  lemma FramingRoundTrip(r: Response)
    requires forall k :: 0 <= k < |LinesOf(r)| ==> !Contains(LinesOf(r)[k], Separator)
    ensures |Writes(r)| == |LinesOf(r)|
    ensures Unframe(Wire(Writes(r))) == LinesOf(r)
  {
    assert Writes(r) == FrameAll(LinesOf(r));
    SplitOfFramedLines(LinesOf(r));
  }

  /** `rstrip(SEPARATOR)` undoes the framing of a line that does not itself end in one of the
      separator's characters. */
  lemma StripTerminatorOfFrame(line: string)
    requires |line| == 0 || line[|line| - 1] !in SeparatorChars
    ensures StripTerminator(Frame(line)) == line
  {
    var f := Frame(line);
    assert f[..|f| - 1] == line + "\r";
    assert (line + "\r")[..|line|] == line;
  }
}
