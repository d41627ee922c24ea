/** Newline-delimited JSON frames on a stream. */
module Frames {
  import opened Prelude
  import opened Json
  import opened JsonText
  import opened JsonParser
  import opened CanonicalJson

  const MAX_FRAME_BYTES := 256 * 1024

  datatype FrameError = TimedOutOrClosed | TooLong | NotJson | NotObject

  /** `write_frame`: the bytes put on the stream, or a refusal that writes nothing. */
  function WriteFrame(document: Json): Result<string, FrameError>
  {
    var payload := Canonical(document) + "\n";
    if |payload| > MAX_FRAME_BYTES then Err(TooLong) else Ok(payload)
  }

  function LineEnd(stream: string): (n: nat)
    ensures n <= |stream|
    ensures forall i | 0 <= i < n :: stream[i] != '\n'
    ensures n < |stream| ==> stream[n] == '\n'
  {
    if stream == "" || stream[0] == '\n' then 0 else 1 + LineEnd(stream[1..])
  }

  datatype Reading = Reading(outcome: Result<Json, FrameError>, rest: string)

  /** `read_frame`: one line, including its newline, no longer than the limit, holding one object. */
  function ReadFrame(stream: string): (r: Reading)
    ensures r.outcome.Ok? ==> |r.rest| < |stream| && WellFormed(r.outcome.value)
  {
    var n := LineEnd(stream);
    if stream == "" then Reading(Err(TimedOutOrClosed), stream)
    else if n == |stream| then Reading(Err(TooLong), "")
    else if n + 1 > MAX_FRAME_BYTES then Reading(Err(TooLong), stream[n + 1..])
    else match Loads(stream[..n + 1])
      case None => Reading(Err(NotJson), stream[n + 1..])
      case Some(v) => Reading(if v.Obj? then Ok(v) else Err(NotObject), stream[n + 1..])
  }

  /** Everything a peer reads until the stream ends or a frame is refused. */
  function ReadAll(stream: string): seq<Json>
    decreases |stream|
  {
    var r := ReadFrame(stream);
    match r.outcome
    case Err(_) => []
    case Ok(v) => [v] + ReadAll(r.rest)
  }

  predicate Sendable(document: Json)
  {
    document.Obj? && WellFormed(document) && WriteFrame(document).Ok?
  }

  function WriteAll(documents: seq<Json>): string
    requires forall i | 0 <= i < |documents| :: Sendable(documents[i])
  {
    if documents == [] then ""
    else
      assert Sendable(documents[0]);
      WriteFrame(documents[0]).value + WriteAll(documents[1..])
  }

  function NormalAll(documents: seq<Json>): (r: seq<Json>)
    ensures |r| == |documents| && forall i | 0 <= i < |r| :: r[i] == Normal(documents[i])
  {
    if documents == [] then [] else [Normal(documents[0])] + NormalAll(documents[1..])
  }

  lemma {:induction false} LineEndAt(line: string, rest: string)
    requires '\n' !in line
    ensures LineEnd(line + "\n" + rest) == |line|
  {
    var s := line + "\n" + rest;
    assert s[|line|] == '\n';
    assert forall i | 0 <= i < |line| :: s[i] == line[i];
  }

  /** A trailing newline is white space to the decoder. */
  lemma LoadsLine(v: Json)
    requires WellFormed(v)
    ensures Loads(Canonical(v) + "\n") == Some(Normal(v))
  {
    NormalSame(v);
    PrintHead(Normal(v));
    ParsePrintThenNewline(Normal(v));
  }

  lemma ParsePrintThenNewline(v: Json)
    requires WellFormed(v)
    ensures ParseValue(Print(v) + "\n") == Parsed(v, "\n")
  {
    ParsePrint(v, "\n");
  }

  /** The next frame read is the one written first, whatever follows it on the stream. */
  lemma ReadWritten(document: Json, rest: string)
    requires Sendable(document)
    ensures ReadFrame(WriteFrame(document).value + rest) == Reading(Ok(Normal(document)), rest)
    ensures Same(document, Normal(document))
  {
    var text := Canonical(document);
    CanonicalPrintable(document);
    LineEndAt(text, rest);
    var s := text + "\n" + rest;
    assert s[..|text| + 1] == text + "\n";
    assert s[|text| + 1..] == rest;
    LoadsLine(document);
    NormalSame(document);
  }

  lemma ReadAllStep(stream: string, v: Json, rest: string)
    requires ReadFrame(stream) == Reading(Ok(v), rest)
    ensures ReadAll(stream) == [v] + ReadAll(rest)
  {
  }

  /** Any sequence of documents within the limit crosses the stream in order, none lost, split or joined. */
  lemma {:induction false} StreamRoundTrip(documents: seq<Json>)
    requires forall i | 0 <= i < |documents| :: Sendable(documents[i])
    ensures ReadAll(WriteAll(documents)) == NormalAll(documents)
    ensures forall i | 0 <= i < |documents| :: Same(documents[i], NormalAll(documents)[i])
  {
    if documents != [] {
      ReadWritten(documents[0], WriteAll(documents[1..]));
      ReadAllStep(WriteAll(documents), Normal(documents[0]), WriteAll(documents[1..]));
      StreamRoundTrip(documents[1..]);
      forall i | 0 <= i < |documents| ensures Same(documents[i], NormalAll(documents)[i]) {
        NormalSame(documents[i]);
      }
    }
  }
}
