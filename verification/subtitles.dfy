/**
 * The SubRip and WebVTT branches of `transcribe_file`: one cue per segment,
 * in order, appended to the output file. A reader for the produced text is
 * the partner that shows what the layout carries.
 */
module Subtitles {
  import opened Wrappers
  import opened Text
  import opened Timestamp

  /** One segment of the transcription result: `id`, `start`, `end` and `text`. */
  datatype Segment = Segment(id: nat, start: Seconds, end: Seconds, text: string)

  /** The transcription result: its full `text` and its ordered `segments`. */
  datatype Transcript = Transcript(text: string, segments: seq<Segment>)

  /** The f-string of the `srt` branch: number line, timing line, text, blank line. */
  function SrtCueText(number: string, start: string, end: string, text: string): string {
    number + "\n" + start + " --> " + end + "\n" + text + "\n\n"
  }

  /** The f-string of the `vtt` branch: timing line, text, blank line. */
  function VttCueText(start: string, end: string, text: string): string {
    start + " --> " + end + "\n" + text + "\n\n"
  }

  /**
   * The text written for one segment: for SubRip the cue number `id + 1` on
   * its own line first; then `start --> end`, the stripped text and a blank line.
   */
  function Cue(seg: Segment, vtt: bool): string {
    var start, end := FormatTimestamp(seg.start, vtt), FormatTimestamp(seg.end, vtt);
    if vtt then VttCueText(start, end, Strip(seg.text))
    else SrtCueText(Decimal(seg.id + 1), start, end, Strip(seg.text))
  }

  /** The cues of a sequence of segments, in order. */
  function Cues(segs: seq<Segment>, vtt: bool): string {
    if segs == [] then "" else Cue(segs[0], vtt) + Cues(segs[1..], vtt)
  }

  // Small facts about sequences, stated generically so that proving them
  // never has to look inside a rendered cue.

  lemma SliceAppend<T>(s: seq<T>, i: nat)
    requires i < |s|
    ensures s[..i + 1] == s[..i] + [s[i]]
  {
  }

  lemma SliceAll<T>(s: seq<T>)
    ensures s[..|s|] == s
  {
  }

  lemma TailAppend<T>(s: seq<T>, x: T)
    requires s != []
    ensures (s + [x])[0] == s[0] && (s + [x])[1..] == s[1..] + [x]
  {
  }

  lemma EmptyAppend<T>(x: T)
    ensures [] + [x] == [x]
  {
  }

  lemma ConcatAssoc(a: string, b: string, c: string)
    ensures a + (b + c) == (a + b) + c
  {
  }

  /** Writing one more segment appends exactly its cue. */
  lemma {:induction false} CuesAppend(segs: seq<Segment>, seg: Segment, vtt: bool)
    ensures Cues(segs + [seg], vtt) == Cues(segs, vtt) + Cue(seg, vtt)
  {
    if segs == [] {
      EmptyAppend(seg);
    } else {
      TailAppend(segs, seg);
      CuesAppend(segs[1..], seg, vtt);
      ConcatAssoc(Cue(segs[0], vtt), Cues(segs[1..], vtt), Cue(seg, vtt));
    }
  }

  /** Cue `i` of the SubRip file extends the file written so far by the `srt` f-string. */
  lemma SrtStep(segments: seq<Segment>, i: nat)
    requires i < |segments|
    ensures Cues(segments[..i + 1], false) == Cues(segments[..i], false)
      + SrtCueText(Decimal(segments[i].id + 1), FormatTimestamp(segments[i].start, false),
                   FormatTimestamp(segments[i].end, false), Strip(segments[i].text))
  {
    SliceAppend(segments, i);
    CuesAppend(segments[..i], segments[i], false);
  }

  /** Cue `i` of the WebVTT file extends the file written so far by the `vtt` f-string. */
  lemma VttStep(segments: seq<Segment>, i: nat)
    requires i < |segments|
    ensures Cues(segments[..i + 1], true) == Cues(segments[..i], true)
      + VttCueText(FormatTimestamp(segments[i].start, true), FormatTimestamp(segments[i].end, true),
                   Strip(segments[i].text))
  {
    SliceAppend(segments, i);
    CuesAppend(segments[..i], segments[i], true);
  }

  /** The whole SubRip file. */
  function SrtDocument(segs: seq<Segment>): string {
    Cues(segs, false)
  }

  /** The header line and blank line every WebVTT file starts with. */
  const VttHeader: string := "WEBVTT\n\n"

  /** The whole WebVTT file. */
  function VttDocument(segs: seq<Segment>): string {
    VttHeader + Cues(segs, true)
  }

  /** The `srt` branch: for each segment in order, write its numbered cue. */
  method WriteSrt(segments: seq<Segment>) returns (out: string)
    ensures out == SrtDocument(segments)
    ensures segments == [] ==> out == ""
  {
    out := "";
    for i := 0 to |segments|
      invariant out == Cues(segments[..i], false)
    {
      var segment := segments[i];
      var start := FormatTimestamp(segment.start, false);
      var end := FormatTimestamp(segment.end, false);
      SrtStep(segments, i);
      out := out + SrtCueText(Decimal(segment.id + 1), start, end, Strip(segment.text));
    }
    SliceAll(segments);
  }

  /** The `vtt` branch: write the header, then for each segment in order its unnumbered cue. */
  method WriteVtt(segments: seq<Segment>) returns (out: string)
    ensures out == VttDocument(segments)
    ensures |out| >= 8 && out[..8] == "WEBVTT\n\n"
    ensures segments == [] ==> out == "WEBVTT\n\n"
  {
    out := "WEBVTT\n\n";
    for i := 0 to |segments|
      invariant out == VttHeader + Cues(segments[..i], true)
    {
      var segment := segments[i];
      var start := FormatTimestamp(segment.start, true);
      var end := FormatTimestamp(segment.end, true);
      VttStep(segments, i);
      ConcatAssoc(VttHeader, Cues(segments[..i], true), VttCueText(start, end, Strip(segment.text)));
      out := out + VttCueText(start, end, Strip(segment.text));
    }
    SliceAll(segments);
  }

  // ---------------------------------------------------------------------
  // Reading a file back

  /** What one cue carries: its number (SubRip only), its two times and its text. */
  datatype CueFields = CueFields(number: Option<nat>, start: Clock, end: Clock, text: string)

  /** What the writers put in the cue of `seg`: `id + 1`, the truncated times, the stripped text. */
  function FieldsOf(seg: Segment, vtt: bool): CueFields {
    CueFields(if vtt then None else Some(seg.id + 1), ClockOf(seg.start), ClockOf(seg.end), Strip(seg.text))
  }

  function AllFields(segs: seq<Segment>, vtt: bool): (r: seq<CueFields>)
    ensures |r| == |segs|
    ensures forall i :: 0 <= i < |segs| ==> r[i] == FieldsOf(segs[i], vtt)
  {
    if segs == [] then [] else [FieldsOf(segs[0], vtt)] + AllFields(segs[1..], vtt)
  }

  /** Reads `{start} --> {end}`. */
  function ParseTiming(line: string, vtt: bool): Option<(Clock, Clock)> {
    match SplitAt(line, ' ')
    case None => None
    case Some((first, rest)) =>
      if |rest| >= 4 && rest[..4] == "--> " then
        match (ParseTimestamp(first, vtt), ParseTimestamp(rest[4..], vtt))
        case (Some(start), Some(end)) => Some((start, end))
        case _ => None
      else None
  }

  /** Reads the cue number line of a SubRip cue; a WebVTT cue has none. */
  function ParseNumberLine(s: string, vtt: bool): (r: Option<(Option<nat>, string)>)
    ensures r.Some? ==> |r.value.1| <= |s|
  {
    if vtt then Some((None, s))
    else match SplitAt(s, '\n')
      case None => None
      case Some((digits, rest)) =>
        match ParseNat(digits)
        case None => None
        case Some(n) => Some((Some(n), rest))
  }

  /** Reads one cue from the front of `s`, giving its fields and what follows it. */
  function ParseCue(s: string, vtt: bool): (r: Option<(CueFields, string)>)
    ensures r.Some? ==> |r.value.1| < |s|
  {
    match ParseNumberLine(s, vtt)
    case None => None
    case Some((number, afterNumber)) =>
      match SplitAt(afterNumber, '\n')
      case None => None
      case Some((line, afterTiming)) =>
        match ParseTiming(line, vtt)
        case None => None
        case Some((start, end)) =>
          match SplitAtBlankLine(afterTiming)
          case None => None
          case Some((text, rest)) => Some((CueFields(number, start, end, text), rest))
  }

  /** Reads a sequence of cues that makes up all of `s`. */
  function ParseCues(s: string, vtt: bool): Option<seq<CueFields>>
    decreases |s|
  {
    if s == [] then Some([])
    else match ParseCue(s, vtt)
      case None => None
      case Some((cue, rest)) =>
        match ParseCues(rest, vtt)
        case None => None
        case Some(cues) => Some([cue] + cues)
  }

  function ParseSrt(doc: string): Option<seq<CueFields>> {
    ParseCues(doc, false)
  }

  function ParseVtt(doc: string): Option<seq<CueFields>> {
    if |doc| >= |VttHeader| && doc[..|VttHeader|] == VttHeader
    then ParseCues(doc[|VttHeader|..], true)
    else None
  }

  /**
   * A cue reads back unambiguously when its stripped text holds no blank
   * line (two newlines in a row would end the cue early).
   */
  predicate CueSafe(seg: Segment) {
    NoBlankLine(Strip(seg.text))
  }

  /** A rendered timestamp holds neither a space nor a newline. */
  lemma TimestampHasNoBreak(seconds: Seconds, vtt: bool)
    ensures ' ' !in FormatTimestamp(seconds, vtt) && '\n' !in FormatTimestamp(seconds, vtt)
  {
    var c := ClockOf(seconds);
    var parts := [ZeroPad(c.hours, 2), ZeroPad(c.minutes, 2), ZeroPad(c.seconds, 2), ZeroPad(c.millis, 3)];
    forall k | 0 <= k < 4
      ensures ' ' !in parts[k] && '\n' !in parts[k]
    {
      assert AllDigits(parts[k]);
    }
  }

  /** `start --> end` reads back as the two times when the first holds no space. */
  lemma ParseTimingJoin(start: string, end: string, vtt: bool)
    requires ' ' !in start
    ensures ParseTiming(start + " --> " + end, vtt)
      == match (ParseTimestamp(start, vtt), ParseTimestamp(end, vtt))
         case (Some(s), Some(e)) => Some((s, e))
         case _ => None
  {
    assert start + " --> " + end == start + [' '] + ("--> " + end);
    SplitAtJoin(start, ' ', "--> " + end);
    assert ("--> " + end)[..4] == "--> " && ("--> " + end)[4..] == end;
  }

  /** The conditions under which a cue with these pieces reads back as exactly these pieces. */
  predicate Readable(start: string, end: string, text: string) {
    && ' ' !in start && '\n' !in start && '\n' !in end
    && NoBlankLine(text) && (text == [] || text[|text| - 1] != '\n')
  }

  /** What follows the number line of a cue reads back as its times and text. */
  lemma ParseCueBodyJoin(start: string, end: string, text: string, rest: string, vtt: bool)
    requires Readable(start, end, text)
    ensures var s := VttCueText(start, end, text) + rest;
      && SplitAt(s, '\n') == Some((start + " --> " + end, text + "\n\n" + rest))
      && SplitAtBlankLine(text + "\n\n" + rest) == Some((text, rest))
  {
    var line := start + " --> " + end;
    assert '\n' !in line;
    assert VttCueText(start, end, text) + rest == line + ['\n'] + (text + "\n\n" + rest);
    SplitAtJoin(line, '\n', text + "\n\n" + rest);
    SplitAtBlankLineJoin(text, rest);
  }

  /** The steps `ParseCue` takes, each with its outcome given, make up its result. */
  lemma ParseCueSteps(s: string, vtt: bool, number: Option<nat>, body: string, line: string,
                      text: string, rest: string, cs: Clock, ce: Clock)
    requires ParseNumberLine(s, vtt) == Some((number, body))
    requires SplitAt(body, '\n') == Some((line, text + "\n\n" + rest))
    requires SplitAtBlankLine(text + "\n\n" + rest) == Some((text, rest))
    requires ParseTiming(line, vtt) == Some((cs, ce))
    ensures ParseCue(s, vtt) == Some((CueFields(number, cs, ce, text), rest))
  {
  }

  /** A WebVTT cue built from readable pieces reads back as those pieces. */
  lemma ParseVttCueJoin(start: string, end: string, text: string, rest: string, cs: Clock, ce: Clock)
    requires Readable(start, end, text)
    requires ParseTimestamp(start, true) == Some(cs) && ParseTimestamp(end, true) == Some(ce)
    ensures ParseCue(VttCueText(start, end, text) + rest, true) == Some((CueFields(None, cs, ce, text), rest))
  {
    var s := VttCueText(start, end, text) + rest;
    ParseCueBodyJoin(start, end, text, rest, true);
    ParseTimingJoin(start, end, true);
    ParseCueSteps(s, true, None, s, start + " --> " + end, text, rest, cs, ce);
  }

  lemma SrtCueSplit(number: string, start: string, end: string, text: string, rest: string)
    ensures SrtCueText(number, start, end, text) + rest == number + ['\n'] + (VttCueText(start, end, text) + rest)
  {
  }

  /** The number line of a SubRip cue reads back as its number. */
  lemma ParseNumberLineJoin(number: string, start: string, end: string, text: string, rest: string)
    requires number != [] && AllDigits(number)
    ensures ParseNumberLine(SrtCueText(number, start, end, text) + rest, false)
      == Some((Some(Value(number)), VttCueText(start, end, text) + rest))
  {
    var body := VttCueText(start, end, text) + rest;
    assert '\n' !in number by {
      assert forall i :: 0 <= i < |number| ==> number[i] != '\n';
    }
    SrtCueSplit(number, start, end, text, rest);
    SplitAtJoin(number, '\n', body);
  }

  /** A SubRip cue built from readable pieces and a decimal number reads back as those pieces. */
  lemma ParseSrtCueJoin(number: string, start: string, end: string, text: string, rest: string, cs: Clock, ce: Clock)
    requires number != [] && AllDigits(number)
    requires Readable(start, end, text)
    requires ParseTimestamp(start, false) == Some(cs) && ParseTimestamp(end, false) == Some(ce)
    ensures ParseCue(SrtCueText(number, start, end, text) + rest, false)
      == Some((CueFields(Some(Value(number)), cs, ce, text), rest))
  {
    var body := VttCueText(start, end, text) + rest;
    ParseNumberLineJoin(number, start, end, text, rest);
    ParseCueBodyJoin(start, end, text, rest, false);
    ParseTimingJoin(start, end, false);
    ParseCueSteps(SrtCueText(number, start, end, text) + rest, false, Some(Value(number)), body,
                  start + " --> " + end, text, rest, cs, ce);
  }

  /** The pieces of a safe segment's cue are readable. */
  lemma CueReadable(seg: Segment, vtt: bool)
    requires CueSafe(seg)
    ensures Readable(FormatTimestamp(seg.start, vtt), FormatTimestamp(seg.end, vtt), Strip(seg.text))
  {
    var text := Strip(seg.text);
    TimestampHasNoBreak(seg.start, vtt);
    TimestampHasNoBreak(seg.end, vtt);
    assert text == [] || text[|text| - 1] != '\n' by {
      assert IsSpace('\n');
    }
  }

  lemma ParseFormatTimestamp(seconds: Seconds, vtt: bool)
    ensures ParseTimestamp(FormatTimestamp(seconds, vtt), vtt) == Some(ClockOf(seconds))
  {
    ParseFormatClock(ClockOf(seconds), vtt);
  }

  /** The SubRip cue of a segment, and what it should read back as, in terms of its pieces. */
  lemma SrtCuePieces(seg: Segment)
    ensures Cue(seg, false) == SrtCueText(Decimal(seg.id + 1), FormatTimestamp(seg.start, false),
                                          FormatTimestamp(seg.end, false), Strip(seg.text))
    ensures FieldsOf(seg, false) == CueFields(Some(Value(Decimal(seg.id + 1))), ClockOf(seg.start), ClockOf(seg.end), Strip(seg.text))
  {
    DecimalValue(seg.id + 1);
  }

  lemma ParseSrtCueRoundTrip(seg: Segment, rest: string)
    requires CueSafe(seg)
    ensures ParseCue(Cue(seg, false) + rest, false) == Some((FieldsOf(seg, false), rest))
  {
    CueReadable(seg, false);
    ParseFormatTimestamp(seg.start, false);
    ParseFormatTimestamp(seg.end, false);
    SrtCuePieces(seg);
    ParseSrtCueJoin(Decimal(seg.id + 1), FormatTimestamp(seg.start, false), FormatTimestamp(seg.end, false),
                    Strip(seg.text), rest, ClockOf(seg.start), ClockOf(seg.end));
  }

  lemma ParseVttCueRoundTrip(seg: Segment, rest: string)
    requires CueSafe(seg)
    ensures ParseCue(Cue(seg, true) + rest, true) == Some((FieldsOf(seg, true), rest))
  {
    var start, end, text := FormatTimestamp(seg.start, true), FormatTimestamp(seg.end, true), Strip(seg.text);
    CueReadable(seg, true);
    ParseFormatTimestamp(seg.start, true);
    ParseFormatTimestamp(seg.end, true);
    ParseVttCueJoin(start, end, text, rest, ClockOf(seg.start), ClockOf(seg.end));
  }

  /** Reading the cue of a segment back gives that segment's fields and leaves what follows. */
  lemma ParseCueRoundTrip(seg: Segment, vtt: bool, rest: string)
    requires CueSafe(seg)
    ensures ParseCue(Cue(seg, vtt) + rest, vtt) == Some((FieldsOf(seg, vtt), rest))
  {
    if vtt {
      ParseVttCueRoundTrip(seg, rest);
    } else {
      ParseSrtCueRoundTrip(seg, rest);
    }
  }

  lemma ParseCuesCons(s: string, vtt: bool, cue: CueFields, rest: string, cues: seq<CueFields>)
    requires ParseCue(s, vtt) == Some((cue, rest)) && ParseCues(rest, vtt) == Some(cues)
    ensures ParseCues(s, vtt) == Some([cue] + cues)
  {
  }

  /** Reading all cues back gives, in order, one cue per segment with that segment's fields. */
  lemma {:induction false} ParseCuesRoundTrip(segs: seq<Segment>, vtt: bool)
    requires forall i :: 0 <= i < |segs| ==> CueSafe(segs[i])
    ensures ParseCues(Cues(segs, vtt), vtt) == Some(AllFields(segs, vtt))
  {
    if segs != [] {
      var rest := Cues(segs[1..], vtt);
      ParseCueRoundTrip(segs[0], vtt, rest);
      ParseCuesRoundTrip(segs[1..], vtt);
      ParseCuesCons(Cues(segs, vtt), vtt, FieldsOf(segs[0], vtt), rest, AllFields(segs[1..], vtt));
    }
  }

  /**
   * The SubRip file is exactly one numbered cue per segment, in order:
   * number `id + 1`, truncated start and end, stripped text.
   */
  lemma SrtRoundTrip(segs: seq<Segment>)
    requires forall i :: 0 <= i < |segs| ==> CueSafe(segs[i])
    ensures ParseSrt(SrtDocument(segs)) == Some(AllFields(segs, false))
  {
    ParseCuesRoundTrip(segs, false);
  }

  /**
   * The WebVTT file is the header followed by exactly one unnumbered cue per
   * segment, in order, with truncated start and end and stripped text.
   */
  lemma VttRoundTrip(segs: seq<Segment>)
    requires forall i :: 0 <= i < |segs| ==> CueSafe(segs[i])
    ensures ParseVtt(VttDocument(segs)) == Some(AllFields(segs, true))
  {
    ParseCuesRoundTrip(segs, true);
    assert VttDocument(segs)[|VttHeader|..] == Cues(segs, true);
  }
}
