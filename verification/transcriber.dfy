/**
 * The file-writing half of `transcribe_file`: given the recognition result,
 * decide where the transcript goes and what is written there, by output
 * format. Loading the speech model and recognising the audio happen before
 * this point and are represented by the `Transcript` parameter.
 */
module Transcriber {
  import opened Text
  import opened Timestamp
  import opened Subtitles
  import opened Paths

  /** What one run of `transcribe_file` leaves on disk. */
  datatype Output =
    | WriteFile(path: string, contents: string)
    | DumpJson(path: string, result: Transcript)
    | NoOutput

  /** The text of the success dialog shown after every run that raised nothing. */
  function SuccessMessage(outputPath: string): (m: string)
    ensures |m| == 10 + |outputPath| && m[..10] == "Saved to:\n" && m[10..] == outputPath
  {
    "Saved to:\n" + outputPath
  }

  /**
   * Write the transcript in the chosen format next to nothing but the output
   * folder: plain text verbatim, SubRip or WebVTT cues through the timestamp
   * formatter, or a JSON dump of the whole result. Any other format writes
   * nothing, and the success message is still produced.
   */
  method TranscribeFile(result: Transcript, filePath: string, outputFolder: string, outputFormat: string)
    returns (out: Output, message: string)
    ensures message == SuccessMessage(OutputPath(outputFolder, filePath, outputFormat))
    ensures outputFormat == "txt" ==> out == WriteFile(OutputPath(outputFolder, filePath, outputFormat), result.text)
    ensures outputFormat == "srt" ==> out == WriteFile(OutputPath(outputFolder, filePath, outputFormat), SrtDocument(result.segments))
    ensures outputFormat == "vtt" ==> out == WriteFile(OutputPath(outputFolder, filePath, outputFormat), VttDocument(result.segments))
    ensures outputFormat == "json" ==> out == DumpJson(OutputPath(outputFolder, filePath, outputFormat), result)
    ensures outputFormat !in {"txt", "srt", "vtt", "json"} ==> out == NoOutput
  {
    var filename := Stem(filePath);
    var outputPath := Join(outputFolder, filename + "." + outputFormat);
    if outputFormat == "txt" {
      out := WriteFile(outputPath, result.text);
    } else if outputFormat == "srt" {
      var contents := WriteSrt(result.segments);
      out := WriteFile(outputPath, contents);
    } else if outputFormat == "vtt" {
      var contents := WriteVtt(result.segments);
      out := WriteFile(outputPath, contents);
    } else if outputFormat == "json" {
      out := DumpJson(outputPath, result);
    } else {
      out := NoOutput;
    }
    message := SuccessMessage(outputPath);
  }

  lemma ExampleText()
    ensures Strip(" Hello world\n") == "Hello world"
  {
    assert LeadingSpace(" Hello world\n") == 1;
    assert TrailingSpace("Hello world\n") == 1;
  }

  lemma ExampleStart()
    ensures FormatTimestamp(1.25, false) == "00:00:01,250"
    ensures FormatTimestamp(1.25, true) == "00:00:01.250"
  {
    ClockExamples();
    FieldExamples();
  }

  lemma ExampleEnd()
    ensures FormatTimestamp(2.5, false) == "00:00:02,500"
    ensures FormatTimestamp(2.5, true) == "00:00:02.500"
  {
    ClockExamples();
    FieldExamples();
  }

  /**
   * A segment whose text is ` Hello world\n` becomes a cue whose text line is
   * `Hello world`: the whitespace the plain-text file keeps is stripped.
   */
  lemma CueExample()
    ensures var seg := Segment(0, 1.25, 2.5, " Hello world\n");
      Cue(seg, false) == SrtCueText("1", "00:00:01,250", "00:00:02,500", "Hello world")
      && Cue(seg, true) == VttCueText("00:00:01.250", "00:00:02.500", "Hello world")
  {
    var seg := Segment(0, 1.25, 2.5, " Hello world\n");
    SrtCuePieces(seg);
    ExampleText();
    ExampleStart();
    ExampleEnd();
    assert Decimal(1) == "1";
  }
}
