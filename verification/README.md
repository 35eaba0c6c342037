# Murmur transcript writers in Dafny

This project models the file-writing core of the Murmur desktop transcriber
(`MurmurOpenUI_public.py`). After a speech-recognition model has turned an
audio file into a result, which is a full `text` and an ordered list of
`segments` (each with an `id`, a `start` and `end` time in seconds, and its
`text`), `transcribe_file` names an output file after the input and writes
the result in the format the user chose:

- `txt`: the full text, verbatim;
- `srt`: SubRip cues. Each cue is `id + 1`, then `HH:MM:SS,mmm --> HH:MM:SS,mmm`,
  then the stripped segment text and a blank line;
- `vtt`: a `WEBVTT` header and a blank line, then the same cues without
  numbers and with `.` before the milliseconds;
- `json`: a dump of the whole result.

Cue times come from `format_timestamp`. It splits the seconds into hours,
minutes, seconds and milliseconds, truncating rather than rounding, and
zero-pads them.

The modules follow the program's structure:

| file | module | what it holds |
|---|---|---|
| `wrappers.dfy` | `Wrappers` | `Option` |
| `text.dfy` | `Text` | Python's `str(n)` and `f"{n:0w}"`, `str.strip`, and the splitting used to read files back |
| `timestamp.dfy` | `Timestamp` | `format_timestamp` and its reader |
| `subtitles.dfy` | `Subtitles` | the SubRip and WebVTT writers, as loops over a growing buffer, with the whole-file functions they are proved against and a cue reader |
| `paths.dfy` | `Paths` | `os.path.basename`, `splitext` and `join` (POSIX) and the output path |
| `transcriber.dfy` | `Transcriber` | the format dispatch of `transcribe_file` |

Seconds are exact non-negative reals. Python's float `//` and `%` are written
out with `Floor`.

Each writer has a partner, which is a reader for the text it writes.
`ParseSrt` and `ParseVtt` read a file back into cue fields. The round-trip
lemmas show that a file keeps every segment's number, its two times
(truncated to the millisecond) and its stripped text, in order. They hold
whenever no stripped segment text contains a blank line. Such a line would
end the cue early, and the writers do not escape it.

## Model

| member | source | states |
|---|---|---|
| Text.Decimal | MurmurOpenUI_public.py:82-85 | `str(n)` is a non-empty digit string with no leading zero |
| Text.DecimalValue | MurmurOpenUI_public.py:82-85 | reading the digits of `str(n)` gives `n` back (the SubRip cue number `id + 1` is recoverable) |
| Text.DecimalFits | MurmurOpenUI_public.py:53-56 | `str(n)` has at most `w` digits exactly when `n < 10^w` |
| Text.ZeroPad | MurmurOpenUI_public.py:53-56 | `f"{n:0w}"` is all digits and is `w` long, or as long as `str(n)` when that is longer |
| Text.ZeroPadValue | MurmurOpenUI_public.py:53-56 | the zero-padded field reads back as `n` |
| Text.ZeroPadWidth | MurmurOpenUI_public.py:53-56 | a padded field is at least `w` wide, and exactly `w` wide iff `n < 10^w` |
| Text.IsSpace | MurmurOpenUI_public.py:85 | the characters `str.strip()` removes: those Python's `str.isspace` accepts (ASCII space, tab to carriage return, the four separators `\x1c`-`\x1f`, and the Unicode spaces and line and paragraph separators); `Text.Strip` states the stripping itself |
| Text.LeadingSpace | MurmurOpenUI_public.py:85 | counts the whitespace characters that lead the text, stopping at a non-space |
| Text.TrailingSpace | MurmurOpenUI_public.py:85 | counts the whitespace characters that end the text, stopping at a non-space |
| Text.Strip | MurmurOpenUI_public.py:85 | `str.strip()` removes whitespace only, from both ends, and leaves a result that neither starts nor ends with whitespace |
| Text.StripIdempotent | MurmurOpenUI_public.py:92 | stripping twice is stripping once |
| Timestamp.FormatTimestamp | MurmurOpenUI_public.py:48-56 | `format_timestamp(seconds, vtt)`: the fields of `ClockOf`, rendered by `FormatClock`; `Timestamp.TimestampLayout` states its fixed width, `Timestamp.SrtVttTimestampsDiffer` the separator difference, `Timestamp.TimestampRoundTrip` that it reads back to within one millisecond |
| Timestamp.FormatClock | MurmurOpenUI_public.py:53-56 | the two f-strings `{hours:02}:{minutes:02}:{int(seconds):02}` + `.` or `,` + `{millis:03}`; `Timestamp.FormatClockSlices` places each field and `Timestamp.ParseFormatClock` inverts it on in-range clocks |
| Timestamp.ClockOfMillis | MurmurOpenUI_public.py:48-51 | splitting a millisecond count gives in-range fields that add back up to it |
| Timestamp.ClockOf | MurmurOpenUI_public.py:48-51 | field bounds: minutes and seconds below 60, milliseconds below 1000, hours the floor of `seconds / 3600` |
| Timestamp.ClockOfTruncates | MurmurOpenUI_public.py:48-51 | truncation: the fields add up to at most the input and fall short by less than a millisecond |
| Timestamp.ClockOfTotalMillis | MurmurOpenUI_public.py:48-51 | an in-range clock is recovered from its millisecond count |
| Timestamp.ClockOfUnique | MurmurOpenUI_public.py:48-51 | the fields are the only in-range ones within a millisecond below the input, that is the whole milliseconds of the input split into units |
| Timestamp.TimestampLayout | MurmurOpenUI_public.py:53-56 | fixed width: `HH:MM:SS` + separator + `mmm`, all fields digits, exactly 12 characters below 100 hours, longer hours beyond |
| Timestamp.FormatClockSlices | MurmurOpenUI_public.py:53-56 | each padded field sits at a fixed offset from the end of the rendering |
| Timestamp.SrtVttTimestampsDiffer | MurmurOpenUI_public.py:53-56 | the SubRip and WebVTT renderings of a time have equal length and differ only in the millisecond separator (`,` against `.`) |
| Timestamp.ParseFormatClock | MurmurOpenUI_public.py:53-56 | reading a rendered in-range clock gives the same clock back |
| Timestamp.TimestampRoundTrip | MurmurOpenUI_public.py:48-56 | reading a rendered timestamp reconstructs the input to within one millisecond, from below |
| Timestamp.FieldExamples | MurmurOpenUI_public.py:53-56 | `0`, `1` pad to `00`, `01`; `0`, `250` pad to `000`, `250` |
| Timestamp.ClockExamples | MurmurOpenUI_public.py:48-51 | 3661.25 s splits into 1 h 1 min 1 s 250 ms; 1.25 s, 2.5 s and 0 s into their fields |
| Timestamp.TimestampExamples | MurmurOpenUI_public.py:48-56 | 3661.25 s renders as `01:01:01,250` and `01:01:01.250`; 0 s as `00:00:00,000` |
| Subtitles.SrtCueText | MurmurOpenUI_public.py:85 | the `srt` f-string: number line, timing line, text, blank line; `Subtitles.ParseSrtCueJoin` reads it back |
| Subtitles.VttCueText | MurmurOpenUI_public.py:92 | the `vtt` f-string: timing line, text, blank line; `Subtitles.ParseVttCueJoin` reads it back |
| Subtitles.Cue | MurmurOpenUI_public.py:81-92 | the text one loop iteration writes for a segment: `id + 1` (SubRip only), both times through `format_timestamp`, the stripped text; `Subtitles.ParseCueRoundTrip` reads it back as the segment's fields |
| Subtitles.Cues | MurmurOpenUI_public.py:81-92 | the cues of the segments in order; `Subtitles.CuesAppend` extends it by one segment and `Subtitles.ParseCuesRoundTrip` reads it back |
| Subtitles.SrtDocument | MurmurOpenUI_public.py:80-85 | the whole `.srt` file, the cues and nothing else; `Subtitles.WriteSrt` produces it and `Subtitles.SrtRoundTrip` reads it back |
| Subtitles.VttDocument | MurmurOpenUI_public.py:86-92 | the whole `.vtt` file, `WEBVTT\n\n` then the cues; `Subtitles.WriteVtt` produces it and `Subtitles.VttRoundTrip` reads it back |
| Subtitles.CuesAppend | MurmurOpenUI_public.py:81-85 | the cues of `segs + [seg]` are those of `segs` followed by the cue of `seg` |
| Subtitles.SrtStep | MurmurOpenUI_public.py:81-85 | one loop iteration appends the numbered cue of segment `i` |
| Subtitles.VttStep | MurmurOpenUI_public.py:89-92 | one loop iteration appends the unnumbered cue of segment `i` |
| Subtitles.WriteSrt | MurmurOpenUI_public.py:80-85 | SRT cue layout: the file is the cues of all segments in order, each `id + 1`, timing line, stripped text, blank line; no segments give an empty file |
| Subtitles.WriteVtt | MurmurOpenUI_public.py:86-92 | VTT header and cue layout: the file starts with `WEBVTT\n\n`, then the unnumbered cues in order; no segments give the header alone |
| Subtitles.AllFields | MurmurOpenUI_public.py:81-92 | one set of cue fields per segment, in order |
| Subtitles.TimestampHasNoBreak | MurmurOpenUI_public.py:48-56 | a rendered timestamp holds no space and no line break |
| Subtitles.ParseTimingJoin | MurmurOpenUI_public.py:84 | the timing line `start --> end` splits back into its two times |
| Subtitles.ParseCueBodyJoin | MurmurOpenUI_public.py:91 | a timing line, a text line and a blank line read back as those three |
| Subtitles.ParseVttCueJoin | MurmurOpenUI_public.py:91 | a WebVTT cue reads back as its two times and its text, leaving what follows |
| Subtitles.SrtCueSplit | MurmurOpenUI_public.py:85 | a SubRip cue is its number line followed by a WebVTT-shaped cue |
| Subtitles.ParseNumberLineJoin | MurmurOpenUI_public.py:85 | the number line of a SubRip cue reads back as its number |
| Subtitles.ParseSrtCueJoin | MurmurOpenUI_public.py:85 | a SubRip cue reads back as its number, its two times and its text, leaving what follows |
| Subtitles.CueReadable | MurmurOpenUI_public.py:81-92 | a segment whose stripped text has no blank line yields a cue whose pieces can be told apart |
| Subtitles.ParseFormatTimestamp | MurmurOpenUI_public.py:48-56 | a rendered timestamp reads back as its truncated clock |
| Subtitles.ParseSrtCueRoundTrip | MurmurOpenUI_public.py:82-85 | one SubRip cue reads back as the segment's fields |
| Subtitles.ParseVttCueRoundTrip | MurmurOpenUI_public.py:89-92 | one WebVTT cue reads back as the segment's fields |
| Subtitles.ParseCueRoundTrip | MurmurOpenUI_public.py:81-92 | one cue of either format reads back as the segment's fields |
| Subtitles.ParseCuesRoundTrip | MurmurOpenUI_public.py:81-92 | the cues of all segments read back as all their fields, in order |
| Subtitles.SrtRoundTrip | MurmurOpenUI_public.py:80-85 | a SubRip file reads back as every segment's number, truncated times and stripped text, in order |
| Subtitles.VttRoundTrip | MurmurOpenUI_public.py:86-92 | a WebVTT file reads back as its header and every segment's truncated times and stripped text, in order |
| Paths.LastIndexOf | MurmurOpenUI_public.py:74 | the last occurrence of a character, or -1 exactly when it does not occur |
| Paths.Basename | MurmurOpenUI_public.py:74 | `basename` is the slash-free suffix after the last `/` |
| Paths.SplitExt | MurmurOpenUI_public.py:74 | `splitext` splits a path into two parts that concatenate back to it, the extension empty or a dot followed by no other dot |
| Paths.Join | MurmurOpenUI_public.py:75 | `os.path.join` of two components: an absolute second part replaces the first, otherwise a `/` goes between them unless the first is empty or ends with one; `Paths.OutputPathShape` states what it gives here |
| Paths.Stem | MurmurOpenUI_public.py:74 | `splitext(basename(file_path))[0]`; `Paths.StemHasNoSlash`, `Paths.StemDropsLastExtension` and `Paths.StemKeepsUndottedName` state what it keeps |
| Paths.OutputPath | MurmurOpenUI_public.py:74-75 | the output path; `Paths.OutputPathShape` states it is the folder, a `/` if needed, the stem, a dot and the format |
| Paths.StemHasNoSlash | MurmurOpenUI_public.py:74 | the output file name holds no `/` |
| Paths.OutputPathShape | MurmurOpenUI_public.py:74-75 | output path: the folder, a `/` if needed, the input's stem, a dot and the format |
| Paths.StemDropsLastExtension | MurmurOpenUI_public.py:74 | for a base name `name.ext` with no dot in `ext` and not only dots in `name`, the stem is `name` |
| Paths.SplitExtUndotted | MurmurOpenUI_public.py:74 | a name whose dots all lead it has no extension |
| Paths.StemKeepsUndottedName | MurmurOpenUI_public.py:74 | a base name with no dot, or only leading dots (`.bashrc`), is its own stem |
| Transcriber.TranscribeFile | MurmurOpenUI_public.py:74-98 | per format: `txt` writes the full text verbatim, `srt` and `vtt` write their documents, `json` dumps the result, each at the output path; any other format writes nothing; success is reported in every case |
| Transcriber.ExampleText | MurmurOpenUI_public.py:85 | ` Hello world\n` strips to `Hello world` |
| Transcriber.ExampleStart | MurmurOpenUI_public.py:48-56 | 1.25 s renders as `00:00:01,250` and `00:00:01.250` |
| Transcriber.ExampleEnd | MurmurOpenUI_public.py:48-56 | 2.5 s renders as `00:00:02,500` and `00:00:02.500` |
| Transcriber.CueExample | MurmurOpenUI_public.py:82-92 | strip versus verbatim: a segment with text ` Hello world\n` gives cues whose text line is `Hello world` |

## Left out

- Loading the Whisper model and recognising the audio (lines 72-73) are outside this model. Their result is the `Transcript` parameter of `TranscribeFile`.
- Opening and writing files (lines 78-96) is not modelled. `TranscribeFile` returns the path and the contents it would write as an `Output` value.
- `json.dump` is not modelled (lines 93-96). `DumpJson` names the path and the result that would be dumped. It says nothing about JSON text, indentation or escaping.
- The error dialog for exceptions (lines 99-100) is not modelled, because only Whisper and the file system raise them here. The reset of the running flag and the label (lines 101-103) is not modelled either.
- The timer thread, the background thread and the Tkinter interface (lines 58-67 and 105 onward) are not modelled. They are UI plumbing with no effect on what is written.
- Timestamp.ClockOf: seconds are exact non-negative reals, not IEEE-754 doubles, so for some inputs Python's result can differ from the model's by one millisecond. For example, in floating point `1.001 - 1` is `0.00099999999999988987`, so Python computes `int(0.99999999999988987)` and writes `00:00:01,000`, while the model, working on the exact value 1.001, gives 1 millisecond. Rounding in the float product `* 1000` can also push a value up rather than down.
- Timestamp.FormatTimestamp: negative seconds are excluded by the `Seconds` type. The recogniser produces none.
- Text.Strip: whitespace is the set that Python's `str.isspace` accepts. No Unicode normalisation is modelled.
- Paths.OutputPath: POSIX path rules only, because the application targets macOS. Windows drive letters and `\` separators are not modelled.
- Transcriber.SuccessMessage: the success dialog text is carried as a string so that `TranscribeFile` can say it is produced for every format; nothing is proved about it beyond its layout, and showing the dialog is not modelled.
- Unknown formats: the format is not restricted to the four the interface offers. For any other value the code writes nothing and still shows the success dialog. The model follows the code (`NoOutput` plus the success message) rather than failing with an error.
