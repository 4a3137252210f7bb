/** ai-foundry-agents/2_workflow_agent.py: the PDF text tool's choice of
    answer, the transcript printed from the workflow's event stream, and the
    command-line filename default. The Document Intelligence service, the
    agents and the workflow engine are not modelled: the environment, the
    file system's answer, the analysis result and the event stream are
    inputs. */
module WorkflowAgent {
  import opened Wrappers
  import opened Text

  const ConfigError := "Error: Document Intelligence endpoint and key must be set in environment variables"
  const NoTextFound := "No text found in the PDF"
  const ExtractionErrorPrefix := "Error extracting text from PDF: "

  /** What the analysis call returned: the document's content and its
      paragraphs' contents (`None` when absent), or the text of what it raised. */
  datatype Analysis =
    | Analysed(content: Option<string>, paragraphs: Option<seq<string>>)
    | Raised(message: string)

  /** A Python value that is falsy: `None` or "". */
  predicate Unset(v: Option<string>) {
    v.None? || v.value == ""
  }

  function FileNotFound(filename: string): string {
    "Error: File '" + filename + "' not found"
  }

  /** The text of an analysis: its content when not empty, otherwise its
      paragraphs joined by newlines, otherwise "". */
  function AnalysedText(content: Option<string>, paragraphs: Option<seq<string>>): (r: string)
    ensures !Unset(content) ==> r == content.value
    ensures Unset(content) && paragraphs.Some? && paragraphs.value != [] ==> r == Join(paragraphs.value, "\n")
    ensures Unset(content) && (paragraphs.None? || paragraphs.value == []) ==> r == ""
  {
    if !Unset(content) then content.value
    else if paragraphs.Some? && paragraphs.value != [] then Join(paragraphs.value, "\n")
    else ""
  }

  /** `extract_text_from_pdf`: configuration is checked before the file, the
      file before the analysis; an analysis failure becomes an error text and
      an empty extraction the fixed "no text" answer, so the answer is never
      empty. */
  function ExtractTextFromPdf(endpoint: Option<string>, key: Option<string>, filename: string,
                              fileExists: bool, analysis: Analysis): (r: string)
    ensures r != ""
    ensures Unset(endpoint) || Unset(key) ==> r == ConfigError
    ensures !Unset(endpoint) && !Unset(key) && !fileExists ==> r == FileNotFound(filename)
    ensures !Unset(endpoint) && !Unset(key) && fileExists && analysis.Raised? ==>
              r == ExtractionErrorPrefix + analysis.message
    ensures !Unset(endpoint) && !Unset(key) && fileExists && analysis.Analysed? ==>
              var text := AnalysedText(analysis.content, analysis.paragraphs);
              r == if text != "" then text else NoTextFound
  {
    if Unset(endpoint) || Unset(key) then ConfigError
    else if !fileExists then FileNotFound(filename)
    else match analysis
      case Raised(message) => ExtractionErrorPrefix + message
      case Analysed(content, paragraphs) =>
        var text := AnalysedText(content, paragraphs);
        if text != "" then text else NoTextFound
  }

  /** Paragraphs without newlines of their own can be read back from the
      joined text: splitting it at the newlines gives them again. */
  lemma {:induction false} ParagraphsRecoverable(paragraphs: seq<string>)
    requires paragraphs != []
    requires forall k :: 0 <= k < |paragraphs| ==> '\n' !in paragraphs[k]
    ensures SplitAt(Join(paragraphs, "\n"), '\n') == paragraphs
  {
    if |paragraphs| > 1 {
      ParagraphsRecoverable(paragraphs[1..]);
      SplitAfterPiece(paragraphs[0], Join(paragraphs[1..], "\n"), '\n');
    } else {
      SplitNoSeparator(paragraphs[0], '\n');
    }
  }

  /** `s.split(c)`: the pieces between the occurrences of `c`. */
  function SplitAt(s: string, c: char): (pieces: seq<string>)
    ensures pieces != []
    ensures forall k :: 0 <= k < |pieces| ==> c !in pieces[k]
    decreases |s|
  {
    if s == [] then [""]
    else
      var rest := SplitAt(s[1..], c);
      if s[0] == c then [""] + rest else [[s[0]] + rest[0]] + rest[1..]
  }

  lemma {:induction false} SplitNoSeparator(s: string, c: char)
    requires c !in s
    ensures SplitAt(s, c) == [s]
    decreases |s|
  {
    if s != [] {
      assert c !in s[1..] && s[0] != c;
      SplitNoSeparator(s[1..], c);
      assert [s[0]] + s[1..] == s;
    }
  }

  lemma {:induction false} SplitAfterPiece(p: string, s: string, c: char)
    requires c !in p
    ensures SplitAt(p + [c] + s, c) == [p] + SplitAt(s, c)
    decreases |p|
  {
    if p == [] {
      assert p + [c] + s == [c] + s;
      assert ([c] + s)[1..] == s;
    } else {
      assert (p + [c] + s)[1..] == p[1..] + [c] + s;
      SplitAfterPiece(p[1..], s, c);
      assert [p[0]] + p[1..] == p;
    }
  }

  /** One event of the workflow's stream: a streaming update from an agent
      (the executor), the workflow's output, or anything else. */
  datatype Event =
    | Update(executorId: string, data: string)
    | Output(data: string)
    | Other

  const OutputBanner := "\n===== Final output =====\n"

  /** The newline printed before a header: none before the first. */
  function Separator(last: Option<string>): string {
    if last.Some? then "\n" else ""
  }

  /** What printing one event adds to stdout when the previous update came
      from `last`: an update's data unchanged, preceded by an "<id>: "
      header only when its executor differs from the previous update's; the
      output after a banner, on lines of its own; nothing for other events. */
  function Piece(event: Event, last: Option<string>): string {
    match event
    case Update(eid, data) => Header(last, eid) + data
    case Output(data) => OutputBanner + data + "\n"
    case Other => ""
  }

  /** The executor of the latest update once `event` has been handled. */
  function After(event: Event, last: Option<string>): Option<string> {
    if event.Update? then Some(event.executorId) else last
  }

  /** What printing `events` adds to stdout, piece after piece. */
  function Render(events: seq<Event>, last: Option<string>): string
    decreases |events|
  {
    if events == [] then "" else Piece(events[0], last) + Render(events[1..], After(events[0], last))
  }

  /** What the loop body prints for one event, and the executor it
      remembers afterwards. */
  method PrintEvent(event: Event, last: Option<string>) returns (printed: string, latest: Option<string>)
    ensures printed == Piece(event, last)
    ensures latest == After(event, last)
  {
    printed, latest := "", last;
    match event {
      case Update(eid, data) =>
        if latest != Some(eid) {
          var newline := if latest.Some? then "\n" else "";
          printed := newline + eid + ": ";
          latest := Some(eid);
        }
        printed := printed + data;
      case Output(data) =>
        printed := OutputBanner + data + "\n";
      case Other =>
    }
  }

  /** The event-printing loop of `main`. */
  method PrintEvents(events: seq<Event>) returns (out: string)
    ensures out == Render(events, None)
  {
    out := "";
    var last: Option<string> := None;
    var i := 0;
    while i < |events|
      invariant 0 <= i <= |events|
      invariant out + Render(events[i..], last) == Render(events, None)
    {
      var printed, latest := PrintEvent(events[i], last);
      RenderStep(events, i, last);
      AppendAssoc(out, printed, Render(events[i + 1..], latest));
      out, last := out + printed, latest;
      i := i + 1;
    }
    assert events[i..] == [];
  }

  lemma RenderStep(events: seq<Event>, i: nat, last: Option<string>)
    requires i < |events|
    ensures Render(events[i..], last) == Piece(events[i], last) + Render(events[i + 1..], After(events[i], last))
  {
    assert events[i..][1..] == events[i + 1..];
  }

  lemma AppendAssoc(a: string, b: string, c: string)
    ensures (a + b) + c == a + (b + c)
  {
  }

  /** A run of consecutive updates from one executor. */
  datatype Run = Run(executorId: string, data: seq<string>)

  predicate UpdatesOnly(events: seq<Event>) {
    forall k :: 0 <= k < |events| ==> events[k].Update?
  }

  /** One update per datum of a run. */
  function Block(run: Run): seq<Event> {
    seq(|run.data|, k requires 0 <= k < |run.data| => Update(run.executorId, run.data[k]))
  }

  /** The updates again, run after run. */
  function Flatten(runs: seq<Run>): seq<Event> {
    if runs == [] then [] else Block(runs[0]) + Flatten(runs[1..])
  }

  /** The maximal runs of updates from the same executor. */
  function Runs(updates: seq<Event>): (runs: seq<Run>)
    requires UpdatesOnly(updates)
    ensures |runs| <= |updates|
    ensures runs != [] <==> updates != []
    ensures runs != [] ==> runs[0].executorId == updates[0].executorId
    ensures forall k :: 0 <= k < |runs| ==> runs[k].data != []
    ensures forall k :: 0 <= k < |runs| - 1 ==> runs[k].executorId != runs[k + 1].executorId
    decreases |updates|
  {
    if updates == [] then []
    else
      var eid, data := updates[0].executorId, updates[0].data;
      var rest := Runs(updates[1..]);
      if rest != [] && rest[0].executorId == eid then
        [Run(eid, [data] + rest[0].data)] + rest[1..]
      else
        [Run(eid, [data])] + rest
  }

  lemma BlockCons(eid: string, data: string, more: seq<string>)
    ensures Block(Run(eid, [data] + more)) == [Update(eid, data)] + Block(Run(eid, more))
  {
  }

  /** The runs hold exactly the updates, in order. */
  lemma {:induction false} RunsFlatten(updates: seq<Event>)
    requires UpdatesOnly(updates)
    ensures Flatten(Runs(updates)) == updates
    decreases |updates|
  {
    if updates != [] {
      var u := updates[0];
      var rest := Runs(updates[1..]);
      var runs := Runs(updates);
      RunsFlatten(updates[1..]);
      if rest != [] && rest[0].executorId == u.executorId {
        calc {
          Flatten(runs);
          Block(runs[0]) + Flatten(runs[1..]);
          { BlockCons(u.executorId, u.data, rest[0].data); assert runs[1..] == rest[1..]; }
          [u] + Block(rest[0]) + Flatten(rest[1..]);
          [u] + Flatten(rest);
        }
      } else {
        calc {
          Flatten(runs);
          Block(runs[0]) + Flatten(runs[1..]);
          { assert Block(runs[0]) == [u]; assert runs[1..] == rest; }
          [u] + Flatten(rest);
        }
      }
      assert updates == [u] + updates[1..];
    }
  }

  /** "<id>: " and the run's data. */
  function RunText(run: Run): string {
    run.executorId + ": " + Concat(run.data)
  }

  /** Each run's text on a new line. */
  function TailText(runs: seq<Run>): string {
    if runs == [] then "" else "\n" + (RunText(runs[0]) + TailText(runs[1..]))
  }

  /** The transcript as grouped by executor: the runs' texts separated by
      newlines. */
  function Grouped(runs: seq<Run>): string {
    if runs == [] then "" else RunText(runs[0]) + TailText(runs[1..])
  }

  /** The header printed before an update from `eid`. */
  function Header(last: Option<string>, eid: string): string {
    if last == Some(eid) then "" else Separator(last) + eid + ": "
  }

  lemma ConcatCons(x: string, xs: seq<string>)
    ensures Concat([x] + xs) == x + Concat(xs)
  {
    assert ([x] + xs)[1..] == xs;
  }

  lemma {:induction false} RenderRuns(updates: seq<Event>, last: Option<string>)
    requires UpdatesOnly(updates) && updates != []
    ensures var runs := Runs(updates);
      Render(updates, last) == Header(last, runs[0].executorId) + (Concat(runs[0].data) + TailText(runs[1..]))
    decreases |updates|
  {
    var eid, data := updates[0].executorId, updates[0].data;
    var rest := updates[1..];
    var runs := Runs(updates);
    var head := Header(last, eid);
    assert Render(updates, last) == (head + data) + Render(rest, Some(eid));
    if rest == [] {
      assert runs == [Run(eid, [data])];
      ConcatCons(data, []);
      assert [data] + [] == [data];
      assert Render(rest, Some(eid)) == "" && TailText(runs[1..]) == "";
      assert (head + data) + "" == head + (data + "");
    } else {
      var tail := Runs(rest);
      RenderRuns(rest, Some(eid));
      var c, t := Concat(tail[0].data), TailText(tail[1..]);
      if tail[0].executorId == eid {
        assert runs[0] == Run(eid, [data] + tail[0].data) && runs[1..] == tail[1..];
        ConcatCons(data, tail[0].data);
        calc {
          Render(updates, last);
          (head + data) + ("" + (c + t));
          { assert "" + (c + t) == c + t; }
          (head + data) + (c + t);
          { AppendAssoc(head, data, c + t); AppendAssoc(data, c, t); }
          head + ((data + c) + t);
        }
      } else {
        assert runs[0] == Run(eid, [data]) && runs[1..] == tail;
        ConcatCons(data, []);
        assert [data] + [] == [data];
        assert Concat(runs[0].data) == data;
        var id := tail[0].executorId;
        calc {
          Render(rest, Some(eid));
          ("\n" + id + ": ") + (c + t);
          { AppendAssoc("\n" + id, ": ", c + t); AppendAssoc("\n", id, ": " + (c + t)); }
          "\n" + (id + (": " + (c + t)));
          { AppendAssoc(": ", c, t); AppendAssoc(id, ": " + c, t); }
          "\n" + ((id + (": " + c)) + t);
          { AppendAssoc(id, ": ", c); }
          "\n" + (RunText(tail[0]) + t);
          TailText(tail);
        }
        AppendAssoc(head, data, TailText(tail));
        assert Render(updates, last) == head + (Concat(runs[0].data) + TailText(runs[1..]));
      }
    }
  }

  /** The printed transcript of a stream of updates is its runs, each as
      "<id>: " and its data, separated by single newlines: a header exactly
      where the executor changes, and every datum printed unchanged. */
  lemma TranscriptGroupsRuns(updates: seq<Event>)
    requires UpdatesOnly(updates)
    ensures Render(updates, None) == Grouped(Runs(updates))
  {
    if updates != [] {
      RenderRuns(updates, None);
      var runs := Runs(updates);
      var id, c, t := runs[0].executorId, Concat(runs[0].data), TailText(runs[1..]);
      calc {
        Render(updates, None);
        ("" + id + ": ") + (c + t);
        { assert "" + id == id; }
        (id + ": ") + (c + t);
        { AppendAssoc(id + ": ", c, t); AppendAssoc(id, ": ", c); }
        RunText(runs[0]) + t;
      }
    }
  }

  const DefaultFilename := "resume.pdf"

  /** The file to process: the first command-line argument, or the default
      when there is none. */
  function PdfFilename(argv: seq<string>): (f: string)
    ensures |argv| > 1 ==> f == argv[1]
    ensures |argv| <= 1 ==> f == DefaultFilename
  {
    if |argv| > 1 then argv[1] else DefaultFilename
  }

  /** The line printed before the run: the file being processed, or, for an
      empty argument, that no file was given. */
  function Announcement(filename: string): string {
    if filename != "" then "Processing PDF file: " + filename + "\n"
    else NoFileLine
  }

  const NoFileLine := "No PDF file provided." + " Running with default content generation.\n"

  const RequestHead := "Please extract text from the PDF file: "
  const RequestTail := ", and review the content."

  /** The request handed to the workflow. */
  function InputMessage(filename: string): string {
    RequestHead + filename + RequestTail
  }

  /** The workflow is asked about the file that was announced: the file name
      reads back out of the request, so different files give different
      requests. */
  lemma RequestNamesFile(argv: seq<string>)
    ensures var m := InputMessage(PdfFilename(argv));
            && |m| == |RequestHead| + |PdfFilename(argv)| + |RequestTail|
            && m[|RequestHead|..|m| - |RequestTail|] == PdfFilename(argv)
    ensures |argv| <= 1 ==> InputMessage(PdfFilename(argv)) == RequestHead + DefaultFilename + RequestTail
  {
    var f := PdfFilename(argv);
    var m := InputMessage(f);
    assert m[|RequestHead|..|m| - |RequestTail|] == f by {
      assert m == RequestHead + (f + RequestTail);
    }
  }

  /** The "no file" line is printed only for an empty first argument: without
      an argument the default file is announced. */
  lemma AnnouncementCases(argv: seq<string>)
    ensures Announcement(PdfFilename(argv)) == NoFileLine
            <==> |argv| > 1 && argv[1] == ""
    ensures |argv| <= 1 ==> Announcement(PdfFilename(argv)) == "Processing PDF file: " + DefaultFilename + "\n"
  {
    var f := PdfFilename(argv);
    if f != "" {
      assert Announcement(f)[0] == 'P' != NoFileLine[0];
    }
  }
}
