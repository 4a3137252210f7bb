/** dgx-spark-lora-finetune-phi3/lora_finetune.py: how training records
    become chat-formatted training texts. Loading the JSON file, the model,
    the tokenizer's own template and training are not modelled; the
    tokenizer's `apply_chat_template` is a function the caller supplies. */
module LoraFinetune {
  import opened Wrappers
  import opened Text

  const SystemPrompt :=
    "You are an expert Text-to-SQL assistant. "
    + "Return ONLY executable SQL for the given question and schema. "
    + "Do not include explanations, comments, or markdown. "
    + "Prefer ANSI SQL; use tables/columns exactly as provided."

  /** A field of a training record as the JSON loader hands it over. */
  datatype FieldValue = PyNone | PyStr(s: string) | PyInt(i: int) | PyBool(b: bool)

  /** `_coalesce`: `None` becomes "", anything else its `str()` form. */
  function Coalesce(v: FieldValue): (r: string)
    ensures v.PyNone? ==> r == ""
    ensures v.PyStr? ==> r == v.s
    ensures v.PyInt? ==> r == Decimal(v.i)
    ensures v.PyBool? ==> r == (if v.b then "True" else "False")
  {
    match v
    case PyNone => ""
    case PyStr(s) => s
    case PyInt(i) => Decimal(i)
    case PyBool(b) => if b then "True" else "False"
  }

  /** A field coalesced, then stripped. */
  function Clean(v: FieldValue): string {
    Strip(Coalesce(v), PythonWhitespace)
  }

  /** The user turn: the instruction alone, or the instruction, a blank line
      and the input when the input is not empty. */
  function UserMessage(inst: string, inp: string): string {
    if inp == "" then inst else inst + "\n\n" + inp
  }

  datatype ChatMessage = ChatMessage(role: string, content: string)

  /** No tokenizer, a tokenizer without `apply_chat_template`, or one with it. */
  datatype Tokenizer =
    | NoTokenizer
    | PlainTokenizer
    | ChatTokenizer(applyChatTemplate: seq<ChatMessage> -> string)

  /** `PHI_CHAT_FALLBACK_TEMPLATE` filled in. */
  function FallbackText(system: string, user: string, assistant: string): string {
    "<|system|>\n" + system + "\n<|user|>\n" + user + "\n<|assistant|>\n" + assistant
  }

  /** The conversation handed to the tokenizer's chat template. */
  function Conversation(system: string, user: string, assistant: string): seq<ChatMessage> {
    [ChatMessage("system", system), ChatMessage("user", user), ChatMessage("assistant", assistant)]
  }

  /** `build_example`: the fallback layout exactly when there is no tokenizer
      or it has no chat template; the tokenizer's rendering otherwise. Either
      way the text ends with the end-of-sequence token. */
  function BuildExample(tok: Tokenizer, system: string, eos: string,
                        inst: FieldValue, inp: FieldValue, out: FieldValue): (r: string)
    ensures |r| >= |eos| && r[|r| - |eos|..] == eos
    ensures !tok.ChatTokenizer? ==>
              r == FallbackText(system, UserMessage(Clean(inst), Clean(inp)), Clean(out)) + eos
    ensures tok.ChatTokenizer? ==>
              r == tok.applyChatTemplate(Conversation(system, UserMessage(Clean(inst), Clean(inp)), Clean(out))) + eos
  {
    var instText := Clean(inst);
    var inpText := Clean(inp);
    var outText := Clean(out);
    var user := UserMessage(instText, inpText);
    var body :=
      match tok
      case ChatTokenizer(apply) => apply(Conversation(system, user, outText))
      case _ => FallbackText(system, user, outText);
    var r := body + eos;
    assert r[|r| - |eos|..] == eos;
    r
  }

  /** The user turn starts with the instruction, and holds the input after
      a blank line exactly when that input is not empty. */
  lemma UserMessageLayout(inst: string, inp: string)
    ensures |UserMessage(inst, inp)| >= |inst| && UserMessage(inst, inp)[..|inst|] == inst
    ensures UserMessage(inst, inp) == inst <==> inp == ""
    ensures inp != "" ==> UserMessage(inst, inp)[|inst|..] == "\n\n" + inp
  {
    if inp != "" {
      var u := inst + "\n\n" + inp;
      assert u[..|inst|] == inst;
      assert u[|inst|..] == "\n\n" + inp;
      assert |u| > |inst|;
    }
  }

  /** One column batch: the instruction, input and output columns. */
  datatype Batch = Batch(instruction: seq<FieldValue>, input: seq<FieldValue>, output: seq<FieldValue>)

  function Min3(a: nat, b: nat, c: nat): nat {
    if a <= b && a <= c then a else if b <= c then b else c
  }

  function Rest(batch: Batch): Batch
    requires batch.instruction != [] && batch.input != [] && batch.output != []
  {
    Batch(batch.instruction[1..], batch.input[1..], batch.output[1..])
  }

  /** `zip` over the three columns, applying `f` to each triple: as many
      results as the shortest column, in batch order. */
  function ZipMap(f: (FieldValue, FieldValue, FieldValue) -> string, batch: Batch): (texts: seq<string>)
    ensures |texts| == Min3(|batch.instruction|, |batch.input|, |batch.output|)
    ensures forall k :: 0 <= k < |texts| ==>
              texts[k] == f(batch.instruction[k], batch.input[k], batch.output[k])
    decreases |batch.instruction|
  {
    if batch.instruction == [] || batch.input == [] || batch.output == [] then []
    else [f(batch.instruction[0], batch.input[0], batch.output[0])] + ZipMap(f, Rest(batch))
  }

  /** `preprocess`: one text per triple that `zip` yields, so as many as the
      shortest column, in batch order. */
  function Preprocess(tok: Tokenizer, system: string, eos: string, batch: Batch): (texts: seq<string>)
    ensures |texts| == Min3(|batch.instruction|, |batch.input|, |batch.output|)
    ensures forall k :: 0 <= k < |texts| ==>
              texts[k] == BuildExample(tok, system, eos, batch.instruction[k], batch.input[k], batch.output[k])
  {
    ZipMap((i, n, o) => BuildExample(tok, system, eos, i, n, o), batch)
  }

  /** The rows kept for a requested dataset size: all of them for `None`,
      otherwise the first `min(size, len)`, and none for a negative size
      (`range` of a negative bound is empty). */
  function SelectRows<T>(rows: seq<T>, size: Option<int>): (r: seq<T>)
    ensures size.None? ==> r == rows
    ensures size.Some? && size.value <= 0 ==> r == []
    ensures size.Some? && 0 <= size.value <= |rows| ==> r == rows[..size.value]
    ensures size.Some? && size.value >= |rows| ==> r == rows
  {
    match size
    case None => rows
    case Some(n) =>
      var k := if n < |rows| then n else |rows|;
      if k <= 0 then [] else rows[..k]
  }

  /** One training record. */
  datatype Record = Record(instruction: FieldValue, input: FieldValue, output: FieldValue)

  /** The records as the column batch `Dataset.map(batched=True)` passes. */
  function Columns(rows: seq<Record>): (b: Batch)
    ensures |b.instruction| == |b.input| == |b.output| == |rows|
    ensures forall k :: 0 <= k < |rows| ==>
              b.instruction[k] == rows[k].instruction && b.input[k] == rows[k].input && b.output[k] == rows[k].output
  {
    Batch(seq(|rows|, k requires 0 <= k < |rows| => rows[k].instruction),
          seq(|rows|, k requires 0 <= k < |rows| => rows[k].input),
          seq(|rows|, k requires 0 <= k < |rows| => rows[k].output))
  }

  /** Zipping the columns of `a + b` is zipping those of `a`, then of `b`. */
  lemma ZipMapAppend(f: (FieldValue, FieldValue, FieldValue) -> string, a: seq<Record>, b: seq<Record>)
    ensures ZipMap(f, Columns(a + b)) == ZipMap(f, Columns(a)) + ZipMap(f, Columns(b))
  {
    var whole := ZipMap(f, Columns(a + b));
    var left := ZipMap(f, Columns(a));
    var right := ZipMap(f, Columns(b));
    forall k | 0 <= k < |whole| ensures whole[k] == (left + right)[k] {
      if k >= |a| {
        assert (a + b)[k] == b[k - |a|];
      }
    }
  }

  /** Splitting the records into batches, as `Dataset.map` does, yields the
      same texts as one batch: `preprocess` works row by row. */
  lemma BatchingInvariant(tok: Tokenizer, system: string, eos: string, a: seq<Record>, b: seq<Record>)
    ensures Preprocess(tok, system, eos, Columns(a + b))
         == Preprocess(tok, system, eos, Columns(a)) + Preprocess(tok, system, eos, Columns(b))
  {
    ZipMapAppend((i, n, o) => BuildExample(tok, system, eos, i, n, o), a, b);
  }

  /** `get_dataset`: the texts of the kept records, one per record, in order. */
  function GetDataset(rows: seq<Record>, size: Option<int>, tok: Tokenizer, system: string, eos: string)
    : (texts: seq<string>)
    ensures |texts| == |SelectRows(rows, size)|
    ensures forall k :: 0 <= k < |texts| ==>
              texts[k] == BuildExample(tok, system, eos, rows[k].instruction, rows[k].input, rows[k].output)
  {
    var kept := SelectRows(rows, size);
    assert forall k :: 0 <= k < |kept| ==> kept[k] == rows[k];
    Preprocess(tok, system, eos, Columns(kept))
  }
}
