# Verified model of the demo repository's deterministic cores

This project models, in Dafny, the small sequential pieces of logic in a
repository of AI and data demos. Every network, SDK, UI and file-system
call is replaced by an input. What is left is modelled and proved:

- **Snowflake query client** (`snowflake-entra-nextjs-react`):
  - the statement request `snowflakeQuery` sends, and the normalisation of
    its outcome into a `SnowflakeResponse` (`SnowflakeQuery`);
  - the column union and cell text of the result table (`DataTable`);
  - the guards and scope lists around the identity library (`MsalHelper`);
  - the query page and the chat page as classes whose handlers update
    their fields (`QueryPage`, `ChatPage`, with `Utf16` for JavaScript's
    code-unit view of strings).
- **LoRA fine-tuning data preparation** (`dgx-spark-lora-finetune-phi3`):
  `_coalesce`, `build_example`, `preprocess` and the dataset-size cut
  (`LoraFinetune`).
- **Azure AI Foundry agents** (`ai-foundry-agents`):
  - the purchase-order validator, the ERP posting stub and the
    orchestrator's 8-round keyword router (`AutonomousAgent`);
  - the PDF text tool's choice of answer, the streamed transcript and the
    filename default (`WorkflowAgent`).
- **Gemini chatbot** (`how-to-create-a-google-gemini-chatbot`): the role
  mapping and the Markdown quoting of a reply (`GeminiChat`).

Shared modules:

- `Wrappers` holds `Option`.
- `Text` holds whitespace stripping with Python's and JavaScript's exact
  whitespace sets, ASCII lower-casing, substring search, decimals and joins.
- `Types` holds the records of `lib/types.ts` and JSON values.
- `Json` holds `JSON.stringify` for those values.

## Model

| member | source | states |
|---|---|---|
| SnowflakeQuery.RequestShape | snowflake-entra-nextjs-react/lib/snowflake-query.tsx:6-30 | the request is a POST to `https://<instance>.snowflakecomputing.com/api/v2/statements`; the token can be read back as the Bearer credential (section 2.1 of RFC 6750); the JSON headers are set; the body carries the statement, timeout 60 and the configured database, schema, warehouse and role ("undefined" when unset) |
| SnowflakeQuery.ErrorText | snowflake-entra-nextjs-react/lib/snowflake-query.tsx:61-68 | a thrown Error reports its message, a thrown string itself, anything else "Unknown error" |
| SnowflakeQuery.ColumnNames | snowflake-entra-nextjs-react/lib/snowflake-query.tsx:52-54 | headings exist exactly when `rowType` does, with one name per column, in order |
| SnowflakeQuery.Normalise | snowflake-entra-nextjs-react/lib/snowflake-query.tsx:33-76 | success exactly for a parsed 200 response; status and `code` are carried through; a non-200 response gives its `message` as the error, which is null when the body has no `message`; success gives no error, the rowType headings and the data verbatim, which is null when the body has no `data`; every failure clears headings and data; an unparsable body on any status, or a failed fetch, gives status -1, no SQL status and the error text |
| SnowflakeQuery.SentinelStatus | snowflake-entra-nextjs-react/lib/snowflake-query.tsx:58-76 | with real (non-negative) HTTP statuses, status -1 marks exactly the outcomes where no body was read |
| Types.LookupAt | snowflake-entra-nextjs-react/lib/types.ts:8-10 | in a row with distinct keys, `row[key]` of the j-th key is the j-th value |
| DataTable.KeyStreamMembers | snowflake-entra-nextjs-react/components/scrollable-data-table.tsx:15-17 | a key is in the scanned key stream exactly when some row has it |
| DataTable.DedupMembers | snowflake-entra-nextjs-react/components/scrollable-data-table.tsx:14-18 | the insertion-ordered set holds exactly the keys added to it |
| DataTable.DedupDistinct | snowflake-entra-nextjs-react/components/scrollable-data-table.tsx:14-18 | the set lists no key twice |
| DataTable.DedupFirstSeen | snowflake-entra-nextjs-react/components/scrollable-data-table.tsx:14-18 | the set lists keys in order of their first insertion |
| DataTable.AllKeysSpec | snowflake-entra-nextjs-react/components/scrollable-data-table.tsx:14-18 | `allKeys` holds every key of every row and nothing else, no key twice, in order of first appearance scanning rows, then keys within a row |
| DataTable.CollectKeys | snowflake-entra-nextjs-react/components/scrollable-data-table.tsx:14-18 | the nested `forEach` loop adding keys to a `Set` computes `allKeys` |
| DataTable.CellText | snowflake-entra-nextjs-react/components/scrollable-data-table.tsx:44 | a cell is empty exactly for a missing or null value or an empty string; a string value is shown as it is; a number, boolean, array or object is shown as `JSON.stringify` writes it |
| Json.Stringify | snowflake-entra-nextjs-react/components/scrollable-data-table.tsx:44 | null, true and false are written as such, a number as its decimal, a string quoted with its escapes, arrays in brackets and objects in braces |
| Json.QuotePlain | snowflake-entra-nextjs-react/components/scrollable-data-table.tsx:44 | a string without quotes, backslashes or control characters is written as itself between double quotes |
| DataTable.ScrollableDataTable | snowflake-entra-nextjs-react/components/scrollable-data-table.tsx:6-50 | the placeholder "No data to display." exactly for missing or empty data; otherwise the header is the headings in order, with one body row per data row in order and one cell per key of `allKeys` in order |
| MsalHelper.IsUserLoggedIn | snowflake-entra-nextjs-react/lib/msal-helper.tsx:6-11 | true exactly when an account is active |
| MsalHelper.GetUserDisplayName | snowflake-entra-nextjs-react/lib/msal-helper.tsx:13-18 | the active account's name claim, and null when there is no account or no claim |
| MsalHelper.LoginScopes | snowflake-entra-nextjs-react/lib/msal-helper.tsx:24-30 | the scope list starts with "User.Read"; a string adds its trimmed form, an array is added in order, undefined adds nothing |
| MsalHelper.VerifyLogin | snowflake-entra-nextjs-react/lib/msal-helper.tsx:20-90 | it computes `SignIn`: with an active account no login is attempted and it reports "User is already logged in." with the name or "Unknown User"; otherwise silent SSO is tried first and the popup only when it throws; an account in the response becomes active ("User logged in successfully."); no account gives "No account found after login."; a throw gives "Login failed: " + its `message`, and a thrown null or undefined makes the call reject with no account changed; success holds exactly when an account is active afterwards, and a failure carries an empty display name |
| MsalHelper.ThrownMessage | snowflake-entra-nextjs-react/lib/msal-helper.tsx:81 | the unchecked cast reads `message` from any object that has one, gives "undefined" for a string or another value without it, and throws exactly for null or undefined |
| MsalHelper.SignIn | snowflake-entra-nextjs-react/lib/msal-helper.tsx:20-90 | the sign-in outcome from the active account and the silent and popup attempts: it rejects exactly when no account is active and the login that is kept threw null or undefined; otherwise it succeeds exactly when an account ends up active, a failure has an empty display name, and an already active account is kept |
| MsalHelper.SignOut | snowflake-entra-nextjs-react/lib/msal-helper.tsx:92-116 | false without an instance or active account (no logout attempted) or when the logout throws, true otherwise; success leaves no active account; a throwing logout leaves the account as it was unless the library had already removed it |
| MsalHelper.GetAccessToken | snowflake-entra-nextjs-react/lib/msal-helper.tsx:119-154 | a token request is made exactly with an instance, a non-empty scope and an active account, and it asks for exactly `[scope]` for that account; a token comes back only when that request succeeds |
| QueryPage.Usable | snowflake-entra-nextjs-react/app/query/page.tsx:66-74 | a handler goes on exactly with a token that is neither null nor empty |
| QueryPage.QueryPage.constructor | snowflake-entra-nextjs-react/app/query/page.tsx:21-37 | the initial input is "TYPE QUERY HERE", with no headings or entries and nobody signed in |
| QueryPage.QueryPage.HandleInputChange | snowflake-entra-nextjs-react/app/query/page.tsx:187-189 | the input becomes the typed value |
| QueryPage.QueryPage.FetchSampleQuery | snowflake-entra-nextjs-react/app/query/page.tsx:39-63 | with a token the input becomes the fixed sample statement; without one nothing changes |
| QueryPage.QueryPage.SubmitQuery | snowflake-entra-nextjs-react/app/query/page.tsx:65-99 | without a token nothing is sent and false is returned; otherwise the statement request is sent with that token; a successful response sets entries to its data (or []) and headings to its headings (or []); any failure leaves both as they were |
| QueryPage.QueryPage.HandleGo | snowflake-entra-nextjs-react/app/query/page.tsx:206-220 | blank input sends nothing and changes nothing; otherwise a successful query shows its result and every failed one (no token, success false, thrown error) leaves headings and entries empty |
| QueryPage.QueryPage.HandleKeyDown | snowflake-entra-nextjs-react/app/query/page.tsx:191-199 | `handleGo` runs exactly for Enter without Shift on non-blank input; when it runs, a successful query shows its data and headings, and any failure empties both; when it does not, nothing changes |
| QueryPage.QueryPage.LoginOrGetUserInfo | snowflake-entra-nextjs-react/app/query/page.tsx:101-124 | the call goes through exactly when there is an instance and `verifyLogin` does not reject, and then its result and the active account afterwards are the `SignIn` outcome; a successful sign-in sets isLoggedIn and the returned name; a failed one sets isLoggedIn false and the name null; a call that does not go through changes nothing |
| QueryPage.QueryPage.Logout | snowflake-entra-nextjs-react/app/query/page.tsx:126-147 | sign-out succeeds exactly with an instance, an active account and a logout that does not throw, and then no account is active; a successful sign-out sets isLoggedIn false and the name null; a failed one changes neither, even when the library has already removed the account |
| QueryPage.QueryPage.CheckLogin | snowflake-entra-nextjs-react/app/query/page.tsx:150-179 | the page mirrors the instance: isLoggedIn is whether an account is active, and the name is shown only then; without an instance the name is cleared and isLoggedIn kept |
| Utf16.Encode | snowflake-entra-nextjs-react/app/chat/page.tsx:30 | a string has between one and two UTF-16 code units per character |
| Utf16.DecodeEncode | snowflake-entra-nextjs-react/app/chat/page.tsx:30-31 | the code units are a lossless view of the string: decoding them gives it back |
| Utf16.EncodeAppend | snowflake-entra-nextjs-react/app/chat/page.tsx:30 | the code units of a concatenation are the concatenated code units |
| Utf16.CodeUnitSumAppend | snowflake-entra-nextjs-react/app/chat/page.tsx:31 | the left-to-right sum of code units adds up over concatenation |
| Utf16.CodeUnitSumBound | snowflake-entra-nextjs-react/app/chat/page.tsx:31 | the sum is at most 0xFFFF per code unit |
| ChatPage.ChatPage.constructor | snowflake-entra-nextjs-react/app/chat/page.tsx:11-12 | the initial input is "<QUERY GOES HERE>" and there are no entries |
| ChatPage.ChatPage.HandleInputChange | snowflake-entra-nextjs-react/app/chat/page.tsx:15-17 | the input becomes the typed value and the log is unchanged |
| ChatPage.ChatPage.HandleGo | snowflake-entra-nextjs-react/app/chat/page.tsx:28-42 | exactly one entry is appended and earlier ones are kept; it holds the input, its length in UTF-16 code units and the sum of those code units; blank input is logged too; the input is cleared |
| ChatPage.ChatPage.HandleKeyDown | snowflake-entra-nextjs-react/app/chat/page.tsx:19-26 | Enter without Shift runs `handleGo`, blank input included; any other key changes nothing |
| ChatPage.EntryBounds | snowflake-entra-nextjs-react/app/chat/page.tsx:29-31 | an entry's sum is at most 0xFFFF per counted unit, and empty input counts 0 and sums to 0 |
| ChatPage.AstralCharCountsTwo | snowflake-entra-nextjs-react/app/chat/page.tsx:30 | a character outside the Basic Multilingual Plane counts two |
| LoraFinetune.Coalesce | dgx-spark-lora-finetune-phi3/lora_finetune.py:27-28 | None becomes "", a string stays itself, an integer or boolean becomes its `str()` form |
| LoraFinetune.UserMessageLayout | dgx-spark-lora-finetune-phi3/lora_finetune.py:57 | the user turn starts with the instruction, and it is the instruction alone exactly when the input is empty; otherwise a blank line and the input follow |
| LoraFinetune.BuildExample | dgx-spark-lora-finetune-phi3/lora_finetune.py:50-75 | every example ends with the EOS token; without a tokenizer or chat template it is the fallback layout of the system prompt, the user turn and the output, each field coalesced and stripped; otherwise it is the tokenizer's rendering of the three-message conversation |
| LoraFinetune.ZipMap | dgx-spark-lora-finetune-phi3/lora_finetune.py:78-81 | `zip` over the three columns gives as many results as the shortest column, each from the triple at its position |
| LoraFinetune.Preprocess | dgx-spark-lora-finetune-phi3/lora_finetune.py:77-82 | one text per zipped (instruction, input, output) triple, in batch order |
| LoraFinetune.SelectRows | dgx-spark-lora-finetune-phi3/lora_finetune.py:47-48 | with no size every row is kept; otherwise the first `min(size, len)` rows, and none for a size of zero or less |
| LoraFinetune.Columns | dgx-spark-lora-finetune-phi3/lora_finetune.py:80 | the batch columns hold the records' fields, position by position |
| LoraFinetune.BatchingInvariant | dgx-spark-lora-finetune-phi3/lora_finetune.py:77-84 | preprocessing two batches gives the texts of preprocessing them as one, so the batch split does not matter |
| LoraFinetune.GetDataset | dgx-spark-lora-finetune-phi3/lora_finetune.py:45-84 | one text per kept record, in record order |
| AutonomousAgent.ValidateAgainstPo | ai-foundry-agents/3_autonomous_agent.py:52-64 | an unknown PO gives ok false with delta {"reason": "PO not found"}; for a known PO, an amount mismatch is recorded exactly when the input `amountMismatch` is true, with both amounts; a vendor mismatch is recorded exactly when a non-empty vendor is given that differs ignoring case, with both vendors; ok holds exactly when the deltas are empty |
| AutonomousAgent.VendorCaseInsensitive | ai-foundry-agents/3_autonomous_agent.py:62 | for every known PO, a vendor that differs from the PO's vendor only in case is not a mismatch |
| AutonomousAgent.PostToErp | ai-foundry-agents/3_autonomous_agent.py:66-68 | posting always succeeds, and the voucher starts "VCHR-" and ends "-001" |
| AutonomousAgent.VoucherInvoice | ai-foundry-agents/3_autonomous_agent.py:68 | a voucher id it accepts is "VCHR-" + the id it returns + "-001" |
| AutonomousAgent.VoucherRoundTrip | ai-foundry-agents/3_autonomous_agent.py:68 | the invoice id, or "NA" when absent, can be read back from its voucher |
| AutonomousAgent.VoucherInjective | ai-foundry-agents/3_autonomous_agent.py:68 | two postings get the same voucher only for the same invoice id (absent counting as "NA") |
| AutonomousAgent.RoutingTextSpec | ai-foundry-agents/3_autonomous_agent.py:184-185 | the routed text is "" for an empty thread, and exactly for a message made of whitespace only |
| AutonomousAgent.RoutingTextShape | ai-foundry-agents/3_autonomous_agent.py:185 | the routed text neither starts nor ends with whitespace and holds no upper-case ASCII letter |
| AutonomousAgent.KeywordsSubsumed | ai-foundry-agents/3_autonomous_agent.py:187-191 | "extractor" contains "extract", and "poster" and "ready_to_post" contain "post", so those longer keywords never change a decision |
| AutonomousAgent.Route | ai-foundry-agents/3_autonomous_agent.py:187-197 | the extractor runs exactly when "extract" occurs; the validator exactly when "validate" or "validator" occurs and "extract" does not; the poster exactly when "post" occurs and none of the earlier keywords do; the nudge exactly when no keyword occurs |
| AutonomousAgent.OrchestrateSpec | ai-foundry-agents/3_autonomous_agent.py:177-197 | from any round, the loop takes at most the remaining rounds and at least one; each step is that round's decision; no step before the last runs the poster; it stops early only after running the poster |
| AutonomousAgent.RunSpec | ai-foundry-agents/3_autonomous_agent.py:177-197 | a run takes between 1 and 8 rounds; round i routes round i's latest message; only the last round can run the poster; fewer than 8 rounds means the poster ran |
| AutonomousAgent.NextStep | ai-foundry-agents/3_autonomous_agent.py:184-197 | one round's step is the routing of its stripped, lower-cased latest message: the extractor exactly when it holds "extract", else the validator exactly when it holds "validate" or "validator", else the poster exactly when it holds "post"; an empty thread gets the nudge |
| AutonomousAgent.RunLoop | ai-foundry-agents/3_autonomous_agent.py:177-197 | the `for _ in range(8)` loop with its `break` takes exactly the steps `RunSpec` describes |
| WorkflowAgent.AnalysedText | ai-foundry-agents/2_workflow_agent.py:62-68 | a non-empty content wins; otherwise the paragraphs joined by "\n"; otherwise "" |
| WorkflowAgent.ExtractTextFromPdf | ai-foundry-agents/2_workflow_agent.py:28-73 | the answer is never empty; a missing endpoint or key gives the configuration error before the file is checked; a missing file gives "Error: File '<name>' not found"; a failed analysis gives "Error extracting text from PDF: " + its message; an empty extraction gives "No text found in the PDF"; otherwise the analysed text |
| WorkflowAgent.ParagraphsRecoverable | ai-foundry-agents/2_workflow_agent.py:68 | paragraphs without newlines of their own can be split back out of the joined text |
| WorkflowAgent.SplitAt | ai-foundry-agents/2_workflow_agent.py:68 | splitting gives at least one piece, and no piece holds the separator |
| WorkflowAgent.PrintEvent | ai-foundry-agents/2_workflow_agent.py:141-152 | one event prints its piece of the transcript and updates the remembered executor |
| WorkflowAgent.PrintEvents | ai-foundry-agents/2_workflow_agent.py:135-152 | the `async for` loop prints exactly the rendered transcript of the stream |
| WorkflowAgent.Runs | ai-foundry-agents/2_workflow_agent.py:143-149 | the maximal same-executor runs of a stream of updates: none exactly for no updates, the first run's executor is the first update's, no run is empty and neighbouring runs have different executors |
| WorkflowAgent.RunsFlatten | ai-foundry-agents/2_workflow_agent.py:143-149 | the runs hold exactly the updates, in order |
| WorkflowAgent.RenderRuns | ai-foundry-agents/2_workflow_agent.py:143-149 | the printed updates are the first run's header (only if its executor differs from the last one) and data, then each further run on a new line |
| WorkflowAgent.TranscriptGroupsRuns | ai-foundry-agents/2_workflow_agent.py:143-149 | from the start, the transcript is the runs, each as "<id>: " and its data unchanged, separated by single newlines: a header exactly where the executor changes, and a newline before every header but the first |
| WorkflowAgent.PdfFilename | ai-foundry-agents/2_workflow_agent.py:158-161 | the first command-line argument, or "resume.pdf" when there is none |
| WorkflowAgent.AnnouncementCases | ai-foundry-agents/2_workflow_agent.py:158-168 | the "No PDF file provided" line is printed exactly when the first argument is empty; without an argument "resume.pdf" is announced |
| WorkflowAgent.RequestNamesFile | ai-foundry-agents/2_workflow_agent.py:137 | the request handed to the workflow names the chosen file, which reads back out of it ("resume.pdf" without an argument) |
| GeminiChat.RoleToStreamlit | how-to-create-a-google-gemini-chatbot/main.py:13-17 | "model" becomes "assistant", every other role is kept, and no result is "model" |
| GeminiChat.RoleToStreamlitIdempotent | how-to-create-a-google-gemini-chatbot/main.py:13-17 | mapping a role twice maps it once |
| GeminiChat.ReplaceBullets | how-to-create-a-google-gemini-chatbot/main.py:21 | the replacement keeps the length of the text |
| GeminiChat.ReplaceFirst | how-to-create-a-google-gemini-chatbot/main.py:21 | the first bullet is replaced by the Markdown bullet, the text before it is unchanged, and the replacement goes on after it |
| GeminiChat.NoBulletLeft | how-to-create-a-google-gemini-chatbot/main.py:21 | no mis-encoded bullet is left after the replacement |
| GeminiChat.NoBulletUnchanged | how-to-create-a-google-gemini-chatbot/main.py:21 | a text without the bullet is unchanged |
| GeminiChat.Lines | how-to-create-a-google-gemini-chatbot/main.py:22 | the lines are well formed, with every line but the last ending in a line break; joining them gives the text back; there are none exactly for an empty text |
| GeminiChat.IndentLines | how-to-create-a-google-gemini-chatbot/main.py:22 | the lines of the indented text are the text's lines, each with "> " in front, blank lines included, so the line count is kept |
| GeminiChat.UnindentIndent | how-to-create-a-google-gemini-chatbot/main.py:22 | taking "> " off every line gives the text back |
| GeminiChat.ToMarkdownSpec | how-to-create-a-google-gemini-chatbot/main.py:20-22 | the Markdown has one quoted line per line of the bullet-replaced reply; unquoting it gives the bullet-replaced reply, which holds no mis-encoded bullet; a reply without the bullet comes back unchanged |
| Text.StartsWithIndex | how-to-create-a-google-gemini-chatbot/main.py:21 | the prefix test that finds each bullet holds exactly when the pattern fits and equals the text's first characters |
| Text.StripBlank | snowflake-entra-nextjs-react/app/query/page.tsx:207 | a string trims to "" exactly when every character is whitespace |
| Text.StripInfix | snowflake-entra-nextjs-react/app/query/page.tsx:207 | the trimmed text is an infix of the input with only whitespace before and after it |
| Text.StripIdempotent | ai-foundry-agents/3_autonomous_agent.py:185 | stripping twice strips nothing more |

## Left out

- I/O and services are inputs, not modelled:
  - network calls, `response.json()` and the Snowflake SQL API server;
  - the identity library's popups, redirects and token cache;
  - the Document Intelligence service, the agent framework and its threads;
  - Hugging Face loading, training and the tokenizer's own template;
  - Streamlit, IPython and the Gemini client;
  - toasts, telemetry, console output, focus handling and JSX markup.
- QueryPage.QueryPage.Logout: the page's invariant does not promise that a signed-in page has an active account, because a throwing `logoutPopup` may already have removed the account while the page keeps showing the user signed in.
- Concurrency is not modelled: every page handler is one atomic step, with no interleaving of React state updates.
- AutonomousAgent.ValidateAgainstPo: whether the invoice total differs from the PO amount by more than 0.01 is an input rather than computed, because the source compares floating-point numbers. Amounts are carried in whole cents. The `float(total or 0)` conversion and its exceptions are not modelled. The vendor comparison lower-cases ASCII letters only; Python's full Unicode `lower()` is not modelled.
- AutonomousAgent.PostToErp: a present invoice id is taken as text; the `str()` formatting of a non-string id is not modelled.
- AutonomousAgent.RoutingTextShape: lower-casing is ASCII only (`A`..`Z`); Python's full Unicode `lower()` is not modelled.
- GeminiChat.Lines: only '\n' ends a line; the other line boundaries of `splitlines` (such as '\r', '\r\n', '\x0b', '\x0c', '\x1c'..'\x1e', '\x85', U+2028 and U+2029) are not modelled.
- Types.Value: JSON numbers are integers, so `JSON.stringify` of a fraction or exponent is not modelled. `Json.Stringify` does not escape lone surrogates, which Dafny strings cannot hold.
- DataTable.AllKeysSpec: `Object.keys` lists a row's keys in the order given by the row; JavaScript lists integer-like keys first, in numeric order, and that is not modelled.
- The 8-round agent loop takes the orchestrator's replies as its input, one latest message per round; what the agents write to the thread is not modelled.
- WorkflowAgent.ExtractTextFromPdf: any exception raised while reading or analysing the file is one `Raised(message)` outcome carrying `str(e)`.
- LoraFinetune.Coalesce: only None, strings, integers and booleans are modelled as field values; other JSON field types are not.
