# Vending-machine diagnostic chatbot: turn controller and inference gateway

This project models the logic of the Streamlit vending-machine chatbot in
`streamlit_app.py`. The user types a message and presses "Send". Each non-blank
message is stored in the session's `chat_history` and counted in
`turn_counter`. On the first two turns the app asks a clarification model
(Qwen) for one follow-up question. From the third turn on it asks a diagnosis
model (MBART) once for a structured fault record and stores the result in
`diagnosis`. After that it only shows a notice. "Reset Session" clears all
three fields.

The project has four modules:

- `Text` (`text.dfy`) defines the Python string operations the code relies on:
  `str.strip()`, with Python's set of whitespace code points;
  `str.replace(prompt, "")`; and `"\n".join`. The code never splits text.
  `SplitLines`, Python's `split("\n")`, is there only as the inverse of the
  join, to show that the conversation block loses nothing.
- `Prompts` (`prompts.dfy`) builds the text the app sends:
  - the conversation block, where each message gets a `Customer: ` label and
    the lines are joined with newlines;
  - the clarification prompt;
  - the diagnosis prompt. The diagnosis template is written out exactly, but
    the properties treat it as a fixed prefix and suffix.
- `Inference` (`inference.dfy`) interprets what each endpoint answers. An
  answer is a `Response(status, body)`, where the body is either a parsed
  JSON value or `Malformed` (when `response.json()` raises).
  - `Clarify` gives the reply `ask_qwen_model` returns.
  - `Diagnose` gives the value `ask_mbart_model` returns.
  - `Outcome` says whether `requests.post` returned a `Response` or raised.
    It raises when the connection fails or times out.
  - `Json` stands for the values Python's `json` module produces, except that
    an object's members form a map: their order is not kept. `Null` is
    Python's `None`, so "no diagnosis yet" and a diagnosis body of JSON `null`
    are the same value, as in the source.
- `Session` (`session.dfy`) models the session and the two buttons.
  - `State`, `OnSend` and `OnReset` describe one button press as a function
    on values.
  - `ChatSession` is the session object. Its `Send` and `Reset` methods update
    its three fields in place and are proved to follow `OnSend` and `OnReset`.
  - `Run` and `Effects` follow a whole sequence of presses. The set-once,
    reset and invariant lemmas are stated over them.

The network call is not modelled. The caller passes the `Outcome` of the
request: the `Response` the endpoint would have sent, or `Raised`. Python's `str()` on a parsed non-list body is also
passed in, as the function parameter `render`.

Some consequences of the code are worth stating:

- After a diagnosis is stored, a further non-blank Send is not rejected. It is
  still appended to the history and counted, and only the notice is shown.
- The diagnosis model is asked whenever the counter is 3 or more and no
  diagnosis is stored, not only when the counter is exactly 3.
- The message is stored and counted (lines 108-109) before any request is
  made. `requests.post` sits outside the `try` of both functions (lines 32-36
  and 82-86). If it raises, the exception ends the handler: no reply is shown,
  but the message stays stored and counted, and `diagnosis` is not assigned.
- So the set-once guarantee holds only for diagnoses other than `None`. If the
  diagnosis request raises, or the endpoint answers 200 with the body `null`,
  `diagnosis` stays `None`, and the next Send asks the diagnosis model again
  (`DiagnosisAskedAgain`). Both error markers are dictionaries, so they do
  count as a stored diagnosis.

## Model

| member | source | states |
|---|---|---|
| `Text.IsSpace` | streamlit_app.py:45 | no contract of its own: the code points Python's `str.isspace` accepts, which `strip()` removes |
| `Text.Strip` | streamlit_app.py:45 | the result is `s` with only whitespace before and after it, and it neither starts nor ends with whitespace |
| `Text.StripUnique` | streamlit_app.py:45 | any string that `s` consists of plus surrounding whitespace, with no whitespace at its own ends, is `Strip(s)`: strip is exactly "remove surrounding whitespace" |
| `Text.StripIdempotent` | streamlit_app.py:45 | stripping twice gives the same result as stripping once |
| `Text.StripOfTrimmed` | streamlit_app.py:45 | a text with no whitespace at either end is left unchanged by strip |
| `Text.StripEmptyIffBlank` | streamlit_app.py:107 | `user_input.strip()` is the empty (false) string exactly when the input is empty or whitespace only |
| `Text.RemoveAll` | streamlit_app.py:45 | `replace(prompt, "")` never lengthens the text and leaves it unchanged for an empty pattern |
| `Text.RemoveAllAbsent` | streamlit_app.py:45 | removing a pattern that does not occur in the text leaves the text unchanged |
| `Text.RemovePresentShrinks` | streamlit_app.py:45 | removing a non-empty pattern that does occur makes the text strictly shorter |
| `Text.RemoveAllChangesIffPresent` | streamlit_app.py:45 | for a non-empty pattern, `replace(p, "")` changes the text exactly when `p` occurs in it |
| `Text.RemoveAllAtFirst` | streamlit_app.py:45 | every copy is removed, leftmost first: the text before the first occurrence is kept, that occurrence is dropped, and removal goes on in the text after it; with `RemoveAllAbsent` this fixes the result for every input |
| `Text.EchoRemoved` | streamlit_app.py:45 | when the text is the prompt followed by a continuation that does not contain the prompt, removing the prompt leaves exactly the continuation |
| `Text.JoinLines` | streamlit_app.py:24 | `"\n".join`: the result begins with the first line |
| `Text.SplitLines` | streamlit_app.py:24 | the inverse of the join, which the code itself never calls: there is always at least one piece, and no piece contains a newline |
| `Text.JoinAppend` | streamlit_app.py:24 | joining one more line with newlines appends it after a newline, or gives it alone when there were no lines |
| `Text.SplitJoin` | streamlit_app.py:24 | splitting the joined text on newlines gives back the lines, provided there is at least one line and none contains a newline |
| `Prompts.CustomerLines` | streamlit_app.py:24 | one line per message, in order; each line is the `Customer: ` label followed by the text `Untag` leaves, and that text is the message |
| `Prompts.Conversation` | streamlit_app.py:24 | the conversation block is empty exactly when the history is, and otherwise begins with the first message's labelled line |
| `Prompts.ClarificationPrompt` | streamlit_app.py:25-30 | the prompt begins with the fixed instruction and ends with the new message on its own labelled line, followed by the `Assistant:` cue |
| `Prompts.DiagnosisPrompt` | streamlit_app.py:54-81 | the prompt is the fixed template, then the conversation block unchanged, then a final newline, so the block can be cut back out of the prompt |
| `Prompts.Untag` | streamlit_app.py:24 | a line that starts with the label is the label followed by the result; any other line is returned as it is |
| `Prompts.Messages` | streamlit_app.py:24 | no contract of its own: it reads a block back into messages, and `ConversationRoundTrip` states that it inverts `Conversation` |
| `Prompts.ConversationAppend` | streamlit_app.py:115 | appending a message to the history adds one labelled line at the end of the conversation block and leaves the earlier lines unchanged |
| `Prompts.ConversationRoundTrip` | streamlit_app.py:24 | the conversation block can be read back into exactly the history it was built from, in order, when no message contains a line break |
| `Prompts.NewestMessageTwice` | streamlit_app.py:24-30 | because the message is stored before the prompt is built, the clarification prompt ends with the newest message twice: as the last history line and again on its own `Customer:` line |
| `Inference.ErrorMarker` | streamlit_app.py:91 | an error marker is a non-`None` dictionary whose `"error"` entry is the given message |
| `Inference.GeneratedText` | streamlit_app.py:45 | `result[0]["generated_text"]` yields a string exactly when the list is non-empty, its first element is a dictionary, the key is present and its value is a string, and then it is that string; every other case raises |
| `Inference.Clarify` | streamlit_app.py:38-49 | non-200 gives the "Qwen model unavailable" text; an unparseable body gives "Invalid model output."; a non-list body gives its `str()` form unchanged; a list body gives the generated text with every copy of the prompt removed and then stripped, so it has no surrounding whitespace, or "Invalid model output." when there is no such text |
| `Inference.Diagnose` | streamlit_app.py:88-98 | non-200 gives the `{"error": "MBART model failed."}` marker; an unparseable body gives the `{"error": "Invalid MBART output."}` marker; otherwise the parsed body is returned unchanged, with no eight-field check; the result is `None` exactly for a 200 answer with body `null` |
| `Inference.EchoedPromptStripped` | streamlit_app.py:45 | when the model echoes the prompt and then continues, the reply is the continuation with surrounding whitespace removed, provided the continuation does not repeat the prompt |
| `Inference.ShortContinuationStripped` | streamlit_app.py:45 | the same holds for any continuation shorter than the prompt, such as a single follow-up question |
| `Session.OnSend` | streamlit_app.py:107-120 | a blank Send changes nothing and asks no model; a non-blank Send appends exactly its message and adds 1 to the counter, even when the request raises; the diagnosis changes only when the diagnosis model answers; the invariant is kept |
| `Session.Ask` | streamlit_app.py:111-120 | once the message is stored and counted, asking a model leaves history and counter alone; the diagnosis changes only for an answered diagnosis request, from the third turn on, when none is stored, and then it becomes exactly that answer |
| `Session.SendBeforeDiagnosisTurn` | streamlit_app.py:111-113 | a non-blank Send that brings the counter to 1 or 2 asks the clarification model once, with the prompt built from the updated history, and leaves the diagnosis unchanged; the reply comes from `Clarify` when the request is answered, and there is none when it raises |
| `Session.SendFromDiagnosisTurn` | streamlit_app.py:114-120 | from the third turn on, a non-blank Send asks the diagnosis model with the whole conversation when no diagnosis is stored, and stores the answer, or nothing if the request raises; otherwise it only shows the notice and keeps the diagnosis |
| `Session.UnavailableClarificationKeepsTurn` | streamlit_app.py:38-41 | when the clarification endpoint fails, the message is still stored and counted, and the reply is the fallback text |
| `Session.MalformedDiagnosisIsStored` | streamlit_app.py:95-98 | an unparseable diagnosis body stores the "Invalid MBART output." marker, which is not `None` |
| `Session.Step` | streamlit_app.py:107-125 | no contract of its own: one press of either button |
| `Session.Run` | streamlit_app.py:107-125 | no contract of its own: the session after a sequence of presses; `RunAppend`, `RunWellFormed` and the lemmas below state its properties |
| `Session.Effects` | streamlit_app.py:107-125 | one effect per press, in order |
| `Session.OnReset` | streamlit_app.py:122-125 | from any state, reset gives empty history, counter 0 and no diagnosis |
| `Session.RunWellFormed` | streamlit_app.py:13-18 | after any sequence of presses, the turn counter equals the history length, and a stored diagnosis comes with at least three turns |
| `Session.ResetForgetsEarlierTurns` | streamlit_app.py:122-125 | after a reset anywhere in a sequence of presses, the final session depends only on the presses after that reset |
| `Session.ResetIdempotent` | streamlit_app.py:122-125 | resetting twice gives the same session as resetting once: the initial one |
| `Session.BlankSendsChangeNothing` | streamlit_app.py:107 | any number of blank or whitespace-only Sends leave the session unchanged and ask no model |
| `Session.SendsAppendInputs` | streamlit_app.py:108-109 | after any sequence of non-blank Sends, the history is the old history followed by exactly those messages in order, and the counter has grown by their number |
| `Session.EarlyTurnsClarify` | streamlit_app.py:111-113 | every non-blank Send before the third turn asks the clarification model, answered or not, and together they leave the diagnosis unchanged |
| `Session.ThirdTurnDiagnoses` | streamlit_app.py:114-116 | in a fresh session, the third non-blank Send asks the diagnosis model with the three messages as the conversation and stores its answer, whatever became of the first two requests |
| `Session.DiagnosisSetOnce` | streamlit_app.py:114-120 | once a non-`None` diagnosis is stored, later Sends ask no model and leave the diagnosis unchanged until a reset |
| `Session.AtMostOneDiagnosisCall` | streamlit_app.py:114-116 | between resets, the diagnosis model is asked at most once, and not at all if a diagnosis is already stored, provided every request to it is answered with something other than `null`; the clarification model's answers play no part |
| `Session.DiagnosisAskedAgain` | streamlit_app.py:114-116 | a diagnosis request that raises (lines 82-86), or a `null` body (stored as-is by line 94), leaves the diagnosis `None`, so the next non-blank Send asks the diagnosis model a second time |
| `Session.ChatSession.constructor` | streamlit_app.py:13-18 | a new session has empty history, counter 0 and no diagnosis |
| `Session.ChatSession.Send` | streamlit_app.py:107-120 | the Send handler changes the three fields, and returns the effect, exactly as `OnSend` prescribes, including when the request raises, and keeps the invariant |
| `Session.ChatSession.Reset` | streamlit_app.py:122-125 | the Reset handler sets the fields to empty history, counter 0 and no diagnosis |

## Left out

- The HTTP POST to the two inference endpoints: the URLs, the bearer-token
  header and the `{"inputs": prompt}` body (lines 32-36 and 82-86). It is
  network I/O. Its outcome is a parameter instead: an answer, or `Raised`.
  Which exception was raised, and a request that never returns, are not
  distinguished: both end the handler after the message is stored.
- Loading the API token from Streamlit secrets (lines 5-6). This is credential
  plumbing.
- JSON parsing inside `response.json()`. It is a library call. Its outcome is
  the `Body` datatype.
- Python's `str()` rendering of a non-list body (line 45). It is supplied as
  the function `render`.
- Inference.Json: the order of an object's members and any duplicate keys
  are not kept, because members form a map. Python keeps both: `str()` at
  line 45 prints members in body order, and a stored diagnosis keeps it
  too. So `render`, and hence `Inference.Clarify`, stands for `str()` only
  up to member order. Two bodies that differ only in member order give the
  same reply here.
- JSON numbers are kept as their literal text, because the code never
  inspects them.
- Showing the status code and raw body with `st.error` and `st.text`. These
  are UI calls. The raw response text is therefore not part of `Response`.
- Everything else that only displays or lays out the page: `set_page_config`,
  the title, the markdown text, `text_input`, the buttons themselves,
  `st.write`, `st.code` and `st.experimental_rerun`. A button press is modelled
  as a call to `Send` or `Reset`.
- What the language models actually generate. It is arbitrary input, not
  behaviour of this code.
- Streamlit's rerun of the whole script on every press. The model keeps only
  the effect of each press on the three session fields, with one method call
  per press.
