/**
 * The text sent to the two language models: the conversation block built from
 * the session's history (`ask_qwen_model` and the Send handler), the
 * clarification prompt around it, and the diagnosis prompt around it.
 */
module Prompts {
  import opened Text

  /** The label put in front of every user message in a prompt. */
  const CustomerTag: string := "Customer: "

  /** The part of the clarification prompt before the conversation block. */
  const ClarificationHead: string :=
    "You are a helpful vending machine support assistant.\n" +
    "Only output one natural follow-up question to clarify the user's problem.\n\n"

  /** The instruction and field template the diagnosis prompt puts before the
      conversation block, and what it puts after it. */
  const DiagnosisHead: string :=
    "\nYou are an AI assistant for vending machine diagnostics.\n\n" +
    "Based on the full conversation, extract:\n" +
    "- ErrorMessage\n- ErrorCause\n- ErrorBau\n- ErrorKindTypeKey\n- ErrorKindTypeName\n" +
    "- ErrorCauseTypeName\n- ErrorCauseTypeKey\n- RecommendedTechnician\n\n" +
    "Respond ONLY in this JSON format:\n{\n" +
    "  \"ErrorMessage\": \"...\",\n  \"ErrorCause\": \"...\",\n  \"ErrorBau\": \"...\",\n" +
    "  \"ErrorKindTypeKey\": \"...\",\n  \"ErrorKindTypeName\": \"...\",\n" +
    "  \"ErrorCauseTypeName\": \"...\",\n  \"ErrorCauseTypeKey\": \"...\",\n" +
    "  \"RecommendedTechnician\": \"...\"\n}\n\nConversation:\n"
  const DiagnosisTail: string := "\n"

  /** `[f"Customer: {msg}" for msg in history]`. */
  function CustomerLines(history: seq<string>): (r: seq<string>)
    ensures |r| == |history|
    ensures forall k :: 0 <= k < |r| ==> Untag(r[k]) == history[k]
    ensures forall k :: 0 <= k < |r| ==> r[k] == CustomerTag + Untag(r[k])
  {
    seq(|history|, k requires 0 <= k < |history| => CustomerTag + history[k])
  }

  /** The conversation block: every message on its own line, labelled. */
  function Conversation(history: seq<string>): (r: string)
    ensures r == "" <==> history == []
    ensures history != [] ==> CustomerTag + history[0] <= r
  {
    JoinLines(CustomerLines(history))
  }

  /** The prompt `ask_qwen_model` sends: the instruction, the conversation so
      far, the new message on a labelled line of its own, and the cue for the
      assistant's answer. */
  function ClarificationPrompt(history: seq<string>, input: string): (r: string)
    ensures ClarificationHead <= r
    ensures var cue := "\n" + CustomerTag + input + "\nAssistant:";
            |cue| <= |r| && r[|r| - |cue|..] == cue
  {
    ClarificationHead + Conversation(history) + "\n" + CustomerTag + input + "\nAssistant:"
  }

  /** The prompt `ask_mbart_model` sends for a given conversation block. */
  function DiagnosisPrompt(conversation: string): (r: string)
    ensures |r| == |DiagnosisHead| + |conversation| + |DiagnosisTail|
    ensures r[..|DiagnosisHead|] == DiagnosisHead && r[|DiagnosisHead| + |conversation|..] == DiagnosisTail
    ensures r[|DiagnosisHead|..|DiagnosisHead| + |conversation|] == conversation
  {
    DiagnosisHead + conversation + DiagnosisTail
  }

  /** Reading one labelled line back: the message with its label taken off. */
  function Untag(line: string): (r: string)
    ensures CustomerTag <= line ==> line == CustomerTag + r
    ensures !(CustomerTag <= line) ==> r == line
  {
    if |CustomerTag| <= |line| && line[..|CustomerTag|] == CustomerTag then line[|CustomerTag|..]
    else line
  }

  /** Reading a conversation block back into the messages it was made from. */
  function Messages(conversation: string): seq<string>
  {
    if conversation == "" then []
    else
      var lines := SplitLines(conversation);
      seq(|lines|, k requires 0 <= k < |lines| => Untag(lines[k]))
  }

  /** One more message adds one more labelled line at the end of the block
      and leaves the lines before it as they were. */
  lemma ConversationAppend(history: seq<string>, msg: string)
    ensures Conversation(history + [msg]) ==
            if history == [] then CustomerTag + msg
            else Conversation(history) + "\n" + CustomerTag + msg
  {
    assert CustomerLines(history + [msg]) == CustomerLines(history) + [CustomerTag + msg];
    JoinAppend(CustomerLines(history), CustomerTag + msg);
  }

  /** The conversation block loses nothing: when no message holds a line
      break (the input box is a single line), the messages can be read back
      from it exactly, in order. */
  lemma ConversationRoundTrip(history: seq<string>)
    requires forall k :: 0 <= k < |history| ==> '\n' !in history[k]
    ensures Messages(Conversation(history)) == history
  {
    if history != [] {
      var lines := CustomerLines(history);
      forall k | 0 <= k < |lines| ensures '\n' !in lines[k] {
        assert lines[k] == CustomerTag + history[k];
        assert '\n' !in CustomerTag;
      }
      SplitJoin(lines);
      assert lines[0] != "";
      assert Conversation(history) != "";
      forall k | 0 <= k < |history| ensures Untag(lines[k]) == history[k] {
        assert lines[k][..|CustomerTag|] == CustomerTag;
      }
    }
  }

  /** Because the Send handler stores the message before asking for a
      clarification, the newest message appears twice at the end of the
      clarification prompt: once as the last line of the history block and
      once on its own labelled line. */
  lemma NewestMessageTwice(history: seq<string>, msg: string)
    ensures ClarificationPrompt(history + [msg], msg) ==
            ClarificationHead + Conversation(history) + (if history == [] then "" else "\n") +
            CustomerTag + msg + "\n" + CustomerTag + msg + "\nAssistant:"
  {
    ConversationAppend(history, msg);
    var sep := if history == [] then "" else "\n";
    var c := Conversation(history);
    assert Conversation(history + [msg]) == c + sep + CustomerTag + msg;
    Regroup(ClarificationHead, c, sep, CustomerTag, msg, "\nAssistant:");
  }

  /** Regrouping the pieces of a clarification prompt. */
  lemma Regroup(head: string, c: string, sep: string, tag: string, msg: string, cue: string)
    ensures head + (c + sep + tag + msg) + "\n" + tag + msg + cue ==
            head + c + sep + tag + msg + "\n" + tag + msg + cue
  {
  }
}
