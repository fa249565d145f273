/**
 * app/chatbot.py: `chat_with_gpt`. The emotion classifier, the two
 * retrievers and the chat-completion call are parameters; what remains is the
 * choice of safety note and the construction of the four-message prompt.
 */
module Chatbot {
  import opened Text
  import EmotionDetection

  datatype Role = System | User

  datatype Message = Message(role: Role, content: string)

  /** The arguments of `client.chat.completions.create`. */
  datatype CompletionRequest = CompletionRequest(model: string, messages: seq<Message>, maxTokens: nat, temperature: real)

  /** What `chat_with_gpt` returns: the reply, or with `return_meta` the triple `(reply, emotion, suicide_flag)`. */
  datatype ChatResult =
    | Reply(reply: string)
    | ReplyWithMeta(reply: string, emotion: string, suicideFlag: bool)

  /** `detect_emotion`: a label and its score. */
  type Classifier = string -> (string, real)

  /** A retriever queried with the user message: `search_chat_memory` or `search_similar_chunks`. */
  type Retriever = string -> seq<string>

  type Completion = CompletionRequest -> string

  const Persona := "You are a gentle psychological assistant. Use context and memory to help the user calmly."
  const MemoryPrefix := "User memory:\n"
  const InfoPrefix := "Relevant psychological info:\n"
  const Separator := "\n\n"
  const CompletionModel := "gpt-3.5-turbo"
  const MaxReplyTokens: nat := 50
  const Temperature: real := 0.7

  /** The warning sign that opens the crisis note. */
  const WarningSign := "\U{26A0}\U{FE0F}"

  /** Four lines: the warning, the invitation, and two helplines. */
  const CrisisNote := WarningSign + " It sounds like you're really struggling. You're not alone.\nPlease consider talking to someone:\n- https://findahelpline.com/\n- 113 Zelfmoordpreventie (NL): 0800-0113"

  /** The emotions that get an empathy line. */
  const EmpathyEmotions: seq<string> := ["sadness", "fear"]

  function EmpathyNote(emotion: string): string {
    "\U{1F9E1} I hear you're feeling " + emotion + ". I'm here for you."
  }

  /** The safety note appended to the user message. */
  function SafetyNote(emotion: string, suicideFlag: bool): string {
    if suicideFlag then CrisisNote
    else if emotion in EmpathyEmotions then EmpathyNote(emotion)
    else ""
  }

  /**
   * The crisis flag wins whatever the emotion; without it, sadness and fear
   * get an empathy line that names the emotion and is not the crisis text; any
   * other emotion gets no note.
   */
  lemma SafetyNoteCases(emotion: string, suicideFlag: bool)
    ensures suicideFlag ==> SafetyNote(emotion, suicideFlag) == CrisisNote
    ensures SafetyNote(emotion, suicideFlag) != "" <==> suicideFlag || emotion == "sadness" || emotion == "fear"
    ensures !suicideFlag && emotion in EmpathyEmotions ==>
              && Contains(SafetyNote(emotion, suicideFlag), emotion)
              && SafetyNote(emotion, suicideFlag) != CrisisNote
  {
    if !suicideFlag && emotion in EmpathyEmotions {
      var lead := "\U{1F9E1} I hear you're feeling ";
      var note := EmpathyNote(emotion);
      assert note == lead + emotion + ". I'm here for you.";
      assert OccursAt(emotion, emotion, 0);
      ContainsInContext(lead, emotion, ". I'm here for you.", emotion);
      assert note[0] == '\U{1F9E1}';
      assert CrisisNote[0] == WarningSign[0] == '\U{26A0}';
    }
  }

  lemma CrisisOverridesEmotion(e1: string, e2: string)
    ensures SafetyNote(e1, true) == SafetyNote(e2, true) == CrisisNote
  {
  }

  /** The `messages` list. */
  function BuildMessages(userMessage: string, memoryChunks: seq<string>, infoChunks: seq<string>, note: string): seq<Message> {
    [
      Message(System, Persona),
      Message(System, MemoryPrefix + Join(Separator, memoryChunks)),
      Message(System, InfoPrefix + Join(Separator, infoChunks)),
      Message(User, userMessage + Separator + note)
    ]
  }

  /**
   * Three system messages then the user message; after its heading, each
   * context message holds the retrieved chunks joined by blank lines, so every
   * retrieved chunk is quoted there; the user content starts with the
   * message, ends with the note, and keeps the blank line between them even
   * when the note is empty.
   */
  lemma MessagesShape(userMessage: string, memoryChunks: seq<string>, infoChunks: seq<string>, note: string)
    ensures var msgs := BuildMessages(userMessage, memoryChunks, infoChunks, note);
            && |msgs| == 4
            && msgs[0] == Message(System, Persona)
            && msgs[1].role == System && msgs[2].role == System && msgs[3].role == User
            && msgs[1].content[..|MemoryPrefix|] == MemoryPrefix
            && msgs[1].content[|MemoryPrefix|..] == Join(Separator, memoryChunks)
            && msgs[2].content[..|InfoPrefix|] == InfoPrefix
            && msgs[2].content[|InfoPrefix|..] == Join(Separator, infoChunks)
            && (forall i :: 0 <= i < |memoryChunks| ==> Contains(msgs[1].content, memoryChunks[i]))
            && (forall i :: 0 <= i < |infoChunks| ==> Contains(msgs[2].content, infoChunks[i]))
            && msgs[3].content[..|userMessage|] == userMessage
            && msgs[3].content[|userMessage|..|userMessage| + 2] == Separator
            && msgs[3].content[|userMessage| + 2..] == note
  {
    var msgs := BuildMessages(userMessage, memoryChunks, infoChunks, note);
    forall i | 0 <= i < |memoryChunks| ensures Contains(msgs[1].content, memoryChunks[i]) {
      JoinContainsEach(Separator, memoryChunks, i);
      ContainsInContext(MemoryPrefix, Join(Separator, memoryChunks), "", memoryChunks[i]);
      assert MemoryPrefix + Join(Separator, memoryChunks) + "" == msgs[1].content;
    }
    forall i | 0 <= i < |infoChunks| ensures Contains(msgs[2].content, infoChunks[i]) {
      JoinContainsEach(Separator, infoChunks, i);
      ContainsInContext(InfoPrefix, Join(Separator, infoChunks), "", infoChunks[i]);
      assert InfoPrefix + Join(Separator, infoChunks) + "" == msgs[2].content;
    }
  }

  /** The request `chat_with_gpt` sends for `userMessage`. */
  function Request(userMessage: string, classify: Classifier, recallMemory: Retriever, searchCorpus: Retriever): CompletionRequest {
    var emotion := classify(userMessage).0;
    var suicideFlag := EmotionDetection.DetectSuicidalIntent(userMessage);
    var note := SafetyNote(emotion, suicideFlag);
    CompletionRequest(
      CompletionModel,
      BuildMessages(userMessage, recallMemory(userMessage), searchCorpus(userMessage), note),
      MaxReplyTokens,
      Temperature)
  }

  /** `chat_with_gpt(user_message, return_meta)`. */
  function ChatWithGpt(userMessage: string, returnMeta: bool, classify: Classifier,
                       recallMemory: Retriever, searchCorpus: Retriever, complete: Completion): (r: ChatResult)
    ensures r.ReplyWithMeta? <==> returnMeta
    ensures r.reply == [] || (!IsSpace(r.reply[0]) && !IsSpace(r.reply[|r.reply| - 1]))
    ensures exists i :: PaddedAt(complete(Request(userMessage, classify, recallMemory, searchCorpus)), r.reply, i)
    ensures returnMeta ==>
              && r.emotion == classify(userMessage).0
              && r.suicideFlag == EmotionDetection.DetectSuicidalIntent(userMessage)
  {
    var request := Request(userMessage, classify, recallMemory, searchCorpus);
    var reply := Strip(complete(request));
    var result :=
      if returnMeta then
        ReplyWithMeta(reply, classify(userMessage).0, EmotionDetection.DetectSuicidalIntent(userMessage))
      else
        Reply(reply);
    assert result.reply == reply;
    result
  }

  /**
   * The request always asks for at most 50 tokens; the note in the user
   * message comes from the same message's emotion and crisis flag, and the
   * crisis text is used exactly when the keyword detector fires.
   */
  lemma RequestProperties(userMessage: string, classify: Classifier, recallMemory: Retriever, searchCorpus: Retriever)
    ensures var request := Request(userMessage, classify, recallMemory, searchCorpus);
            var flag := EmotionDetection.DetectSuicidalIntent(userMessage);
            && request.maxTokens == MaxReplyTokens
            && request.model == CompletionModel
            && |request.messages| == 4
            && request.messages[3].content == userMessage + Separator + SafetyNote(classify(userMessage).0, flag)
            && (flag ==> request.messages[3].content == userMessage + Separator + CrisisNote)
  {
  }

  /**
   * The note after the user's words depends only on the emotion label and the
   * crisis flag: two messages of any lengths that agree on both get the same note.
   */
  lemma NoteIgnoresMessageLength(m1: string, m2: string, classify: Classifier, recallMemory: Retriever, searchCorpus: Retriever)
    requires classify(m1).0 == classify(m2).0
    requires EmotionDetection.DetectSuicidalIntent(m1) == EmotionDetection.DetectSuicidalIntent(m2)
    ensures var u1 := Request(m1, classify, recallMemory, searchCorpus).messages[3].content;
            var u2 := Request(m2, classify, recallMemory, searchCorpus).messages[3].content;
            u1[|m1| + 2..] == u2[|m2| + 2..]
  {
    var note := SafetyNote(classify(m1).0, EmotionDetection.DetectSuicidalIntent(m1));
    MessagesShape(m1, recallMemory(m1), searchCorpus(m1), note);
    MessagesShape(m2, recallMemory(m2), searchCorpus(m2), note);
  }

  /** `return_meta` only adds metadata: the reply is the same either way. */
  lemma ReturnMetaKeepsReply(userMessage: string, classify: Classifier, recallMemory: Retriever,
                             searchCorpus: Retriever, complete: Completion)
    ensures ChatWithGpt(userMessage, true, classify, recallMemory, searchCorpus, complete).reply
         == ChatWithGpt(userMessage, false, classify, recallMemory, searchCorpus, complete).reply
  {
  }
}
