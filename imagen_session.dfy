/**
 * The send cycle of js/imagen.js: the `ImagenManager` reads the input field,
 * records the user's message, opens a model message, and after the call
 * settles appends either the generated image or an error line to it and
 * seals it. `ChatManager` is reduced to what this file relies on: a
 * transcript and the single "currently streaming" slot.
 */
module ImagenSession {
  import opened Wrappers
  import opened JsText
  import opened ImagenApi
  import ImagenConfig

  datatype Role = User | Model

  /** What a message displays: a text fragment, or an image container whose `img` has the given `src`. */
  datatype Artifact = TextFragment(text: string) | ImageContainer(src: string)

  /** A transcript entry; `sealed` is false only while the message is the one being streamed into. */
  datatype Message = Message(role: Role, artifacts: seq<Artifact>, sealed: bool)

  const PngDataUrlPrefix := "data:image/png;base64,"
  const ErrorPrefix := "Error: "

  /** The `src` of a generated image: a base64 PNG data URL (RFC 2397) holding `base64Data`. */
  function ImageSrc(base64Data: string): (src: string)
    ensures |src| == |PngDataUrlPrefix| + |base64Data|
    ensures src[..|PngDataUrlPrefix|] == PngDataUrlPrefix
  {
    PngDataUrlPrefix + base64Data
  }

  /** The base64 payload of a PNG data URL, or None for any other text. */
  function DataUrlPayload(src: string): Option<string> {
    if |src| >= |PngDataUrlPrefix| && src[..|PngDataUrlPrefix|] == PngDataUrlPrefix
    then Some(src[|PngDataUrlPrefix|..])
    else None
  }

  /** The data URL round-trips: the payload read back from an image's `src` is the data it was built from. */
  lemma DataUrlRoundTrip(base64Data: string)
    ensures DataUrlPayload(ImageSrc(base64Data)) == Some(base64Data)
  {
    assert ImageSrc(base64Data)[|PngDataUrlPrefix|..] == base64Data;
  }

  /**
   * The one artifact a send cycle adds to the model message: the image for
   * data, or the text "Error: " followed by the error's message.
   */
  function ReplyArtifact(result: Result<string, string>): (a: Artifact)
    ensures a.ImageContainer? <==> result.Success?
    ensures result.Success? ==> DataUrlPayload(a.src) == Some(result.value)
    ensures result.Failure? ==> |a.text| >= |ErrorPrefix| && a.text[..|ErrorPrefix|] == ErrorPrefix && a.text[|ErrorPrefix|..] == result.error
  {
    match result
    case Success(data) =>
      DataUrlRoundTrip(data);
      ImageContainer(ImageSrc(data))
    case Failure(message) =>
      var text := ErrorPrefix + message;
      assert text[|ErrorPrefix|..] == message;
      TextFragment(text)
  }

  /** The transcript and the single streaming slot that js/imagen.js drives. */
  class ChatManager {
    var messages: seq<Message>
    /** `currentStreamingMessage`, as the index of that message in the transcript. */
    var streaming: Option<nat>

    /** The slot, when full, points at an unsealed model message, and every other message is sealed. */
    ghost predicate Valid()
      reads this
    {
      && (streaming.Some? ==>
            streaming.value < |messages| && messages[streaming.value].role == Model && !messages[streaming.value].sealed)
      && (forall i :: 0 <= i < |messages| && streaming != Some(i) ==> messages[i].sealed)
    }

    /** `currentStreamingMessage` is truthy. */
    predicate IsStreaming()
      reads this
    {
      streaming.Some?
    }

    constructor ()
      ensures Valid() && messages == [] && streaming == None
    {
      messages := [];
      streaming := None;
    }

    /** `addUserMessage(text)`: appends a sealed user message holding the text; the slot is untouched. */
    method AddUserMessage(text: string)
      requires Valid()
      modifies this
      ensures Valid()
      ensures messages == old(messages) + [Message(User, [TextFragment(text)], true)]
      ensures streaming == old(streaming)
    {
      messages := messages + [Message(User, [TextFragment(text)], true)];
    }

    /** `startModelMessage()`: opens an empty model message in the slot; a message already open is reused. */
    method StartModelMessage()
      requires Valid()
      modifies this
      ensures Valid() && streaming.Some?
      ensures old(streaming).Some? ==> messages == old(messages) && streaming == old(streaming)
      ensures old(streaming).None? ==>
        messages == old(messages) + [Message(Model, [], false)] && streaming == Some(|old(messages)|)
    {
      if streaming.None? {
        messages := messages + [Message(Model, [], false)];
        streaming := Some(|messages| - 1);
      }
    }

    /** `currentStreamingMessage.appendChild(a)`: adds one artifact at the end of the open message. */
    method AppendToStreamingMessage(a: Artifact)
      requires Valid() && streaming.Some?
      modifies this
      ensures Valid() && streaming == old(streaming)
      ensures |messages| == |old(messages)|
      ensures var k := streaming.value;
        messages == old(messages)[k := old(messages)[k].(artifacts := old(messages)[k].artifacts + [a])]
    {
      var k := streaming.value;
      messages := messages[k := messages[k].(artifacts := messages[k].artifacts + [a])];
    }

    /** `updateStreamingMessage(text)`: adds one text fragment to the open message. */
    method UpdateStreamingMessage(text: string)
      requires Valid() && streaming.Some?
      modifies this
      ensures Valid() && streaming == old(streaming)
      ensures var k := streaming.value;
        messages == old(messages)[k := old(messages)[k].(artifacts := old(messages)[k].artifacts + [TextFragment(text)])]
    {
      AppendToStreamingMessage(TextFragment(text));
    }

    /** `finalizeStreamingMessage()`: seals the open message and empties the slot; with the slot empty it changes nothing. */
    method FinalizeStreamingMessage()
      requires Valid()
      modifies this
      ensures Valid() && streaming == None
      ensures old(streaming).None? ==> messages == old(messages)
      ensures old(streaming).Some? ==>
        var k := old(streaming).value;
        messages == old(messages)[k := old(messages)[k].(sealed := true)]
    {
      if streaming.Some? {
        var k := streaming.value;
        messages := messages[k := messages[k].(sealed := true)];
        streaming := None;
      }
    }
  }

  /** The state the page is in when `generateImage` is awaited. */
  datatype Snapshot = Snapshot(inputValue: string, messages: seq<Message>, streaming: Option<nat>)

  class ImagenManager {
    const chat: ChatManager
    /** `localStorage.getItem('apiKey')`, read once at construction. */
    const apiKey: Option<string>
    /** `messageInput.value`, written by the user between send cycles. */
    var inputValue: string

    /** Between send cycles no message is open. */
    ghost predicate Valid()
      reads this, chat
    {
      chat.Valid() && chat.streaming.None?
    }

    constructor (storage: ImagenConfig.Storage)
      ensures Valid() && fresh(chat)
      ensures chat.messages == [] && inputValue == ""
      ensures apiKey == ImagenConfig.GetItem(storage, "apiKey")
    {
      chat := new ChatManager();
      apiKey := ImagenConfig.GetItem(storage, "apiKey");
      inputValue := "";
    }

    /**
     * `displayGeneratedImage(base64Data)`: appends an image container showing
     * the data to the open model message, opening one first if none is open.
     */
    method DisplayGeneratedImage(base64Data: string)
      requires chat.Valid()
      modifies chat
      ensures chat.Valid() && chat.streaming.Some?
      ensures old(chat.streaming).Some? ==>
        var k := old(chat.streaming).value;
        && chat.streaming == old(chat.streaming)
        && chat.messages == old(chat.messages)[k := old(chat.messages)[k].(artifacts := old(chat.messages)[k].artifacts + [ImageContainer(ImageSrc(base64Data))])]
      ensures old(chat.streaming).None? ==>
        && chat.streaming == Some(|old(chat.messages)|)
        && chat.messages == old(chat.messages) + [Message(Model, [ImageContainer(ImageSrc(base64Data))], false)]
    {
      var container := ImageContainer(ImageSrc(base64Data));
      if chat.IsStreaming() {
        chat.AppendToStreamingMessage(container);
      } else {
        chat.StartModelMessage();
        chat.AppendToStreamingMessage(container);
        assert Message(Model, [], false).(artifacts := [] + [container]) == Message(Model, [container], false);
        ReplaceLast(old(chat.messages), Message(Model, [], false), Message(Model, [container], false));
      }
    }

    /**
     * `handleSendMessage()`, with the settled `fetch` as the input `outcome`.
     * Input that trims to nothing changes nothing. Otherwise the field is
     * cleared and the user message and an open model message are in the
     * transcript by the time the request (returned as `call`) is sent; the
     * cycle ends with exactly one sealed model message holding the image or
     * the error line, and no message open.
     */
    method HandleSendMessage(outcome: HttpOutcome) returns (call: Option<ImageCall>, ghost atCall: Option<Snapshot>)
      requires Valid()
      modifies this, chat
      ensures Valid()
      ensures Trim(old(inputValue)) == [] ==>
        && call == None && atCall == None
        && inputValue == old(inputValue) && chat.messages == old(chat.messages)
      ensures var m := Trim(old(inputValue));
        var user := Message(User, [TextFragment(m)], true);
        m != [] ==>
        && call == Some(ImageCall(RequestUrl(apiKey), ImageRequestFor(m)))
        && atCall == Some(Snapshot("", old(chat.messages) + [user] + [Message(Model, [], false)], Some(|old(chat.messages)| + 1)))
        && inputValue == ""
        && chat.messages == old(chat.messages) + [user] + [Message(Model, [ReplyArtifact(GenerateImage(outcome))], true)]
    {
      var message := Trim(inputValue);
      if message == [] {
        return None, None;
      }
      var c;
      ghost var snapshot;
      c, snapshot := Send(message, outcome);
      call, atCall := Some(c), Some(snapshot);
    }

    /** One send cycle for non-blank text `message`, from clearing the field to sealing the reply. */
    method Send(message: string, outcome: HttpOutcome) returns (call: ImageCall, ghost atCall: Snapshot)
      requires Valid()
      modifies this, chat
      ensures Valid() && inputValue == ""
      ensures call == ImageCall(RequestUrl(apiKey), ImageRequestFor(message))
      ensures var user := Message(User, [TextFragment(message)], true);
        && atCall == Snapshot("", old(chat.messages) + [user] + [Message(Model, [], false)], Some(|old(chat.messages)| + 1))
        && chat.messages == old(chat.messages) + [user] + [Message(Model, [ReplyArtifact(GenerateImage(outcome))], true)]
    {
      ghost var withUser := chat.messages + [Message(User, [TextFragment(message)], true)];
      ghost var open := Message(Model, [], false);
      var request := BeginSend(message);
      call := request.value;
      atCall := Snapshot(inputValue, chat.messages, chat.streaming);
      var result := GenerateImage(outcome);
      assert chat.messages == withUser + [open] && chat.streaming == Some(|withUser|);
      assert (withUser + [open])[|withUser|] == open;
      SettleSend(result);
      SealedReply(withUser, ReplyArtifact(result));
    }

    /**
     * The synchronous part of a send with non-blank text: the field is
     * cleared, the user message is recorded, a model message is opened, and
     * the request for the text is built.
     */
    method BeginSend(message: string) returns (call: Option<ImageCall>)
      requires Valid()
      modifies this, chat
      ensures chat.Valid() && inputValue == ""
      ensures call == Some(ImageCall(RequestUrl(apiKey), ImageRequestFor(message)))
      ensures chat.messages == old(chat.messages) + [Message(User, [TextFragment(message)], true)] + [Message(Model, [], false)]
      ensures chat.streaming == Some(|old(chat.messages)| + 1)
    {
      inputValue := "";
      chat.AddUserMessage(message);
      chat.StartModelMessage();
      call := Some(ImageCall(RequestUrl(apiKey), ImageRequestFor(message)));
    }

    /**
     * The `try`/`catch`/`finally` around the awaited call: the image on
     * success, or one "Error: " line on failure, goes into the open message,
     * which is then sealed and leaves the slot empty on both paths.
     */
    method SettleSend(result: Result<string, string>)
      requires chat.Valid() && chat.streaming.Some?
      modifies chat
      ensures chat.Valid() && chat.streaming == None
      ensures var k := old(chat.streaming).value;
        chat.messages == old(chat.messages)[k := old(chat.messages)[k].(artifacts := old(chat.messages)[k].artifacts + [ReplyArtifact(result)], sealed := true)]
    {
      match result {
        case Success(imageData) =>
          DisplayGeneratedImage(imageData);
        case Failure(error) =>
          chat.UpdateStreamingMessage(ErrorPrefix + error);
      }
      chat.FinalizeStreamingMessage();
    }
  }

  /** Filling and sealing the empty model message at the end of a transcript. */
  lemma SealedReply(s: seq<Message>, a: Artifact)
    ensures var open := Message(Model, [], false);
      (s + [open])[|s| := open.(artifacts := open.artifacts + [a], sealed := true)] == s + [Message(Model, [a], true)]
  {
    var open := Message(Model, [], false);
    assert open.(artifacts := open.artifacts + [a], sealed := true) == Message(Model, [a], true);
    ReplaceLast(s, open, Message(Model, [a], true));
  }

  lemma ReplaceLast(s: seq<Message>, x: Message, y: Message)
    ensures (s + [x])[|s| := y] == s + [y]
  {
  }
}
