/** The browser client: it accumulates the transcript that the relay streams
    back, asks the server to translate each finished utterance, and guards the
    audio it sends. React state and refs are the fields of `App`; each event
    handler is one method. The pure reducer `Receive` is the specification of
    the socket's message handler. */
module Client {
  import opened Common

  /** A message from the relay, after `JSON.parse`: an utterance end, a
      recognition result (its first alternative), or anything else. */
  datatype ServerMessage =
    | UtteranceEnd
    | Results(transcript: string, confidence: real, isFinal: bool)
    | OtherMessage

  /** The state the message handler works on: the committed transcript lines,
      the interim line and its confidence, and the text awaiting translation
      (`translateInput.current`). */
  datatype Transcript = Transcript(output: seq<string>, interim: string, confidence: real, input: string)

  /** The body of a POST to `/api/translate`. */
  datatype TranslateRequest = TranslateRequest(language: string, text: string)

  /** The socket's message handler, as a function of the state it reads. */
  function Receive(t: Transcript, m: ServerMessage): (r: Transcript)
    ensures t.output <= r.output && |r.output| <= |t.output| + 1
  {
    match m
    case UtteranceEnd => Transcript(t.output + ["\n"], "", 0.0, "")
    case Results(transcript, confidence, isFinal) =>
      if transcript == "" then t
      else if isFinal then Transcript(t.output + [transcript], "", 0.0, t.input + " " + transcript)
      else t.(interim := transcript, confidence := confidence)
    case OtherMessage => t
  }

  /** The request `translate()` issues for the pending input, if any: none
      when the input or the target language is empty. */
  function Request(input: string, language: string): (r: Option<TranslateRequest>)
    ensures r.Some? <==> input != "" && language != ""
    ensures r.Some? ==> r.value.text == input && r.value.language == language
  {
    if input == "" || language == "" then None else Some(TranslateRequest(language, input))
  }

  function AsSeq<T>(o: Option<T>): seq<T>
  {
    if o.Some? then [o.value] else []
  }

  /** The requests one message issues: only an utterance end translates, and
      it does so with the input as it was before the handler reset it. */
  function Issued(t: Transcript, m: ServerMessage, language: string): seq<TranslateRequest>
  {
    if m.UtteranceEnd? then AsSeq(Request(t.input, language)) else []
  }

  /** The state after a series of messages, with the target language fixed,
      and the requests they issued, in order. */
  function Run(t: Transcript, ms: seq<ServerMessage>, language: string): (r: (Transcript, seq<TranslateRequest>))
    ensures |r.1| <= |ms|
    ensures forall i :: 0 <= i < |r.1| ==> r.1[i].text != "" && r.1[i].language == language
    decreases |ms|
  {
    if ms == [] then (t, [])
    else
      var rest := Run(Receive(t, ms[0]), ms[1..], language);
      (rest.0, Issued(t, ms[0], language) + rest.1)
  }

  /** What a message adds to the committed transcript. */
  function CommittedBy(m: ServerMessage): seq<string>
  {
    match m
    case UtteranceEnd => ["\n"]
    case Results(transcript, _, isFinal) => if transcript != "" && isFinal then [transcript] else []
    case OtherMessage => []
  }

  /** What a series of messages adds to the committed transcript. */
  function Committed(ms: seq<ServerMessage>): seq<string>
  {
    if ms == [] then [] else CommittedBy(ms[0]) + Committed(ms[1..])
  }

  /** The recognised speech a message carries: a final, non-empty result,
      preceded by a space. */
  function SpokenBy(m: ServerMessage): string
  {
    if m.Results? && m.transcript != "" && m.isFinal then " " + m.transcript else ""
  }

  /** The recognised speech in a series of messages. */
  function Spoken(ms: seq<ServerMessage>): string
  {
    if ms == [] then "" else SpokenBy(ms[0]) + Spoken(ms[1..])
  }

  /** The texts of a series of requests, concatenated. */
  function Texts(rs: seq<TranslateRequest>): string
  {
    if rs == [] then "" else rs[0].text + Texts(rs[1..])
  }

  /** What each kind of message does: an interim result sets the interim
      line and its confidence and leaves the rest alone; a final result or an
      utterance end clears them; a final result extends the pending input and
      an utterance end discards it, whether or not a language is selected; an
      empty result or an unknown message changes nothing. */
  lemma ReceiveFrame(t: Transcript, m: ServerMessage)
    ensures m.Results? && !m.isFinal ==>
      Receive(t, m).output == t.output && Receive(t, m).input == t.input
    ensures m.Results? && m.transcript != "" && !m.isFinal ==>
      Receive(t, m).interim == m.transcript && Receive(t, m).confidence == m.confidence
    ensures (m.UtteranceEnd? || (m.Results? && m.transcript != "" && m.isFinal)) ==>
      Receive(t, m).interim == "" && Receive(t, m).confidence == 0.0
    ensures m.UtteranceEnd? ==> Receive(t, m).input == ""
    ensures m.Results? && m.transcript != "" && m.isFinal ==> Receive(t, m).input == t.input + " " + m.transcript
    ensures (m.Results? && m.transcript == "") || m.OtherMessage? ==> Receive(t, m) == t
  {
  }

  lemma {:induction false} TextsAppendNil(a: seq<TranslateRequest>, b: seq<TranslateRequest>)
    requires a == []
    ensures Texts(a + b) == Texts(a) + Texts(b)
  {
    assert a + b == b;
  }

  lemma {:induction false} TextsAppendCons(a: seq<TranslateRequest>, b: seq<TranslateRequest>)
    requires a != [] && Texts(a[1..] + b) == Texts(a[1..]) + Texts(b)
    ensures Texts(a + b) == Texts(a) + Texts(b)
  {
    var ab := a + b;
    assert ab != [] && ab[0] == a[0] && ab[1..] == a[1..] + b;
    calc {
      Texts(ab);
      a[0].text + Texts(a[1..] + b);
      a[0].text + (Texts(a[1..]) + Texts(b));
      { Associative(a[0].text, Texts(a[1..]), Texts(b)); }
      Texts(a) + Texts(b);
    }
  }

  lemma {:induction false} Associative(x: string, y: string, z: string)
    ensures x + (y + z) == (x + y) + z
  {
  }

  lemma {:induction false} TextsAppend(a: seq<TranslateRequest>, b: seq<TranslateRequest>)
    ensures Texts(a + b) == Texts(a) + Texts(b)
  {
    if a == [] {
      TextsAppendNil(a, b);
    } else {
      TextsAppend(a[1..], b);
      TextsAppendCons(a, b);
    }
  }

  /** Each committed line is displayed exactly once and in order: the
      transcript after a series of messages is the old one followed by what
      each message committed. */
  lemma {:induction false} RunCommits(t: Transcript, ms: seq<ServerMessage>, language: string)
    ensures Run(t, ms, language).0.output == t.output + Committed(ms)
    decreases |ms|
  {
    if ms != [] {
      RunCommits(Receive(t, ms[0]), ms[1..], language);
    }
  }

  /** No recognised speech is lost or sent twice while a target language is
      selected: the texts of the requests issued, followed by the input still
      pending, are the pending input at the start followed by all the speech
      recognised since. */
  lemma {:induction false} RunTranslatesAllSpeech(t: Transcript, ms: seq<ServerMessage>, language: string)
    requires language != ""
    ensures Texts(Run(t, ms, language).1) + Run(t, ms, language).0.input == t.input + Spoken(ms)
    decreases |ms|
  {
    if ms != [] {
      var m, t' := ms[0], Receive(t, ms[0]);
      var issued, rest := Issued(t, m, language), Run(t', ms[1..], language);
      RunTranslatesAllSpeech(t', ms[1..], language);
      TextsAppend(issued, rest.1);
      StepTranslatesSpeech(t, m, language);
      assert Run(t, ms, language) == (rest.0, issued + rest.1);
      assert Spoken(ms) == SpokenBy(m) + Spoken(ms[1..]);
      Regroup(Texts(issued), Texts(rest.1), rest.0.input, t'.input, Spoken(ms[1..]), t.input, SpokenBy(m));
    }
  }

  /** Concatenation regrouped: the arithmetic step of the proof above. */
  lemma {:induction false} Regroup(i: string, r: string, x: string, p: string, s: string, t: string, h: string)
    requires r + x == p + s && i + p == t + h
    ensures (i + r) + x == t + (h + s)
  {
    calc {
      (i + r) + x;
      i + (r + x);
      i + (p + s);
      (i + p) + s;
      (t + h) + s;
    }
  }

  /** One message, with a target language selected: what it sends for
      translation, followed by what stays pending, is what was pending
      followed by the speech it carries. */
  lemma {:induction false} StepTranslatesSpeech(t: Transcript, m: ServerMessage, language: string)
    requires language != ""
    ensures Texts(Issued(t, m, language)) + Receive(t, m).input == t.input + SpokenBy(m)
  {
    if m.UtteranceEnd? && t.input != "" {
      assert Issued(t, m, language) == [TranslateRequest(language, t.input)];
    }
  }

  /** Without a target language no request is ever issued. */
  lemma {:induction false} RunWithoutLanguage(t: Transcript, ms: seq<ServerMessage>)
    ensures Run(t, ms, "").1 == []
    decreases |ms|
  {
    if ms != [] {
      RunWithoutLanguage(Receive(t, ms[0]), ms[1..]);
    }
  }

  /** `micRef.current`: no recorder, or a `MediaRecorder` that is paused or
      recording. */
  datatype Microphone = NoMicrophone | Recorder(paused: bool)

  class App {
    var outputTranscript: seq<string>
    var interimTranscript: string
    var interimConfidence: real
    var translateInput: string
    var targetLanguage: string
    var translatedTranscript: seq<string>
    var recordingState: bool
    var micDisabled: bool
    var mic: Microphone
    var socketState: ReadyState
    /** Every translation request issued, in order. */
    var requests: seq<TranslateRequest>
    /** Every audio blob sent over the socket, in order. */
    var sentAudio: seq<Bytes>

    /** The part of the state the message handler works on. */
    function View(): Transcript
      reads this
    {
      Transcript(outputTranscript, interimTranscript, interimConfidence, translateInput)
    }

    /** The first render, with the socket still connecting. */
    constructor ()
      ensures View() == Transcript([], "", 0.0, "")
      ensures targetLanguage == "" && translatedTranscript == [] && !recordingState && micDisabled
      ensures mic == NoMicrophone && socketState == CONNECTING && requests == [] && sentAudio == []
    {
      outputTranscript, interimTranscript, interimConfidence, translateInput := [], "", 0.0, "";
      targetLanguage, translatedTranscript := "", [];
      recordingState, micDisabled, mic := false, true, NoMicrophone;
      socketState, requests, sentAudio := CONNECTING, [], [];
    }

    /** `updateTargetLanguage(item)` */
    method SelectLanguage(name: string)
      modifies this
      ensures targetLanguage == name
      ensures View() == old(View()) && translatedTranscript == old(translatedTranscript)
      ensures recordingState == old(recordingState) && micDisabled == old(micDisabled) && mic == old(mic)
      ensures socketState == old(socketState) && requests == old(requests) && sentAudio == old(sentAudio)
    {
      targetLanguage := name;
    }

    /** The socket's "open" handler; `granted` says whether the microphone was
        obtained. The recorder starts and is paused at once. */
    method OnSocketOpen(granted: bool)
      modifies this
      ensures socketState == OPEN
      ensures granted ==> mic == Recorder(true) && !micDisabled
      ensures !granted ==> mic == old(mic) && micDisabled == old(micDisabled)
      ensures View() == old(View()) && targetLanguage == old(targetLanguage)
      ensures translatedTranscript == old(translatedTranscript) && recordingState == old(recordingState)
      ensures requests == old(requests) && sentAudio == old(sentAudio)
    {
      socketState := OPEN;
      if granted {
        mic := Recorder(true);
        micDisabled := false;
      }
    }

    /** The socket's "close" handler. Without a recorder, `micRef.current.stop()`
        throws and the handler changes nothing further. */
    method OnSocketClose()
      modifies this
      ensures socketState == CLOSED
      ensures old(mic).Recorder? ==> mic == NoMicrophone && !recordingState && micDisabled
      ensures old(mic) == NoMicrophone ==>
        mic == NoMicrophone && recordingState == old(recordingState) && micDisabled == old(micDisabled)
      ensures View() == old(View()) && targetLanguage == old(targetLanguage)
      ensures translatedTranscript == old(translatedTranscript)
      ensures requests == old(requests) && sentAudio == old(sentAudio)
    {
      socketState := CLOSED;
      if mic.Recorder? {
        mic := NoMicrophone;
        recordingState := false;
        micDisabled := true;
      }
    }

    /** `translate()`: issue a request for the pending input unless the input
        or the target language is empty. The response arrives later, through
        `OnTranslateResponse`. */
    method Translate()
      modifies this`requests
      ensures requests == old(requests) + AsSeq(Request(translateInput, targetLanguage))
    {
      if translateInput == "" || targetLanguage == "" {
        return;
      }
      requests := requests + [TranslateRequest(targetLanguage, translateInput)];
    }

    /** The socket's "message" handler. */
    method OnMessage(m: ServerMessage)
      modifies this
      ensures View() == Receive(old(View()), m)
      ensures requests == old(requests) + Issued(old(View()), m, targetLanguage)
      ensures targetLanguage == old(targetLanguage) && translatedTranscript == old(translatedTranscript)
      ensures recordingState == old(recordingState) && micDisabled == old(micDisabled) && mic == old(mic)
      ensures socketState == old(socketState) && sentAudio == old(sentAudio)
    {
      match m
      case UtteranceEnd =>
        Translate();
        translateInput := "";
        outputTranscript := outputTranscript + ["\n"];
        interimTranscript := "";
        interimConfidence := 0.0;
      case Results(transcript, confidence, isFinal) =>
        if transcript != "" {
          if isFinal {
            translateInput := translateInput + " " + transcript;
            outputTranscript := outputTranscript + [transcript];
            interimTranscript := "";
            interimConfidence := 0.0;
          } else {
            interimTranscript := transcript;
            interimConfidence := confidence;
          }
        }
      case OtherMessage =>
    }

    /** The response to an earlier request: its text is shown only when the
        status is 200. */
    method OnTranslateResponse(status: int, body: string)
      modifies this
      ensures translatedTranscript == old(translatedTranscript) + (if status == 200 then [body] else [])
      ensures View() == old(View()) && targetLanguage == old(targetLanguage)
      ensures recordingState == old(recordingState) && micDisabled == old(micDisabled) && mic == old(mic)
      ensures socketState == old(socketState) && requests == old(requests) && sentAudio == old(sentAudio)
    {
      if status == 200 {
        translatedTranscript := translatedTranscript + [body];
      }
    }

    /** `microphone.ondataavailable`: a blob is sent only if it is non-empty
        and the socket is open. */
    method OnDataAvailable(blob: Bytes)
      modifies this
      ensures sentAudio == old(sentAudio) + (if |blob| > 0 && socketState == OPEN then [blob] else [])
      ensures View() == old(View()) && targetLanguage == old(targetLanguage)
      ensures translatedTranscript == old(translatedTranscript) && recordingState == old(recordingState)
      ensures micDisabled == old(micDisabled) && mic == old(mic)
      ensures socketState == old(socketState) && requests == old(requests)
    {
      if |blob| > 0 && socketState == OPEN {
        sentAudio := sentAudio + [blob];
      }
    }

    /** `toggleRecording()`: without a recorder nothing happens; otherwise the
        recorder is resumed or paused and the recording flag flips with it. */
    method ToggleRecording()
      modifies this
      ensures old(mic) == NoMicrophone ==> mic == NoMicrophone && recordingState == old(recordingState)
      ensures old(mic).Recorder? ==> recordingState == !old(recordingState) && mic == Recorder(!recordingState)
      ensures View() == old(View()) && targetLanguage == old(targetLanguage)
      ensures translatedTranscript == old(translatedTranscript) && micDisabled == old(micDisabled)
      ensures socketState == old(socketState) && requests == old(requests) && sentAudio == old(sentAudio)
    {
      if mic == NoMicrophone {
        return;
      }
      if !recordingState {
        mic := Recorder(false);
        recordingState := true;
      } else {
        mic := Recorder(true);
        recordingState := false;
      }
    }

    /** The "Clear Transcript" button: both transcripts and the interim line
        are emptied; the input awaiting translation is kept. */
    method Clear()
      modifies this
      ensures translatedTranscript == [] && outputTranscript == []
      ensures interimTranscript == "" && interimConfidence == 0.0
      ensures translateInput == old(translateInput) && targetLanguage == old(targetLanguage)
      ensures recordingState == old(recordingState) && micDisabled == old(micDisabled) && mic == old(mic)
      ensures socketState == old(socketState) && requests == old(requests) && sentAudio == old(sentAudio)
    {
      translatedTranscript := [];
      outputTranscript := [];
      interimTranscript := "";
      interimConfidence := 0.0;
    }
  }

  /** Two final results and an utterance end: the request carries both, each
      after a space, and the pending input is emptied. */
  method ScenarioUtterance()
  {
    var app := new App();
    app.SelectLanguage("French");
    app.OnMessage(Results("hel", 0.5, false));
    app.OnMessage(Results("hello", 0.9, true));
    assert app.translateInput == " hello";
    app.OnMessage(Results("world", 0.8, true));
    assert app.translateInput == " hello world";
    app.OnMessage(UtteranceEnd);
    assert app.requests == [TranslateRequest("French", " hello world")];
    assert app.outputTranscript == ["hello", "world", "\n"] && app.translateInput == "";
    app.OnTranslateResponse(500, "oops");
    app.OnTranslateResponse(200, "bonjour le monde");
    assert app.translatedTranscript == ["bonjour le monde"];
  }
}
