/**
 The chat controller of components/VoraCompanionProFinal.jsx: the component's
 state (`messages`, `input`, `loading`, `voiceEnabled`, `isListening`) as the
 fields of a class, `sendMessage` as a method whose read loop and per-chunk
 line loop fill the last message in place, and the small flag toggles.

 The two outbound requests are recorded, not performed: `requests` holds the
 `message` bodies posted to the chat endpoint, `spoken` the `text` bodies
 posted to the speech endpoint, `recognizerCalls` the start/stop calls made
 on the browser's speech recognizer. The streamed response body is the
 parameter `chunks` (already-decoded text), and `JSON.parse` with the content
 lookup is the parameter `extract`, as in StreamDecoder.
 */
module Companion {
  import opened JsString
  import opened StreamDecoder

  datatype Sender = User | Vora

  datatype Message = Message(sender: Sender, text: string)

  datatype RecognizerCall = Start | Stop

  /** The list with its last message's text replaced, as `updated[updated.length - 1].text = result` does. */
  function WithLastText(ms: seq<Message>, text: string): (r: seq<Message>)
    requires |ms| > 0
    ensures |r| == |ms| && r[..|ms| - 1] == ms[..|ms| - 1]
    ensures r[|ms| - 1] == Message(ms[|ms| - 1].sender, text)
  {
    ms[|ms| - 1 := ms[|ms| - 1].(text := text)]
  }

  /** Overwriting the last text twice leaves only the second. */
  lemma WithLastTextTwice(ms: seq<Message>, a: string, b: string)
    requires |ms| > 0
    ensures WithLastText(WithLastText(ms, a), b) == WithLastText(ms, b)
  {
  }

  /** Writing one more token into the last message keeps the loop's record of the reply up to date. */
  lemma AccumulateWrite(original: seq<Message>, seen: seq<string>, result: string, writes: seq<string>,
                        messages: seq<Message>, token: string)
    requires |original| > 0
    requires result == Concat(seen) && writes == Snapshots(seen)
    requires messages == WithLastText(original, result)
    ensures result + token == Concat(seen + [token])
    ensures writes + [result + token] == Snapshots(seen + [token])
    ensures |messages| > 0 && WithLastText(messages, result + token) == WithLastText(original, result + token)
  {
    AccumulateStep(seen, token);
    WithLastTextTwice(original, result, result + token);
  }

  /**
   The line loop's count of tokens: those seen so far followed by those the
   remaining lines give are the tokens of the whole run, before and after the
   line at `j` is handled.
   */
  lemma LineLoopAdvance(lines: seq<string>, j: nat, extract: string -> Option<string>,
                        seen: seq<string>, goal: seq<string>)
    requires j < |lines| && seen + LineTokens(lines[j..], extract) == goal
    ensures Classify(lines[j], extract) == Sentinel ==> seen + Emitted(Classify(lines[j], extract)) == goal
    ensures Classify(lines[j], extract) != Sentinel ==>
              (seen + Emitted(Classify(lines[j], extract))) + LineTokens(lines[j + 1..], extract) == goal
  {
    LineTokensStep(lines, j, extract);
    assert seen + [] == seen;
    var emitted, rest := Emitted(Classify(lines[j], extract)), LineTokens(lines[j + 1..], extract);
    assert seen + (emitted + rest) == (seen + emitted) + rest;
  }

  /** The greeting the message list starts with. */
  const Greeting: Message := Message(Vora, "Hello, I\U{2019}m VORA. Ask me anything about NAVORA.")

  class Controller {
    var messages: seq<Message>
    var input: string
    var loading: bool
    var voiceEnabled: bool
    var isListening: bool

    /** Whether `window` exists (the component runs in a browser). */
    const windowDefined: bool
    /** Whether a speech recognizer was created when the component mounted. */
    const recognizerAvailable: bool

    var requests: seq<string>
    var spoken: seq<string>
    var recognizerCalls: seq<RecognizerCall>

    /** The message list is never empty, so its last element always exists. */
    ghost predicate Valid()
      reads this
    {
      |messages| > 0
    }

    /** The component's initial state; the recognizer exists only in a browser that offers one. */
    constructor (windowDefined: bool, hasSpeechRecognition: bool)
      ensures Valid()
      ensures messages == [Greeting] && input == "" && !loading
      ensures voiceEnabled && !isListening
      ensures this.windowDefined == windowDefined
      ensures recognizerAvailable == (windowDefined && hasSpeechRecognition)
      ensures requests == [] && spoken == [] && recognizerCalls == []
    {
      messages := [Greeting];
      input := "";
      loading := false;
      voiceEnabled := true;
      isListening := false;
      this.windowDefined := windowDefined;
      recognizerAvailable := windowDefined && hasSpeechRecognition;
      requests := [];
      spoken := [];
      recognizerCalls := [];
    }

    /** The text field's change handler. */
    method SetInput(value: string)
      modifies this`input
      ensures input == value
    {
      input := value;
    }

    /** The microphone button: stop or start the recognizer if there is one, and flip the flag. */
    method ToggleVoiceInput()
      modifies this`isListening, this`recognizerCalls
      ensures isListening == !old(isListening)
      ensures recognizerCalls ==
              old(recognizerCalls) + if recognizerAvailable then [if old(isListening) then Stop else Start] else []
    {
      if recognizerAvailable {
        if isListening {
          recognizerCalls := recognizerCalls + [Stop];
        } else {
          recognizerCalls := recognizerCalls + [Start];
        }
      }
      isListening := !isListening;
    }

    /** The speaker button. */
    method ToggleVoiceEnabled()
      modifies this`voiceEnabled
      ensures voiceEnabled == !old(voiceEnabled)
    {
      voiceEnabled := !voiceEnabled;
    }

    /** `speak`: the text is posted for synthesis only when voice is on and `window` exists. */
    method Speak(text: string)
      modifies this`spoken
      ensures spoken == old(spoken) + if voiceEnabled && windowDefined then [text] else []
    {
      if !voiceEnabled || !windowDefined {
        return;
      }
      spoken := spoken + [text];
    }

    /**
     The body of the line loop of `sendMessage` for one kept line. `[DONE]`
     asks to leave the loop; a payload that parses extends `result` by its
     token, which is written at once into the last message; a payload whose
     parse throws is skipped. `seen` are the tokens already in `result`, and
     `writes` extends the record of every text written into the last message.
     */
    method ConsumeLine(line: string, extract: string -> Option<string>,
                       ghost original: seq<Message>, ghost seen: seq<string>,
                       resultIn: string, ghost writesIn: seq<string>)
      returns (done: bool, result: string, ghost seenOut: seq<string>, ghost writes: seq<string>)
      requires |original| > 0
      requires resultIn == Concat(seen) && writesIn == Snapshots(seen)
      requires messages == WithLastText(original, resultIn)
      modifies this`messages
      ensures done == (Classify(line, extract) == Sentinel)
      ensures seenOut == seen + Emitted(Classify(line, extract))
      ensures result == Concat(seenOut) && writes == Snapshots(seenOut)
      ensures messages == WithLastText(original, result)
    {
      result, seenOut, writes := resultIn, seen, writesIn;
      assert seen + [] == seen;
      var payload := StripDataPrefix(line);
      if payload == DoneSentinel {
        return true, result, seenOut, writes;
      }
      var parsed := extract(payload);
      if parsed.Some? {
        var token := parsed.value;
        AccumulateWrite(original, seen, result, writes, messages, token);
        result := result + token;
        messages := WithLastText(messages, result);
        seenOut := seen + [token];
        writes := writes + [result];
      }
      done := false;
    }

    /**
     The line loop of `sendMessage` over the kept lines of one chunk: it adds
     exactly that chunk's tokens to `result`, writing each new `result` into
     the last message, and leaves at `[DONE]`. `prior` are the tokens of the
     earlier chunks, already in `result`.
     */
    method ConsumeLines(lines: seq<string>, extract: string -> Option<string>,
                        ghost original: seq<Message>, ghost prior: seq<string>,
                        resultIn: string, ghost writesIn: seq<string>)
      returns (result: string, ghost writes: seq<string>)
      requires |original| > 0
      requires resultIn == Concat(prior) && writesIn == Snapshots(prior)
      requires messages == WithLastText(original, resultIn)
      modifies this`messages
      ensures result == Concat(prior + LineTokens(lines, extract))
      ensures writes == Snapshots(prior + LineTokens(lines, extract))
      ensures messages == WithLastText(original, result)
    {
      result, writes := resultIn, writesIn;
      ghost var seen := prior;
      ghost var goal := prior + LineTokens(lines, extract);
      var j := 0;
      while j < |lines|
        invariant 0 <= j <= |lines|
        invariant seen + LineTokens(lines[j..], extract) == goal
        invariant result == Concat(seen) && writes == Snapshots(seen)
        invariant messages == WithLastText(original, result)
      {
        LineLoopAdvance(lines, j, extract, seen, goal);
        var done;
        done, result, seen, writes := ConsumeLine(lines[j], extract, original, seen, result, writes);
        if done {
          break;
        }
        j := j + 1;
      }
      if j == |lines| {
        assert lines[j..] == [] && seen + [] == seen;
      }
    }

    /**
     The read loop of `sendMessage`: every chunk until the end of the stream
     is split, filtered and handed to the line loop. The last message is the
     empty reply placeholder. On exit `result` is the stream's text, the last
     message holds it, nothing else in the list changes, and `writes` lists
     every text written into the last message, each the accumulator so far.
     */
    method ConsumeStream(chunks: seq<string>, extract: string -> Option<string>)
      returns (result: string, ghost writes: seq<string>)
      requires Valid() && messages[|messages| - 1].text == "" && loading
      modifies this`messages
      ensures result == StreamText(chunks, extract)
      ensures writes == Snapshots(Tokens(chunks, extract))
      ensures messages == WithLastText(old(messages), result)
    {
      ghost var original := messages;
      result := "";
      writes := [];
      assert WithLastText(original, result) == original;
      ghost var tokens: seq<string> := [];
      var i := 0;
      while i < |chunks|
        invariant 0 <= i <= |chunks|
        invariant tokens == Tokens(chunks[..i], extract)
        invariant result == Concat(tokens) && writes == Snapshots(tokens)
        invariant messages == WithLastText(original, result)
      {
        var lines := DataLines(chunks[i]);
        result, writes := ConsumeLines(lines, extract, original, tokens, result, writes);
        TokensStep(chunks, i, extract);
        tokens := tokens + ChunkTokens(chunks[i], extract);
        i := i + 1;
      }
      assert chunks[..|chunks|] == chunks;
    }

    /**
     `sendMessage`. A blank (all-whitespace) input changes nothing and sends
     nothing. Otherwise the trimmed input is appended as a user message and
     posted, the input is cleared, `loading` is set, an empty reply is
     appended and filled from the stream, the reply is handed to `speak`, and
     `loading` is cleared. `writes` lists the texts the reply took on its way,
     one per token (none for a blank input).
     */
    method SendMessage(chunks: seq<string>, extract: string -> Option<string>)
      returns (ghost writes: seq<string>)
      requires Valid()
      modifies this`messages, this`input, this`loading, this`requests, this`spoken
      ensures Valid()
      ensures Trim(old(input)) == "" ==>
                messages == old(messages) && input == old(input) && loading == old(loading)
                && requests == old(requests) && spoken == old(spoken) && writes == []
      ensures Trim(old(input)) != "" ==>
                && writes == Snapshots(Tokens(chunks, extract))
                && messages == old(messages) + [Message(User, Trim(old(input))), Message(Vora, StreamText(chunks, extract))]
                && input == "" && !loading
                && requests == old(requests) + [Trim(old(input))]
                && spoken == old(spoken) + if voiceEnabled && windowDefined then [StreamText(chunks, extract)] else []
    {
      writes := [];
      var text := Trim(input);
      if text == "" {
        return;
      }
      messages := messages + [Message(User, text)];
      input := "";
      loading := true;
      requests := requests + [text];

      messages := messages + [Message(Vora, "")];
      var result;
      result, writes := ConsumeStream(chunks, extract);

      Speak(result);
      loading := false;
    }
  }
}
