/**
 * The assistant chat page: the history kept in local storage, sending a
 * question to the AI function and reading its answer as a stream of
 * server-sent events, and clearing the chat.
 *
 * The answer stream is a sequence of text chunks; each chunk is added to a
 * buffer, and every complete line of the buffer is read as one event line.
 * JSON parsing of the history and of each event payload is a parameter
 * (`deltaOf` gives the payload's `choices[0].delta.content`, or nothing
 * when the payload is not JSON or has no content).
 */
module Assistant {
  import opened Common
  import opened Strings

  datatype Role = UserRole | AssistantRole
  datatype Message = Message(role: Role, content: string, timestamp: Option<int>)

  /** The greeting the chat starts with. */
  const DefaultContent: string :=
    "Dobr\U{00FD} den! \U{1F44B} Jsem AI asistent specializovan\U{00FD} na stroj **Barbieri XRot 95 EVO**.\n\nMohu v\U{00E1}m pomoci s:\n- \U{1F527} Servisn\U{00ED}mi dotazy a intervaly\n- \U{1F4D6} Technickou dokumentac\U{00ED}\n- \U{1F6F0}\U{FE0F} RTK navigac\U{00ED} a kalibrac\U{00ED}\n- \U{1F4CD} Informacemi o are\U{00E1}lech\n- \U{2753} \U{0158}e\U{0161}en\U{00ED}m probl\U{00E9}m\U{016F}\n\nNa co se chcete zeptat?"

  /** The greeting, stamped with the time the page module was loaded. */
  function DefaultMessage(loadedAt: int): Message
  {
    Message(AssistantRole, DefaultContent, Some(loadedAt))
  }

  /** What parsing the stored history gives. */
  datatype Parsed = ParseError | NotAnArray | AnArray(items: seq<Message>)

  /** The history the page starts with: the stored one only when it parses to a non-empty array. */
  function InitialHistory(saved: Option<string>, parse: string -> Parsed, loadedAt: int): (h: seq<Message>)
    ensures |h| >= 1
    ensures TruthyText(saved) && parse(saved.value).AnArray? && |parse(saved.value).items| > 0 ==>
      h == parse(saved.value).items
    ensures !(TruthyText(saved) && parse(saved.value).AnArray? && |parse(saved.value).items| > 0) ==>
      h == [DefaultMessage(loadedAt)]
  {
    if TruthyText(saved) && parse(saved.value).AnArray? && |parse(saved.value).items| > 0
    then parse(saved.value).items
    else [DefaultMessage(loadedAt)]
  }

  // ------------------------------------------------------- event lines

  /** What one line of the event stream asks for. */
  datatype LineAction = Skip | Done | Payload(json: string)

  /** A trailing carriage return is dropped. */
  function StripCR(line: string): (r: string)
    ensures EndsWith(line, "\r") ==> r + "\r" == line
    ensures !EndsWith(line, "\r") ==> r == line
  {
    if EndsWith(line, "\r") then line[..|line| - 1] else line
  }

  /**
   * One line: comments (":"), blank lines and lines other than "data: "
   * are skipped; the payload is the trimmed rest after the 6-character
   * prefix, and "[DONE]" ends the current buffer.
   */
  function Classify(raw: string): LineAction
  {
    var line := StripCR(raw);
    if StartsWith(line, ":") || Trim(line) == "" then Skip
    else if !StartsWith(line, "data: ") then Skip
    else
      var json := Trim(line[6..]);
      if json == "[DONE]" then Done else Payload(json)
  }

  /** Which lines are skipped, which one ends the buffer, and what a payload is. */
  lemma ClassifyMeaning(raw: string)
    ensures var line, a := StripCR(raw), Classify(raw);
      (a.Skip? <==> StartsWith(line, ":") || Trim(line) == "" || !StartsWith(line, "data: "))
      && (a.Done? <==> !a.Skip? && Trim(line[6..]) == "[DONE]")
      && (a.Payload? ==> a.json == Trim(line[6..]) && a.json != "[DONE]")
  {
  }

  /** A data line carries its trimmed payload, whether or not it ends in a carriage return. */
  lemma DataLine(payload: string, cr: bool)
    requires Trim(payload) != "" && Trim(payload) != "[DONE]" && !EndsWith(payload, "\r")
    ensures Classify("data: " + payload + (if cr then "\r" else "")) == Payload(Trim(payload))
  {
    var line := "data: " + payload;
    StripData(payload, cr);
    StripData(payload, false);
    assert line + "" == line;
    ClassifyData(payload);
  }

  lemma StripData(payload: string, cr: bool)
    requires !EndsWith(payload, "\r")
    ensures StripCR("data: " + payload + (if cr then "\r" else "")) == "data: " + payload
  {
    var line := "data: " + payload;
    var raw := line + (if cr then "\r" else "");
    if cr {
      assert raw[..|raw| - 1] == line;
    } else if payload != [] {
      assert raw == line;
      assert raw[|raw| - 1..] == payload[|payload| - 1..];
    } else {
      assert raw == "data: ";
    }
  }

  lemma ClassifyData(payload: string)
    requires Trim(payload) != "" && Trim(payload) != "[DONE]" && !EndsWith(payload, "\r")
    ensures Classify("data: " + payload) == Payload(Trim(payload))
  {
    var line := "data: " + payload;
    DataPrefix(payload);
    NotBlank(line);
  }

  lemma DataPrefix(payload: string)
    requires !EndsWith(payload, "\r")
    ensures var line := "data: " + payload;
      StripCR(line) == line && StartsWith(line, "data: ") && line[6..] == payload && !StartsWith(line, ":")
      && line[0] == 'd'
  {
    var line := "data: " + payload;
    StripData(payload, false);
    assert line + "" == line;
    assert line[..6] == "data: ";
    assert line[0] == 'd';
    assert line[..1] != ":";
  }

  /** A line starting with a letter is not blank. */
  lemma NotBlank(line: string)
    requires line != [] && 'a' <= line[0] <= 'z'
    ensures Trim(line) != ""
  {
    TrimShape(line);
    assert !IsSpace(line[0]);
  }

  /** The result of reading the buffer's complete lines. */
  datatype Drained = Drained(rest: string, content: string, done: bool)

  /** The answer text after one payload: a non-empty delta is appended. */
  function AddDelta(content: string, delta: Option<string>): (r: string)
    ensures TruthyText(delta) ==> r == content + delta.value
    ensures !TruthyText(delta) ==> r == content
  {
    if TruthyText(delta) then content + delta.value else content
  }

  /** The answer text after a line other than "[DONE]". */
  function Advance(content: string, a: LineAction, deltaOf: string -> Option<string>): string
  {
    if a.Payload? then AddDelta(content, deltaOf(a.json)) else content
  }

  /**
   * The inner loop over the buffer: each complete line is taken off the
   * front and acted on, until no newline is left or "[DONE]" is read. The
   * line classification is a parameter, so that what follows holds for any;
   * the page uses `Classify`.
   */
  function Drain(buffer: string, content: string, classify: string -> LineAction, deltaOf: string -> Option<string>): Drained
    decreases |buffer|
  {
    var k := IndexOf(buffer, '\n');
    if k == -1 then Drained(buffer, content, false)
    else
      var rest := buffer[k + 1..];
      var a := classify(buffer[..k]);
      if a.Done? then Drained(rest, content, true)
      else Drain(rest, Advance(content, a, deltaOf), classify, deltaOf)
  }

  /** One complete line taken off the front of the buffer. */
  lemma DrainLine(buffer: string, content: string, classify: string -> LineAction, deltaOf: string -> Option<string>)
    requires IndexOf(buffer, '\n') >= 0
    ensures var k := IndexOf(buffer, '\n'); var rest := buffer[k + 1..]; var a := classify(buffer[..k]);
      Drain(buffer, content, classify, deltaOf)
      == if a.Done? then Drained(rest, content, true) else Drain(rest, Advance(content, a, deltaOf), classify, deltaOf)
  {
  }

  /** Unless "[DONE]" stopped the reading, no complete line is left over. */
  lemma {:induction false} DrainLeavesPartialLine(buffer: string, content: string, classify: string -> LineAction, deltaOf: string -> Option<string>)
    ensures var d := Drain(buffer, content, classify, deltaOf); !d.done ==> '\n' !in d.rest
    decreases |buffer|
  {
    var k := IndexOf(buffer, '\n');
    if k == -1 {
      IndexOfAbsent(buffer, '\n');
      assert Drain(buffer, content, classify, deltaOf) == Drained(buffer, content, false);
    } else {
      var a := classify(buffer[..k]);
      var rest := buffer[k + 1..];
      DrainLine(buffer, content, classify, deltaOf);
      if !a.Done? {
        var next := Advance(content, a, deltaOf);
        assert Drain(buffer, content, classify, deltaOf) == Drain(rest, next, classify, deltaOf);
        DrainLeavesPartialLine(rest, next, classify, deltaOf);
      }
    }
  }

  /** What is kept is the end of the buffer. */
  lemma {:induction false} DrainKeepsSuffix(buffer: string, content: string, classify: string -> LineAction, deltaOf: string -> Option<string>)
    ensures EndsWith(buffer, Drain(buffer, content, classify, deltaOf).rest)
    decreases |buffer|
  {
    var k := IndexOf(buffer, '\n');
    if k != -1 {
      var a := classify(buffer[..k]);
      var rest := buffer[k + 1..];
      DrainLine(buffer, content, classify, deltaOf);
      if !a.Done? {
        var next := Advance(content, a, deltaOf);
        var r := Drain(rest, next, classify, deltaOf).rest;
        DrainKeepsSuffix(rest, next, classify, deltaOf);
        SuffixOfSuffix(buffer, k + 1, |r|);
        assert EndsWith(buffer, r);
      } else {
        SuffixOfSuffix(buffer, k + 1, |rest|);
        assert EndsWith(buffer, rest);
      }
    } else {
      assert EndsWith(buffer, buffer);
    }
  }

  lemma SuffixOfSuffix(s: string, start: nat, n: nat)
    requires start <= |s| && n <= |s| - start
    ensures s[start..][|s| - start - n..] == s[|s| - n..]
  {
  }

  /** The answer only grows: what was read before stays its beginning. */
  lemma {:induction false} DrainExtends(buffer: string, content: string, classify: string -> LineAction, deltaOf: string -> Option<string>)
    ensures StartsWith(Drain(buffer, content, classify, deltaOf).content, content)
    decreases |buffer|
  {
    var k := IndexOf(buffer, '\n');
    if k == -1 {
      assert Drain(buffer, content, classify, deltaOf) == Drained(buffer, content, false);
      assert content[..|content|] == content;
    } else {
      var a := classify(buffer[..k]);
      var rest := buffer[k + 1..];
      DrainLine(buffer, content, classify, deltaOf);
      if a.Done? {
        assert Drain(buffer, content, classify, deltaOf).content == content;
        assert content[..|content|] == content;
      } else {
        var next := Advance(content, a, deltaOf);
        var c := Drain(rest, next, classify, deltaOf).content;
        assert Drain(buffer, content, classify, deltaOf).content == c;
        DrainExtends(rest, next, classify, deltaOf);
        AdvanceExtends(content, a, deltaOf);
        PrefixOfPrefix(c, next, content);
      }
    }
  }

  lemma AdvanceExtends(content: string, a: LineAction, deltaOf: string -> Option<string>)
    ensures StartsWith(Advance(content, a, deltaOf), content)
  {
    var r := Advance(content, a, deltaOf);
    assert r[..|content|] == content;
  }

  lemma PrefixOfPrefix(c: string, next: string, content: string)
    requires StartsWith(c, next) && StartsWith(next, content)
    ensures StartsWith(c, content)
  {
    assert c[..|content|] == next[..|content|];
  }

  /** A buffer without a newline is kept whole for the next chunk. */
  lemma PartialLineKept(buffer: string, content: string, classify: string -> LineAction, deltaOf: string -> Option<string>)
    requires '\n' !in buffer
    ensures Drain(buffer, content, classify, deltaOf) == Drained(buffer, content, false)
  {
  }

  /**
   * Chunk boundaries do not matter: reading `a`, then the kept rest with
   * `b` appended, is reading `a + b` at once, as long as `a` held no
   * "[DONE]".
   */
  lemma {:induction false} ChunksCompose(a: string, b: string, content: string, classify: string -> LineAction, deltaOf: string -> Option<string>)
    requires !Drain(a, content, classify, deltaOf).done
    ensures var d := Drain(a, content, classify, deltaOf);
      Drain(d.rest + b, d.content, classify, deltaOf) == Drain(a + b, content, classify, deltaOf)
    decreases |a|
  {
    var k := IndexOf(a, '\n');
    if k != -1 {
      IndexOfExtend(a, b, '\n');
      var ab := a + b;
      assert ab[..k] == a[..k];
      assert ab[k + 1..] == a[k + 1..] + b;
      var act := classify(a[..k]);
      DrainLine(a, content, classify, deltaOf);
      DrainLine(ab, content, classify, deltaOf);
      ChunksCompose(a[k + 1..], b, Advance(content, act, deltaOf), classify, deltaOf);
    } else {
      assert Drain(a, content, classify, deltaOf) == Drained(a, content, false);
    }
  }

  /** The inner `while` over the buffer, proved to read what `Drain` reads. */
  method DrainBuffer(buffer: string, content: string, classify: string -> LineAction, deltaOf: string -> Option<string>)
    returns (rest: string, text: string, done: bool)
    ensures Drained(rest, text, done) == Drain(buffer, content, classify, deltaOf)
  {
    rest := buffer;
    text := content;
    while true
      invariant Drain(rest, text, classify, deltaOf) == Drain(buffer, content, classify, deltaOf)
      decreases |rest|
    {
      var newlineIndex := IndexOf(rest, '\n');
      if newlineIndex == -1 {
        return rest, text, false;
      }
      var line := rest[..newlineIndex];
      rest := rest[newlineIndex + 1..];
      var action := classify(line);
      if action.Done? {
        return rest, text, true;
      }
      if action.Payload? {
        text := AddDelta(text, deltaOf(action.json));
      }
    }
  }

  /** The outer loop: the state after the first `n` chunks, starting from an empty buffer and answer. */
  function Feed(chunks: seq<string>, n: nat, classify: string -> LineAction, deltaOf: string -> Option<string>): Drained
    requires n <= |chunks|
  {
    if n == 0 then Drained("", "", false)
    else
      var prev := Feed(chunks, n - 1, classify, deltaOf);
      var d := Drain(prev.rest + chunks[n - 1], prev.content, classify, deltaOf);
      Drained(d.rest, d.content, prev.done || d.done)
  }

  function Concat(chunks: seq<string>): string
  {
    if chunks == [] then "" else Concat(chunks[..|chunks| - 1]) + chunks[|chunks| - 1]
  }

  /** Without a "[DONE]", the chunked reading gives the same answer as reading the whole stream at once. */
  lemma {:induction false} FeedIsWholeStream(chunks: seq<string>, n: nat, classify: string -> LineAction, deltaOf: string -> Option<string>)
    requires n <= |chunks|
    requires !Feed(chunks, n, classify, deltaOf).done
    ensures Feed(chunks, n, classify, deltaOf) == Drain(Concat(chunks[..n]), "", classify, deltaOf)
  {
    if n == 0 {
      assert Concat(chunks[..0]) == "";
    } else {
      FeedIsWholeStream(chunks, n - 1, classify, deltaOf);
      var whole := Concat(chunks[..n - 1]);
      ChunksCompose(whole, chunks[n - 1], "", classify, deltaOf);
      assert chunks[..n][..n - 1] == chunks[..n - 1];
      assert Concat(chunks[..n]) == whole + chunks[n - 1];
    }
  }

  /** The outer read loop over the chunks, proved to reach `Feed`'s state. */
  method ReadStream(chunks: seq<string>, classify: string -> LineAction, deltaOf: string -> Option<string>) returns (d: Drained)
    ensures d == Feed(chunks, |chunks|, classify, deltaOf)
  {
    var buffer := "";
    var content := "";
    var sawDone := false;
    var i := 0;
    while i < |chunks|
      invariant 0 <= i <= |chunks|
      invariant Drained(buffer, content, sawDone) == Feed(chunks, i, classify, deltaOf)
    {
      buffer := buffer + chunks[i];
      var done;
      buffer, content, done := DrainBuffer(buffer, content, classify, deltaOf);
      sawDone := sawDone || done;
      i := i + 1;
    }
    d := Drained(buffer, content, sawDone);
  }

  // ------------------------------------------------------------ errors

  /**
   * How the request ended. `SessionFailed` and `FetchFailed` are a rejected
   * `getSession` or `fetch` (offline, the browser's "Failed to fetch"),
   * with the error's message, or "Chyba při zpracování." when what was
   * thrown is not an `Error`.
   */
  datatype Outcome =
    | SessionFailed(message: string)
    | NoSession
    | FetchFailed(message: string)
    | HttpFailure(status: int)
    | NoBody
    | Streamed(chunks: seq<string>, readFailure: Option<string>)

  const TooManyRequests: string := "P\U{0159}\U{00ED}li\U{0161} mnoho po\U{017E}adavk\U{016F}."
  const CreditsExhausted: string := "Vy\U{010D}erp\U{00E1}ny AI kredity."
  const NotSignedIn: string := "Nep\U{0159}ihl\U{00E1}\U{0161}en."
  const NoResponseBody: string := "No response body"

  /** The message for a failed HTTP status: rate limit, exhausted credits, or the status itself. */
  function HttpErrorText(status: int, show: int -> string): (r: string)
    ensures status == 429 ==> r == TooManyRequests
    ensures status == 402 ==> r == CreditsExhausted
    ensures status != 429 && status != 402 ==> r == "Chyba AI (" + show(status) + ")"
  {
    if status == 429 then TooManyRequests
    else if status == 402 then CreditsExhausted
    else "Chyba AI (" + show(status) + ")"
  }

  /** The three kinds of HTTP failure give three different messages. */
  lemma HttpErrorsDistinct(other: int, show: int -> string)
    requires other != 429 && other != 402
    ensures HttpErrorText(429, show) != HttpErrorText(402, show)
    ensures HttpErrorText(other, show) != HttpErrorText(429, show)
    ensures HttpErrorText(other, show) != HttpErrorText(402, show)
  {
    var r := HttpErrorText(other, show);
    assert r[0] == 'C' && r[1] == 'h';
    assert TooManyRequests[0] == 'P';
    assert CreditsExhausted[1] == 'y';
  }

  /** An error shown in the chat, as an assistant message with a cross. */
  function ErrorMessage(text: string, now: int): Message
  {
    Message(AssistantRole, "\U{274C} " + text, Some(now))
  }

  /** The messages added after the question. */
  function Reply(outcome: Outcome, deltaOf: string -> Option<string>, show: int -> string, now: int): (r: seq<Message>)
    ensures |r| >= 1
    ensures outcome.SessionFailed? || outcome.FetchFailed? ==> r == [ErrorMessage(outcome.message, now)]
    ensures outcome.NoSession? ==> r == [ErrorMessage(NotSignedIn, now)]
    ensures outcome.HttpFailure? ==> r == [ErrorMessage(HttpErrorText(outcome.status, show), now)]
    ensures outcome.NoBody? ==> r == [ErrorMessage(NoResponseBody, now)]
    ensures outcome.Streamed? ==>
      r[0] == Message(AssistantRole, Feed(outcome.chunks, |outcome.chunks|, Classify, deltaOf).content, Some(now))
      && (outcome.readFailure.None? ==> |r| == 1)
      && (outcome.readFailure.Some? ==> r == [r[0], ErrorMessage(outcome.readFailure.value, now)])
  {
    match outcome
    case SessionFailed(message) => [ErrorMessage(message, now)]
    case NoSession => [ErrorMessage(NotSignedIn, now)]
    case FetchFailed(message) => [ErrorMessage(message, now)]
    case HttpFailure(status) => [ErrorMessage(HttpErrorText(status, show), now)]
    case NoBody => [ErrorMessage(NoResponseBody, now)]
    case Streamed(chunks, failure) =>
      [Message(AssistantRole, Feed(chunks, |chunks|, Classify, deltaOf).content, Some(now))]
      + (if failure.Some? then [ErrorMessage(failure.value, now)] else [])
  }

  /** The reply to a request: the error, or the streamed answer and a read error after it. */
  method Respond(outcome: Outcome, deltaOf: string -> Option<string>, show: int -> string, now: int)
    returns (reply: seq<Message>)
    ensures reply == Reply(outcome, deltaOf, show, now)
  {
    match outcome {
      case SessionFailed(message) =>
        reply := [ErrorMessage(message, now)];
      case NoSession =>
        reply := [ErrorMessage(NotSignedIn, now)];
      case FetchFailed(message) =>
        reply := [ErrorMessage(message, now)];
      case HttpFailure(status) =>
        reply := [ErrorMessage(HttpErrorText(status, show), now)];
      case NoBody =>
        reply := [ErrorMessage(NoResponseBody, now)];
      case Streamed(chunks, failure) =>
        var d := ReadStream(chunks, Classify, deltaOf);
        reply := [Message(AssistantRole, d.content, Some(now))];
        if failure.Some? {
          reply := reply + [ErrorMessage(failure.value, now)];
        }
    }
  }

  /** The question sent: the given text, or else the input, trimmed. */
  function Question(text: Option<string>, input: string): string
  {
    Trim(if TruthyText(text) then text.value else input)
  }

  /** The chat page's state. */
  class Chat {
    var messages: seq<Message>
    var input: string
    var loading: bool
    const loadedAt: int

    /** The page opens with the stored history or the greeting. */
    constructor (saved: Option<string>, parse: string -> Parsed, loadedAt: int)
      ensures messages == InitialHistory(saved, parse, loadedAt) && |messages| >= 1
      ensures input == "" && !loading && this.loadedAt == loadedAt
    {
      this.loadedAt := loadedAt;
      messages := InitialHistory(saved, parse, loadedAt);
      input := "";
      loading := false;
    }

    /**
     * `sendMessage` with the request's outcome as a parameter: nothing for
     * a blank question or while a request runs; otherwise the question is
     * added, the input cleared, and the reply or the error added after
     * it. `sent` is the history passed to the AI function.
     */
    method Send(text: Option<string>, outcome: Outcome, deltaOf: string -> Option<string>, show: int -> string, now: int)
      returns (sent: Option<seq<Message>>)
      modifies this
      ensures Question(text, old(input)) == "" || old(loading) ==>
        sent.None? && messages == old(messages) && input == old(input) && loading == old(loading)
      ensures Question(text, old(input)) != "" && !old(loading) ==>
        var asked := Message(UserRole, Question(text, old(input)), Some(now));
        messages == old(messages) + [asked] + Reply(outcome, deltaOf, show, now)
        && (outcome.SessionFailed? || outcome.NoSession? ==> sent.None?)
        && (!outcome.SessionFailed? && !outcome.NoSession? ==> sent == Some(old(messages) + [asked]))
        && input == "" && !loading
    {
      var question := Question(text, input);
      if question == "" || loading {
        return None;
      }
      var asked := Message(UserRole, question, Some(now));
      var history := messages;
      messages := messages + [asked];
      input := "";
      loading := true;
      sent := if outcome.SessionFailed? || outcome.NoSession? then None else Some(history + [asked]);
      var reply := Respond(outcome, deltaOf, show, now);
      messages := history + [asked] + reply;
      loading := false;
      assert messages == old(messages) + [asked] + Reply(outcome, deltaOf, show, now);
    }

    /** `clearChat`: the history is exactly the greeting again. */
    method ClearChat()
      modifies this
      ensures messages == [DefaultMessage(loadedAt)]
      ensures input == old(input) && loading == old(loading)
    {
      messages := [DefaultMessage(loadedAt)];
    }
  }
}
