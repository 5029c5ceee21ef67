/**
 * The chat box component of the DocuWhiZ client: its message list, the way a
 * question is sent with a placeholder for the reply, and the simulated
 * word-by-word streaming of the answer into that placeholder.
 *
 * React state and refs become one `View` value and each state update a
 * function from view to view; the 80 ms timer of the streaming becomes a loop
 * whose iterations are its ticks, and the callbacks it fires become the
 * events it emits.
 */
module ChatBox {
  import opened Wrappers
  import opened JsText

  datatype Sender = User | Docuwhiz

  datatype Message = Message(sender: Sender, text: string)

  /** The `messages`, `input` and `typing` state and the `hasShownWelcome` ref. */
  datatype View = View(messages: seq<Message>, input: string, typing: bool, hasShownWelcome: bool)

  const WelcomeMarker: string := "Welcome"
  const UploadedMarker: string := "PDF uploaded"
  const UploadFirstWarning: string := "\U{26A0}\U{FE0F} Please upload a PDF first."
  const FetchErrorText: string := "\U{26A0}\U{FE0F} Error fetching response. Try again later."

  /** The component as first rendered. */
  function InitialView(): (v: View)
    ensures v.messages == [] && v.input == "" && !v.typing && !v.hasShownWelcome
  {
    View([], "", false, false)
  }

  /** Some message's text contains `sub`. */
  predicate Mentions(messages: seq<Message>, sub: string) {
    exists j :: 0 <= j < |messages| && Includes(messages[j].text, sub)
  }

  // ---------------------------------------------------------------------------
  // The effect that runs when the `initialMessage` prop changes.

  /**
   * An empty message does nothing; a welcome resets the list to itself the
   * first time only; an "uploaded" notice is appended unless some message
   * already mentions an upload.
   */
  function OnInitialMessage(v: View, initial: string): (r: View)
    ensures r.input == v.input && r.typing == v.typing
    ensures initial == "" ==> r == v
  {
    if initial == "" then v
    else if Includes(initial, WelcomeMarker) && !v.hasShownWelcome then
      v.(messages := [Message(Docuwhiz, initial)], hasShownWelcome := true)
    else if Includes(initial, UploadedMarker) && !Mentions(v.messages, UploadedMarker) then
      v.(messages := v.messages + [Message(Docuwhiz, initial)])
    else v
  }

  /**
   * Once the welcome has been shown, no initial message clears the list: the
   * old messages stay in place and at most one is added.
   */
  lemma WelcomeShownOnce(v: View, initial: string)
    requires v.hasShownWelcome
    ensures var r := OnInitialMessage(v, initial);
      && r.hasShownWelcome
      && |v.messages| <= |r.messages| <= |v.messages| + 1
      && r.messages[..|v.messages|] == v.messages
  {
  }

  /** Once a message mentions an upload, the uploaded notice is never added again. */
  lemma UploadedNoticeOnce(v: View, initial: string)
    requires Mentions(v.messages, UploadedMarker)
    requires v.hasShownWelcome || !Includes(initial, WelcomeMarker)
    ensures OnInitialMessage(v, initial) == v
  {
  }

  /** The first welcome replaces the whole list by itself and is remembered. */
  lemma FirstWelcomeResets(v: View, initial: string)
    requires Includes(initial, WelcomeMarker) && !v.hasShownWelcome
    ensures OnInitialMessage(v, initial) == v.(messages := [Message(Docuwhiz, initial)], hasShownWelcome := true)
  {
  }

  /**
   * An uploaded notice that is not a first welcome is appended when no
   * message mentions an upload yet.
   */
  lemma UploadedNoticeAppended(v: View, initial: string)
    requires v.hasShownWelcome || !Includes(initial, WelcomeMarker)
    requires Includes(initial, UploadedMarker) && !Mentions(v.messages, UploadedMarker)
    ensures OnInitialMessage(v, initial) == v.(messages := v.messages + [Message(Docuwhiz, initial)])
  {
  }

  /**
   * A message that is neither a first welcome nor an uploaded notice leaves
   * the view as it is.
   */
  lemma OtherMessageIgnored(v: View, initial: string)
    requires v.hasShownWelcome || !Includes(initial, WelcomeMarker)
    requires !Includes(initial, UploadedMarker)
    ensures OnInitialMessage(v, initial) == v
  {
  }

  /** Running the effect again with the same message changes nothing more. */
  lemma InitialMessageIdempotent(v: View, initial: string)
    ensures OnInitialMessage(OnInitialMessage(v, initial), initial) == OnInitialMessage(v, initial)
  {
    var r := OnInitialMessage(v, initial);
    if initial != "" && Includes(initial, UploadedMarker) && r != v {
      assert r.messages[|r.messages| - 1].text == initial;
      assert Mentions(r.messages, UploadedMarker);
    }
  }

  // ---------------------------------------------------------------------------
  // Sending a question.

  /** The body posted to the chat endpoint. */
  datatype ChatRequest = ChatRequest(fileId: string, message: string)

  /** A request in flight and the index of the placeholder its answer fills. */
  datatype Pending = Pending(request: ChatRequest, placeholderIndex: nat)

  datatype SendResult = SendResult(view: View, pending: Option<Pending>)

  /** A file id the client treats as present (`null` and "" are falsy). */
  predicate HasFile(selectedFileId: Option<string>) {
    selectedFileId.Some? && selectedFileId.value != ""
  }

  /**
   * `sendMessage`: a whitespace-only input does nothing; without a file one
   * warning is appended; otherwise the question and an empty placeholder are
   * appended, the input is cleared, the typing indicator is turned on and the
   * trimmed question is posted with the placeholder's index.
   */
  function SendMessage(v: View, selectedFileId: Option<string>): (r: SendResult)
    ensures AllWhitespace(v.input) ==> r == SendResult(v, None)
    ensures !AllWhitespace(v.input) && !HasFile(selectedFileId) ==>
              r.pending == None
              && r.view == v.(messages := v.messages + [Message(Docuwhiz, UploadFirstWarning)])
    ensures !AllWhitespace(v.input) && HasFile(selectedFileId) ==>
              var question := Trim(v.input);
              && question != ""
              && r.view == v.(messages := v.messages + [Message(User, question), Message(Docuwhiz, "")],
                              input := "", typing := true)
              && r.pending == Some(Pending(ChatRequest(selectedFileId.value, question), |v.messages| + 1))
              && r.view.messages[r.pending.value.placeholderIndex] == Message(Docuwhiz, "")
  {
    var trimmed := Trim(v.input);
    if trimmed == "" then SendResult(v, None)
    else if !HasFile(selectedFileId) then
      SendResult(v.(messages := v.messages + [Message(Docuwhiz, UploadFirstWarning)]), None)
    else
      var placeholderIndex := |v.messages| + 1;
      var view := v.(messages := v.messages + [Message(User, trimmed), Message(Docuwhiz, "")], input := "", typing := true);
      SendResult(view, Some(Pending(ChatRequest(selectedFileId.value, trimmed), placeholderIndex)))
  }

  /** The `catch` branch: the indicator is turned off and an error message appended. */
  function OnRequestFailed(v: View): (r: View)
    ensures r.messages == v.messages + [Message(Docuwhiz, FetchErrorText)] && !r.typing
    ensures r.input == v.input && r.hasShownWelcome == v.hasShownWelcome
  {
    v.(typing := false, messages := v.messages + [Message(Docuwhiz, FetchErrorText)])
  }

  /**
   * The `onUpdate` callback: the entry at `index` gets `text` and keeps its
   * sender; every other entry and the length stay as they were.
   */
  function ReplaceText(messages: seq<Message>, index: int, text: string): (r: seq<Message>)
    ensures |r| == |messages|
    ensures forall j :: 0 <= j < |r| && j != index ==> r[j] == messages[j]
    ensures 0 <= index < |r| ==> r[index] == Message(messages[index].sender, text)
  {
    seq(|messages|, j requires 0 <= j < |messages| =>
      if j == index then messages[j].(text := text) else messages[j])
  }

  /** A later update of the same entry overrides an earlier one. */
  lemma ReplaceTextTwice(messages: seq<Message>, index: int, a: string, b: string)
    ensures ReplaceText(ReplaceText(messages, index, a), index, b) == ReplaceText(messages, index, b)
  {
  }

  // ---------------------------------------------------------------------------
  // Simulated streaming.

  /** The callbacks `simulateStreaming` fires, in the order it fires them. */
  datatype StreamEvent = Update(partial: string) | FirstChunk | Done

  /** `hasStarted` after `k` ticks: some partial so far was non-empty. */
  predicate Started(words: seq<string>, k: nat)
    requires k <= |words|
  {
    k > 0 && Join(words[..k], ' ') != ""
  }

  /** The callbacks of the tick that sees `index == k`. */
  function Tick(words: seq<string>, k: nat): (r: seq<StreamEvent>)
    requires k < |words|
  {
    var partial := Join(words[..k + 1], ' ');
    [Update(partial)] + (if !Started(words, k) && partial != "" then [FirstChunk] else [])
  }

  /** The callbacks of the first `k` ticks. */
  function Ticks(words: seq<string>, k: nat): (r: seq<StreamEvent>)
    requires k <= |words|
  {
    if k == 0 then [] else Ticks(words, k - 1) + Tick(words, k - 1)
  }

  /** What streaming `text` fires: one tick per word, then the final `onDone` tick. */
  function Stream(text: string): (r: seq<StreamEvent>) {
    var words := Split(text, ' ');
    Ticks(words, |words|) + [Done]
  }

  /** `hasStarted` never goes back to false, and holds from the second tick on. */
  lemma StartedMonotone(words: seq<string>, k: nat)
    requires k < |words|
    ensures Started(words, k) ==> Started(words, k + 1)
    ensures k > 0 ==> Started(words, k + 1)
  {
    assert words[..k + 1] == words[..k] + [words[k]];
    JoinSnoc(words[..k], words[k], ' ');
  }

  /**
   * `simulateStreaming`, one loop iteration per timer tick: while words remain
   * it fires `onUpdate` with the next word-prefix and, the first time that
   * prefix is non-empty, `onFirstChunk`; then it fires `onDone` and stops.
   */
  method SimulateStreaming(text: string) returns (events: seq<StreamEvent>)
    ensures events == Stream(text)
  {
    var words := Split(text, ' ');
    var index := 0;
    var hasStarted := false;
    var stopped := false;
    events := [];
    while !stopped
      invariant 0 <= index <= |words|
      invariant hasStarted == Started(words, index)
      invariant events == Ticks(words, index) + (if stopped then [Done] else [])
      invariant stopped ==> index == |words|
      decreases |words| - index, if stopped then 0 else 1
    {
      if index < |words| {
        var partial := Join(words[..index + 1], ' ');
        TickStep(words, index);
        var tick := [Update(partial)];
        if !hasStarted && |partial| > 0 {
          hasStarted := true;
          tick := tick + [FirstChunk];
        }
        events := events + tick;
        index := index + 1;
      } else {
        stopped := true;
        events := events + [Done];
      }
    }
  }

  /** One tick of the loop: `hasStarted` and the callbacks after `k + 1` ticks. */
  lemma TickStep(words: seq<string>, k: nat)
    requires k < |words|
    ensures var partial := Join(words[..k + 1], ' ');
      && Started(words, k + 1) == (Started(words, k) || |partial| > 0)
      && Ticks(words, k + 1) == Ticks(words, k) +
           [Update(partial)] + (if !Started(words, k) && |partial| > 0 then [FirstChunk] else [])
  {
    StartedMonotone(words, k);
  }

  /** The arguments of the `onUpdate` calls among `events`, in order. */
  function Partials(events: seq<StreamEvent>): (r: seq<string>) {
    if events == [] then []
    else (if events[0].Update? then [events[0].partial] else []) + Partials(events[1..])
  }

  lemma {:induction false} PartialsAppend(a: seq<StreamEvent>, b: seq<StreamEvent>)
    ensures Partials(a + b) == Partials(a) + Partials(b)
    decreases |a|
  {
    if a == [] {
      assert a + b == b;
    } else {
      assert (a + b)[0] == a[0];
      assert (a + b)[1..] == a[1..] + b;
      PartialsAppend(a[1..], b);
    }
  }

  /** The word-prefixes of `words`: the k-th (from 1) joins the first k words. */
  function WordPrefixes(words: seq<string>, n: nat): (r: seq<string>)
    requires n <= |words|
    ensures |r| == n
  {
    seq(n, k requires 0 <= k < n => Join(words[..k + 1], ' '))
  }

  lemma WordPrefixesSnoc(words: seq<string>, k: nat)
    requires 0 < k <= |words|
    ensures WordPrefixes(words, k) == WordPrefixes(words, k - 1) + [Join(words[..k], ' ')]
  {
    var a, b := WordPrefixes(words, k), WordPrefixes(words, k - 1) + [Join(words[..k], ' ')];
    assert forall j :: 0 <= j < k ==> a[j] == b[j];
  }

  lemma TickPartials(words: seq<string>, k: nat)
    requires k < |words|
    ensures Partials(Tick(words, k)) == [Join(words[..k + 1], ' ')]
  {
    var partial := Join(words[..k + 1], ' ');
    var tick := Tick(words, k);
    assert tick[0] == Update(partial);
    if tick == [Update(partial)] {
      assert tick[1..] == [];
    } else {
      assert tick == [Update(partial), FirstChunk];
      assert tick[1..] == [FirstChunk] && tick[1..][1..] == [];
      assert Partials(tick[1..]) == Partials(tick[1..][1..]) == [];
    }
  }

  lemma {:induction false} TicksPartials(words: seq<string>, k: nat)
    requires k <= |words|
    ensures Partials(Ticks(words, k)) == WordPrefixes(words, k)
  {
    if k > 0 {
      TicksPartials(words, k - 1);
      TickPartials(words, k - 1);
      PartialsAppend(Ticks(words, k - 1), Tick(words, k - 1));
      WordPrefixesSnoc(words, k);
    }
  }

  lemma TickFirstChunk(words: seq<string>, k: nat)
    requires k < |words|
    ensures multiset(Tick(words, k))[FirstChunk] == if !Started(words, k) && Started(words, k + 1) then 1 else 0
    ensures Done !in Tick(words, k)
  {
    var partial := Join(words[..k + 1], ' ');
    assert Started(words, k + 1) == (partial != "");
    if !Started(words, k) && partial != "" {
      assert Tick(words, k) == [Update(partial), FirstChunk];
    } else {
      assert Tick(words, k) == [Update(partial)];
    }
  }

  lemma {:induction false} TicksFirstChunks(words: seq<string>, k: nat)
    requires k <= |words|
    ensures multiset(Ticks(words, k))[FirstChunk] == if Started(words, k) then 1 else 0
    ensures Done !in Ticks(words, k)
  {
    if k > 0 {
      TicksFirstChunks(words, k - 1);
      StartedMonotone(words, k - 1);
      TickFirstChunk(words, k - 1);
      var before, tick := Ticks(words, k - 1), Tick(words, k - 1);
      assert Ticks(words, k) == before + tick;
      assert multiset(before + tick) == multiset(before) + multiset(tick);
    }
  }

  /** The k-th `onUpdate` call receives the first k words joined by single spaces. */
  lemma StreamUpdates(text: string)
    ensures var words := Split(text, ' ');
      Partials(Stream(text)) == WordPrefixes(words, |words|)
  {
    var words := Split(text, ' ');
    TicksPartials(words, |words|);
    PartialsAppend(Ticks(words, |words|), [Done]);
  }

  /** `onDone` fires exactly once, as the last callback. */
  lemma StreamDoneLast(text: string)
    ensures var s := Stream(text);
      s[|s| - 1] == Done && Done !in s[..|s| - 1]
  {
    var words := Split(text, ' ');
    var s := Stream(text);
    TicksFirstChunks(words, |words|);
    assert s[..|s| - 1] == Ticks(words, |words|);
  }

  /** The last `onUpdate` receives the whole text: split and join round-trip. */
  lemma StreamFinalPartial(text: string)
    ensures var ps := Partials(Stream(text));
      |ps| >= 1 && ps[|ps| - 1] == text
  {
    var words := Split(text, ' ');
    StreamUpdates(text);
    assert words[..|words|] == words;
    JoinSplit(text, ' ');
  }

  /** `onFirstChunk` fires once when the text is non-empty, and never for "". */
  lemma StreamFirstChunk(text: string)
    ensures multiset(Stream(text))[FirstChunk] == if text == "" then 0 else 1
  {
    var words := Split(text, ' ');
    var ticks := Ticks(words, |words|);
    TicksFirstChunks(words, |words|);
    JoinSplit(text, ' ');
    assert words[..|words|] == words;
    assert Started(words, |words|) <==> text != "";
    assert multiset(ticks + [Done]) == multiset(ticks) + multiset([Done]);
  }

  lemma {:induction false} StartedUpTo(words: seq<string>, a: nat, b: nat)
    requires a <= b <= |words|
    ensures Started(words, a) ==> Started(words, b)
    decreases b - a
  {
    if a < b {
      StartedMonotone(words, a);
      StartedUpTo(words, a + 1, b);
    }
  }

  predicate AllEmpty(ps: seq<string>) {
    forall j :: 0 <= j < |ps| ==> ps[j] == ""
  }

  lemma {:induction false} TicksFirstChunkPlacement(words: seq<string>, k: nat, i: nat)
    requires k <= |words|
    requires i < |Ticks(words, k)| && Ticks(words, k)[i] == FirstChunk
    ensures i > 0 && Ticks(words, k)[i - 1].Update? && Ticks(words, k)[i - 1].partial != ""
    ensures AllEmpty(Partials(Ticks(words, k)[..i - 1]))
  {
    var before, tick := Ticks(words, k - 1), Tick(words, k - 1);
    assert Ticks(words, k) == before + tick;
    if i < |before| {
      assert before[i] == FirstChunk;
      TicksFirstChunkPlacement(words, k - 1, i);
      assert Ticks(words, k)[..i - 1] == before[..i - 1];
    } else {
      var partial := Join(words[..k], ' ');
      assert tick[i - |before|] == FirstChunk;
      assert !Started(words, k - 1) && partial != "" && i == |before| + 1;
      assert Ticks(words, k)[..i - 1] == before;
      TicksPartials(words, k - 1);
      var prefixes := WordPrefixes(words, k - 1);
      forall j | 0 <= j < |prefixes| ensures prefixes[j] == "" {
        StartedUpTo(words, j + 1, k - 1);
      }
    }
  }

  /**
   * `onFirstChunk` fires right after the first `onUpdate` whose partial is
   * non-empty: every `onUpdate` before that one received "".
   */
  lemma StreamFirstChunkPlacement(text: string, i: nat)
    requires i < |Stream(text)| && Stream(text)[i] == FirstChunk
    ensures i > 0 && Stream(text)[i - 1].Update? && Stream(text)[i - 1].partial != ""
    ensures AllEmpty(Partials(Stream(text)[..i - 1]))
  {
    var words := Split(text, ' ');
    var ticks := Ticks(words, |words|);
    assert Stream(text) == ticks + [Done];
    assert i < |ticks|;
    TicksFirstChunkPlacement(words, |words|, i);
    assert Stream(text)[..i - 1] == ticks[..i - 1];
  }

  // ---------------------------------------------------------------------------
  // The callbacks `sendMessage` passes to the streaming, applied to the view.

  /**
   * One callback applied to the view: `onUpdate` rewrites the placeholder,
   * `onFirstChunk` turns the typing indicator off, `onDone` changes nothing.
   */
  function ApplyEvent(v: View, index: int, e: StreamEvent): (r: View)
    ensures r.input == v.input && r.hasShownWelcome == v.hasShownWelcome
    ensures |r.messages| == |v.messages|
    ensures r.typing == (v.typing && e != FirstChunk)
  {
    match e
    case Update(partial) => v.(messages := ReplaceText(v.messages, index, partial))
    case FirstChunk => v.(typing := false)
    case Done => v
  }

  /** The callbacks applied in the order they fire. */
  function ApplyStream(v: View, index: int, events: seq<StreamEvent>): (r: View)
    ensures r.input == v.input && r.hasShownWelcome == v.hasShownWelcome
    ensures |r.messages| == |v.messages|
    decreases |events|
  {
    if events == [] then v else ApplyStream(ApplyEvent(v, index, events[0]), index, events[1..])
  }

  /** The last partial among `events`, if any. */
  function LastPartial(events: seq<StreamEvent>): (r: Option<string>) {
    var ps := Partials(events);
    if ps == [] then None else Some(ps[|ps| - 1])
  }

  lemma LastPartialCons(events: seq<StreamEvent>)
    requires events != []
    ensures LastPartial(events) ==
      if LastPartial(events[1..]).Some? then LastPartial(events[1..])
      else if events[0].Update? then Some(events[0].partial)
      else None
  {
    var head := if events[0].Update? then [events[0].partial] else [];
    assert Partials(events) == head + Partials(events[1..]);
  }

  /** Applying a run of callbacks: only the last partial shows at `index`. */
  lemma {:induction false} ApplyStreamMessages(v: View, index: int, events: seq<StreamEvent>)
    ensures ApplyStream(v, index, events).messages ==
      match LastPartial(events)
      case None => v.messages
      case Some(p) => ReplaceText(v.messages, index, p)
    decreases |events|
  {
    if events != [] {
      var next := ApplyEvent(v, index, events[0]);
      ApplyStreamMessages(next, index, events[1..]);
      LastPartialCons(events);
      var later := LastPartial(events[1..]);
      if events[0].Update? && later.Some? {
        ReplaceTextTwice(v.messages, index, events[0].partial, later.value);
      }
    }
  }

  /**
   * Applying a run of callbacks: the typing indicator is off exactly when it
   * already was or `onFirstChunk` fired; nothing else but the list changes.
   */
  lemma {:induction false} ApplyStreamTyping(v: View, index: int, events: seq<StreamEvent>)
    ensures var r := ApplyStream(v, index, events);
      && r.typing == (v.typing && FirstChunk !in events)
      && r.input == v.input && r.hasShownWelcome == v.hasShownWelcome
    decreases |events|
  {
    if events != [] {
      ApplyStreamTyping(ApplyEvent(v, index, events[0]), index, events[1..]);
      assert events == [events[0]] + events[1..];
    }
  }

  /** The placeholder update on a list that ends in the placeholder. */
  lemma ReplaceLast(messages: seq<Message>, m: Message, text: string)
    ensures ReplaceText(messages + [m], |messages|, text) == messages + [m.(text := text)]
  {
    var a, b := ReplaceText(messages + [m], |messages|, text), messages + [m.(text := text)];
    assert forall j :: 0 <= j < |a| ==> a[j] == b[j];
  }

  /**
   * Streaming an answer into a placeholder at the end of the list leaves the
   * answer there; the indicator is turned off unless the answer is empty.
   */
  lemma StreamIntoPlaceholder(v: View, earlier: seq<Message>, answer: string)
    requires v.messages == earlier + [Message(Docuwhiz, "")]
    ensures var done := ApplyStream(v, |earlier|, Stream(answer));
      && done.messages == earlier + [Message(Docuwhiz, answer)]
      && done.typing == (v.typing && answer == "")
      && done.input == v.input && done.hasShownWelcome == v.hasShownWelcome
  {
    var s := Stream(answer);
    StreamFinalPartial(answer);
    assert LastPartial(s) == Some(answer);
    ApplyStreamMessages(v, |earlier|, s);
    ReplaceLast(earlier, Message(Docuwhiz, ""), answer);
    StreamFirstChunk(answer);
    assert FirstChunk in s <==> multiset(s)[FirstChunk] > 0;
    ApplyStreamTyping(v, |earlier|, s);
  }

  /**
   * A full turn: after a question is sent and the answer streamed into its
   * placeholder, the list holds the old messages, the question and the
   * answer; the indicator stays on when the answer is empty.
   */
  lemma SendThenStream(v: View, fileId: string, answer: string)
    requires !AllWhitespace(v.input) && fileId != ""
    ensures var sent := SendMessage(v, Some(fileId));
      var done := ApplyStream(sent.view, sent.pending.value.placeholderIndex, Stream(answer));
      && sent.pending.value.request == ChatRequest(fileId, Trim(v.input))
      && done.messages == v.messages + [Message(User, Trim(v.input)), Message(Docuwhiz, answer)]
      && done.input == ""
      && done.typing == (answer == "")
  {
    var sent := SendMessage(v, Some(fileId));
    var earlier := v.messages + [Message(User, Trim(v.input))];
    assert sent.view.messages == earlier + [Message(Docuwhiz, "")];
    assert sent.pending.value.placeholderIndex == |earlier|;
    StreamIntoPlaceholder(sent.view, earlier, answer);
    assert earlier + [Message(Docuwhiz, answer)] == v.messages + [Message(User, Trim(v.input)), Message(Docuwhiz, answer)];
  }

  /** A failed request leaves the empty placeholder and appends the error. */
  lemma SendThenFail(v: View, fileId: string)
    requires !AllWhitespace(v.input) && fileId != ""
    ensures var failed := OnRequestFailed(SendMessage(v, Some(fileId)).view);
      && failed.messages == v.messages + [Message(User, Trim(v.input)), Message(Docuwhiz, ""), Message(Docuwhiz, FetchErrorText)]
      && !failed.typing
  {
  }
}
