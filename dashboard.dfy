/**
  The dashboard's own state and its two actions, `generate` and `reset`.

  The state is the page's `useState` cells that these actions read or write.
  `generate` runs in two parts separated by the `await` of the generation
  call: `SubmitStep` is what happens at the click (the blank-notes check,
  the loading flag, the user's entry in the transcript, the request that is
  sent), `FinishStep` is what happens when the call settles (a new set or an
  error message, the assistant's entry, loading cleared). `GenerateStep` is
  the two run back to back. Other clicks, `reset` among them, may happen
  between the two parts; `FinishStep` is stated for any state it meets.

  Each step is a function on `State`; the class `DashboardPage` holds the
  same cells as fields and its methods update them in place, each proved to
  agree with its step function.
 */
module Dashboard {
  import opened Text
  import opened Cards
  import opened Response

  datatype Style = Balanced | Exam | Simple
  datatype Mode = Auto | Questions | ShortNotes

  datatype Role = User | Assistant
  /** One transcript entry. */
  datatype Msg = Msg(role: Role, content: string)

  /**
    The JSON body sent to the endpoint. The count is whatever `Number` made
    of the number input's text, so it may be fractional (and is 0 when the
    input is emptied); it is kept here as an exact real.
   */
  datatype Request = Request(notes: string, count: real, style: Style, mode: Mode)

  datatype State = State(
    notes: string,
    count: real,
    style: Style,
    mode: Mode,
    loading: bool,
    error: Option<string>,
    title: string,
    cards: seq<Flashcard>,
    messages: seq<Msg>)

  /** The state the page starts in. */
  const Initial: State := State("", 12.0, Balanced, Auto, false, None, DefaultTitle, [], [])

  const BlankNotesError: string := "Please paste your notes first."
  const FailureReply: string :=
    "I couldn't generate flashcards from that input. Try shorter notes or clearer headings."

  const ReplyLead: string := "Done. I created "

  /** The assistant's entry after a successful call. */
  function SuccessReply(count: nat, title: string): string {
    ReplyLead + Decimal(count) + " flashcards: \"" + title + "\". Tap a card to flip, copy, or export."
  }

  /** The success entry names the title and the card count, which reads back as the count. */
  lemma SuccessReplyMentions(count: nat, title: string)
    ensures IsInfix(title, SuccessReply(count, title))
    ensures SuccessReply(count, title)[|ReplyLead|..|ReplyLead| + |Decimal(count)|] == Decimal(count)
    ensures DigitsValue(Decimal(count)) == count
  {
    var r := SuccessReply(count, title);
    var a := ReplyLead + Decimal(count) + " flashcards: \"";
    var b := "\". Tap a card to flip, copy, or export.";
    assert r == a + title + b;
    InfixOfConcat(a, title, b);
    DecimalRoundTrip(count);
  }

  /** The state after the click, and the request sent if any. */
  datatype Submission = Submission(state: State, request: Option<Request>)

  /** `generate` up to its first `await`. */
  function SubmitStep(s: State): (r: Submission)
    ensures r.state.title == s.title && r.state.cards == s.cards
    ensures r.state.notes == s.notes && r.state.count == s.count
    ensures r.state.style == s.style && r.state.mode == s.mode
  {
    var clean := Trim(s.notes);
    if clean == [] then
      Submission(s.(error := Some(BlankNotesError)), None)
    else
      Submission(
        s.(error := None, loading := true, messages := s.messages + [Msg(User, clean)]),
        Some(Request(clean, s.count, s.style, s.mode)))
  }

  /**
    `generate` after the call settles: the title and the cards are replaced
    together by the normalised reply, or both kept; exactly one assistant
    entry is appended; loading ends false.
   */
  function FinishStep(s: State, o: Outcome): (r: State)
    ensures !r.loading
    ensures |r.messages| == |s.messages| + 1 && r.messages[..|s.messages|] == s.messages
    ensures r.messages[|s.messages|].role == Assistant
    ensures Interpret(o).Success? ==> r.title == Interpret(o).result.title && r.cards == Interpret(o).result.cards
    ensures Interpret(o).Failure? ==> r.title == s.title && r.cards == s.cards
    ensures r.notes == s.notes && r.count == s.count && r.style == s.style && r.mode == s.mode
  {
    match Interpret(o)
    case Success(g) =>
      s.(title := g.title, cards := g.cards, loading := false,
         messages := s.messages + [Msg(Assistant, SuccessReply(|g.cards|, g.title))])
    case Failure(m) =>
      s.(error := Some(m), loading := false,
         messages := s.messages + [Msg(Assistant, FailureReply)])
  }

  /** The whole of `generate`, with the call ending in `o`. */
  function GenerateStep(s: State, o: Outcome): State {
    var sub := SubmitStep(s);
    if sub.request.None? then sub.state else FinishStep(sub.state, o)
  }

  /** `reset`. */
  function ResetStep(s: State): State {
    s.(notes := "", cards := [], messages := [], error := None, title := DefaultTitle)
  }

  /**
    Notes that are only whitespace are refused before anything else: the
    error says so, no request is made, and nothing else changes.
   */
  lemma GenerateBlankNotes(s: State, o: Outcome)
    requires AllSpace(s.notes)
    ensures SubmitStep(s).request.None?
    ensures GenerateStep(s, o) == s.(error := Some(BlankNotesError))
  {
    TrimEmptyIff(s.notes);
  }

  /** Other notes are sent trimmed, with the count, style and mode of the moment. */
  lemma GenerateSendsTrimmedNotes(s: State)
    requires !AllSpace(s.notes)
    ensures SubmitStep(s).request == Some(Request(Trim(s.notes), s.count, s.style, s.mode))
    ensures Trim(s.notes) != []
    ensures SubmitStep(s).state.loading
  {
    TrimEmptyIff(s.notes);
  }

  /**
    A generate that sends a request grows the transcript by exactly two
    entries, the user's trimmed notes and then an assistant entry, and ends
    with loading cleared.
   */
  lemma GenerateTranscript(s: State, o: Outcome)
    requires !AllSpace(s.notes)
    ensures var r := GenerateStep(s, o);
      && |r.messages| == |s.messages| + 2
      && r.messages[..|s.messages|] == s.messages
      && r.messages[|s.messages|] == Msg(User, Trim(s.notes))
      && r.messages[|s.messages| + 1].role == Assistant
      && !r.loading
  {
    TrimEmptyIff(s.notes);
    var sub := SubmitStep(s);
    assert sub.state.messages == s.messages + [Msg(User, Trim(s.notes))];
    var r := FinishStep(sub.state, o);
    assert r.messages[..|s.messages|] == sub.state.messages[..|s.messages|];
  }

  /**
    On an `ok` reply the title and the cards are the normalised reply, the
    error stays cleared, and the assistant entry names the card count and
    the title.
   */
  lemma GenerateSuccess(s: State, b: Body)
    requires !AllSpace(s.notes)
    requires Nullish(b.title) || !Unconvertible(b.title.value)
    ensures var r := GenerateStep(s, Replied(true, b));
      && NormaliseTitle(b).Some?
      && r.title == NormaliseTitle(b).value
      && r.cards == NormaliseCards(b)
      && r.error == None
      && |r.messages| == |s.messages| + 2
      && r.messages[|s.messages| + 1] == Msg(Assistant, SuccessReply(|r.cards|, r.title))
  {
    TrimEmptyIff(s.notes);
    InterpretLenient(b);
  }

  /**
    On any other ending the title and the cards are untouched and the error
    is the failure's message: "Please log in again." without a token, the
    thrown message, the reply's `error` member or "Failed to generate", or
    the TypeError of a title or `error` member that cannot be converted.
   */
  lemma GenerateFailure(s: State, o: Outcome)
    requires !AllSpace(s.notes)
    requires !(o.Replied? && o.ok) || (!Nullish(o.body.title) && Unconvertible(o.body.title.value))
    ensures Interpret(o).Failure?
    ensures var r := GenerateStep(s, o);
      && r.title == s.title
      && r.cards == s.cards
      && r.error == Some(Interpret(o).message)
      && |r.messages| == |s.messages| + 2
      && r.messages[|s.messages| + 1] == Msg(Assistant, FailureReply)
  {
    TrimEmptyIff(s.notes);
    if o.Replied? && o.ok {
      InterpretLenient(o.body);
    }
  }

  /** Reset clears the notes, the set, the transcript and the error, and keeps the rest. */
  lemma ResetClears(s: State)
    ensures var r := ResetStep(s);
      && r.notes == "" && r.cards == [] && r.messages == [] && r.error == None && r.title == DefaultTitle
      && r.count == s.count && r.style == s.style && r.mode == s.mode && r.loading == s.loading
  {
  }

  lemma ResetIdempotent(s: State)
    ensures ResetStep(ResetStep(s)) == ResetStep(s)
  {
  }

  /** What the user does on the page between two resets. */
  datatype Action =
    | EditNotes(text: string)
    | EditCount(n: real)
    | EditStyle(st: Style)
    | EditMode(m: Mode)
    | Generate(outcome: Outcome)
    | Reset

  function Apply(s: State, a: Action): State {
    match a
    case EditNotes(text) => s.(notes := text)
    case EditCount(n) => s.(count := n)
    case EditStyle(st) => s.(style := st)
    case EditMode(m) => s.(mode := m)
    case Generate(o) => GenerateStep(s, o)
    case Reset => ResetStep(s)
  }

  function Run(s: State, actions: seq<Action>): State
    decreases |actions|
  {
    if actions == [] then s else Run(Apply(s, actions[0]), actions[1..])
  }

  /**
    Loading never outlasts a generate, and the count, the style and the mode
    change only through their own inputs: generating and resetting leave
    them as they were.
   */
  lemma {:induction false} RunKeepsSettings(s: State, actions: seq<Action>)
    requires !s.loading
    ensures !Run(s, actions).loading
    ensures (forall i :: 0 <= i < |actions| ==> !actions[i].EditCount?) ==> Run(s, actions).count == s.count
    ensures (forall i :: 0 <= i < |actions| ==> !actions[i].EditStyle?) ==> Run(s, actions).style == s.style
    ensures (forall i :: 0 <= i < |actions| ==> !actions[i].EditMode?) ==> Run(s, actions).mode == s.mode
    decreases |actions|
  {
    if actions != [] {
      var s' := Apply(s, actions[0]);
      assert !s'.loading;
      RunKeepsSettings(s', actions[1..]);
      assert forall i :: 1 <= i < |actions| ==> actions[1..][i - 1] == actions[i];
    }
  }

  /**
    After any session started outside a generate, `reset` brings the page
    back to its initial state except for the count, the style and the mode,
    which keep their last values; a session that never edits them resets to
    what resetting at its start gives, and from `Initial` to `Initial`
    exactly.
   */
  lemma ResetAfterSession(s: State, actions: seq<Action>)
    requires !s.loading
    ensures var r := Run(s, actions);
      ResetStep(r) == Initial.(count := r.count, style := r.style, mode := r.mode)
    ensures (forall i :: 0 <= i < |actions| ==> actions[i].EditNotes? || actions[i].Generate? || actions[i].Reset?) ==>
      ResetStep(Run(s, actions)) == ResetStep(s)
    ensures s == Initial && (forall i :: 0 <= i < |actions| ==> actions[i].EditNotes? || actions[i].Generate? || actions[i].Reset?) ==>
      ResetStep(Run(s, actions)) == Initial
  {
    var r := Run(s, actions);
    RunKeepsSettings(s, actions);
    ResetOfIdle(r);
    ResetOfIdle(s);
  }

  /** Outside a generate, reset leaves only the count, the style and the mode of what it found. */
  lemma ResetOfIdle(s: State)
    requires !s.loading
    ensures ResetStep(s) == Initial.(count := s.count, style := s.style, mode := s.mode)
  {
  }

  /** The page's state cells, updated in place by its event handlers. */
  class DashboardPage {
    var notes: string
    var count: real
    var style: Style
    var mode: Mode
    var loading: bool
    var error: Option<string>
    var title: string
    var cards: seq<Flashcard>
    var messages: seq<Msg>

    function Snapshot(): State
      reads this
    {
      State(notes, count, style, mode, loading, error, title, cards, messages)
    }

    constructor ()
      ensures Snapshot() == Initial
    {
      notes, count, style, mode := "", 12.0, Balanced, Auto;
      loading, error := false, None;
      title, cards, messages := DefaultTitle, [], [];
    }

    /** The notes text area's `onChange`. */
    method EditNotes(text: string)
      modifies this
      ensures Snapshot() == old(Snapshot()).(notes := text)
    {
      notes := text;
    }

    /** The card-count input's `onChange`; the bounds 3..50 are only input hints and are not enforced. */
    method EditCount(n: real)
      modifies this
      ensures Snapshot() == old(Snapshot()).(count := n)
    {
      count := n;
    }

    method EditStyle(st: Style)
      modifies this
      ensures Snapshot() == old(Snapshot()).(style := st)
    {
      style := st;
    }

    method EditMode(m: Mode)
      modifies this
      ensures Snapshot() == old(Snapshot()).(mode := m)
    {
      mode := m;
    }

    /** `generate` up to its first `await`; returns the request sent, if any. */
    method Submit() returns (request: Option<Request>)
      modifies this
      ensures Snapshot() == SubmitStep(old(Snapshot())).state
      ensures request == SubmitStep(old(Snapshot())).request
    {
      ghost var s := Snapshot();
      error := None;
      var clean := Trim(notes);
      if clean == [] {
        error := Some(BlankNotesError);
        assert Snapshot() == s.(error := Some(BlankNotesError));
        return None;
      }
      loading := true;
      messages := messages + [Msg(User, clean)];
      request := Some(Request(clean, count, style, mode));
      assert Snapshot() == s.(error := None, loading := true, messages := s.messages + [Msg(User, clean)]);
    }

    /** `generate` after the call settles with `o`. */
    method Finish(o: Outcome)
      modifies this
      ensures Snapshot() == FinishStep(old(Snapshot()), o)
    {
      match Interpret(o) {
        case Success(g) =>
          title := g.title;
          cards := g.cards;
          messages := messages + [Msg(Assistant, SuccessReply(|g.cards|, g.title))];
        case Failure(m) =>
          error := Some(m);
          messages := messages + [Msg(Assistant, FailureReply)];
      }
      loading := false;
    }

    /** The whole of `generate`, the call ending in `o`. */
    method Generate(o: Outcome) returns (request: Option<Request>)
      modifies this
      ensures Snapshot() == GenerateStep(old(Snapshot()), o)
      ensures request == SubmitStep(old(Snapshot())).request
    {
      request := Submit();
      if request.Some? {
        Finish(o);
      }
    }

    /** The "New" button. */
    method Reset()
      modifies this
      ensures Snapshot() == ResetStep(old(Snapshot()))
    {
      notes := "";
      cards := [];
      messages := [];
      error := None;
      title := DefaultTitle;
    }
  }
}
